/** The helpers of src/utils.ts: identifier escaping, record filtering,
    list merging and key extraction. Like the TypeScript, the record and list
    helpers are generic in the element type. */
module Utils {
  import opened Wrappers

  /** The exceptions the helpers throw. */
  datatype Error =
    | InvalidIdentifier(identifier: string)  // escapeIdentifier: a quote survives unwrapping
    | EmptyObjectList                        // extractKeys: no objects at all
    | KeyMismatch                            // extractKeys: key sets differ

  // ---------------------------------------------------------------------------
  // Records

  /** The keys of an entry list are pairwise distinct. */
  predicate KeysDistinct<V>(entries: seq<(string, V)>) {
    forall i, j :: 0 <= i < j < |entries| ==> entries[i].0 != entries[j].0
  }

  /** A JavaScript object: its own enumerable entries, in property order, with distinct keys. */
  type Record<V> = entries: seq<(string, V)> | KeysDistinct(entries)

  /** `Object.keys`: the keys in entry order. */
  function Keys<V>(entries: seq<(string, V)>): (ks: seq<string>)
    ensures |ks| == |entries|
    ensures forall i :: 0 <= i < |entries| ==> ks[i] == entries[i].0
  {
    seq(|entries|, i requires 0 <= i < |entries| => entries[i].0)
  }

  /** The set of keys, for comparing key sets regardless of order. */
  function KeySet<V>(entries: seq<(string, V)>): set<string> {
    set i | 0 <= i < |entries| :: entries[i].0
  }

  // ---------------------------------------------------------------------------
  // escapeIdentifier

  /** The identifier with one surrounding pair of double quotes removed, the way
      `charAt`/`substr` do it: a lone `"` unwraps to the empty string. */
  function Unquote(identifier: string): (s: string)
    ensures |identifier| >= 2 && identifier[0] == '"' && identifier[|identifier| - 1] == '"' ==>
              "\"" + s + "\"" == identifier
    ensures identifier == "\"" ==> s == ""
    ensures !(|identifier| > 0 && identifier[0] == '"' && identifier[|identifier| - 1] == '"') ==> s == identifier
  {
    if |identifier| > 0 && identifier[0] == '"' && identifier[|identifier| - 1] == '"' then
      if |identifier| == 1 then "" else identifier[1..|identifier| - 1]
    else
      identifier
  }

  /** An identifier escapeIdentifier accepts: no quote is left once it is unwrapped. */
  predicate Escapable(identifier: string) {
    '"' !in Unquote(identifier)
  }

  /** Quote an identifier, rejecting one that still holds a quote after unwrapping. */
  function EscapeIdentifier(identifier: string): (r: Result<string, Error>)
    ensures r.Success? <==> Escapable(identifier)
    ensures r.Failure? ==> r.error == InvalidIdentifier(Unquote(identifier))
  {
    var inner := Unquote(identifier);
    if '"' in inner then Failure(InvalidIdentifier(inner)) else Success("\"" + inner + "\"")
  }

  /** An escaped identifier is quoted, holds no other quote, and wraps the unwrapped input. */
  lemma EscapeQuotes(identifier: string)
    requires Escapable(identifier)
    ensures var r := EscapeIdentifier(identifier).value;
            && |r| >= 2 && r[0] == '"' && r[|r| - 1] == '"'
            && (forall i :: 0 < i < |r| - 1 ==> r[i] != '"')
            && r[1..|r| - 1] == Unquote(identifier)
  {
    var r := EscapeIdentifier(identifier).value;
    assert r[1..|r| - 1] == Unquote(identifier);
  }

  /** An identifier that was not wrapped in quotes is kept as it is inside the quotes. */
  lemma UnquoteUnwrapped(identifier: string)
    requires |identifier| == 0 || identifier[0] != '"' || identifier[|identifier| - 1] != '"'
    ensures Unquote(identifier) == identifier
  {
  }

  /** A wrapped identifier `"x"` unwraps to `x`. */
  lemma UnquoteWrapped(inner: string)
    ensures Unquote("\"" + inner + "\"") == inner
  {
    var s := "\"" + inner + "\"";
    assert s[1..|s| - 1] == inner;
  }

  /** An identifier without quotes is simply wrapped in quotes. */
  lemma EscapeUnquoted(identifier: string)
    requires '"' !in identifier
    ensures EscapeIdentifier(identifier) == Success("\"" + identifier + "\"")
  {
    if |identifier| > 0 {
      assert identifier[0] in identifier;
    }
  }

  /** Escaping an escaped identifier changes nothing. */
  lemma EscapeIdempotent(identifier: string)
    requires EscapeIdentifier(identifier).Success?
    ensures EscapeIdentifier(EscapeIdentifier(identifier).value) == EscapeIdentifier(identifier)
  {
    UnquoteWrapped(Unquote(identifier));
  }

  /** The cases of test/utils.test.ts and the two `charAt`/`substr` edge cases. */
  lemma EscapeExamples()
    ensures EscapeIdentifier("column") == Success("\"column\"")
    ensures EscapeIdentifier("\"column\"") == Success("\"column\"")
    ensures EscapeIdentifier("a\"b").Failure?
    ensures EscapeIdentifier("\"") == Success("\"\"")
    ensures EscapeIdentifier("") == Success("\"\"")
  {
    UnquoteWrapped("column");
    assert Unquote("column") == "column";
    assert '"' !in "column";
    assert "\"" + "column" + "\"" == "\"column\"";
    assert '"' !in "" && "\"" + "" + "\"" == "\"\"";
    assert Unquote("a\"b") == "a\"b" && "a\"b"[1] == '"';
    assert Unquote("\"") == "";
    assert Unquote("") == "";
  }

  // ---------------------------------------------------------------------------
  // filterUndefined

  /** The entries whose value is not `undefined` (the sentinel of V passed in), in order. */
  function FilterUndefined<V(==)>(entries: seq<(string, V)>, undefined: V): (r: seq<(string, V)>)
    ensures |r| <= |entries|
  {
    if entries == [] then []
    else if entries[0].1 == undefined then FilterUndefined(entries[1..], undefined)
    else [entries[0]] + FilterUndefined(entries[1..], undefined)
  }

  /** Filtering keeps exactly the entries whose value is not `undefined`: every kept
      entry is one of the input's, and every defined entry of the input is kept. */
  lemma {:induction false} FilterMembers<V>(entries: seq<(string, V)>, undefined: V)
    ensures forall i :: 0 <= i < |FilterUndefined(entries, undefined)| ==>
              FilterUndefined(entries, undefined)[i] in entries && FilterUndefined(entries, undefined)[i].1 != undefined
    ensures forall i :: 0 <= i < |entries| && entries[i].1 != undefined ==> entries[i] in FilterUndefined(entries, undefined)
  {
    if entries != [] {
      var tail := entries[1..];
      FilterMembers(tail, undefined);
      forall i | 0 < i < |entries| ensures entries[i] == tail[i - 1] {
      }
      var r, rest := FilterUndefined(entries, undefined), FilterUndefined(tail, undefined);
      assert r == if entries[0].1 == undefined then rest else [entries[0]] + rest;
      forall i | 0 <= i < |r| ensures r[i] in entries && r[i].1 != undefined {
        if entries[0].1 != undefined && i == 0 {
          assert r[i] == entries[0];
        } else {
          var k := if entries[0].1 == undefined then i else i - 1;
          assert r[i] == rest[k] && rest[k] in tail;
          var m :| 0 <= m < |tail| && tail[m] == rest[k];
          assert entries[m + 1] == tail[m];
        }
      }
    }
  }

  /** Filtering distributes over concatenation: it keeps the surviving entries in their order. */
  lemma {:induction false} FilterAppend<V>(a: seq<(string, V)>, b: seq<(string, V)>, undefined: V)
    ensures FilterUndefined(a + b, undefined) == FilterUndefined(a, undefined) + FilterUndefined(b, undefined)
  {
    if a == [] {
      assert a + b == b;
    } else {
      assert (a + b)[0] == a[0];
      assert (a + b)[1..] == a[1..] + b;
      FilterAppend(a[1..], b, undefined);
    }
  }

  /** Filtering an entry in front of others: it is kept unless its value is `undefined`,
      and the others are filtered on. */
  lemma FilterCons<V>(e: (string, V), rest: seq<(string, V)>, undefined: V)
    ensures FilterUndefined([e] + rest, undefined) == (if e.1 == undefined then [] else [e]) + FilterUndefined(rest, undefined)
  {
    assert ([e] + rest)[1..] == rest;
  }

  /** Filtering a single entry drops it exactly when its value is `undefined`. */
  lemma FilterSingle<V>(e: (string, V), undefined: V)
    ensures FilterUndefined([e], undefined) == if e.1 == undefined then [] else [e]
  {
  }

  /** Every key of the filtered list is a key of the input. */
  lemma {:induction false} FilterKeys<V>(entries: seq<(string, V)>, undefined: V)
    ensures KeySet(FilterUndefined(entries, undefined)) <= KeySet(entries)
  {
    var r := FilterUndefined(entries, undefined);
    forall k | k in KeySet(r) ensures k in KeySet(entries) {
      var i :| 0 <= i < |r| && r[i].0 == k;
      FilterMembers(entries, undefined);
      assert r[i] in entries;
    }
  }

  /** The filtered list of a record is again a record. */
  lemma {:induction false} FilterKeepsDistinct<V>(entries: seq<(string, V)>, undefined: V)
    requires KeysDistinct(entries)
    ensures KeysDistinct(FilterUndefined(entries, undefined))
  {
    if entries != [] {
      FilterKeepsDistinct(entries[1..], undefined);
      FilterKeys(entries[1..], undefined);
      var rest := FilterUndefined(entries[1..], undefined);
      if entries[0].1 != undefined {
        forall j | 0 <= j < |rest| ensures rest[j].0 != entries[0].0 {
          assert rest[j].0 in KeySet(entries[1..]);
        }
      }
    }
  }

  /** filterUndefined on a record. */
  function FilterRecord<V(==)>(record: Record<V>, undefined: V): (r: Record<V>)
    ensures r == FilterUndefined(record, undefined)
  {
    FilterKeepsDistinct(record, undefined);
    FilterUndefined(record, undefined)
  }

  // ---------------------------------------------------------------------------
  // mergeLists

  /** The alternating merge `a[0], b[0], a[1], b[1], ...`, then the longer list's tail. */
  function Interleave<T>(a: seq<T>, b: seq<T>): (r: seq<T>)
    ensures |r| == |a| + |b|
  {
    if a == [] then b
    else if b == [] then a
    else [a[0], b[0]] + Interleave(a[1..], b[1..])
  }

  /** The merge of two non-empty lists starts with their heads, `a`'s first. */
  lemma InterleaveCons<T>(a: seq<T>, b: seq<T>)
    requires a != [] && b != []
    ensures Interleave(a, b) == [a[0]] + ([b[0]] + Interleave(a[1..], b[1..]))
  {
    assert [a[0], b[0]] + Interleave(a[1..], b[1..]) == [a[0]] + ([b[0]] + Interleave(a[1..], b[1..]));
  }

  /** While both lists last, the merge alternates: position `2j` holds `a[j]`, position `2j+1` holds `b[j]`. */
  lemma {:induction false} InterleavePairs<T>(a: seq<T>, b: seq<T>, j: nat)
    requires j < |a| && j < |b|
    ensures Interleave(a, b)[2 * j] == a[j]
    ensures Interleave(a, b)[2 * j + 1] == b[j]
  {
    if j > 0 {
      InterleavePairs(a[1..], b[1..], j - 1);
      assert Interleave(a, b) == [a[0], b[0]] + Interleave(a[1..], b[1..]);
    }
  }

  /** Once the shorter list `b` is used up, the merge continues with the rest of `a`. */
  lemma {:induction false} InterleaveTailLeft<T>(a: seq<T>, b: seq<T>, k: nat)
    requires |b| <= |a| && 2 * |b| <= k < |a| + |b|
    ensures Interleave(a, b)[k] == a[k - |b|]
  {
    if b != [] {
      InterleaveTailLeft(a[1..], b[1..], k - 2);
      assert Interleave(a, b) == [a[0], b[0]] + Interleave(a[1..], b[1..]);
    }
  }

  /** Once the shorter list `a` is used up, the merge continues with the rest of `b`. */
  lemma {:induction false} InterleaveTailRight<T>(a: seq<T>, b: seq<T>, k: nat)
    requires |a| <= |b| && 2 * |a| <= k < |a| + |b|
    ensures Interleave(a, b)[k] == b[k - |a|]
  {
    if a != [] {
      InterleaveTailRight(a[1..], b[1..], k - 2);
      assert Interleave(a, b) == [a[0], b[0]] + Interleave(a[1..], b[1..]);
    }
  }

  /** The template case `|a| == |b| + 1`: the merge starts and ends with elements of
      `a`, and even positions hold `a`, odd positions `b`. */
  lemma TemplateInterleave<T>(a: seq<T>, b: seq<T>)
    requires |a| == |b| + 1
    ensures |Interleave(a, b)| == 2 * |b| + 1
    ensures forall j :: 0 <= j < |a| ==> Interleave(a, b)[2 * j] == a[j]
    ensures forall j :: 0 <= j < |b| ==> Interleave(a, b)[2 * j + 1] == b[j]
    ensures Interleave(a, b)[0] == a[0] && Interleave(a, b)[2 * |b|] == a[|a| - 1]
  {
    forall j | 0 <= j < |a| ensures Interleave(a, b)[2 * j] == a[j] {
      if j < |b| {
        InterleavePairs(a, b, j);
      } else {
        InterleaveTailLeft(a, b, 2 * j);
      }
    }
    forall j | 0 <= j < |b| ensures Interleave(a, b)[2 * j + 1] == b[j] {
      InterleavePairs(a, b, j);
    }
  }

  /** `s` without its first `i` elements, or empty once `i` runs past its end. */
  function Drop<T>(s: seq<T>, i: nat): seq<T> {
    if i <= |s| then s[i..] else []
  }

  /** One round of the merge loop: element `i` of each list that still has one. */
  lemma InterleaveStep<T>(a: seq<T>, b: seq<T>, i: nat)
    requires i < |a| || i < |b|
    ensures Interleave(Drop(a, i), Drop(b, i)) == Round(a, b, i) + Interleave(Drop(a, i + 1), Drop(b, i + 1))
  {
    if i < |a| && i < |b| {
      assert Drop(a, i)[1..] == Drop(a, i + 1);
      assert Drop(b, i)[1..] == Drop(b, i + 1);
    } else if i < |a| {
      assert Drop(a, i) == [a[i]] + Drop(a, i + 1);
    } else {
      assert Drop(b, i) == [b[i]] + Drop(b, i + 1);
    }
  }

  /** The elements one round of the merge loop pushes at index `i`. */
  function Round<T>(a: seq<T>, b: seq<T>, i: nat): seq<T> {
    (if i < |a| then [a[i]] else []) + (if i < |b| then [b[i]] else [])
  }

  /** After round `i`, what is merged plus what is left is still the whole merge. */
  lemma RoundKeepsMerge<T>(done: seq<T>, a: seq<T>, b: seq<T>, i: nat)
    requires i < |a| || i < |b|
    requires done + Interleave(Drop(a, i), Drop(b, i)) == Interleave(a, b)
    ensures (done + Round(a, b, i)) + Interleave(Drop(a, i + 1), Drop(b, i + 1)) == Interleave(a, b)
  {
    InterleaveStep(a, b, i);
  }

  /** Pushing `a[i]` if present and then `b[i]` if present appends one round. */
  lemma RoundPushes<T>(done: seq<T>, a: seq<T>, b: seq<T>, i: nat)
    ensures var first := if i < |a| then done + [a[i]] else done;
            (if i < |b| then first + [b[i]] else first) == done + Round(a, b, i)
  {
    if i < |a| && i < |b| {
      assert done + [a[i]] + [b[i]] == done + ([a[i]] + [b[i]]);
    }
  }

  /** mergeLists: grows `result` by pushing `list1[i]` and then `list2[i]` for each index. */
  method MergeLists<T>(list1: seq<T>, list2: seq<T>) returns (result: seq<T>)
    ensures result == Interleave(list1, list2)
  {
    result := [];
    var n := if |list1| < |list2| then |list2| else |list1|;
    for i := 0 to n
      invariant result + Interleave(Drop(list1, i), Drop(list2, i)) == Interleave(list1, list2)
    {
      RoundKeepsMerge(result, list1, list2, i);
      ghost var before := result;
      if i < |list1| {
        result := result + [list1[i]];
      }
      if i < |list2| {
        result := result + [list2[i]];
      }
      RoundPushes(before, list1, list2, i);
    }
    assert Drop(list1, n) == [] && Drop(list2, n) == [];
    assert result + [] == result;
  }

  /** The cases of test/utils.test.ts. */
  lemma MergeExamples()
    ensures Interleave<int>([], []) == []
    ensures Interleave([1], []) == [1] && Interleave([], [1]) == [1]
    ensures Interleave([1, 2, 3], [4, 5, 6]) == [1, 4, 2, 5, 3, 6]
    ensures Interleave([1, 2, 3], [4, 5, 6, 7, 8]) == [1, 4, 2, 5, 3, 6, 7, 8]
    ensures Interleave([1, 2, 3, 4, 5], [6, 7, 8]) == [1, 6, 2, 7, 3, 8, 4, 5]
  {
    assert [1, 2, 3][1..] == [2, 3] && [2, 3][1..] == [3];
    assert [4, 5, 6][1..] == [5, 6] && [5, 6][1..] == [6];
    assert [4, 5, 6, 7, 8][1..] == [5, 6, 7, 8] && [5, 6, 7, 8][1..] == [6, 7, 8] && [6, 7, 8][1..] == [7, 8];
    assert [1, 2, 3, 4, 5][1..] == [2, 3, 4, 5] && [2, 3, 4, 5][1..] == [3, 4, 5] && [3, 4, 5][1..] == [4, 5];
    assert [6, 7, 8][1..] == [7, 8] && [7, 8][1..] == [8];
  }

  // ---------------------------------------------------------------------------
  // extractKeys

  /** extractKeys: the first object's keys, after checking that every object has
      as many keys as the first and no key the first lacks. */
  function ExtractKeys<V>(objects: seq<Record<V>>): (r: Result<seq<string>, Error>)
    ensures objects == [] <==> r == Failure(EmptyObjectList)
    ensures r.Success? ==> r.value == Keys(objects[0])
  {
    if |objects| == 0 then Failure(EmptyObjectList)
    else
      var keys := Keys(objects[0]);
      if forall i | 0 <= i < |objects| ::
           |objects[i]| == |keys| && forall j | 0 <= j < |objects[i]| :: objects[i][j].0 in keys
      then Success(keys)
      else Failure(KeyMismatch)
  }

  /** A record has as many distinct keys as entries. */
  lemma {:induction false} KeySetSize<V>(entries: seq<(string, V)>)
    requires KeysDistinct(entries)
    ensures |KeySet(entries)| == |entries|
  {
    if entries != [] {
      var rest := entries[1..];
      KeySetSize(rest);
      assert KeySet(entries) == {entries[0].0} + KeySet(rest) by {
        forall k | k in KeySet(entries) ensures k in {entries[0].0} + KeySet(rest) {
          var i :| 0 <= i < |entries| && entries[i].0 == k;
          if i > 0 { assert rest[i - 1].0 == k; }
        }
      }
      assert entries[0].0 !in KeySet(rest);
    }
  }

  /** A subset as large as a finite set is that set. */
  lemma SubsetOfSameSize<T>(a: set<T>, b: set<T>)
    requires a <= b && |a| == |b|
    ensures a == b
  {
    assert b == a + (b - a);
    assert a * (b - a) == {};
    assert |b| == |a| + |b - a|;
    assert b - a == {};
  }

  /** extractKeys succeeds exactly when every object has the first one's key set, and
      it fails on each shape of test/utils.test.ts: a missing key, an extra key, a different key. */
  lemma ExtractKeysChecksKeySets<V>(objects: seq<Record<V>>)
    ensures ExtractKeys(objects).Success? <==>
              objects != [] && forall i :: 0 <= i < |objects| ==> KeySet(objects[i]) == KeySet(objects[0])
  {
    if objects != [] {
      var keys := Keys(objects[0]);
      assert KeySet(objects[0]) == set k | k in keys;
      KeySetSize(objects[0]);
      if ExtractKeys(objects).Success? {
        forall i | 0 <= i < |objects| ensures KeySet(objects[i]) == KeySet(objects[0]) {
          KeySetSize(objects[i]);
          assert KeySet(objects[i]) <= KeySet(objects[0]) by {
            forall k | k in KeySet(objects[i]) ensures k in KeySet(objects[0]) {
              var j :| 0 <= j < |objects[i]| && objects[i][j].0 == k;
              assert k in keys;
            }
          }
          SubsetOfSameSize(KeySet(objects[i]), KeySet(objects[0]));
        }
      }
      if forall i :: 0 <= i < |objects| ==> KeySet(objects[i]) == KeySet(objects[0]) {
        forall i | 0 <= i < |objects|
          ensures |objects[i]| == |keys| && forall j | 0 <= j < |objects[i]| :: objects[i][j].0 in keys
        {
          KeySetSize(objects[i]);
          forall j | 0 <= j < |objects[i]| ensures objects[i][j].0 in keys {
            assert objects[i][j].0 in KeySet(objects[i]);
          }
        }
      }
    }
  }
}
