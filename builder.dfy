/** The fragment builders of src/sql/builder.ts. A builder is SQL text plus the
    values it binds; placeholder numbers are assigned only when the builder is
    rendered, from the "next parameter id" it is given. The closures of the
    TypeScript become the constructors of `Builder`, `buildFragment` becomes
    `Render`, and the `$type` symbol check of `isSqlBuilder` becomes the case
    split of `Arg`. */
module SqlBuilder {
  import opened Numerals

  /** A JavaScript value that can be bound to a placeholder. `Undefined` and
      `Null` are different values. */
  datatype Value = Undefined | Null | Bool(b: bool) | Number(n: int) | Str(s: string)

  datatype Builder =
    | Raw(text: string)                                  // rawSqlBuilder
    | Param(value: Value)                                // paramSqlBuilder
    | Join(parts: seq<Builder>, delimiter: string)       // joinSql
    | Wrap(prefix: string, inner: Builder, suffix: string) // transformSql(b, t => prefix + t + suffix)

  /** A template interpolation or record value: a plain value, or a builder. */
  datatype Arg = Plain(value: Value) | Fragment(builder: Builder)

  /** QueryConfig: the rendered text and the values in placeholder order. */
  datatype Query = Query(text: string, values: seq<Value>)

  /** The placeholder text for parameter id `id`. */
  function Placeholder(id: nat): string {
    "$" + Decimal(id)
  }

  /** buildFragment: render a builder, giving its first placeholder the id `next`. */
  function Render(b: Builder, next: nat): Query
    decreases b
  {
    match b
    case Raw(text) => Query(text, [])
    case Param(v) => Query(Placeholder(next), [v])
    case Join(parts, delimiter) => RenderJoin(parts, delimiter, next)
    case Wrap(prefix, inner, suffix) =>
      var q := Render(inner, next);
      Query(prefix + q.text + suffix, q.values)
  }

  /** The rendering of joinSql: each child is rendered at the running id (the start
      plus the values of the children before it), texts are separated by the
      delimiter and value lists are concatenated in order. */
  function RenderJoin(parts: seq<Builder>, delimiter: string, next: nat): Query
    decreases parts
  {
    if parts == [] then Query("", [])
    else
      var head := Render(parts[0], next);
      if |parts| == 1 then head
      else
        var tail := RenderJoin(parts[1..], delimiter, next + |head.values|);
        Query(head.text + delimiter + tail.text, head.values + tail.values)
  }

  // ---------------------------------------------------------------------------
  // The constructors and combinators of builder.ts

  /** rawSqlBuilder: renders its text verbatim and binds nothing, whatever the start id. */
  function RawSqlBuilder(text: string): (b: Builder)
    ensures forall next: nat :: Render(b, next) == Query(text, [])
  {
    Raw(text)
  }

  /** paramSqlBuilder: renders as the placeholder of the start id and binds `[value]`. */
  function ParamSqlBuilder(value: Value): (b: Builder)
    ensures forall next: nat :: Render(b, next) == Query("$" + Decimal(next), [value])
  {
    Param(value)
  }

  /** toSqlBuilder: a builder stays itself, a plain value becomes a parameter. */
  function ToSqlBuilder(x: Arg): (b: Builder)
    ensures x.Fragment? ==> b == x.builder
    ensures x.Plain? ==> b == ParamSqlBuilder(x.value)
  {
    match x
    case Fragment(builder) => builder
    case Plain(v) => ParamSqlBuilder(v)
  }

  /** buildSql: normalise the value to a builder, then render it. */
  function BuildSql(x: Arg, next: nat): (q: Query)
    ensures x.Plain? ==> q == Render(ParamSqlBuilder(x.value), next)
    ensures x.Fragment? ==> q == Render(x.builder, next)
  {
    Render(ToSqlBuilder(x), next)
  }

  /** joinSql(builders, delimiter). */
  function JoinSql(builders: seq<Builder>, delimiter: string): (b: Builder)
    ensures forall next: nat :: Render(b, next) == RenderJoin(builders, delimiter, next)
  {
    Join(builders, delimiter)
  }

  /** transformSql(builder, text => prefix + text + suffix): rewrites the text, keeps the values. */
  function TransformSql(builder: Builder, prefix: string, suffix: string): (b: Builder)
    ensures forall next: nat ::
              Render(b, next) == Query(prefix + Render(builder, next).text + suffix, Render(builder, next).values)
  {
    Wrap(prefix, builder, suffix)
  }

  /** Normalising twice is normalising once. */
  lemma ToSqlBuilderIdempotent(x: Arg, next: nat)
    ensures ToSqlBuilder(Fragment(ToSqlBuilder(x))) == ToSqlBuilder(x)
    ensures BuildSql(Fragment(ToSqlBuilder(x)), next) == BuildSql(x, next)
  {
  }

  // ---------------------------------------------------------------------------
  // Reference semantics of the numbering

  /** A builder flattened: literal text, or a hole that will be a placeholder. */
  datatype Token = Text(s: string) | Hole(value: Value)

  /** The tokens of a builder, left to right. They do not depend on any id. */
  function Tokens(b: Builder): seq<Token>
    decreases b
  {
    match b
    case Raw(text) => [Text(text)]
    case Param(v) => [Hole(v)]
    case Join(parts, delimiter) => JoinTokens(parts, delimiter)
    case Wrap(prefix, inner, suffix) => [Text(prefix)] + Tokens(inner) + [Text(suffix)]
  }

  /** The tokens of the children, with the delimiter between consecutive children. */
  function JoinTokens(parts: seq<Builder>, delimiter: string): seq<Token>
    decreases parts
  {
    if parts == [] then []
    else if |parts| == 1 then Tokens(parts[0])
    else Tokens(parts[0]) + [Text(delimiter)] + JoinTokens(parts[1..], delimiter)
  }

  /** The values of the holes, in order. */
  function Holes(ts: seq<Token>): (vs: seq<Value>)
    ensures |vs| <= |ts|
  {
    if ts == [] then []
    else match ts[0]
      case Text(_) => Holes(ts[1..])
      case Hole(v) => [v] + Holes(ts[1..])
  }

  /** The text of a token list whose holes are numbered `next, next + 1, ...` from left to right. */
  function Spell(ts: seq<Token>, next: nat): string {
    if ts == [] then ""
    else match ts[0]
      case Text(s) => s + Spell(ts[1..], next)
      case Hole(_) => Placeholder(next) + Spell(ts[1..], next + 1)
  }

  /** The values a builder binds, in order; they do not depend on the start id. */
  function Params(b: Builder): seq<Value> {
    Holes(Tokens(b))
  }

  /** Spelling and hole values split at any point of a token list: the second part
      is numbered after the holes of the first. */
  lemma {:induction false} SpellAppend(a: seq<Token>, c: seq<Token>, next: nat)
    ensures Spell(a + c, next) == Spell(a, next) + Spell(c, next + |Holes(a)|)
    ensures Holes(a + c) == Holes(a) + Holes(c)
  {
    HolesAppend(a, c);
    if a == [] {
      assert a + c == c;
    } else {
      var rest := a[1..];
      assert a == [a[0]] + rest;
      match a[0]
      case Text(s) =>
        SpellAppend(rest, c, next);
        SpellAppendText(s, rest, c, next);
      case Hole(v) =>
        SpellAppend(rest, c, next + 1);
        SpellAppendHole(v, rest, c, next);
    }
  }

  /** The step of SpellAppend for a leading text token. */
  lemma SpellAppendText(s: string, rest: seq<Token>, c: seq<Token>, next: nat)
    requires Spell(rest + c, next) == Spell(rest, next) + Spell(c, next + |Holes(rest)|)
    ensures Spell([Text(s)] + rest + c, next) == Spell([Text(s)] + rest, next) + Spell(c, next + |Holes([Text(s)] + rest)|)
  {
    var a := [Text(s)] + rest;
    assert (a + c)[0] == Text(s) && (a + c)[1..] == rest + c;
    assert a[0] == Text(s) && a[1..] == rest;
    assert Holes(a) == Holes(rest);
    assert s + (Spell(rest, next) + Spell(c, next + |Holes(rest)|))
           == (s + Spell(rest, next)) + Spell(c, next + |Holes(rest)|);
  }

  /** The step of SpellAppend for a leading hole. */
  lemma SpellAppendHole(v: Value, rest: seq<Token>, c: seq<Token>, next: nat)
    requires Spell(rest + c, next + 1) == Spell(rest, next + 1) + Spell(c, next + 1 + |Holes(rest)|)
    ensures Spell([Hole(v)] + rest + c, next) == Spell([Hole(v)] + rest, next) + Spell(c, next + |Holes([Hole(v)] + rest)|)
  {
    var a := [Hole(v)] + rest;
    var p := Placeholder(next);
    assert (a + c)[0] == Hole(v) && (a + c)[1..] == rest + c;
    assert a[0] == Hole(v) && a[1..] == rest;
    assert |Holes(a)| == 1 + |Holes(rest)|;
    assert p + (Spell(rest, next + 1) + Spell(c, next + 1 + |Holes(rest)|))
           == (p + Spell(rest, next + 1)) + Spell(c, next + 1 + |Holes(rest)|);
  }

  lemma {:induction false} HolesAppend(a: seq<Token>, c: seq<Token>)
    ensures Holes(a + c) == Holes(a) + Holes(c)
  {
    if a == [] {
      assert a + c == c;
    } else {
      assert (a + c)[0] == a[0];
      assert (a + c)[1..] == a[1..] + c;
      HolesAppend(a[1..], c);
    }
  }

  /** Rendering threads the id through the tree exactly as numbering the flattened
      holes from left to right does: the placeholders of `Render(b, next)` are
      `next, ..., next + |values| - 1` in text order, the i-th standing for the
      i-th value. */
  lemma {:induction false} RenderIsSpelling(b: Builder, next: nat)
    ensures Render(b, next) == Query(Spell(Tokens(b), next), Params(b))
    decreases b
  {
    match b
    case Raw(text) =>
      assert Spell([Text(text)], next) == text + "";
    case Param(v) =>
      assert Spell([Hole(v)], next) == Placeholder(next) + "";
    case Join(parts, delimiter) =>
      RenderJoinIsSpelling(parts, delimiter, next);
    case Wrap(prefix, inner, suffix) =>
      RenderIsSpelling(inner, next);
      var ti := Tokens(inner);
      SpellAppend([Text(prefix)], ti, next);
      SpellAppend([Text(prefix)] + ti, [Text(suffix)], next);
      assert Spell([Text(prefix)], next) == prefix + "";
      assert Spell([Text(suffix)], next + |Holes(ti)|) == suffix + "";
  }

  lemma {:induction false} RenderJoinIsSpelling(parts: seq<Builder>, delimiter: string, next: nat)
    ensures RenderJoin(parts, delimiter, next)
              == Query(Spell(JoinTokens(parts, delimiter), next), Holes(JoinTokens(parts, delimiter)))
    decreases parts
  {
    if parts == [] {
    } else if |parts| == 1 {
      RenderIsSpelling(parts[0], next);
    } else {
      var h := Tokens(parts[0]);
      var nextTail := next + |Holes(h)|;
      var t := JoinTokens(parts[1..], delimiter);
      assert JoinTokens(parts, delimiter) == h + [Text(delimiter)] + t;
      RenderIsSpelling(parts[0], next);
      var head := Render(parts[0], next);
      assert |head.values| == |Holes(h)|;
      RenderJoinIsSpelling(parts[1..], delimiter, nextTail);
      var tail := RenderJoin(parts[1..], delimiter, nextTail);
      assert RenderJoin(parts, delimiter, next) == Query(head.text + delimiter + tail.text, head.values + tail.values);
      SpellAround(h, delimiter, t, next);
    }
  }

  /** Spelling a delimiter between two token lists. */
  lemma SpellAround(h: seq<Token>, delimiter: string, t: seq<Token>, next: nat)
    ensures Spell(h + [Text(delimiter)] + t, next) == Spell(h, next) + delimiter + Spell(t, next + |Holes(h)|)
    ensures Holes(h + [Text(delimiter)] + t) == Holes(h) + Holes(t)
  {
    var nextTail := next + |Holes(h)|;
    SpellAppend(h, [Text(delimiter)] + t, next);
    SpellAppend([Text(delimiter)], t, nextTail);
    assert Holes([Text(delimiter)]) == [];
    assert Spell([Text(delimiter)], nextTail) == delimiter + "";
    assert h + [Text(delimiter)] + t == h + ([Text(delimiter)] + t);
  }

  /** A builder binds the same values whatever id it starts from, and as many as it has holes. */
  lemma ValuesIgnoreStart(b: Builder, m: nat, n: nat)
    ensures Render(b, m).values == Render(b, n).values == Params(b)
  {
    RenderIsSpelling(b, m);
    RenderIsSpelling(b, n);
  }

  /** Each parameter consumes exactly one id: a raw leaf binds none, a param leaf one. */
  lemma LeafCounts(text: string, v: Value, next: nat)
    ensures |Render(RawSqlBuilder(text), next).values| == 0
    ensures |Render(ParamSqlBuilder(v), next).values| == 1
    ensures Render(ParamSqlBuilder(v), 5) == Query("$5", [v])
  {
    assert DigitChar(5) == '5';
  }

  /** The hole at token position `i` is spelled as the placeholder of id `next + k`,
      where `k` counts the holes before it, and the k-th bound value is its value. */
  lemma PlaceholderMatchesValue(ts: seq<Token>, next: nat, i: nat)
    requires i < |ts| && ts[i].Hole?
    ensures var k := |Holes(ts[..i])|;
            && Spell(ts, next) == Spell(ts[..i], next) + Placeholder(next + k) + Spell(ts[i + 1..], next + k + 1)
            && k < |Holes(ts)| && Holes(ts)[k] == ts[i].value
  {
    var k := |Holes(ts[..i])|;
    assert ts == ts[..i] + ([ts[i]] + ts[i + 1..]);
    SpellAppend(ts[..i], [ts[i]] + ts[i + 1..], next);
    assert ([ts[i]] + ts[i + 1..])[1..] == ts[i + 1..];
  }

  /** Holes further right get larger ids: a hole at position `i` has fewer holes
      before it than any position `j` after it. */
  lemma HolesBeforeIncrease(ts: seq<Token>, i: nat, j: nat)
    requires i < j <= |ts| && ts[i].Hole?
    ensures |Holes(ts[..i])| < |Holes(ts[..j])|
  {
    var mid := [ts[i]] + ts[i + 1..j];
    assert ts[..j] == ts[..i] + mid;
    HolesAppend(ts[..i], mid);
    assert mid[1..] == ts[i + 1..j];
  }

  /** Every id in the range is used: for each `k` below the number of holes there is
      a hole with exactly `k` holes before it. */
  lemma {:induction false} EveryHoleCounted(ts: seq<Token>, k: nat) returns (i: nat)
    requires k < |Holes(ts)|
    ensures i < |ts| && ts[i].Hole? && |Holes(ts[..i])| == k
    decreases ts
  {
    var rest := ts[1..];
    if ts[0].Hole? && k == 0 {
      i := 0;
      assert ts[..0] == [];
    } else {
      var k' := if ts[0].Hole? then k - 1 else k;
      var i' := EveryHoleCounted(rest, k');
      i := i' + 1;
      assert ts[..i] == [ts[0]] + rest[..i'];
      HolesAppend([ts[0]], rest[..i']);
    }
  }

  /** Joining a single child renders just that child. */
  lemma RenderJoinOne(b: Builder, delimiter: string, next: nat)
    ensures RenderJoin([b], delimiter, next) == Render(b, next)
  {
  }

  /** Joining a child in front of a non-empty list: the list is rendered after the child's values. */
  lemma RenderJoinCons(b: Builder, rest: seq<Builder>, delimiter: string, next: nat)
    requires rest != []
    ensures var head := Render(b, next);
            var tail := RenderJoin(rest, delimiter, next + |head.values|);
            RenderJoin([b] + rest, delimiter, next) == Query(head.text + delimiter + tail.text, head.values + tail.values)
  {
    assert ([b] + rest)[0] == b;
    assert ([b] + rest)[1..] == rest;
  }

  /** Joining two builders: the second is rendered after the first's values
      (parameter threading), texts separated by the delimiter. */
  lemma JoinTwo(b1: Builder, b2: Builder, delimiter: string, next: nat)
    ensures var r1 := Render(b1, next);
            var r2 := Render(b2, next + |r1.values|);
            Render(JoinSql([b1, b2], delimiter), next) == Query(r1.text + delimiter + r2.text, r1.values + r2.values)
  {
    assert [b1, b2][1..] == [b2];
    var r1 := Render(b1, next);
    assert RenderJoin([b2], delimiter, next + |r1.values|) == Render(b2, next + |r1.values|);
    assert Render(JoinSql([b1, b2], delimiter), next) == RenderJoin([b1, b2], delimiter, next);
  }

  /** Splitting a join anywhere: the children after the split are rendered at the
      start plus the number of values of the children before it. */
  lemma {:induction false} JoinSplit(parts: seq<Builder>, delimiter: string, next: nat, k: nat)
    requires 0 < k < |parts|
    ensures var left := Render(Join(parts[..k], delimiter), next);
            var right := Render(Join(parts[k..], delimiter), next + |left.values|);
            Render(Join(parts, delimiter), next) == Query(left.text + delimiter + right.text, left.values + right.values)
    decreases k
  {
    var head := Render(parts[0], next);
    if k == 1 {
      assert parts[..1] == [parts[0]];
      assert parts[1..] == parts[k..];
    } else {
      JoinSplit(parts[1..], delimiter, next + |head.values|, k - 1);
      assert parts[1..][..k - 1] == parts[..k][1..];
      assert parts[1..][k - 1..] == parts[k..];
      assert parts[..k][0] == parts[0];
    }
  }
}
