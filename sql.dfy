/** The query front end of src/sql/index.ts: the `sql` template tag, `sql.raw`
    and `sql.safe`, and the spread helpers for WHERE, INSERT and UPDATE clauses. */
module SqlTag {
  import opened Wrappers
  import opened Utils
  import opened SqlBuilder

  // ---------------------------------------------------------------------------
  // The template tag

  /** `texts.map(rawSqlBuilder)`. */
  function RawBuilders(texts: seq<string>): (bs: seq<Builder>)
    ensures |bs| == |texts| && forall i :: 0 <= i < |texts| ==> bs[i] == RawSqlBuilder(texts[i])
  {
    seq(|texts|, i requires 0 <= i < |texts| => RawSqlBuilder(texts[i]))
  }

  /** `values.map(toSqlBuilder)`. */
  function ArgBuilders(args: seq<Arg>): (bs: seq<Builder>)
    ensures |bs| == |args| && forall i :: 0 <= i < |args| ==> bs[i] == ToSqlBuilder(args[i])
  {
    seq(|args|, i requires 0 <= i < |args| => ToSqlBuilder(args[i]))
  }

  /** sql`...`: the literal chunks (one more than the interpolations, as the
      template syntax guarantees) interleaved with the normalised interpolations,
      joined without delimiter, rendered from id 1. */
  function Sql(texts: seq<string>, args: seq<Arg>): (q: Query)
    requires |texts| == |args| + 1
    ensures q.values == AllParams(args)
  {
    var sqlBuilders := Interleave(RawBuilders(texts), ArgBuilders(args));
    TemplateJoin(texts, args, 1);
    BuildSql(Fragment(JoinSql(sqlBuilders, "")), 1)
  }

  /** sql.raw: the text is inlined and binds nothing. */
  function RawExpression(rawValue: string): (b: Builder)
    ensures forall next: nat :: Render(b, next) == Query(rawValue, [])
  {
    RawSqlBuilder(rawValue)
  }

  /** sql.safe: the value always becomes a parameter. */
  function SafeExpression(value: Value): (b: Builder)
    ensures forall next: nat :: Render(b, next) == Query(Placeholder(next), [value])
  {
    ParamSqlBuilder(value)
  }

  /** The values an interpolation binds: a plain value itself (null included), a
      raw fragment nothing. */
  function ArgParams(x: Arg): (vs: seq<Value>)
    ensures x.Plain? ==> vs == [x.value]
    ensures x.Fragment? && x.builder.Raw? ==> vs == []
    ensures forall next: nat :: Render(ToSqlBuilder(x), next).values == vs
  {
    ValuesForAllStarts(ToSqlBuilder(x));
    Params(ToSqlBuilder(x))
  }

  lemma ValuesForAllStarts(b: Builder)
    ensures forall next: nat :: Render(b, next).values == Params(b)
  {
    forall next: nat ensures Render(b, next).values == Params(b) {
      ValuesIgnoreStart(b, next, next);
    }
  }

  /** The values of a list of interpolations, in order. */
  function AllParams(args: seq<Arg>): seq<Value> {
    if args == [] then [] else ArgParams(args[0]) + AllParams(args[1..])
  }

  /** The text a template denotes: each literal chunk followed by the rendering of
      the next interpolation, which starts after the values of all those before it. */
  function TemplateText(texts: seq<string>, args: seq<Arg>, next: nat): string
    requires |texts| == |args| + 1
    decreases args
  {
    if args == [] then texts[0]
    else
      texts[0] + Render(ToSqlBuilder(args[0]), next).text
      + TemplateText(texts[1..], args[1..], next + |ArgParams(args[0])|)
  }

  lemma {:induction false} TemplateJoin(texts: seq<string>, args: seq<Arg>, next: nat)
    requires |texts| == |args| + 1
    ensures RenderJoin(Interleave(RawBuilders(texts), ArgBuilders(args)), "", next)
              == Query(TemplateText(texts, args, next), AllParams(args))
    decreases args
  {
    if args == [] {
      assert Interleave(RawBuilders(texts), ArgBuilders(args)) == [Raw(texts[0])];
    } else {
      TemplateJoin(texts[1..], args[1..], next + |ArgParams(args[0])|);
      TemplateStep(texts, args, next);
    }
  }

  /** One step of TemplateJoin: a chunk and an interpolation in front of the rest of
      the template, already known to render as intended. */
  lemma TemplateStep(texts: seq<string>, args: seq<Arg>, next: nat)
    requires |texts| == |args| + 1 && args != []
    requires RenderJoin(Interleave(RawBuilders(texts[1..]), ArgBuilders(args[1..])), "", next + |ArgParams(args[0])|)
               == Query(TemplateText(texts[1..], args[1..], next + |ArgParams(args[0])|), AllParams(args[1..]))
    ensures RenderJoin(Interleave(RawBuilders(texts), ArgBuilders(args)), "", next)
              == Query(TemplateText(texts, args, next), AllParams(args))
  {
    TemplateSplits(texts, args);
    var b := ToSqlBuilder(args[0]);
    var rest := Interleave(RawBuilders(texts[1..]), ArgBuilders(args[1..]));
    assert Render(b, next).values == ArgParams(args[0]);
    ChunkThenFragment(texts[0], b, rest, next);
  }

  /** A template's builders: its first chunk, its first interpolation, then the builders of the rest. */
  lemma TemplateSplits(texts: seq<string>, args: seq<Arg>)
    requires |texts| == |args| + 1 && args != []
    ensures Interleave(RawBuilders(texts), ArgBuilders(args))
            == [Raw(texts[0])] + ([ToSqlBuilder(args[0])] + Interleave(RawBuilders(texts[1..]), ArgBuilders(args[1..])))
  {
    var rs, bs := RawBuilders(texts), ArgBuilders(args);
    assert rs[1..] == RawBuilders(texts[1..]);
    assert bs[1..] == ArgBuilders(args[1..]);
    InterleaveCons(rs, bs);
  }

  /** Joining a chunk, a builder and a non-empty rest without delimiter. */
  lemma ChunkThenFragment(text: string, b: Builder, rest: seq<Builder>, next: nat)
    requires rest != []
    ensures var head := Render(b, next);
            var tail := RenderJoin(rest, "", next + |head.values|);
            RenderJoin([Raw(text)] + ([b] + rest), "", next)
              == Query(text + head.text + tail.text, head.values + tail.values)
  {
    var head := Render(b, next);
    var tail := RenderJoin(rest, "", next + |head.values|);
    RenderJoinCons(b, rest, "", next);
    RenderJoinCons(Raw(text), [b] + rest, "", next);
    assert text + "" + (head.text + "" + tail.text) == text + head.text + tail.text;
  }

  /** The `sql` tag's result: literal chunks and interpolation renderings in order,
      numbered from $1, and the interpolations' values in order. */
  lemma SqlRendersTemplate(texts: seq<string>, args: seq<Arg>)
    requires |texts| == |args| + 1
    ensures Sql(texts, args) == Query(TemplateText(texts, args, 1), AllParams(args))
  {
    TemplateJoin(texts, args, 1);
  }

  /** Without interpolations the query is the single chunk and binds nothing. */
  lemma SqlWithoutInterpolations(text: string)
    ensures Sql([text], []) == Query(text, [])
  {
    SqlRendersTemplate([text], []);
  }

  // ---------------------------------------------------------------------------
  // spreadAnd and spreadUpdate

  /** Every column of the entries passes escapeIdentifier. */
  predicate AllEscapable(entries: seq<(string, Arg)>) {
    forall i :: 0 <= i < |entries| ==> Escapable(entries[i].0)
  }

  /** The `"column" = value` builders of the entries, escaping the columns in turn;
      the first column that fails to escape aborts the helper. */
  function Assignments(entries: seq<(string, Arg)>): (r: Result<seq<Builder>, Error>)
    ensures r.Success? ==> |r.value| == |entries|
    ensures r.Success? ==> AssignmentPairs(entries, r.value)
    decreases entries
  {
    if entries == [] then Success([])
    else
      var identifier :- EscapeIdentifier(entries[0].0);
      var rest :- Assignments(entries[1..]);
      AssignmentPairsCons(entries, identifier, rest);
      Success([JoinSql([RawSqlBuilder(identifier), ToSqlBuilder(entries[0].1)], " = ")] + rest)
  }

  /** Builder i is `"column_i" = value_i`, every column escaping. */
  predicate AssignmentPairs(entries: seq<(string, Arg)>, builders: seq<Builder>) {
    |builders| == |entries| &&
    forall i :: 0 <= i < |entries| ==>
      Escapable(entries[i].0) &&
      builders[i] == JoinSql([RawSqlBuilder(EscapeIdentifier(entries[i].0).value), ToSqlBuilder(entries[i].1)], " = ")
  }

  /** The pair of the first entry followed by the pairs of the rest are the pairs of all entries. */
  lemma AssignmentPairsCons(entries: seq<(string, Arg)>, identifier: string, rest: seq<Builder>)
    requires entries != [] && EscapeIdentifier(entries[0].0) == Success(identifier)
    requires AssignmentPairs(entries[1..], rest)
    ensures AssignmentPairs(entries, [JoinSql([RawSqlBuilder(identifier), ToSqlBuilder(entries[0].1)], " = ")] + rest)
  {
    assert forall i :: 0 < i < |entries| ==> entries[i] == entries[1..][i - 1];
  }

  /** spreadAnd: the defined entries as `("col" = v AND ...)`. */
  function SpreadAnd(record: Record<Arg>): (r: Result<Builder, Error>)
    ensures r.Success? <==> AllEscapable(FilterUndefined(record, Plain(Undefined)))
  {
    var columnValues := FilterRecord(record, Plain(Undefined));
    AssignmentsSucceed(columnValues);
    var andChainBuilders :- Assignments(columnValues);
    Success(TransformSql(JoinSql(andChainBuilders, " AND "), "(", ")"))
  }

  /** spreadUpdate: the defined entries as `"col" = v, ...`. */
  function SpreadUpdate(record: Record<Arg>): (r: Result<Builder, Error>)
    ensures r.Success? <==> AllEscapable(FilterUndefined(record, Plain(Undefined)))
  {
    var updateValues := FilterRecord(record, Plain(Undefined));
    AssignmentsSucceed(updateValues);
    var updateChainBuilders :- Assignments(updateValues);
    Success(JoinSql(updateChainBuilders, ", "))
  }

  /** The intended text of an assignment chain: `"col" = <value>` per entry, separated
      by the delimiter, each value rendered after the values of the entries before it. */
  function PairsText(entries: seq<(string, Arg)>, delimiter: string, next: nat): string
    requires AllEscapable(entries)
    decreases entries
  {
    if entries == [] then ""
    else
      var pair := EscapeIdentifier(entries[0].0).value + " = " + Render(ToSqlBuilder(entries[0].1), next).text;
      if |entries| == 1 then pair
      else pair + delimiter + PairsText(entries[1..], delimiter, next + |ArgParams(entries[0].1)|)
  }

  /** A chain of several pairs is its first pair, the delimiter and the rest, numbered on. */
  lemma PairsTextCons(entries: seq<(string, Arg)>, delimiter: string, next: nat)
    requires |entries| > 1 && AllEscapable(entries)
    ensures AllEscapable(entries[1..])
    ensures PairsText(entries, delimiter, next)
            == EscapeIdentifier(entries[0].0).value + " = " + Render(ToSqlBuilder(entries[0].1), next).text
               + delimiter + PairsText(entries[1..], delimiter, next + |ArgParams(entries[0].1)|)
  {
  }

  /** The values of the entries, in order. */
  function EntryParams(entries: seq<(string, Arg)>): seq<Value> {
    if entries == [] then [] else ArgParams(entries[0].1) + EntryParams(entries[1..])
  }

  /** The assignment chain fails exactly when a column fails to escape, with the
      error of the first such column. */
  lemma {:induction false} AssignmentsFail(entries: seq<(string, Arg)>)
    ensures Assignments(entries).Success? <==> AllEscapable(entries)
    ensures Assignments(entries).Failure? ==>
              exists i :: 0 <= i < |entries| && EscapeIdentifier(entries[i].0).Failure?
                && Assignments(entries).error == EscapeIdentifier(entries[i].0).error
                && forall j :: 0 <= j < i ==> Escapable(entries[j].0)
    decreases entries
  {
    AssignmentsSucceed(entries);
    if entries != [] && !Escapable(entries[0].0) {
      FirstColumnFails(entries);
    } else if entries != [] {
      AssignmentsFail(entries[1..]);
      if Assignments(entries[1..]).Failure? {
        var i :| 0 <= i < |entries[1..]| && EscapeIdentifier(entries[1..][i].0).Failure?
               && Assignments(entries[1..]).error == EscapeIdentifier(entries[1..][i].0).error
               && forall j :: 0 <= j < i ==> Escapable(entries[1..][j].0);
        LaterColumnFails(entries, i);
      }
    }
  }

  /** A first column that fails to escape fails the chain with its error. */
  lemma FirstColumnFails(entries: seq<(string, Arg)>)
    requires entries != [] && !Escapable(entries[0].0)
    ensures Assignments(entries).Failure?
    ensures EscapeIdentifier(entries[0].0).Failure?
    ensures Assignments(entries).error == EscapeIdentifier(entries[0].0).error
  {
  }

  /** A failure at place i of the tail, after a first column that escapes, is a
      failure at place i + 1 of the whole chain. */
  lemma LaterColumnFails(entries: seq<(string, Arg)>, i: nat)
    requires entries != [] && Escapable(entries[0].0)
    requires i < |entries| - 1 && EscapeIdentifier(entries[1..][i].0).Failure?
    requires Assignments(entries[1..]).Failure?
    requires Assignments(entries[1..]).error == EscapeIdentifier(entries[1..][i].0).error
    requires forall j :: 0 <= j < i ==> Escapable(entries[1..][j].0)
    ensures Assignments(entries).Failure?
    ensures EscapeIdentifier(entries[i + 1].0).Failure?
    ensures Assignments(entries).error == EscapeIdentifier(entries[i + 1].0).error
    ensures forall j :: 0 <= j < i + 1 ==> Escapable(entries[j].0)
  {
    assert entries[i + 1] == entries[1..][i];
    EscapablePrefix(entries, i);
  }

  /** An escapable first column in front of an escapable prefix of the tail. */
  lemma EscapablePrefix(entries: seq<(string, Arg)>, i: nat)
    requires entries != [] && Escapable(entries[0].0) && i < |entries|
    requires forall j :: 0 <= j < i ==> Escapable(entries[1..][j].0)
    ensures forall j :: 0 <= j < i + 1 ==> Escapable(entries[j].0)
  {
    forall j | 0 <= j < i + 1 ensures Escapable(entries[j].0) {
      if j > 0 {
        assert entries[j] == entries[1..][j - 1];
      }
    }
  }

  /** The assignment chain succeeds exactly when every column escapes. */
  lemma {:induction false} AssignmentsSucceed(entries: seq<(string, Arg)>)
    ensures Assignments(entries).Success? <==> AllEscapable(entries)
    decreases entries
  {
    if entries != [] {
      var tail := entries[1..];
      AssignmentsSucceed(tail);
      assert forall j :: 0 < j < |entries| ==> entries[j] == tail[j - 1];
    }
  }


  /** One assignment renders as `"col" = <value>` and binds the value's parameters. */
  lemma AssignmentRenders(identifier: string, x: Arg, next: nat)
    ensures Render(JoinSql([RawSqlBuilder(identifier), ToSqlBuilder(x)], " = "), next)
              == Query(identifier + " = " + Render(ToSqlBuilder(x), next).text, ArgParams(x))
  {
    JoinTwo(RawSqlBuilder(identifier), ToSqlBuilder(x), " = ", next);
  }

  /** The entries after an escapable first one are escapable too. */
  lemma EscapableTail(entries: seq<(string, Arg)>)
    requires entries != [] && AllEscapable(entries)
    ensures AllEscapable(entries[1..])
  {
    var tail := entries[1..];
    forall j | 0 <= j < |tail| ensures Escapable(tail[j].0) {
      assert tail[j] == entries[j + 1];
    }
  }

  /** The assignment builders of entries whose columns all escape. */
  function AssignmentBuilders(entries: seq<(string, Arg)>): seq<Builder>
    requires AllEscapable(entries)
    decreases entries
  {
    if entries == [] then []
    else
      EscapableTail(entries);
      [JoinSql([RawSqlBuilder(EscapeIdentifier(entries[0].0).value), ToSqlBuilder(entries[0].1)], " = ")]
      + AssignmentBuilders(entries[1..])
  }

  /** When every column escapes, the chain helper succeeds with the assignment builders. */
  lemma {:induction false} AssignmentsAre(entries: seq<(string, Arg)>)
    requires AllEscapable(entries)
    ensures Assignments(entries) == Success(AssignmentBuilders(entries))
    decreases entries
  {
    if entries != [] {
      EscapableTail(entries);
      AssignmentsAre(entries[1..]);
    }
  }

  /** The assignment builders, joined, render as the intended chain. */
  lemma {:induction false} AssignmentBuildersRender(entries: seq<(string, Arg)>, delimiter: string, next: nat)
    requires AllEscapable(entries)
    ensures RenderJoin(AssignmentBuilders(entries), delimiter, next)
              == Query(PairsText(entries, delimiter, next), EntryParams(entries))
    decreases entries
  {
    if entries != [] {
      EscapableTail(entries);
      AssignmentBuildersRender(entries[1..], delimiter, next + |ArgParams(entries[0].1)|);
      AssignmentStep(entries, delimiter, next);
    }
  }

  /** One step of AssignmentBuildersRender: the first pair in front of a chain already
      known to render as intended. */
  lemma AssignmentStep(entries: seq<(string, Arg)>, delimiter: string, next: nat)
    requires entries != [] && AllEscapable(entries) && AllEscapable(entries[1..])
    requires RenderJoin(AssignmentBuilders(entries[1..]), delimiter, next + |ArgParams(entries[0].1)|)
               == Query(PairsText(entries[1..], delimiter, next + |ArgParams(entries[0].1)|), EntryParams(entries[1..]))
    ensures RenderJoin(AssignmentBuilders(entries), delimiter, next)
              == Query(PairsText(entries, delimiter, next), EntryParams(entries))
  {
    if |entries| == 1 {
      LastPair(entries, delimiter, next);
    } else {
      ManyPairs(entries, delimiter, next);
    }
  }

  /** The chain of a single entry is its one pair. */
  lemma LastPair(entries: seq<(string, Arg)>, delimiter: string, next: nat)
    requires |entries| == 1 && AllEscapable(entries)
    ensures RenderJoin(AssignmentBuilders(entries), delimiter, next)
              == Query(PairsText(entries, delimiter, next), EntryParams(entries))
  {
    var e := EscapeIdentifier(entries[0].0).value;
    var v := entries[0].1;
    var pair := JoinSql([RawSqlBuilder(e), ToSqlBuilder(v)], " = ");
    AssignmentRenders(e, v, next);
    assert AssignmentBuilders(entries) == [pair];
    RenderJoinOne(pair, delimiter, next);
    assert EntryParams(entries) == ArgParams(v) + [];
  }

  /** The step of AssignmentBuildersRender for more than one entry. */
  lemma ManyPairs(entries: seq<(string, Arg)>, delimiter: string, next: nat)
    requires |entries| > 1 && AllEscapable(entries) && AllEscapable(entries[1..])
    requires RenderJoin(AssignmentBuilders(entries[1..]), delimiter, next + |ArgParams(entries[0].1)|)
               == Query(PairsText(entries[1..], delimiter, next + |ArgParams(entries[0].1)|), EntryParams(entries[1..]))
    ensures RenderJoin(AssignmentBuilders(entries), delimiter, next)
              == Query(PairsText(entries, delimiter, next), EntryParams(entries))
  {
    var e := EscapeIdentifier(entries[0].0).value;
    var v := entries[0].1;
    var pair := JoinSql([RawSqlBuilder(e), ToSqlBuilder(v)], " = ");
    AssignmentRenders(e, v, next);
    var rest := AssignmentBuilders(entries[1..]);
    assert AssignmentBuilders(entries) == [pair] + rest;
    RenderJoinCons(pair, rest, delimiter, next);
    PairsTextCons(entries, delimiter, next);
  }

  /** When every column escapes, the joined assignment chain renders as the intended
      text and binds the entries' values in order. */
  lemma AssignmentsRender(entries: seq<(string, Arg)>, delimiter: string, next: nat)
    requires AllEscapable(entries)
    ensures Assignments(entries).Success?
    ensures RenderJoin(Assignments(entries).value, delimiter, next)
              == Query(PairsText(entries, delimiter, next), EntryParams(entries))
  {
    AssignmentsAre(entries);
    AssignmentBuildersRender(entries, delimiter, next);
  }

  /** spreadAnd drops the undefined entries, fails exactly when a surviving column
      fails to escape, and otherwise renders `("col" = v AND ...)` binding the
      surviving values in entry order; raw values are inlined and bind nothing. */
  lemma SpreadAndRenders(record: Record<Arg>, next: nat)
    ensures var columnValues := FilterUndefined(record, Plain(Undefined));
            && (SpreadAnd(record).Success? <==> AllEscapable(columnValues))
            && (SpreadAnd(record).Success? ==>
                  Render(SpreadAnd(record).value, next)
                    == Query("(" + PairsText(columnValues, " AND ", next) + ")", EntryParams(columnValues)))
  {
    var columnValues := FilterUndefined(record, Plain(Undefined));
    AssignmentsFail(columnValues);
    if AllEscapable(columnValues) {
      AssignmentsRender(columnValues, " AND ", next);
    }
  }

  /** spreadUpdate renders the same pairs as spreadAnd, separated by `, ` and without parentheses. */
  lemma SpreadUpdateRenders(record: Record<Arg>, next: nat)
    ensures var updateValues := FilterUndefined(record, Plain(Undefined));
            && (SpreadUpdate(record).Success? <==> AllEscapable(updateValues))
            && (SpreadUpdate(record).Success? ==>
                  Render(SpreadUpdate(record).value, next)
                    == Query(PairsText(updateValues, ", ", next), EntryParams(updateValues)))
  {
    var updateValues := FilterUndefined(record, Plain(Undefined));
    AssignmentsFail(updateValues);
    if AllEscapable(updateValues) {
      AssignmentsRender(updateValues, ", ", next);
    }
  }

  /** spreadAnd and spreadUpdate fail together, with the same error, and bind the same values. */
  lemma AndUpdateAgree(record: Record<Arg>)
    ensures SpreadAnd(record).Failure? <==> SpreadUpdate(record).Failure?
    ensures SpreadAnd(record).Failure? ==> SpreadAnd(record).error == SpreadUpdate(record).error
    ensures SpreadAnd(record).Success? ==> Params(SpreadAnd(record).value) == Params(SpreadUpdate(record).value)
  {
    SpreadAndRenders(record, 1);
    SpreadUpdateRenders(record, 1);
    if SpreadAnd(record).Success? {
      ValuesIgnoreStart(SpreadAnd(record).value, 1, 1);
      ValuesIgnoreStart(SpreadUpdate(record).value, 1, 1);
    }
  }

  // ---------------------------------------------------------------------------
  // spreadInsert

  /** `record[column]`: the value of the entry with that key, `undefined` when there is none. */
  function Lookup(record: seq<(string, Arg)>, column: string): (a: Arg)
    ensures a == Plain(Undefined) || (column, a) in record
    ensures (forall i :: 0 <= i < |record| ==> record[i].0 != column) ==> a == Plain(Undefined)
  {
    if record == [] then Plain(Undefined)
    else if record[0].0 == column then record[0].1
    else Lookup(record[1..], column)
  }

  /** In a record, looking a key up finds the value of its entry, wherever the entry stands. */
  lemma {:induction false} LookupFinds(record: Record<Arg>, i: nat)
    requires i < |record|
    ensures Lookup(record, record[i].0) == record[i].1
  {
    if i > 0 {
      assert record[0].0 != record[i].0;
      LookupFinds(record[1..], i - 1);
    }
  }

  /** A key no entry has looks up as `undefined`. */
  lemma {:induction false} LookupMisses(record: seq<(string, Arg)>, column: string)
    requires column !in KeySet(record)
    ensures Lookup(record, column) == Plain(Undefined)
  {
    if record != [] {
      assert record[0].0 in KeySet(record);
      assert KeySet(record[1..]) <= KeySet(record) by {
        forall k | k in KeySet(record[1..]) ensures k in KeySet(record) {
          var j :| 0 <= j < |record[1..]| && record[1..][j].0 == k;
          assert record[j + 1].0 == k;
        }
      }
      LookupMisses(record[1..], column);
    }
  }

  /** `columnNames.map(escapeIdentifier)`: stops at the first invalid column. */
  function EscapeAll(columns: seq<string>): (r: Result<seq<string>, Error>)
    ensures r.Success? <==> forall j :: 0 <= j < |columns| ==> Escapable(columns[j])
    ensures r.Success? ==> |r.value| == |columns|
    ensures r.Success? ==> forall j :: 0 <= j < |columns| ==> r.value[j] == EscapeIdentifier(columns[j]).value
  {
    if columns == [] then Success([])
    else
      var identifier :- EscapeIdentifier(columns[0]);
      var rest :- EscapeAll(columns[1..]);
      Success([identifier] + rest)
  }

  /** A failing escape of the column names reports the error of the first column
      that fails; the columns before it all escape. */
  lemma {:induction false} EscapeAllFails(columns: seq<string>) returns (j: nat)
    requires EscapeAll(columns).Failure?
    ensures j < |columns| && !Escapable(columns[j])
    ensures EscapeAll(columns).error == EscapeIdentifier(columns[j]).error
    ensures forall k :: 0 <= k < j ==> Escapable(columns[k])
    decreases columns
  {
    if !Escapable(columns[0]) {
      j := 0;
    } else {
      EscapeAllTail(columns);
      var j' := EscapeAllFails(columns[1..]);
      j := j' + 1;
      EscapableColumnsPrefix(columns, j');
    }
  }

  /** After a first column that escapes, escaping the names fails as the rest does. */
  lemma EscapeAllTail(columns: seq<string>)
    requires columns != [] && Escapable(columns[0])
    ensures EscapeAll(columns).Failure? == EscapeAll(columns[1..]).Failure?
    ensures EscapeAll(columns).Failure? ==> EscapeAll(columns).error == EscapeAll(columns[1..]).error
  {
  }

  /** An escapable first column in front of an escapable prefix of the rest. */
  lemma EscapableColumnsPrefix(columns: seq<string>, j: nat)
    requires columns != [] && Escapable(columns[0]) && j < |columns| - 1
    requires forall k :: 0 <= k < j ==> Escapable(columns[1..][k])
    ensures columns[j + 1] == columns[1..][j]
    ensures forall k :: 0 <= k < j + 1 ==> Escapable(columns[k])
  {
    forall k | 0 <= k < j + 1 ensures Escapable(columns[k]) {
      if k > 0 {
        assert columns[k] == columns[1..][k - 1];
      }
    }
  }

  /** `Array.prototype.join`. */
  function JoinText(parts: seq<string>, separator: string): string {
    if parts == [] then "" else if |parts| == 1 then parts[0]
    else parts[0] + separator + JoinText(parts[1..], separator)
  }

  /** The cells of one row: the record's value for each column, in column order. */
  function Cells(record: seq<(string, Arg)>, columns: seq<string>): (cs: seq<Arg>)
    ensures |cs| == |columns| && forall j :: 0 <= j < |columns| ==> cs[j] == Lookup(record, columns[j])
  {
    seq(|columns|, j requires 0 <= j < |columns| => Lookup(record, columns[j]))
  }

  /** One parenthesised row of VALUES. */
  function InsertRow(record: seq<(string, Arg)>, columns: seq<string>): (row: Builder)
    ensures forall next: nat :: Render(row, next).values == AllParams(Cells(record, columns))
  {
    var row := TransformSql(JoinSql(ArgBuilders(Cells(record, columns)), ", "), "(", ")");
    ListRender(Cells(record, columns), ", ", 1);
    ValuesIgnoreStart(row, 1, 1);
    ValuesForAllStarts(row);
    row
  }

  /** One row per record, in record order. */
  function InsertRows(records: seq<seq<(string, Arg)>>, columns: seq<string>): (rows: seq<Builder>)
    ensures |rows| == |records|
    ensures forall i :: 0 <= i < |records| ==> rows[i] == InsertRow(records[i], columns)
  {
    if records == [] then [] else [InsertRow(records[0], columns)] + InsertRows(records[1..], columns)
  }

  /** `records.map(filterUndefined)`. */
  function FilterAll(records: seq<Record<Arg>>): (fs: seq<Record<Arg>>)
    ensures |fs| == |records| &&
            forall i :: 0 <= i < |records| ==> fs[i] == FilterUndefined(records[i], Plain(Undefined))
  {
    seq(|records|, i requires 0 <= i < |records| => FilterRecord(records[i], Plain(Undefined)))
  }

  /** The column header `("c1", "c2", ...) VALUES `. */
  function InsertPrefix(identifiers: seq<string>): string {
    "(" + JoinText(identifiers, ", ") + ") VALUES "
  }

  /** spreadInsert: the columns are the keys of the first record's defined entries;
      every row looks its cells up by column name. */
  function SpreadInsert(records: seq<Record<Arg>>): (r: Result<Builder, Error>)
    ensures records == [] ==> r == Failure(EmptyObjectList)
    ensures r.Success? ==>
              records != [] && forall j :: 0 <= j < |InsertColumns(records)| ==> Escapable(InsertColumns(records)[j])
  {
    var columnNames :- ExtractKeys(FilterAll(records));
    assert records != [] && columnNames == InsertColumns(records);
    var identifiers :- EscapeAll(columnNames);
    var insertChainBuilders := InsertRows(records, columnNames);
    Success(TransformSql(JoinSql(insertChainBuilders, ", "), InsertPrefix(identifiers), ""))
  }

  /** The columns an insert uses: the keys of the first record's defined entries. */
  function InsertColumns(records: seq<Record<Arg>>): seq<string>
    requires records != []
  {
    Keys(FilterUndefined(records[0], Plain(Undefined)))
  }

  /** A list of interpolations rendered one after another and separated, each after
      the values of those before it. */
  function ListText(args: seq<Arg>, separator: string, next: nat): string
    decreases args
  {
    if args == [] then ""
    else
      var first := Render(ToSqlBuilder(args[0]), next).text;
      if |args| == 1 then first
      else first + separator + ListText(args[1..], separator, next + |ArgParams(args[0])|)
  }

  /** The intended VALUES list: `(cells of row 0), (cells of row 1), ...`, each row
      numbered after the values of the rows before it. */
  function RowsText(records: seq<seq<(string, Arg)>>, columns: seq<string>, next: nat): string
    decreases records
  {
    if records == [] then ""
    else
      var cells := Cells(records[0], columns);
      var row := "(" + ListText(cells, ", ", next) + ")";
      if |records| == 1 then row
      else row + ", " + RowsText(records[1..], columns, next + |AllParams(cells)|)
  }

  /** The values of the rows, row by row and within a row in column order. */
  function RowsParams(records: seq<seq<(string, Arg)>>, columns: seq<string>): seq<Value> {
    if records == [] then [] else AllParams(Cells(records[0], columns)) + RowsParams(records[1..], columns)
  }

  lemma {:induction false} ListRender(args: seq<Arg>, separator: string, next: nat)
    ensures RenderJoin(ArgBuilders(args), separator, next) == Query(ListText(args, separator, next), AllParams(args))
    decreases args
  {
    if args != [] {
      var bs := ArgBuilders(args);
      var first := Render(bs[0], next);
      assert first.values == ArgParams(args[0]);
      assert bs[1..] == ArgBuilders(args[1..]);
      ListRender(args[1..], separator, next + |first.values|);
    }
  }

  lemma {:induction false} RowsRender(records: seq<seq<(string, Arg)>>, columns: seq<string>, next: nat)
    ensures RenderJoin(InsertRows(records, columns), ", ", next) == Query(RowsText(records, columns, next), RowsParams(records, columns))
    decreases records
  {
    if records != [] {
      var n1 := next + |AllParams(Cells(records[0], columns))|;
      RowsRender(records[1..], columns, n1);
      RowStep(records, columns, next, n1);
    }
  }

  /** One step of RowsRender: the first row in front of rows already known to render as intended. */
  lemma RowStep(records: seq<seq<(string, Arg)>>, columns: seq<string>, next: nat, n1: nat)
    requires records != [] && n1 == next + |AllParams(Cells(records[0], columns))|
    requires RenderJoin(InsertRows(records[1..], columns), ", ", n1)
               == Query(RowsText(records[1..], columns, n1), RowsParams(records[1..], columns))
    ensures RenderJoin(InsertRows(records, columns), ", ", next) == Query(RowsText(records, columns, next), RowsParams(records, columns))
  {
    if |records| == 1 {
      LastRow(records, columns, next);
    } else {
      ManyRows(records, columns, next, n1);
    }
  }

  /** The step of RowsRender for more than one record. */
  lemma ManyRows(records: seq<seq<(string, Arg)>>, columns: seq<string>, next: nat, n1: nat)
    requires |records| > 1 && n1 == next + |AllParams(Cells(records[0], columns))|
    requires RenderJoin(InsertRows(records[1..], columns), ", ", n1)
               == Query(RowsText(records[1..], columns, n1), RowsParams(records[1..], columns))
    ensures RenderJoin(InsertRows(records, columns), ", ", next) == Query(RowsText(records, columns, next), RowsParams(records, columns))
  {
    RowRenders(records[0], columns, next);
    InsertRowsCons(records, columns);
    RowsTextCons(records, columns, next, n1);
    RowThenRows(InsertRow(records[0], columns), InsertRows(records[1..], columns), next, n1,
                "(" + ListText(Cells(records[0], columns), ", ", next) + ")", AllParams(Cells(records[0], columns)),
                RowsText(records[1..], columns, n1), RowsParams(records[1..], columns));
  }

  /** A row in front of further rows, each part already known to render as given. */
  lemma RowThenRows(row: Builder, rest: seq<Builder>, next: nat, n1: nat,
                    rowText: string, rowValues: seq<Value>, restText: string, restValues: seq<Value>)
    requires rest != []
    requires Render(row, next) == Query(rowText, rowValues)
    requires n1 == next + |rowValues| && RenderJoin(rest, ", ", n1) == Query(restText, restValues)
    ensures RenderJoin([row] + rest, ", ", next) == Query(rowText + ", " + restText, rowValues + restValues)
  {
    RenderJoinCons(row, rest, ", ", next);
  }

  /** The rows of a single record are its one row. */
  lemma LastRow(records: seq<seq<(string, Arg)>>, columns: seq<string>, next: nat)
    requires |records| == 1
    ensures RenderJoin(InsertRows(records, columns), ", ", next) == Query(RowsText(records, columns, next), RowsParams(records, columns))
  {
    var cells := Cells(records[0], columns);
    var row := InsertRow(records[0], columns);
    RowRenders(records[0], columns, next);
    InsertRowsCons(records, columns);
    assert InsertRows(records, columns) == [row];
    RenderJoinOne(row, ", ", next);
    assert RowsParams(records, columns) == AllParams(cells) + [];
  }

  /** The VALUES list of several records is the first row, a comma and the rest, numbered on. */
  lemma RowsTextCons(records: seq<seq<(string, Arg)>>, columns: seq<string>, next: nat, n1: nat)
    requires |records| > 1 && n1 == next + |AllParams(Cells(records[0], columns))|
    ensures RowsText(records, columns, next)
              == "(" + ListText(Cells(records[0], columns), ", ", next) + ")" + ", " + RowsText(records[1..], columns, n1)
    ensures RowsParams(records, columns) == AllParams(Cells(records[0], columns)) + RowsParams(records[1..], columns)
  {
  }

  /** One row renders as its cells in parentheses, binding the cells' values. */
  lemma RowRenders(record: seq<(string, Arg)>, columns: seq<string>, next: nat)
    ensures Render(InsertRow(record, columns), next)
              == Query("(" + ListText(Cells(record, columns), ", ", next) + ")", AllParams(Cells(record, columns)))
  {
    ListRender(Cells(record, columns), ", ", next);
  }

  /** The rows of several records are the first record's row and the rows of the rest. */
  lemma InsertRowsCons(records: seq<seq<(string, Arg)>>, columns: seq<string>)
    requires records != []
    ensures InsertRows(records, columns) == [InsertRow(records[0], columns)] + InsertRows(records[1..], columns)
  {
  }

  /** spreadInsert fails on no records, on records whose defined keys differ from the
      first record's, and on a column that fails to escape, and succeeds otherwise. */
  lemma SpreadInsertOutcome(records: seq<Record<Arg>>)
    ensures records == [] ==> SpreadInsert(records) == Failure(EmptyObjectList)
    ensures records != [] &&
            (exists i :: 0 <= i < |records| &&
               KeySet(FilterUndefined(records[i], Plain(Undefined))) != KeySet(FilterUndefined(records[0], Plain(Undefined))))
            ==> SpreadInsert(records) == Failure(KeyMismatch)
    ensures SpreadInsert(records).Success? <==>
              && records != []
              && (forall i :: 0 <= i < |records| ==>
                    KeySet(FilterUndefined(records[i], Plain(Undefined))) == KeySet(FilterUndefined(records[0], Plain(Undefined))))
              && forall j :: 0 <= j < |InsertColumns(records)| ==> Escapable(InsertColumns(records)[j])
  {
    var filtered := FilterAll(records);
    ExtractKeysChecksKeySets(filtered);
    if records != [] {
      assert InsertColumns(records) == Keys(filtered[0]);
    }
  }

  /** When the key sets agree but a column fails to escape, spreadInsert fails with
      the error of the first such column. */
  lemma SpreadInsertColumnFails(records: seq<Record<Arg>>) returns (j: nat)
    requires records != []
    requires forall i :: 0 <= i < |records| ==>
               KeySet(FilterUndefined(records[i], Plain(Undefined))) == KeySet(FilterUndefined(records[0], Plain(Undefined)))
    requires !forall k :: 0 <= k < |InsertColumns(records)| ==> Escapable(InsertColumns(records)[k])
    ensures j < |InsertColumns(records)| && !Escapable(InsertColumns(records)[j])
    ensures forall k :: 0 <= k < j ==> Escapable(InsertColumns(records)[k])
    ensures SpreadInsert(records) == Failure(EscapeIdentifier(InsertColumns(records)[j]).error)
  {
    var filtered := FilterAll(records);
    ExtractKeysChecksKeySets(filtered);
    var columns := InsertColumns(records);
    assert columns == Keys(filtered[0]);
    assert ExtractKeys(filtered) == Success(columns);
    j := EscapeAllFails(columns);
  }

  /** A successful spreadInsert renders the column header followed by one
      parenthesised row per record, the rows numbered on from one another. */
  lemma SpreadInsertRenders(records: seq<Record<Arg>>, next: nat)
    ensures SpreadInsert(records).Success? ==>
              var columns := InsertColumns(records);
              Render(SpreadInsert(records).value, next)
                == Query(InsertPrefix(EscapeAll(columns).value) + RowsText(records, columns, next),
                         RowsParams(records, columns))
  {
    if SpreadInsert(records).Success? {
      var filtered := FilterAll(records);
      assert InsertColumns(records) == Keys(filtered[0]);
      RowsRender(records, InsertColumns(records), next);
    }
  }

  /** Two records with the same entries have the same keys. */
  lemma SameEntriesSameKeys(r1: seq<(string, Arg)>, r2: seq<(string, Arg)>)
    requires multiset(r1) == multiset(r2)
    ensures KeySet(r1) == KeySet(r2)
  {
    forall c | c in KeySet(r1) ensures c in KeySet(r2) {
      var i :| 0 <= i < |r1| && r1[i].0 == c;
      assert r1[i] in multiset(r2);
      var k :| 0 <= k < |r2| && r2[k] == r1[i];
    }
    forall c | c in KeySet(r2) ensures c in KeySet(r1) {
      var k :| 0 <= k < |r2| && r2[k].0 == c;
      assert r2[k] in multiset(r1);
      var i :| 0 <= i < |r1| && r1[i] == r2[k];
    }
  }

  /** A row is built by looking cells up by column name, so a record listing the same
      entries in another order gives the same row. */
  lemma RowIgnoresKeyOrder(r1: Record<Arg>, r2: Record<Arg>, columns: seq<string>)
    requires multiset(r1) == multiset(r2)
    ensures InsertRow(r1, columns) == InsertRow(r2, columns)
  {
    SameEntriesSameKeys(r1, r2);
    assert Cells(r1, columns) == Cells(r2, columns) by {
      forall j | 0 <= j < |columns| ensures Lookup(r1, columns[j]) == Lookup(r2, columns[j]) {
        var c := columns[j];
        if c in KeySet(r1) {
          var i :| 0 <= i < |r1| && r1[i].0 == c;
          LookupFinds(r1, i);
          assert r1[i] in multiset(r2);
          var k :| 0 <= k < |r2| && r2[k] == r1[i];
          LookupFinds(r2, k);
        } else {
          LookupMisses(r1, c);
          LookupMisses(r2, c);
        }
      }
    }
  }

  /** In a successful insert every cell is defined: each record has a defined value
      for every column, so no row ever binds `undefined` for a missing column. */
  lemma InsertCellsDefined(records: seq<Record<Arg>>, i: nat, j: nat)
    requires SpreadInsert(records).Success?
    requires i < |records| && j < |InsertColumns(records)|
    ensures Lookup(records[i], InsertColumns(records)[j]) != Plain(Undefined)
    ensures exists e :: e in records[i] && e.0 == InsertColumns(records)[j]
                        && Lookup(records[i], InsertColumns(records)[j]) == e.1
  {
    SpreadInsertOutcome(records);
    var c := InsertColumns(records)[j];
    var f0 := FilterUndefined(records[0], Plain(Undefined));
    var fi := FilterUndefined(records[i], Plain(Undefined));
    assert c == f0[j].0 && c in KeySet(f0);
    assert c in KeySet(fi);
    var k :| 0 <= k < |fi| && fi[k].0 == c;
    FilterMembers(records[i], Plain(Undefined));
    assert fi[k] in records[i];
    var m :| 0 <= m < |records[i]| && records[i][m] == fi[k];
    LookupFinds(records[i], m);
  }
}
