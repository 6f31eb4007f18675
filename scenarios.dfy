/** The query scenarios of test/query.test.ts, stated on the exact concatenated
    text (the tests compare texts after stripping common indentation; the
    literal chunks below are the stripped ones). */
module Scenarios {
  import opened Wrappers
  import opened Utils
  import opened Numerals
  import opened SqlBuilder
  import opened SqlTag

  lemma SmallPlaceholders()
    ensures Placeholder(1) == "$1" && Placeholder(2) == "$2" && Placeholder(3) == "$3"
    ensures Placeholder(4) == "$4" && Placeholder(5) == "$5" && Placeholder(6) == "$6"
    ensures Placeholder(7) == "$7"
  {
    assert DigitChar(1) == '1' && DigitChar(2) == '2' && DigitChar(3) == '3' && DigitChar(4) == '4';
    assert DigitChar(5) == '5' && DigitChar(6) == '6' && DigitChar(7) == '7';
  }

  /** A plain interpolation becomes `$1` and binds the value. */
  lemma SelectById()
    ensures Sql(["SELECT email FROM users WHERE id = ", ""], [Plain(Number(1))])
            == Query("SELECT email FROM users WHERE id = $1", [Number(1)])
  {
    var texts := ["SELECT email FROM users WHERE id = ", ""];
    var args := [Plain(Number(1))];
    SqlRendersTemplate(texts, args);
    SmallPlaceholders();
    assert texts[1..] == [""] && args[1..] == [];
    assert AllParams(args) == [Number(1)];
  }

  /** sql.safe binds its value like a plain interpolation. */
  lemma SelectBySafeValue()
    ensures Sql(["SELECT email FROM users WHERE id = ", ""], [Fragment(SafeExpression(Number(1)))])
            == Query("SELECT email FROM users WHERE id = $1", [Number(1)])
  {
    var texts := ["SELECT email FROM users WHERE id = ", ""];
    var args := [Fragment(SafeExpression(Number(1)))];
    SqlRendersTemplate(texts, args);
    SmallPlaceholders();
    assert texts[1..] == [""] && args[1..] == [];
    assert AllParams(args) == [Number(1)];
  }

  /** sql.raw inlines its text and binds nothing. */
  lemma SelectByRawValue()
    ensures Sql(["SELECT email FROM users WHERE id = ", ""], [Fragment(RawExpression("1"))])
            == Query("SELECT email FROM users WHERE id = 1", [])
  {
    var texts := ["SELECT email FROM users WHERE id = ", ""];
    var args := [Fragment(RawExpression("1"))];
    SqlRendersTemplate(texts, args);
    assert texts[1..] == [""] && args[1..] == [];
    assert AllParams(args) == [];
  }

  lemma PlainColumns()
    ensures EscapeIdentifier("name") == Success("\"name\"")
    ensures EscapeIdentifier("age") == Success("\"age\"")
    ensures EscapeIdentifier("email") == Success("\"email\"")
    ensures EscapeIdentifier("created_at") == Success("\"created_at\"")
    ensures EscapeIdentifier("role") == Success("\"role\"")
  {
    EscapeUnquoted("name");
    assert "\"" + "name" + "\"" == "\"name\"";
    EscapeUnquoted("age");
    assert "\"" + "age" + "\"" == "\"age\"";
    EscapeUnquoted("email");
    assert "\"" + "email" + "\"" == "\"email\"";
    EscapeUnquoted("created_at");
    assert "\"" + "created_at" + "\"" == "\"created_at\"";
    EscapeUnquoted("role");
    assert "\"" + "role" + "\"" == "\"role\"";
  }

  /** The filtered entries of the single-record tests: the trailing `foo: undefined`
      is dropped and the other entries keep their order. */
  lemma DropsTrailingUndefined(column: string, v: Arg)
    requires v != Plain(Undefined)
    ensures FilterUndefined([("name", Plain(Str("Hugo"))), ("age", Plain(Number(20))), (column, v), ("foo", Plain(Undefined))], Plain(Undefined))
            == [("name", Plain(Str("Hugo"))), ("age", Plain(Number(20))), (column, v)]
  {
    var e0, e1, e2, e3 := ("name", Plain(Str("Hugo"))), ("age", Plain(Number(20))), (column, v), ("foo", Plain(Undefined));
    FilterSingle(e3, Plain(Undefined));
    FilterCons(e2, [e3], Plain(Undefined));
    assert [e2] + [e3] == [e2, e3];
    FilterCons(e1, [e2, e3], Plain(Undefined));
    assert [e1] + [e2, e3] == [e1, e2, e3];
    FilterCons(e0, [e1, e2, e3], Plain(Undefined));
    assert [e0] + [e1, e2, e3] == [e0, e1, e2, e3];
    assert [e0] + ([e1] + ([e2] + [])) == [e0, e1, e2];
  }

  function EmailRaw(): Arg {
    Fragment(RawExpression("'foo@example.com'"))
  }

  /** One rendered assignment `"col" = <value>`. */
  function Pair(e: (string, Arg), next: nat): string
    requires Escapable(e.0)
  {
    EscapeIdentifier(e.0).value + " = " + Render(ToSqlBuilder(e.1), next).text
  }

  /** Three entries whose columns all escape. */
  lemma EscapableThree(e0: (string, Arg), e1: (string, Arg), e2: (string, Arg))
    requires Escapable(e0.0) && Escapable(e1.0) && Escapable(e2.0)
    ensures AllEscapable([e0, e1, e2])
  {
  }

  /** A chain of three assignments, the later values numbered from n1 and n2. */
  lemma PairsThree(e0: (string, Arg), e1: (string, Arg), e2: (string, Arg), delimiter: string, next: nat, n1: nat, n2: nat)
    requires Escapable(e0.0) && Escapable(e1.0) && Escapable(e2.0)
    requires n1 == next + |ArgParams(e0.1)| && n2 == n1 + |ArgParams(e1.1)|
    ensures PairsText([e0, e1, e2], delimiter, next) == Pair(e0, next) + delimiter + (Pair(e1, n1) + delimiter + Pair(e2, n2))
  {
    var es := [e0, e1, e2];
    EscapableThree(e0, e1, e2);
    assert es[1..] == [e1, e2] && es[1..][1..] == [e2];
    PairsTextCons(es, delimiter, next);
    PairsTextCons(es[1..], delimiter, n1);
  }

  /** The values of three entries, in order. */
  lemma ParamsThree(e0: (string, Arg), e1: (string, Arg), e2: (string, Arg))
    ensures EntryParams([e0, e1, e2]) == ArgParams(e0.1) + (ArgParams(e1.1) + (ArgParams(e2.1) + []))
  {
    var es := [e0, e1, e2];
    assert es[1..] == [e1, e2] && es[1..][1..] == [e2] && es[1..][1..][1..] == [];
    assert EntryParams([e2]) == ArgParams(e2.1) + [];
    assert EntryParams([e1, e2]) == ArgParams(e1.1) + EntryParams([e2]);
  }

  /** A plain value's assignment binds the next placeholder. */
  lemma PlainPair(column: string, v: Value, next: nat)
    ensures Escapable(column) ==> Pair((column, Plain(v)), next) == EscapeIdentifier(column).value + " = " + Placeholder(next)
    ensures ArgParams(Plain(v)) == [v]
  {
  }

  /** A raw fragment's assignment inlines the fragment's text. */
  lemma RawPair(column: string, text: string, next: nat)
    ensures Escapable(column) ==> Pair((column, Fragment(RawExpression(text))), next) == EscapeIdentifier(column).value + " = " + text
    ensures ArgParams(Fragment(RawExpression(text))) == []
  {
  }

  /** The entries of the spreadAnd test once `foo` is dropped. */
  function WhereEntries(): seq<(string, Arg)> {
    [("name", Plain(Str("Hugo"))), ("age", Plain(Number(20))), ("email", EmailRaw())]
  }

  /** Their columns escape and their values are the two plain ones. */
  lemma WhereEntriesEscape()
    ensures AllEscapable(WhereEntries())
    ensures EntryParams(WhereEntries()) == [Str("Hugo"), Number(20)]
  {
    PlainColumns();
    EscapableThree(("name", Plain(Str("Hugo"))), ("age", Plain(Number(20))), ("email", EmailRaw()));
    ParamsThree(("name", Plain(Str("Hugo"))), ("age", Plain(Number(20))), ("email", EmailRaw()));
  }

  /** The AND chain of the spreadAnd test. */
  lemma WhereChain()
    ensures AllEscapable(WhereEntries())
    ensures PairsText(WhereEntries(), " AND ", 1) == WhereChainText()
  {
    WhereEntriesEscape();
    PlainColumns();
    SmallPlaceholders();
    PairsThree(("name", Plain(Str("Hugo"))), ("age", Plain(Number(20))), ("email", EmailRaw()), " AND ", 1, 2, 3);
    PlainPair("name", Str("Hugo"), 1);
    PlainPair("age", Number(20), 2);
    RawPair("email", "'foo@example.com'", 3);
  }

  /** The record of the spreadAnd test. */
  function WhereRecord(): Record<Arg> {
    [("name", Plain(Str("Hugo"))), ("age", Plain(Number(20))), ("email", EmailRaw()), ("foo", Plain(Undefined))]
  }

  /** The rendered AND chain of the spreadAnd test. */
  function WhereChainText(): string {
    "\"name\"" + " = " + "$1" + " AND " + ("\"age\"" + " = " + "$2" + " AND " + ("\"email\"" + " = " + "'foo@example.com'"))
  }

  /** spreadAnd of the test record renders the parenthesised AND chain. */
  lemma WhereRenders()
    ensures SpreadAnd(WhereRecord()).Success?
    ensures Render(SpreadAnd(WhereRecord()).value, 1) == Query("(" + WhereChainText() + ")", [Str("Hugo"), Number(20)])
  {
    DropsTrailingUndefined("email", EmailRaw());
    WhereEntriesEscape();
    WhereChain();
    SpreadAndRenders(WhereRecord(), 1);
  }

  /** spreadAnd drops `foo: undefined`, numbers the plain values and inlines the raw one.
      The pieces spell test/query.test.ts:35-50's expected text
          SELECT * FROM users WHERE ("name" = $1 AND "age" = $2 AND "email" = 'foo@example.com')
      with values ["Hugo", 20]. */
  lemma WhereSpreadAnd()
    ensures SpreadAnd(WhereRecord()).Success?
    ensures Sql(["SELECT * FROM users WHERE ", ""], [Fragment(SpreadAnd(WhereRecord()).value)])
            == Query("SELECT * FROM users WHERE " + "(" + WhereChainText() + ")", [Str("Hugo"), Number(20)])
  {
    WhereRenders();
    var b := SpreadAnd(WhereRecord()).value;
    WrappedInTemplate("SELECT * FROM users WHERE ", b, "");
    ValuesIgnoreStart(b, 1, 1);
    Associative("SELECT * FROM users WHERE ", "(" + WhereChainText(), ")");
    Associative("SELECT * FROM users WHERE ", "(", WhereChainText());
  }

  lemma Associative(a: string, b: string, c: string)
    ensures a + b + c == a + (b + c)
  {
  }

  /** A fragment interpolated between two chunks renders in place, numbered from $1. */
  lemma WrappedInTemplate(before: string, b: Builder, after: string)
    ensures Sql([before, after], [Fragment(b)]) == Query(before + Render(b, 1).text + after, Params(b))
  {
    var texts := [before, after];
    var args := [Fragment(b)];
    SqlRendersTemplate(texts, args);
    assert texts[1..] == [after] && args[1..] == [];
    assert AllParams(args) == Params(b);
  }

  function NowRaw(): Arg {
    Fragment(RawExpression("NOW()"))
  }

  /** The record of the spreadUpdate and single spreadInsert tests. */
  function UserRecord(): Record<Arg> {
    [("name", Plain(Str("Hugo"))), ("age", Plain(Number(20))), ("created_at", NowRaw()), ("foo", Plain(Undefined))]
  }

  /** The entries of the spreadUpdate and single spreadInsert tests once `foo` is dropped. */
  function UserEntries(): seq<(string, Arg)> {
    [("name", Plain(Str("Hugo"))), ("age", Plain(Number(20))), ("created_at", NowRaw())]
  }

  /** Their columns escape and their values are the two plain ones. */
  lemma UserEntriesEscape()
    ensures AllEscapable(UserEntries())
    ensures EntryParams(UserEntries()) == [Str("Hugo"), Number(20)]
  {
    PlainColumns();
    EscapableThree(("name", Plain(Str("Hugo"))), ("age", Plain(Number(20))), ("created_at", NowRaw()));
    ParamsThree(("name", Plain(Str("Hugo"))), ("age", Plain(Number(20))), ("created_at", NowRaw()));
  }

  /** The assignment chain of the spreadUpdate test. */
  lemma UpdateChain()
    ensures AllEscapable(UserEntries())
    ensures PairsText(UserEntries(), ", ", 1) == UpdateChainText()
  {
    UserEntriesEscape();
    PlainColumns();
    SmallPlaceholders();
    PairsThree(("name", Plain(Str("Hugo"))), ("age", Plain(Number(20))), ("created_at", NowRaw()), ", ", 1, 2, 3);
    PlainPair("name", Str("Hugo"), 1);
    PlainPair("age", Number(20), 2);
    RawPair("created_at", "NOW()", 3);
  }

  /** The rendered assignments of the spreadUpdate test. */
  function UpdateChainText(): string {
    "\"name\"" + " = " + "$1" + ", " + ("\"age\"" + " = " + "$2" + ", " + ("\"created_at\"" + " = " + "NOW()"))
  }

  /** spreadUpdate of the test record renders the comma-separated assignments. */
  lemma UpdateRenders()
    ensures SpreadUpdate(UserRecord()).Success?
    ensures Render(SpreadUpdate(UserRecord()).value, 1) == Query(UpdateChainText(), [Str("Hugo"), Number(20)])
  {
    DropsTrailingUndefined("created_at", NowRaw());
    UserEntriesEscape();
    UpdateChain();
    SpreadUpdateRenders(UserRecord(), 1);
  }

  /** spreadUpdate drops `foo: undefined` and separates the assignments by commas.
      The pieces spell test/query.test.ts:100-115's expected text
          UPDATE users SET "name" = $1, "age" = $2, "created_at" = NOW()
      with values ["Hugo", 20]. */
  lemma UpdateScenario()
    ensures SpreadUpdate(UserRecord()).Success?
    ensures Sql(["UPDATE users SET ", ""], [Fragment(SpreadUpdate(UserRecord()).value)])
            == Query("UPDATE users SET " + UpdateChainText(), [Str("Hugo"), Number(20)])
  {
    UpdateRenders();
    var b := SpreadUpdate(UserRecord()).value;
    WrappedInTemplate("UPDATE users SET ", b, "");
    ValuesIgnoreStart(b, 1, 1);
  }

  /** The columns of the insert tests escape to their quoted identifiers. */
  lemma UserColumns()
    ensures EscapeAll(["name", "age", "created_at"]) == Success(["\"name\"", "\"age\"", "\"created_at\""])
  {
    PlainColumns();
    var cs := ["name", "age", "created_at"];
    assert forall j :: 0 <= j < |cs| ==> EscapeIdentifier(cs[j]).Success?;
    var r := EscapeAll(cs);
    assert r.value[0] == "\"name\"" && r.value[1] == "\"age\"" && r.value[2] == "\"created_at\"";
    assert r.value == ["\"name\"", "\"age\"", "\"created_at\""];
    assert r == Success(r.value);
  }

  /** The column header of the insert tests. */
  lemma UserHeader()
    ensures InsertPrefix(["\"name\"", "\"age\"", "\"created_at\""])
            == "(" + ("\"name\"" + ", " + ("\"age\"" + ", " + "\"created_at\"")) + ") VALUES "
  {
    var ids := ["\"name\"", "\"age\"", "\"created_at\""];
    assert ids[1..] == ["\"age\"", "\"created_at\""] && ids[1..][1..] == ["\"created_at\""];
  }

  /** A plain value then another cell. */
  lemma TwoCells(y: Value, c: Arg, next: nat)
    ensures ListText([Plain(y), c], ", ", next) == Placeholder(next) + ", " + Render(ToSqlBuilder(c), next + 1).text
    ensures AllParams([Plain(y), c]) == [y] + ArgParams(c)
  {
    var cells := [Plain(y), c];
    assert cells[1..] == [c];
    assert ArgParams(Plain(y)) == [y];
    assert AllParams([c]) == ArgParams(c) + [];
  }

  /** A VALUES row of two plain values and a third cell. */
  lemma ThreeCells(x: Value, y: Value, c: Arg, next: nat)
    ensures ListText([Plain(x), Plain(y), c], ", ", next)
            == Placeholder(next) + ", " + (Placeholder(next + 1) + ", " + Render(ToSqlBuilder(c), next + 2).text)
    ensures AllParams([Plain(x), Plain(y), c]) == [x, y] + ArgParams(c)
  {
    var cells := [Plain(x), Plain(y), c];
    assert cells[1..] == [Plain(y), c];
    assert ArgParams(Plain(x)) == [x];
    TwoCells(y, c, next + 1);
    assert [x] + ([y] + ArgParams(c)) == [x, y] + ArgParams(c);
  }

  /** The cells of the single-record insert, looked up by column. */
  lemma UserCells()
    ensures Cells(UserRecord(), ["name", "age", "created_at"]) == [Plain(Str("Hugo")), Plain(Number(20)), NowRaw()]
  {
    LookupFinds(UserRecord(), 0);
    LookupFinds(UserRecord(), 1);
    LookupFinds(UserRecord(), 2);
  }

  /** The header of the insert tests. */
  function UserHeaderText(): string {
    "(" + ("\"name\"" + ", " + ("\"age\"" + ", " + "\"created_at\"")) + ") VALUES "
  }

  /** The columns of the insert tests come from the first record's defined keys. */
  lemma UserInsertColumns(records: seq<Record<Arg>>)
    requires records != [] && records[0] == UserRecord()
    ensures InsertColumns(records) == ["name", "age", "created_at"]
  {
    DropsTrailingUndefined("created_at", NowRaw());
    assert FilterUndefined(records[0], Plain(Undefined)) == UserEntries();
  }

  /** The cells of the test user's row rendered from a given id. */
  lemma UserRow(next: nat)
    ensures ListText(Cells(UserRecord(), ["name", "age", "created_at"]), ", ", next)
            == Placeholder(next) + ", " + (Placeholder(next + 1) + ", " + "NOW()")
    ensures AllParams(Cells(UserRecord(), ["name", "age", "created_at"])) == [Str("Hugo"), Number(20)]
  {
    UserCells();
    ThreeCells(Str("Hugo"), Number(20), NowRaw(), next);
    assert [Str("Hugo"), Number(20)] + [] == [Str("Hugo"), Number(20)];
  }

  /** spreadInsert accepts the one test record, with the header of the insert tests. */
  lemma InsertSucceeds()
    ensures SpreadInsert([UserRecord()]).Success?
    ensures InsertColumns([UserRecord()]) == ["name", "age", "created_at"]
    ensures InsertPrefix(EscapeAll(["name", "age", "created_at"]).value) == UserHeaderText()
  {
    UserInsertColumns([UserRecord()]);
    UserColumns();
    UserHeader();
    SpreadInsertOutcome([UserRecord()]);
  }

  /** The single VALUES row of the one-record insert. */
  lemma UserRowText()
    ensures RowsText([UserRecord()], ["name", "age", "created_at"], 1) == "(" + ("$1" + ", " + ("$2" + ", " + "NOW()")) + ")"
    ensures RowsParams([UserRecord()], ["name", "age", "created_at"]) == [Str("Hugo"), Number(20)]
  {
    var columns := ["name", "age", "created_at"];
    UserRow(1);
    SmallPlaceholders();
    assert "(" + ListText(Cells(UserRecord(), columns), ", ", 1) + ")" == "(" + ("$1" + ", " + ("$2" + ", " + "NOW()")) + ")";
    assert RowsParams([UserRecord()], columns) == [Str("Hugo"), Number(20)] + [];
  }

  /** spreadInsert of the one test record renders its header and single row. */
  lemma InsertRenders()
    ensures SpreadInsert([UserRecord()]).Success?
    ensures Render(SpreadInsert([UserRecord()]).value, 1)
            == Query(UserHeaderText() + ("(" + ("$1" + ", " + ("$2" + ", " + "NOW()")) + ")"), [Str("Hugo"), Number(20)])
  {
    InsertSucceeds();
    UserRowText();
    SpreadInsertRenders([UserRecord()], 1);
  }

  /** spreadInsert of one record: the defined keys become the columns and the
      record's values one row.
      The pieces spell test/query.test.ts:52-67's expected text
          INSERT INTO users ("name", "age", "created_at") VALUES ($1, $2, NOW()) RETURNING *
      with values ["Hugo", 20]. */
  lemma InsertScenario()
    ensures SpreadInsert([UserRecord()]).Success?
    ensures Sql(["INSERT INTO users ", " RETURNING *"], [Fragment(SpreadInsert([UserRecord()]).value)])
            == Query("INSERT INTO users " + UserHeaderText() + ("(" + ("$1" + ", " + ("$2" + ", " + "NOW()")) + ")") + " RETURNING *",
                     [Str("Hugo"), Number(20)])
  {
    InsertRenders();
    var b := SpreadInsert([UserRecord()]).value;
    WrappedInTemplate("INSERT INTO users ", b, " RETURNING *");
    ValuesIgnoreStart(b, 1, 1);
    Associative("INSERT INTO users ", UserHeaderText(), "(" + ("$1" + ", " + ("$2" + ", " + "NOW()")) + ")");
  }

  /** The second and third records of the multi-row insert test; the third is given
      without the extra `bar` entry (see BarMismatch). */
  function JonRecord(): Record<Arg> {
    [("age", Plain(Number(25))), ("name", Plain(Str("Jon"))), ("foo", Plain(Undefined)), ("created_at", NowRaw())]
  }

  function HansRecord(): Record<Arg> {
    [("age", Plain(Number(27))), ("name", Plain(Str("Hans"))), ("created_at", Plain(Null))]
  }

  /** The third record of the multi-row insert test as the test writes it. */
  function HansWithBar(): Record<Arg> {
    [("bar", Plain(Number(1))), ("age", Plain(Number(27))), ("name", Plain(Str("Hans"))), ("created_at", Plain(Null))]
  }

  lemma KeySetOfThree<V>(e0: (string, V), e1: (string, V), e2: (string, V))
    ensures KeySet([e0, e1, e2]) == {e0.0, e1.0, e2.0}
  {
    var es := [e0, e1, e2];
    assert es[0].0 == e0.0 && es[1].0 == e1.0 && es[2].0 == e2.0;
  }

  /** The defined entries of the later records. */
  lemma LaterRecordsFiltered()
    ensures FilterUndefined(JonRecord(), Plain(Undefined))
            == [("age", Plain(Number(25))), ("name", Plain(Str("Jon"))), ("created_at", NowRaw())]
    ensures FilterUndefined(HansRecord(), Plain(Undefined)) == HansRecord()
    ensures FilterUndefined(HansWithBar(), Plain(Undefined)) == HansWithBar()
  {
    var j := JonRecord();
    assert j[1..][1..][1..] == [("created_at", NowRaw())] && j[1..][1..][1..][1..] == [];
    var h := HansRecord();
    assert h[1..][1..][1..] == [];
    var hb := HansWithBar();
    assert hb[1..][1..][1..][1..] == [];
  }

  /** The key sets of the multi-row records after filtering. */
  lemma LaterKeySets()
    ensures KeySet(FilterUndefined(UserRecord(), Plain(Undefined))) == {"name", "age", "created_at"}
    ensures KeySet(FilterUndefined(JonRecord(), Plain(Undefined))) == {"name", "age", "created_at"}
    ensures KeySet(FilterUndefined(HansRecord(), Plain(Undefined))) == {"name", "age", "created_at"}
    ensures "bar" in KeySet(FilterUndefined(HansWithBar(), Plain(Undefined)))
  {
    DropsTrailingUndefined("created_at", NowRaw());
    LaterRecordsFiltered();
    KeySetOfThree(("name", Plain(Str("Hugo"))), ("age", Plain(Number(20))), ("created_at", NowRaw()));
    KeySetOfThree(("age", Plain(Number(25))), ("name", Plain(Str("Jon"))), ("created_at", NowRaw()));
    KeySetOfThree(("age", Plain(Number(27))), ("name", Plain(Str("Hans"))), ("created_at", Plain(Null)));
    assert HansWithBar()[0].0 == "bar";
  }

  /** With the extra `bar` key the third record's keys differ from the first's, so
      spreadInsert refuses the records of the multi-row test as the test writes them. */
  lemma BarMismatch()
    ensures SpreadInsert([UserRecord(), JonRecord(), HansWithBar()]) == Failure(KeyMismatch)
  {
    var records := [UserRecord(), JonRecord(), HansWithBar()];
    LaterKeySets();
    assert KeySet(FilterUndefined(records[2], Plain(Undefined))) != KeySet(FilterUndefined(records[0], Plain(Undefined)));
    SpreadInsertOutcome(records);
  }

  /** The cells of the later records, looked up by column whatever the entry order. */
  lemma LaterCells()
    ensures Cells(JonRecord(), ["name", "age", "created_at"]) == [Plain(Str("Jon")), Plain(Number(25)), NowRaw()]
    ensures Cells(HansRecord(), ["name", "age", "created_at"]) == [Plain(Str("Hans")), Plain(Number(27)), Plain(Null)]
  {
    LookupFinds(JonRecord(), 1);
    LookupFinds(JonRecord(), 0);
    LookupFinds(JonRecord(), 3);
    LookupFinds(HansRecord(), 1);
    LookupFinds(HansRecord(), 0);
    LookupFinds(HansRecord(), 2);
  }

  /** The VALUES list of one record: its row. */
  lemma RowsTextOne(r: seq<(string, Arg)>, columns: seq<string>, next: nat)
    ensures RowsText([r], columns, next) == "(" + ListText(Cells(r, columns), ", ", next) + ")"
  {
  }

  /** The VALUES list of two records, the second row numbered from n1. */
  lemma RowsTextTwo(r0: seq<(string, Arg)>, r1: seq<(string, Arg)>, columns: seq<string>, next: nat, n1: nat)
    requires n1 == next + |AllParams(Cells(r0, columns))|
    ensures RowsText([r0, r1], columns, next)
            == "(" + ListText(Cells(r0, columns), ", ", next) + ")" + ", " + "(" + ListText(Cells(r1, columns), ", ", n1) + ")"
  {
    assert [r0, r1][1..] == [r1];
    RowsTextCons([r0, r1], columns, next, n1);
    RowsTextOne(r1, columns, n1);
  }

  /** The VALUES list of three records, the later rows numbered from n1 and n2. */
  lemma RowsTextThree(r0: seq<(string, Arg)>, r1: seq<(string, Arg)>, r2: seq<(string, Arg)>, columns: seq<string>,
                      next: nat, n1: nat, n2: nat)
    requires n1 == next + |AllParams(Cells(r0, columns))| && n2 == n1 + |AllParams(Cells(r1, columns))|
    ensures RowsText([r0, r1, r2], columns, next)
            == "(" + ListText(Cells(r0, columns), ", ", next) + ")" + ", "
               + ("(" + ListText(Cells(r1, columns), ", ", n1) + ")" + ", "
               + "(" + ListText(Cells(r2, columns), ", ", n2) + ")")
  {
    assert [r0, r1, r2][1..] == [r1, r2];
    RowsTextCons([r0, r1, r2], columns, next, n1);
    RowsTextTwo(r1, r2, columns, n1, n2);
  }

  /** The values of three records' rows, row by row. */
  lemma RowsParamsThree(r0: seq<(string, Arg)>, r1: seq<(string, Arg)>, r2: seq<(string, Arg)>, columns: seq<string>)
    ensures RowsParams([r0, r1, r2], columns)
            == AllParams(Cells(r0, columns)) + (AllParams(Cells(r1, columns)) + AllParams(Cells(r2, columns)))
  {
    var records := [r0, r1, r2];
    assert records[1..] == [r1, r2] && records[1..][1..] == [r2] && records[1..][1..][1..] == [];
    assert RowsParams([r2], columns) == AllParams(Cells(r2, columns)) + [];
  }

  /** Jon's row rendered from a given id. */
  lemma JonRow(next: nat)
    ensures ListText(Cells(JonRecord(), ["name", "age", "created_at"]), ", ", next)
            == Placeholder(next) + ", " + (Placeholder(next + 1) + ", " + "NOW()")
    ensures AllParams(Cells(JonRecord(), ["name", "age", "created_at"])) == [Str("Jon"), Number(25)]
  {
    LaterCells();
    ThreeCells(Str("Jon"), Number(25), NowRaw(), next);
    assert [Str("Jon"), Number(25)] + [] == [Str("Jon"), Number(25)];
  }

  /** Hans's row rendered from a given id: all three cells are plain. */
  lemma HansRow(next: nat)
    ensures ListText(Cells(HansRecord(), ["name", "age", "created_at"]), ", ", next)
            == Placeholder(next) + ", " + (Placeholder(next + 1) + ", " + Placeholder(next + 2))
    ensures AllParams(Cells(HansRecord(), ["name", "age", "created_at"])) == [Str("Hans"), Number(27), Null]
  {
    LaterCells();
    ThreeCells(Str("Hans"), Number(27), Plain(Null), next);
    assert [Str("Hans"), Number(27)] + [Null] == [Str("Hans"), Number(27), Null];
  }

  /** The three VALUES rows of the multi-row insert test, numbered $1 to $7 across rows. */
  lemma MultiRows()
    ensures RowsText([UserRecord(), JonRecord(), HansRecord()], ["name", "age", "created_at"], 1) == MultiRowsText()
  {
    var columns := ["name", "age", "created_at"];
    UserRow(1);
    JonRow(3);
    HansRow(5);
    SmallPlaceholders();
    RowsTextThree(UserRecord(), JonRecord(), HansRecord(), columns, 1, 3, 5);
  }

  /** The values of the multi-row insert test, row by row. */
  lemma MultiParams()
    ensures RowsParams([UserRecord(), JonRecord(), HansRecord()], ["name", "age", "created_at"])
            == [Str("Hugo"), Number(20)] + ([Str("Jon"), Number(25)] + [Str("Hans"), Number(27), Null])
  {
    var columns := ["name", "age", "created_at"];
    RowsParamsThree(UserRecord(), JonRecord(), HansRecord(), columns);
    UserRow(1);
    JonRow(3);
    HansRow(5);
  }

  /** The three records of the multi-row insert have the same defined keys. */
  lemma MultiKeysAgree()
    ensures var records := [UserRecord(), JonRecord(), HansRecord()];
            forall i :: 0 <= i < |records| ==>
              KeySet(FilterUndefined(records[i], Plain(Undefined))) == KeySet(FilterUndefined(records[0], Plain(Undefined)))
  {
    var records := [UserRecord(), JonRecord(), HansRecord()];
    LaterKeySets();
    forall i | 0 <= i < |records|
      ensures KeySet(FilterUndefined(records[i], Plain(Undefined))) == KeySet(FilterUndefined(records[0], Plain(Undefined)))
    {
      if i == 0 {
      } else if i == 1 {
        assert records[i] == JonRecord();
      } else {
        assert records[i] == HansRecord();
      }
    }
  }

  /** The VALUES rows of the multi-row insert test. */
  function MultiRowsText(): string {
    "(" + ("$1" + ", " + ("$2" + ", " + "NOW()")) + ")" + ", "
    + ("(" + ("$3" + ", " + ("$4" + ", " + "NOW()")) + ")" + ", "
    + "(" + ("$5" + ", " + ("$6" + ", " + "$7")) + ")")
  }

  /** spreadInsert of the three test records renders the header and the three rows. */
  lemma MultiInsertRenders()
    ensures SpreadInsert([UserRecord(), JonRecord(), HansRecord()]).Success?
    ensures Render(SpreadInsert([UserRecord(), JonRecord(), HansRecord()]).value, 1)
            == Query(UserHeaderText() + MultiRowsText(),
                     [Str("Hugo"), Number(20)] + ([Str("Jon"), Number(25)] + [Str("Hans"), Number(27), Null]))
  {
    var records := [UserRecord(), JonRecord(), HansRecord()];
    UserInsertColumns(records);
    MultiKeysAgree();
    UserColumns();
    UserHeader();
    SpreadInsertOutcome(records);
    SpreadInsertRenders(records, 1);
    MultiRows();
    MultiParams();
  }

  /** spreadInsert of several records: one row per record, in column order, with the
      placeholders numbered on across the rows.
      The pieces spell test/query.test.ts:93-96's expected text (for the records
      without the `bar` key, see BarMismatch)
          INSERT INTO users ("name", "age", "created_at")
          VALUES ($1, $2, NOW()), ($3, $4, NOW()), ($5, $6, $7) RETURNING *
      (one line in the source) with values ["Hugo", 20, "Jon", 25, "Hans", 27, null]. */
  lemma MultiInsertScenario()
    ensures SpreadInsert([UserRecord(), JonRecord(), HansRecord()]).Success?
    ensures Sql(["INSERT INTO users ", " RETURNING *"], [Fragment(SpreadInsert([UserRecord(), JonRecord(), HansRecord()]).value)])
            == Query("INSERT INTO users " + UserHeaderText() + MultiRowsText() + " RETURNING *",
                     [Str("Hugo"), Number(20)] + ([Str("Jon"), Number(25)] + [Str("Hans"), Number(27), Null]))
  {
    MultiInsertRenders();
    var b := SpreadInsert([UserRecord(), JonRecord(), HansRecord()]).value;
    WrappedInTemplate("INSERT INTO users ", b, " RETURNING *");
    ValuesIgnoreStart(b, 1, 1);
    Associative("INSERT INTO users ", UserHeaderText(), MultiRowsText());
  }

  /** The record of the multiple-parameter test. */
  function RoleRecord(): Record<Arg> {
    [("name", Plain(Str("Hugo"))), ("age", Plain(Number(20))), ("created_at", NowRaw()), ("role", Plain(Str("user")))]
  }

  /** Filtering four defined entries keeps them all. */
  lemma AllDefined(e0: (string, Arg), e1: (string, Arg), e2: (string, Arg), e3: (string, Arg))
    requires e0.1 != Plain(Undefined) && e1.1 != Plain(Undefined)
    requires e2.1 != Plain(Undefined) && e3.1 != Plain(Undefined)
    ensures FilterUndefined([e0, e1, e2, e3], Plain(Undefined)) == [e0, e1, e2, e3]
  {
    FilterSingle(e3, Plain(Undefined));
    FilterCons(e2, [e3], Plain(Undefined));
    assert [e2] + [e3] == [e2, e3];
    FilterCons(e1, [e2, e3], Plain(Undefined));
    assert [e1] + [e2, e3] == [e1, e2, e3];
    FilterCons(e0, [e1, e2, e3], Plain(Undefined));
    assert [e0] + [e1, e2, e3] == [e0, e1, e2, e3];
  }

  lemma RoleColumns()
    ensures FilterUndefined(RoleRecord(), Plain(Undefined)) == RoleRecord()
    ensures InsertColumns([RoleRecord()]) == ["name", "age", "created_at", "role"]
  {
    var r := RoleRecord();
    AllDefined(r[0], r[1], r[2], r[3]);
    assert r == [r[0], r[1], r[2], r[3]];
    assert Keys(r) == ["name", "age", "created_at", "role"];
  }

  lemma RoleEscapes()
    ensures EscapeAll(["name", "age", "created_at", "role"]) == Success(["\"name\"", "\"age\"", "\"created_at\"", "\"role\""])
  {
    PlainColumns();
    var cs := ["name", "age", "created_at", "role"];
    assert forall j :: 0 <= j < |cs| ==> EscapeIdentifier(cs[j]).Success?;
    var e := EscapeAll(cs);
    var ids := ["\"name\"", "\"age\"", "\"created_at\"", "\"role\""];
    assert |e.value| == 4;
    assert forall j :: 0 <= j < 4 ==> e.value[j] == ids[j];
    assert e.value == ids;
    assert e == Success(e.value);
  }

  lemma RoleHeader()
    ensures InsertPrefix(["\"name\"", "\"age\"", "\"created_at\"", "\"role\""])
            == "(" + ("\"name\"" + ", " + ("\"age\"" + ", " + ("\"created_at\"" + ", " + "\"role\""))) + ") VALUES "
  {
    var ids := ["\"name\"", "\"age\"", "\"created_at\"", "\"role\""];
    assert ids[1..] == ["\"age\"", "\"created_at\"", "\"role\""] && ids[1..][1..] == ["\"created_at\"", "\"role\""];
    assert ids[1..][1..][1..] == ["\"role\""];
  }

  /** A raw fragment then a plain value: the fragment's text, then the next placeholder. */
  lemma RawThenPlain(text: string, z: Value, next: nat)
    ensures ListText([Fragment(RawExpression(text)), Plain(z)], ", ", next) == text + ", " + Placeholder(next)
    ensures AllParams([Fragment(RawExpression(text)), Plain(z)]) == [z]
  {
    var cells := [Fragment(RawExpression(text)), Plain(z)];
    assert cells[1..] == [Plain(z)];
    assert AllParams([Plain(z)]) == [z] + [];
  }

  /** A VALUES row of two plain values, a raw fragment and a plain value. */
  lemma FourCells(x: Value, y: Value, text: string, z: Value, next: nat)
    ensures ListText([Plain(x), Plain(y), Fragment(RawExpression(text)), Plain(z)], ", ", next)
            == Placeholder(next) + ", " + (Placeholder(next + 1) + ", " + (text + ", " + Placeholder(next + 2)))
    ensures AllParams([Plain(x), Plain(y), Fragment(RawExpression(text)), Plain(z)]) == [x] + ([y] + [z])
  {
    var cells := [Plain(x), Plain(y), Fragment(RawExpression(text)), Plain(z)];
    assert cells[1..] == [Plain(y), Fragment(RawExpression(text)), Plain(z)];
    assert cells[1..][1..] == [Fragment(RawExpression(text)), Plain(z)];
    RawThenPlain(text, z, next + 2);
  }

  /** The cells of the multiple-parameter test's record, looked up by column. */
  lemma RoleCells()
    ensures Cells(RoleRecord(), ["name", "age", "created_at", "role"])
            == [Plain(Str("Hugo")), Plain(Number(20)), Fragment(RawExpression("NOW()")), Plain(Str("user"))]
  {
    LookupFinds(RoleRecord(), 0);
    LookupFinds(RoleRecord(), 1);
    LookupFinds(RoleRecord(), 2);
    LookupFinds(RoleRecord(), 3);
  }

  /** Its single VALUES row, numbered from $3. */
  lemma RoleRow()
    ensures RowsText([RoleRecord()], ["name", "age", "created_at", "role"], 3)
            == "(" + ("$3" + ", " + ("$4" + ", " + ("NOW()" + ", " + "$5"))) + ")"
    ensures RowsParams([RoleRecord()], ["name", "age", "created_at", "role"]) == [Str("Hugo")] + ([Number(20)] + [Str("user")])
  {
    var columns := ["name", "age", "created_at", "role"];
    RoleCells();
    FourCells(Str("Hugo"), Number(20), "NOW()", Str("user"), 3);
    SmallPlaceholders();
    RowsTextOne(RoleRecord(), columns, 3);
    assert RowsParams([RoleRecord()], columns) == AllParams(Cells(RoleRecord(), columns)) + [];
  }

  /** The last interpolation of a template, a fragment rendered from $3. */
  lemma FragmentLast(t2: string, t3: string, b: Builder)
    ensures TemplateText([t2, t3], [Fragment(b)], 3) == t2 + Render(b, 3).text + t3
    ensures AllParams([Fragment(b)]) == Params(b)
  {
    var texts, args := [t2, t3], [Fragment(b)];
    assert texts[1..] == [t3] && args[1..] == [];
    assert ArgParams(Fragment(b)) == Params(b);
    assert AllParams(args) == Params(b) + [];
  }

  /** A plain value at $2 in front of that fragment. */
  lemma PlainThenFragment(t1: string, t2: string, t3: string, y: Value, b: Builder)
    ensures TemplateText([t1, t2, t3], [Plain(y), Fragment(b)], 2) == t1 + "$2" + (t2 + Render(b, 3).text + t3)
    ensures AllParams([Plain(y), Fragment(b)]) == [y] + Params(b)
  {
    var texts, args := [t1, t2, t3], [Plain(y), Fragment(b)];
    assert texts[1..] == [t2, t3] && args[1..] == [Fragment(b)];
    FragmentLast(t2, t3, b);
    SmallPlaceholders();
    assert ArgParams(Plain(y)) == [y];
  }

  /** Two plain values then a fragment: the fragment's placeholders continue at $3. */
  lemma TwoValuesText(t0: string, t1: string, t2: string, t3: string, x: Value, y: Value, b: Builder)
    ensures TemplateText([t0, t1, t2, t3], [Plain(x), Plain(y), Fragment(b)], 1)
            == t0 + "$1" + (t1 + "$2" + (t2 + Render(b, 3).text + t3))
    ensures AllParams([Plain(x), Plain(y), Fragment(b)]) == [x] + ([y] + Params(b))
  {
    var texts := [t0, t1, t2, t3];
    var args := [Plain(x), Plain(y), Fragment(b)];
    assert texts[1..] == [t1, t2, t3] && args[1..] == [Plain(y), Fragment(b)];
    PlainThenFragment(t1, t2, t3, y, b);
    SmallPlaceholders();
    assert ArgParams(Plain(x)) == [x];
  }

  lemma TwoValuesThenFragment(t0: string, t1: string, t2: string, t3: string, x: Value, y: Value, b: Builder)
    ensures Sql([t0, t1, t2, t3], [Plain(x), Plain(y), Fragment(b)])
            == Query(t0 + "$1" + (t1 + "$2" + (t2 + Render(b, 3).text + t3)), [x] + ([y] + Params(b)))
  {
    SqlRendersTemplate([t0, t1, t2, t3], [Plain(x), Plain(y), Fragment(b)]);
    TwoValuesText(t0, t1, t2, t3, x, y, b);
  }

  /** The insert of the multiple-parameter test, rendered from $3. */
  lemma RoleInsertRenders()
    ensures SpreadInsert([RoleRecord()]).Success?
    ensures Render(SpreadInsert([RoleRecord()]).value, 3)
            == Query("(" + ("\"name\"" + ", " + ("\"age\"" + ", " + ("\"created_at\"" + ", " + "\"role\""))) + ") VALUES "
                     + ("(" + ("$3" + ", " + ("$4" + ", " + ("NOW()" + ", " + "$5"))) + ")"),
                     [Str("Hugo")] + ([Number(20)] + [Str("user")]))
    ensures Params(SpreadInsert([RoleRecord()]).value) == [Str("Hugo")] + ([Number(20)] + [Str("user")])
  {
    var records := [RoleRecord()];
    RoleColumns();
    RoleEscapes();
    PlainColumns();
    SpreadInsertOutcome(records);
    SpreadInsertRenders(records, 3);
    assert SpreadInsert(records).Success?;
    RoleHeader();
    RoleRow();
    var columns := ["name", "age", "created_at", "role"];
    var header := "(" + ("\"name\"" + ", " + ("\"age\"" + ", " + ("\"created_at\"" + ", " + "\"role\""))) + ") VALUES ";
    var row := "(" + ("$3" + ", " + ("$4" + ", " + ("NOW()" + ", " + "$5"))) + ")";
    assert InsertPrefix(EscapeAll(columns).value) == header;
    assert RowsText(records, columns, 3) == row;
    assert Render(SpreadInsert(records).value, 3) == Query(header + row, RowsParams(records, columns));
    ValuesIgnoreStart(SpreadInsert(records).value, 3, 3);
  }

  /** Interpolated values before an insert fragment take $1 and $2; the insert's own
      values continue at $3.
      The pieces spell test/query.test.ts:117-139's expected text, once dedented:
          WITH some_users AS (
            SELECT * FROM users WHERE id = $1 OR email = $2
          )
          INSERT INTO users ("name", "age", "created_at", "role") VALUES ($3, $4, NOW(), $5) UNION SELECT * FROM some_users RETURNING *
      with values [1, "foo@example.com", "Hugo", 20, "user"]. */
  lemma MultipleParametersScenario()
    ensures SpreadInsert([RoleRecord()]).Success?
    ensures Sql(["WITH some_users AS (\n  SELECT * FROM users WHERE id = ", " OR email = ", "\n)\nINSERT INTO users ",
                 " UNION SELECT * FROM some_users RETURNING *"],
                [Plain(Number(1)), Plain(Str("foo@example.com")), Fragment(SpreadInsert([RoleRecord()]).value)])
            == Query("WITH some_users AS (\n  SELECT * FROM users WHERE id = " + "$1"
                     + (" OR email = " + "$2"
                        + ("\n)\nINSERT INTO users "
                           + ("(" + ("\"name\"" + ", " + ("\"age\"" + ", " + ("\"created_at\"" + ", " + "\"role\""))) + ") VALUES "
                              + ("(" + ("$3" + ", " + ("$4" + ", " + ("NOW()" + ", " + "$5"))) + ")"))
                           + " UNION SELECT * FROM some_users RETURNING *")),
                     [Number(1)] + ([Str("foo@example.com")] + ([Str("Hugo")] + ([Number(20)] + [Str("user")]))))
  {
    RoleInsertRenders();
    TwoValuesThenFragment("WITH some_users AS (\n  SELECT * FROM users WHERE id = ", " OR email = ", "\n)\nINSERT INTO users ",
                          " UNION SELECT * FROM some_users RETURNING *", Number(1), Str("foo@example.com"),
                          SpreadInsert([RoleRecord()]).value);
  }
}
