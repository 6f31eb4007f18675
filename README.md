# squid's fragment-composition engine in Dafny

squid builds PostgreSQL-style parameterised queries (`{ text, values }`) from template
strings. Every query is assembled from *builders*. A builder is a piece of SQL text plus the
values it binds, and it gets its placeholder numbers (`$1`, `$2`, ...) only when it is
rendered, from a "next parameter id". This project models that engine and proves that the
numbering comes out right however the fragments are nested and spliced.

Modules, one per source file (plus two small supporting ones):

- `Wrappers`: the `Result` type. Its failures stand for the exceptions the TypeScript throws.
- `Numerals`: the decimal numeral of a natural number, which spells the placeholder ids. It
  agrees with `Number.prototype.toString()` for ids up to `Number.MAX_SAFE_INTEGER` (2^53 - 1).
- `Utils` (src/utils.ts): `escapeIdentifier`, `filterUndefined`, `mergeLists` and
  `extractKeys`.
  - `mergeLists` is imperative in the source, so here it is a method with a loop, proved
    equal to the reference interleaving `Interleave`.
  - The record helpers are generic in the value type. `filterUndefined` takes the
    `undefined` of that type as a parameter.
  - A JavaScript object is a `Record<V>`: its entries, in property order, with distinct keys.
- `SqlBuilder` (src/sql/builder.ts):
  - the `Builder` datatype (`Raw | Param | Join | Wrap`);
  - rendering (`buildFragment` becomes `Render(b, next)`);
  - `rawSqlBuilder`, `paramSqlBuilder` and `buildSql`;
  - `joinSql`, `transformSql` and `toSqlBuilder`. They come from src/sql/builder.ts
    (imported at src/sql/index.ts:4-12). Their bodies, past line 50 of that file, are not
    part of this model. They are specified by how src/sql/index.ts:52-57, 92-97, 113-117 and
    130-133 use them. Every `transformSql` use adds a prefix and a suffix, so it is `Wrap`.
  - A reference semantics: `Tokens` flattens a builder into text and holes without any id,
    and `Spell` numbers the holes from left to right. `RenderIsSpelling` proves rendering
    equal to it.
- `SqlTag` (src/sql/index.ts): the `sql` template tag, `sql.raw`, `sql.safe`, `spreadAnd`,
  `spreadInsert` and `spreadUpdate`. Each helper has its intended rendering and error cases
  proved.
- `Scenarios`: the queries of test/query.test.ts, stated on their exact text and values.

`sql` calls `buildSql` without an index (src/sql/index.ts:57), and its tests expect `$1`
first, so the tag renders from id 1. The tests compare texts after `dedent`. The literal
chunks used in `Scenarios` are the dedented ones.

## Model

| member | source | states |
|---|---|---|
| Numerals.Decimal | src/sql/builder.ts:47 | the numeral of a placeholder id is a non-empty string of decimal digits with no leading zero |
| Numerals.DecimalRoundTrip | src/sql/builder.ts:47 | reading back the decimal numeral of n gives n |
| Numerals.DecimalInjective | src/sql/builder.ts:47 | two ids have the same numeral exactly when they are equal, so no two placeholders coincide |
| SqlBuilder.Render | src/sql/builder.ts:35-50 | buildFragment has no contract of its own: RenderIsSpelling proves that rendering at id n numbers the holes n, n+1, ... from left to right and binds their values in that order, and ValuesIgnoreStart that the values do not depend on n |
| SqlBuilder.RenderJoin | src/sql/index.ts:54-57 | the rendering of a join has no contract of its own: RenderJoinIsSpelling proves it is the spelling of the children's tokens with the delimiter between them, and JoinSplit that the children after any split point continue from the start id plus the value count before it |
| SqlBuilder.RawSqlBuilder | src/sql/builder.ts:35-40 | a raw builder renders its text verbatim and binds nothing, whatever the start id |
| SqlBuilder.ParamSqlBuilder | src/sql/builder.ts:45-50 | a param builder rendered at id n gives `"$" + decimal(n)` and binds exactly its value |
| SqlBuilder.LeafCounts | src/sql/builder.ts:36-49 | a raw leaf binds 0 values and a param leaf exactly 1; `Param(x)` at 5 renders as `("$5", [x])` |
| SqlBuilder.ToSqlBuilder | src/sql/builder.ts:28 | a builder is kept as it is, and a plain value becomes a param builder |
| SqlBuilder.BuildSql | src/sql/builder.ts:27-30 | building a plain value renders its param builder; building a builder renders that builder |
| SqlBuilder.ToSqlBuilderIdempotent | src/sql/builder.ts:19-30 | normalising an already normalised value changes nothing, and neither does building it |
| SqlBuilder.JoinSql | src/sql/index.ts:54-57 | a joined builder renders as the threaded join of its children at every start id |
| SqlBuilder.TransformSql | src/sql/index.ts:97 | a transformed builder renders the inner text between prefix and suffix and binds the inner values unchanged |
| SqlBuilder.SpellAppend | src/sql/index.ts:54-57 | numbering a concatenation of token lists numbers the second part after the holes of the first, and its values are the two parts' values in order |
| SqlBuilder.RenderIsSpelling | src/sql/builder.ts:45-50 | rendering any builder at id n equals numbering its flattened holes n, n+1, ... from left to right, and the bound values are the holes' values in that order |
| SqlBuilder.RenderJoinIsSpelling | src/sql/index.ts:56 | a join renders as the spelling of its children's tokens with the delimiter between consecutive children |
| SqlBuilder.PlaceholderMatchesValue | src/sql/builder.ts:45-50 | the hole at any position is spelled as the placeholder of the start id plus the number of holes before it, and the value at that index is that hole's value |
| SqlBuilder.HolesBeforeIncrease | src/sql/builder.ts:45-50 | a hole further right has more holes before it, so placeholder ids strictly increase in text order |
| SqlBuilder.EveryHoleCounted | src/sql/builder.ts:45-50 | every count below the number of values is the number of holes before some hole, so every id from the start id to the start id plus the value count minus one occurs |
| SqlBuilder.ValuesIgnoreStart | src/sql/builder.ts:45-50 | the values a builder binds do not depend on the start id |
| SqlBuilder.RenderJoinCons | src/sql/index.ts:56 | a child joined before a non-empty rest: the rest is rendered from the start plus the child's value count, and texts and values are concatenated around the delimiter |
| SqlBuilder.JoinTwo | src/sql/index.ts:92 | joining two builders renders the second after the first's values, with the texts separated by the delimiter |
| SqlBuilder.JoinSplit | src/sql/index.ts:117 | a join split at any child k: the children from k on are rendered from the start plus the value count of the children before k |
| SqlTag.RawBuilders | src/sql/index.ts:51 | the literal chunks mapped one for one to raw builders |
| SqlTag.ArgBuilders | src/sql/index.ts:52 | the interpolations mapped one for one through toSqlBuilder |
| SqlTag.RawExpression | src/sql/index.ts:67-69 | sql.raw inlines its text and binds nothing, whatever the start id |
| SqlTag.SafeExpression | src/sql/index.ts:71-73 | sql.safe always renders as the placeholder of the start id and binds its value |
| SqlTag.ArgParams | src/sql/index.ts:52 | a plain interpolation binds itself, null included; a raw fragment binds nothing; the values never depend on the start id |
| SqlTag.TemplateJoin | src/sql/index.ts:51-56 | the joined, interleaved chunks and interpolations render as each chunk followed by the next interpolation, each interpolation numbered after the values of those before it, binding the interpolations' values in order |
| SqlTag.Sql | src/sql/index.ts:51-57 | the `sql` tag binds exactly the interpolations' values in order: a plain value itself, null included, and a raw fragment nothing (its text is stated by SqlRendersTemplate) |
| SqlTag.SqlRendersTemplate | src/sql/index.ts:34-61 | the `sql` tag's query is that template text numbered from `$1`, with the interpolations' values concatenated in order |
| SqlTag.SqlWithoutInterpolations | src/sql/index.ts:34-61 | a template without interpolations is its single chunk and binds nothing |
| SqlTag.Assignments | src/sql/index.ts:90-93 | on success there is one builder per entry, in entry order, and builder i joins the escaping of column i with the normalised value i by ` = `; every column has escaped |
| SqlTag.AssignmentsSucceed | src/sql/index.ts:90-93 | the `"col" = v` builders are made exactly when every column escapes |
| SqlTag.AssignmentsFail | src/sql/index.ts:90-93 | the chain fails exactly when some column fails to escape, and then with the error of the first such column |
| SqlTag.AssignmentsRender | src/sql/index.ts:90-95 | when every column escapes, the joined assignments render as `"col" = <value>` per entry, separated by the delimiter and numbered on from entry to entry, binding the entries' values in order |
| SqlTag.SpreadAnd | src/sql/index.ts:87-98 | spreadAnd succeeds exactly when every column left after filterUndefined escapes (its text and values are stated by SpreadAndRenders) |
| SqlTag.SpreadUpdate | src/sql/index.ts:125-134 | spreadUpdate succeeds exactly when every column left after filterUndefined escapes (its text and values are stated by SpreadUpdateRenders) |
| SqlTag.SpreadAndRenders | src/sql/index.ts:87-98 | spreadAnd drops undefined entries; it fails exactly when a surviving column fails to escape; otherwise it renders `("col" = v AND ...)` and binds the surviving values in entry order |
| SqlTag.SpreadUpdateRenders | src/sql/index.ts:125-134 | spreadUpdate renders the same pairs separated by `, ` without parentheses, and fails on the same condition |
| SqlTag.AndUpdateAgree | src/sql/index.ts:88-133 | spreadAnd and spreadUpdate fail together, with the same error, and bind the same values |
| SqlTag.Lookup | src/sql/index.ts:113 | `record[column]` is either undefined or the value of an entry with that key, and it is undefined when no entry has that key |
| SqlTag.LookupFinds | src/sql/index.ts:113 | `record[column]` finds the value of the entry with that key, wherever the entry stands |
| SqlTag.LookupMisses | src/sql/index.ts:113 | `record[column]` is undefined for a key no entry has |
| SqlTag.EscapeAll | src/sql/index.ts:109 | escaping the column names succeeds exactly when every name escapes, and then gives each name's escaping in column order |
| SqlTag.EscapeAllFails | src/sql/index.ts:109 | when escaping the column names fails, it fails with the error of the first name that does not escape |
| SqlTag.Cells | src/sql/index.ts:113 | a row's cells are the record's values looked up by column name, in column order |
| SqlTag.InsertRow | src/sql/index.ts:113-114 | a row binds its cells' values in column order, whatever the start id (its text is stated by RowRenders) |
| SqlTag.InsertRows | src/sql/index.ts:112-115 | one row per record, row i being record i's cells in column order, joined with `, ` and wrapped in parentheses |
| SqlTag.FilterAll | src/sql/index.ts:106 | each record filtered of its undefined entries, in record order |
| SqlTag.ListRender | src/sql/index.ts:113-114 | a row's cells joined with `, ` render one after another, each numbered after the values of those before it, binding the cells' values in order |
| SqlTag.RowRenders | src/sql/index.ts:114 | one row renders as its cells in parentheses |
| SqlTag.RowsRender | src/sql/index.ts:112-117 | the rows render as `(row 0), (row 1), ...`, each row numbered after the values of the rows before it, binding the values row by row |
| SqlTag.SpreadInsert | src/sql/index.ts:105-118 | spreadInsert of no records fails with the empty-list error; a successful one has records and every column escapes (the full outcome and the rendering are stated by SpreadInsertOutcome and SpreadInsertRenders) |
| SqlTag.SpreadInsertOutcome | src/sql/index.ts:105-109 | spreadInsert fails on no records and on filtered key sets that differ from the first record's; it succeeds exactly when the key sets agree and every column escapes |
| SqlTag.SpreadInsertColumnFails | src/sql/index.ts:106-109 | when the key sets agree but a column fails to escape, spreadInsert fails with the error of the first such column |
| SqlTag.SpreadInsertRenders | src/sql/index.ts:105-118 | a successful spreadInsert renders `("c1", "c2", ...) VALUES ` followed by the rows, the columns being the first filtered record's keys in order |
| SqlTag.RowIgnoresKeyOrder | src/sql/index.ts:113 | two records with the same entries in different orders give the same row |
| SqlTag.InsertCellsDefined | src/sql/index.ts:106-113 | in a successful insert every cell of every row is a defined value held by that record |
| Utils.EscapeIdentifier | src/utils.ts:4-12 | escaping succeeds exactly when no quote is left after unwrapping one surrounding pair; failure reports the unwrapped identifier |
| Utils.EscapeQuotes | src/utils.ts:5-11 | an escaped identifier starts and ends with a quote, has no other quote, and wraps the unwrapped input |
| Utils.Unquote | src/utils.ts:5-7 | an identifier wrapped in quotes is the result inside one pair of quotes; a lone quote unwraps to the empty string; any other identifier is kept unchanged |
| Utils.UnquoteWrapped | src/utils.ts:5-7 | a quoted identifier `"x"` unwraps to `x` |
| Utils.UnquoteUnwrapped | src/utils.ts:5-7 | an identifier that is not wrapped in quotes is kept as it is |
| Utils.EscapeUnquoted | src/utils.ts:8-11 | an identifier without quotes is simply wrapped in quotes |
| Utils.EscapeIdempotent | src/utils.ts:4-12 | escaping an escaped identifier gives it back unchanged |
| Utils.EscapeExamples | test/utils.test.ts:4-16 | `column` and `"column"` escape to `"column"`; `a"b` fails; a lone `"` and the empty string give `""` |
| Utils.FilterUndefined | src/utils.ts:19-24 | filtering never lengthens the entry list (which entries are kept, and in which order, is stated by FilterMembers and FilterAppend) |
| Utils.FilterMembers | src/utils.ts:20 | every kept entry is an input entry whose value is not undefined, and every input entry with a defined value (null included) is kept |
| Utils.FilterAppend | src/utils.ts:20 | filtering distributes over concatenation, so the kept entries stay in their original order |
| Utils.FilterCons | src/utils.ts:20 | an entry in front is kept exactly when its value is not undefined, and the rest is filtered on |
| Utils.FilterSingle | src/utils.ts:20 | a single entry is dropped exactly when its value is undefined |
| Utils.FilterKeys | src/utils.ts:20-23 | every key of the filtered record is a key of the input |
| Utils.FilterKeepsDistinct | src/utils.ts:19-24 | the filtered entries of a record again have distinct keys |
| Utils.FilterRecord | src/utils.ts:19-24 | filterUndefined on an object returns an object |
| Utils.Interleave | src/utils.ts:32-48 | the merge's length is the sum of the lengths (the alternation is stated by InterleavePairs, InterleaveTailLeft and InterleaveTailRight) |
| Utils.InterleaveCons | src/utils.ts:35-45 | the merge of two non-empty lists starts with `a[0], b[0]` and goes on with the merge of their tails |
| Utils.InterleavePairs | src/utils.ts:35-45 | while both lists last, position 2j holds `a[j]` and position 2j+1 holds `b[j]` |
| Utils.InterleaveTailLeft | src/utils.ts:35-45 | after the shorter `b` runs out, the merge continues with the rest of `a` |
| Utils.InterleaveTailRight | src/utils.ts:35-45 | after the shorter `a` runs out, the merge continues with the rest of `b` |
| Utils.TemplateInterleave | src/sql/index.ts:51-54 | with one more chunk than interpolations, the merge has odd length, starts and ends with a chunk, and alternates chunk, interpolation, chunk, ... |
| Utils.InterleaveStep | src/utils.ts:35-45 | one round of the loop at index i takes `a[i]` and then `b[i]`, each only if present |
| Utils.RoundKeepsMerge | src/utils.ts:35-45 | after each round, what has been pushed plus the merge of the remaining elements is the whole merge |
| Utils.MergeLists | src/utils.ts:32-48 | the push loop returns exactly the alternating merge of the two lists |
| Utils.MergeExamples | test/utils.test.ts:18-31 | the merges of the utility tests: empty lists, equal lengths, and both longer-list cases |
| Utils.ExtractKeys | dist/utils.d.ts:17-21 | fails with the empty-list error exactly on an empty list; on success returns the first object's keys in order (when it fails with a key mismatch is stated by ExtractKeysChecksKeySets) |
| Utils.ExtractKeysChecksKeySets | test/utils.test.ts:37-59 | succeeds exactly when the list is non-empty and every object has the first object's key set (a missing, an extra or a different key fails) |
| Utils.KeySetSize | dist/utils.d.ts:17-21 | an object has as many distinct keys as entries |
| Scenarios.SelectById | test/query.test.ts:10-15 | a plain interpolation renders as `$1` and binds `[1]` |
| Scenarios.SelectBySafeValue | test/query.test.ts:17-21 | `sql.safe(1)` renders as `$1` and binds `[1]` |
| Scenarios.SelectByRawValue | test/query.test.ts:28-33 | `sql.raw("1")` is inlined and binds nothing |
| Scenarios.WhereSpreadAnd | test/query.test.ts:35-50 | the spreadAnd query renders `("name" = $1 AND "age" = $2 AND "email" = 'foo@example.com')` binding `["Hugo", 20]` |
| Scenarios.InsertScenario | test/query.test.ts:52-67 | the single-record insert renders `("name", "age", "created_at") VALUES ($1, $2, NOW())` binding `["Hugo", 20]` |
| Scenarios.BarMismatch | test/query.test.ts:69-98 | the three records of the multi-row test as written, with the extra `bar` key, are refused as a key mismatch |
| Scenarios.MultiInsertScenario | test/query.test.ts:93-96 | three records without the `bar` key render `($1, $2, NOW()), ($3, $4, NOW()), ($5, $6, $7)` binding `["Hugo", 20, "Jon", 25, "Hans", 27, null]`; the later rows list their keys in another order |
| Scenarios.UpdateScenario | test/query.test.ts:100-115 | the spreadUpdate query renders `"name" = $1, "age" = $2, "created_at" = NOW()` binding `["Hugo", 20]` |
| Scenarios.MultipleParametersScenario | test/query.test.ts:117-139 | two interpolations take `$1` and `$2`, and the spliced insert fragment continues at `$3`, `$4`, `$5`, binding `[1, "foo@example.com", "Hugo", 20, "user"]` |

## Left out

- Debug logging (src/sql/index.ts:21,59): it has no effect on the query.
- Running queries against a database, and the `pg` driver typing (src/pg.ts): these are I/O and a foreign library.
- src/schema.ts and the table-schema types: they are type-level only, with a global registry and no algorithm.
- The older symbol-tagged expression markers (src/sql.ts, src/internals.ts, src/sql/internals.ts): their symbol-identity checks are replaced by the constructors of `Builder` and `Arg`.
- The `$type` symbol check of `isSqlBuilder` (src/sql/builder.ts:19-20) becomes the `Fragment`/`Plain` split of `Arg`. Falsy values go to `paramSqlBuilder` (src/sql/builder.ts:28), as does `Plain`.
- `joinSql`, `transformSql` and `toSqlBuilder` come from src/sql/builder.ts (imported at src/sql/index.ts:4-12); their bodies are not part of this model, and they are specified by their uses. `transformSql` is modelled only for the prefix-and-suffix rewrites the source applies; an arbitrary text function is not modelled.
- `extractKeys` is only declared (dist/utils.d.ts:17-21). Its body here is defined from that declaration and from test/utils.test.ts:37-59.
- Utils.MergeLists: the source skips `undefined` list elements (src/utils.ts:37,42). Builders are never undefined, so the model interleaves every element.
- Utils.FilterUndefined: its own ensures gives only the length bound. Exactly which entries are kept, in order, is proved in Utils.FilterMembers and Utils.FilterAppend, so that it does not slow every use of the function.
- Utils.Interleave: its own ensures gives only the length. The alternating layout is proved in Utils.InterleavePairs, Utils.InterleaveTailLeft and Utils.InterleaveTailRight.
- Placeholder ids are natural numbers. The source only ever starts at 1, so negative and fractional ids are not modelled.
- Placeholder ids are unbounded, and `Value.Number` holds only integers. JavaScript numbers are doubles: past 2^53 `toString` rounds the digits, and from 1e21 it uses exponent notation. No query comes near such ids. Values are bound without being inspected, so the kind of number does not affect rendering.
- JavaScript's property order, which lists integer-like keys first: a record's entries are taken in the order given.
- `sql.safe` applied to a builder: the model's `SafeExpression` takes only plain values.
- String coercion of a builder (`[object Object]`, test/query.test.ts:22-25): it is not part of query rendering.
- `dedent` in the tests: the scenarios state the exact text built from the dedented chunks.
- The multi-row insert test (test/query.test.ts:69-98) expects success, although its third record has an extra `bar` key. Under the tested contract of extractKeys (test/utils.test.ts:47-59), those key sets differ, so the model follows extractKeys and refuses the records (Scenarios.BarMismatch). The expected rendering is proved for the same records without `bar` (Scenarios.MultiInsertScenario).
- spreadInsert's `undefined` cell, for a column a record lacks, cannot arise: a record whose keys differ is refused first (SqlTag.InsertCellsDefined).
- spreadAnd and spreadUpdate of a record with no defined entry succeed, as in the source, and render `()` and the empty text.
