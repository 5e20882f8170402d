# Jobly SQL helpers and job queries, in Dafny

A model of the SQL-building core of the Jobly job board API (an Express and
PostgreSQL service).

- `helpers/sql.js` builds the text of a parameterised clause list (`setCols`)
  and the values bound to its `$1 … $N` placeholders (`values`). It does this
  for partial updates (`sqlForPartialUpdate`), the company search
  (`sqlForCompanyFilter`) and the job search (`sqlForJobFilter`).
- `models/job.js` splices that output into fixed SQL templates. `Job.findAll`
  does so with a WHERE clause and `Job.update` with a SET list plus a title
  placeholder.
- The `create`, `update` and `remove` existence contracts are modelled over a
  jobs table keyed by title.

Modules:

- `ExpressError` (`express_error.dfy`): the thrown errors (`BadRequest`,
  `NotFound`, a database error) and a `Result` type.
- `Js` (`js.dfy`): JavaScript values (`Str | Num | Bool | Null`) with
  `typeof` and truthiness. A plain object is its entries in `Object.keys`
  order, with distinct keys. Also `Object.keys`/`Object.values`, `o[k]`,
  `indexOf`, `findIndex` and `keys.map`.
- `Text` (`text.dfy`): the string operations the source uses:
  - decimal rendering of numbers;
  - `join` (an `undefined` item renders as empty text);
  - `replace` with a string pattern (first occurrence only);
  - `replaceAll` of one character;
  - `trim` (the ECMAScript white-space set);
  - ASCII `toLowerCase`.

  It also defines `Placeholders(s)`, the list of `$n` placeholders a text
  holds, read left to right: a `$` followed by a maximal run of digits.
- `Sql` (`sql.dfy`): the three builders. Each is a specification function
  (`SqlForPartialUpdate`, `CompanyFilter`, `JobFilter`). The two search
  builders also appear as methods that work the way the source does: they
  splice the key list, rebuild the object, and update the value array in
  place. Each such method is proved equal to its function.
- `Jobs` (`jobs.dfy`): the `findAll` and `update` query text and parameters,
  and the `JobTable` class.

## Model

| member | source | states |
|---|---|---|
| `Js.Get` | helpers/sql.js:27 | `o[k]` is `undefined` exactly when `k` is not a key; otherwise it is the value of an entry stored under `k` |
| `Js.GetAt` | helpers/sql.js:27-29 | in an object with distinct keys, reading an entry's key gives back that entry's value |
| `Js.IndexOfKey` | helpers/sql.js:63 | `keys.indexOf(k)` is -1 exactly when `k` is absent; otherwise it is the first position holding `k` |
| `Js.FindIndexOfType` | helpers/sql.js:43 | `findIndex(v => typeof v === t)` is -1 exactly when no value has type `t`; otherwise it is the first such position |
| `Js.WithoutEntries` | helpers/sql.js:66-72 | the object rebuilt from the other keys keeps exactly the entries under other keys, and its keys stay distinct |
| `Js.WithoutAt` | helpers/sql.js:65-72 | when key `k` sits only at position `i`, rebuilding the object without `k` is splicing out position `i` |
| `Js.KeysSplice` | helpers/sql.js:65 | splicing entry `i` out of an object splices key `i` out of `Object.keys` |
| `Js.MapKeys` | helpers/sql.js:31 | `keys.map((k, idx) => f(k, idx + 1))` gives one result per key, in key order, each computed from its key and 1-based position |
| `Text.DecimalRoundTrip` | helpers/sql.js:11 | the decimal digits written after `$` read back as the same number |
| `Text.IndexOfFirst` | helpers/sql.js:34 | the occurrence `replace` acts on is an occurrence, and no earlier one exists; -1 means none at all |
| `Text.ReplaceFirstChar` | helpers/sql.js:36 | replacing a one-character pattern rewrites its first occurrence and keeps the text before and after it |
| `Text.ReplaceFirstAtStart` | helpers/sql.js:34 | a pattern at the very start of the text is the occurrence `replace` rewrites |
| `Text.ReplaceAllCharAppend` | models/job.js:63 | `replaceAll` of one character distributes over concatenation |
| `Text.ReplaceAllCharOfJoin` | models/job.js:63 | when no item holds the character, `replaceAll` on a joined list replaces it only inside the separators |
| `Text.ReplaceCommasOfJoin` | models/job.js:63 | for comma-free items, replacing `,` by ` AND` in a `", "` list gives the same items joined by `" AND "` |
| `Text.TrimKeepsMiddle` | models/job.js:63 | `trim` keeps one contiguous stretch of the text; everything removed before and after is white space, and the kept text neither starts nor ends with white space |
| `Text.TrimUnchanged` | models/job.js:63 | text that neither starts nor ends with white space is its own `trim` |
| `Text.PlaceholderOf` | helpers/sql.js:11 | `$` followed by the decimal digits of `n` is the single placeholder `n` |
| `Text.PlaceholdersAppend` | helpers/sql.js:17 | the placeholders of two texts add up, provided the second does not start with a digit (no number runs across the seam) |
| `Text.PlaceholdersOfJoin` | helpers/sql.js:17 | joining with a `$`-free separator that starts with no digit neither adds nor merges placeholders |
| `Text.ReplaceFirstKeepsPlaceholders` | helpers/sql.js:34-38 | replacing the first `$`-free pattern by `$`-free text, neither starting with a digit, keeps the text's placeholders |
| `Text.PlaceholdersNumbered` | helpers/sql.js:10-12 | items holding the single placeholders `first`, `first + 1`, … hold together exactly `first … first + N - 1` |
| `Sql.SqlForPartialUpdate` | helpers/sql.js:5-20 | no keys throws `BadRequest("No data")`; otherwise the values are the object's values in key order, untouched (`null` included), and, when no column name it uses holds a `$`, the text holds exactly the placeholders `$1 … $N`, one per value |
| `Sql.UpdateFragmentAt` | helpers/sql.js:10-12 | fragment `i` is `"<column>"=$<i+1>`, where the column is `jsToSql[key]` when that is a non-empty mapping and the key itself when there is no mapping or the mapping is the falsy empty text (`jsToSql[key] || key`) |
| `Sql.FirstViolation` | helpers/sql.js:27-29 | the type checks run in order and the first broken one is reported; none is reported exactly when no check is broken |
| `Sql.LikePattern` | helpers/sql.js:44 | the bound LIKE value is `%`, the lower-cased text, then `%` |
| `Sql.ReplaceEquals` | helpers/sql.js:36-38 | on a column without `=`, `qry.replace('=', op)` turns `"col"=$n` into `"col"<op>$n` |
| `Sql.ReplaceLike` | helpers/sql.js:34 | when the column is the field itself, the two rewrites turn `"name"=$n` into `LOWER("name") LIKE $n` |
| `Sql.CompanyFilter` | helpers/sql.js:24-50 | no keys is "no filter" (`undefined`, not an error); it throws exactly when a truthy `name`, `minEmployees` or `maxEmployees` has the wrong type (falsy values never throw), with the first broken check's message |
| `Sql.CompanyFragmentIsPredicate` | helpers/sql.js:31-40 | each company fragment is the predicate its field stands for: `name` a lower-cased LIKE, `minEmployees` `>=`, `maxEmployees` `<=`, any other key an equality |
| `Sql.CompanyFragmentPlaceholders` | helpers/sql.js:31-40 | every company fragment, rewritten or not, holds exactly its own placeholder `$idx+1` |
| `Sql.CompanyFilterPlaceholders` | helpers/sql.js:31-48 | a passing company search has one value per key, and, when no column name it uses holds a `$`, its text holds exactly `$1 … $N` in key order |
| `Sql.TruthyValueFound` | helpers/sql.js:43 | a value of the sought type at position `at` means `findIndex` finds one, at or before `at` |
| `Sql.CompanyFilterValues` | helpers/sql.js:41-45 | for every passing search, with or without a `name` key: the values are the object's values, except that a truthy `name` turns the FIRST string value into its LIKE pattern; that is `name`'s own value exactly when no earlier key holds a string |
| `Sql.DropFalsyEquity` | helpers/sql.js:62-74 | once a falsy `hasEquity` is dropped, any `hasEquity` left is truthy, and exactly the other entries (or all of them, when `hasEquity` is truthy) remain |
| `Sql.JobFilter` | helpers/sql.js:54-110 | no keys is "no filter"; it throws exactly when a truthy `title`, `minSalary` or `hasEquity` has the wrong type, with the first broken check's message |
| `Sql.JobFragmentIsPredicate` | helpers/sql.js:76-90 | `title` is a lower-cased LIKE, `minSalary` is `>=`, a truthy `hasEquity` is `>`, and any other key gives `undefined` |
| `Sql.JobFragmentPlaceholders` | helpers/sql.js:76-90 | a known key's fragment holds its placeholder `$idx+1` when that key's column holds no `$`; the empty text of an unknown key holds none, whatever the key's name |
| `Sql.KnownPlaceholdersOfAll` | helpers/sql.js:76-90 | items numbered by position for known keys, and empty for unknown ones, hold the known keys' numbers in order |
| `Sql.JobPlaceholdersOfAll` | helpers/sql.js:76-107 | when no column of a known key holds a `$`, the joined job fragments hold the numbers of the known keys; an unknown key still uses up its number |
| `Sql.KnownNumbersAllKnown` | helpers/sql.js:76-90 | when every key is known, the numbers are exactly `first … first + N - 1` |
| `Sql.JobFilterPlaceholders` | helpers/sql.js:62-108 | a falsy `hasEquity` is gone from both keys and values before numbering. There is one value per remaining key. When no column of a known key (`title`, `minSalary`, `hasEquity`) holds a `$`, the placeholders are those of the known remaining keys, so with only known keys they are exactly `$1 … $N`; unknown keys may have any name |
| `Sql.JobFilterValues` | helpers/sql.js:93-103 | the values are those of the object without a falsy `hasEquity`, except that a truthy `title` rewrites the first string into its LIKE pattern and a truthy `hasEquity` rewrites the first boolean into the text `'0'`; every other value is unchanged |
| `Sql.JobValuesRewrites` | helpers/sql.js:93-103 | each of the two rewrites lands on the first value of its type, and no other value changes |
| `Sql.RewriteStringKeepsBoolean` | helpers/sql.js:94-102 | the title rewrite does not move the first boolean, so the `hasEquity` rewrite still finds it |
| `Sql.KeptValueFound` | helpers/sql.js:94-102 | a truthy `title`/`hasEquity` that passed its type check is still among the values after the drop, so its `findIndex` finds a value |
| `Sql.SqlForCompanyFilter` | helpers/sql.js:24-50 | the step-by-step builder, with its value array updated in place, returns exactly `CompanyFilter` |
| `Sql.RewriteCompanyValues` | helpers/sql.js:41-45 | the in-place update of the value array gives the first-string LIKE rewrite when `name` is truthy, and the values untouched otherwise |
| `Sql.SpliceFalsyEquity` | helpers/sql.js:62-74 | splicing `hasEquity` out of the key list and rebuilding the object gives `DropFalsyEquity` and its keys |
| `Sql.SpliceEquity` | helpers/sql.js:63-72 | splicing out the position of a falsy `hasEquity` is dropping it, for the entries and for the keys |
| `Sql.NoEquityToDrop` | helpers/sql.js:62-64 | with no `hasEquity` key, nothing is dropped |
| `Sql.SqlForJobFilter` | helpers/sql.js:54-110 | the step-by-step builder (splice, rebuild, map, in-place rewrites) returns exactly `JobFilter` |
| `Sql.RewriteJobValues` | helpers/sql.js:93-103 | the in-place updates of the value array give the title rewrite, then the `hasEquity` rewrite |
| `Jobs.FindAllQuery` | models/job.js:51-75 | no keys means the search builder is never called: the query is SELECT … ORDER BY title with no WHERE clause and `''` as parameters. Otherwise it throws exactly the search's error, or binds the search's values. The text always starts with the fixed SELECT and ends with ORDER BY title |
| `Jobs.FindAllColumnFor` | models/job.js:57-61 | `findAll`'s map keeps `title` in a column of that name, and no mapped column holds `$`, `,` or `=` |
| `Jobs.WhereOfSolid` | models/job.js:63 | for predicates with no comma and no white space at their ends, trimming changes nothing and `,` → ` AND` gives the predicates joined by AND |
| `Jobs.AndKeepsPlaceholders` | models/job.js:63 | turning the `", "` list into an AND list neither adds nor loses a placeholder |
| `Jobs.QueryPlaceholders` | models/job.js:67-74 | the fixed SELECT and ORDER BY text adds no placeholder |
| `Jobs.KnownSearch` | models/job.js:55-63 | for known keys with something left after the drop, the WHERE text is the remaining keys' predicates joined by AND, numbered `$1 … $N` for the N values |
| `Jobs.FindAllWhere` | models/job.js:54-74 | the query is SELECT, then ` WHERE ` with the predicates joined by AND, then ORDER BY title |
| `Jobs.FindAllNumbered` | models/job.js:55-75 | the parameters of that query bind exactly its placeholders `$1 … $N`, one per parameter |
| `Jobs.FindAllDanglingWhere` | models/job.js:62-74 | as written, `{hasEquity: false}` yields `… FROM jobs WHERE  ORDER BY title` with no parameters |
| `Jobs.FindAllQueryIntended` | models/job.js:51-75 | the corrected query throws exactly when and what `findAll` throws, and keeps the SELECT … ORDER BY title frame |
| `Jobs.FindAllIntendedAgrees` | models/job.js:51-75 | the correction changes nothing except the dangling WHERE: whenever something is left to filter on, or there are no keys at all, the corrected query equals `findAll`'s |
| `Jobs.FindAllIntendedWellFormed` | models/job.js:51-75 | the corrected query either has no WHERE clause or has a WHERE clause with at least one predicate, and its placeholders are exactly `$1 … $N` for its N parameters |
| `Jobs.UpdateQuery` | models/job.js:91-107 | no data throws `BadRequest("No data")` before any query; otherwise the parameters are the data's values followed by the title |
| `Jobs.UpdateQueryPlaceholders` | models/job.js:98-107 | the title placeholder is `$N+1`: there are N + 1 parameters, the last is the title, and, when no key of the data holds a `$`, the text holds exactly `$1 … $N+1` |
| `Jobs.UpdateComparesTitle` | models/job.js:98-106 | the query ends with `WHERE title = $<N+1>` and the RETURNING list, so the last parameter is the one compared with the title |
| `Jobs.AssignedNull` | models/job.js:100-108 | the update leaves no row exactly when it sets the title or the company handle to NULL |
| `Jobs.AssignedColumns` | models/job.js:100-108 | otherwise each column holds the value the data gives it (for the text columns, the text node-pg sends for it) and every other column keeps its old value |
| `Jobs.JobTable.Create` | models/job.js:19-44 | a title already in the table throws `BadRequest("Duplicate job: <title>")` and writes nothing; an insert the database refuses throws its error and writes nothing; otherwise the row is added under its title and returned |
| `Jobs.JobTable.Update` | models/job.js:91-112 | no data throws "No data"; a statement the database refuses throws its error; a missing title then throws `NotFound("No job: <title>")`; all of these change nothing. Otherwise the matched row takes the data's values and is returned (renamed when the data gives a new title), and the table's other rows are unchanged |
| `Jobs.JobTable.Remove` | models/job.js:119-129 | a missing title throws `NotFound("No job: <title>")` and changes nothing; otherwise exactly that row is deleted |

## Left out

- Express routing, request validation with jsonschema, and the admin check
  in `routes/jobs.js`. These are HTTP plumbing over libraries that are not
  part of this model.
- `console.log` calls in `sqlForJobFilter`: output only.
- `db.query` itself: SQL evaluation, LIKE matching, numeric comparison, row
  order, and `async`/`await`. The model stops at the query text and
  parameters. The table is a map from title to row, as far as the
  existence contracts need, and the database's refusal of a statement is a
  parameter of the method that runs it.
- Array and object values: `JsValue` has none. In JavaScript a truthy `[]`
  or `{}` has `typeof` "object", so `findAll({title: ["x"]})` throws "title
  requires a string input". The model cannot express that input. Request
  values here are strings, numbers, booleans and null.
- Fractional numbers: JSON numbers are whole numbers here (`Num(int)`).
  `equity` values such as 0.5 are therefore out.
- `Object.keys` lists integer-like keys first in JavaScript. Here an
  object's entries are taken to be in `Object.keys` order already.
- `toLowerCase` lowers ASCII letters only; the full Unicode mapping is out.
- The implicit global `hasEquityIdx` (helpers/sql.js:63) changes nothing
  visible and is a local here.
- `Job.create`'s two queries are one step: a duplicate check, then an
  insert.
- `Jobs.JobTable.Update`, `Jobs.JobTable.Create`: which statements the
  database refuses is not modelled. The table's schema (column types, the
  foreign key from `company_handle` to the companies table, constraints) is
  not part of this model. The database's answer is a parameter (`refusal`).
  `Update` takes it as decided before any row is looked at, as PostgreSQL
  does for an unknown column or a value its column type cannot take.
- `Jobs.JobTable.Update`: two refusals come from the table being keyed by
  title, and are decided on the matched row. A NULL title or company
  handle leaves no row that fits the map. A rename onto a title another
  row holds would give two rows under one key. The model refuses both
  with a database error and changes nothing. It does not claim those
  messages are the database's own.
- `Jobs.AssignedColumns`, `Jobs.JobTable.Create`: a text column receives
  the text node-pg sends for the value (`String(v)`). PostgreSQL's
  conversion of that text into the numeric `salary` and `equity` columns
  is out, and so is node-pg's conversion of the `RETURNING` row back (a
  NUMERIC `equity` comes back as a string). Those columns keep the
  JavaScript value, and `Create` returns the values it was given.
- `o[k]` reads own entries only. In JavaScript `jsToSql[key]`
  (helpers/sql.js:11) also finds inherited properties: for a key such as
  `toString` it is a function, which is truthy and renders as its source
  text. `ColumnFor` returns the key itself there.
- `Sql.CompanyFragmentIsPredicate`: stated for maps where `name` is stored
  in a column called `name` and no column name holds `=`. This is because
  `replace` rewrites the first occurrence only. The fragment function
  itself follows the code for every map.
- `Sql.JobFragmentIsPredicate`: the same restriction for `title`.
- `Jobs.FindAllWhere`: stated for searches whose keys are all ones `findAll`
  knows (`title`, `minSalary`, `hasEquity`). An unknown key renders as
  empty text inside the list; `Sql.JobFilterPlaceholders` states what
  happens then.
- `Jobs.FindAllNumbered`: the same restriction to known keys.
- `Jobs.FindAllIntendedWellFormed`: the same restriction to known keys.
- `Jobs.KnownSearch`: the same restriction to known keys.

## Findings

| source | as written | input that shows it | evidently intended | confidence | as-written member | corrected member |
|---|---|---|---|---|---|---|
| models/job.js:62-74 | when the only search key is a falsy `hasEquity`, the builder drops it and returns an empty `setCols`, yet `findAll` still writes ` WHERE ` | `Job.findAll({hasEquity: false})` gives `… FROM jobs WHERE  ORDER BY title`, which is not valid SQL | omit the WHERE clause when nothing is left to filter on | medium, not executed | `Jobs.FindAllDanglingWhere` | `Jobs.FindAllQueryIntended` |
