# Dynamic SQL clause builder of express-jobly

This project models the clause builder in `helpers/sql.js` and proves properties of it. The builder is the part of the data-access layer that turns client-supplied fields into parameterised SQL fragments. There are three builders:

- `sqlForPartialUpdate(dataToUpdate, jsToSql)` builds the `SET` list of a partial update: `"col"=$1, "col2"=$2, ...`. It renames each key through `jsToSql`, and returns the values in key order. With no keys it fails with a `BadRequestError("No data")`.
- `sqlForFiltering(filterParams)` builds the `WHERE` clause of a company search from the keys `name`, `minEmployees` and `maxEmployees`. Each key is numbered by its 1-based position, and every value is bound.
- `sqlForFilteringJobs(filterParams)` builds the `WHERE` clause of a job search from the keys `title`, `minSalary` and `hasEquity`. It keeps a running counter:
  - a `title` or `minSalary` key binds its value and takes the next `$n`;
  - a true `hasEquity` contributes `equity > 0` and binds nothing;
  - a false `hasEquity` contributes `undefined`, which `Array.prototype.join` renders as the empty string.

The model follows the code as written, including its two rough edges:

- An empty filter object yields the bare text `"WHERE "`.
- A false `hasEquity` leaves an empty element in the joined list, which produces a leading, doubled or trailing `" AND "`.

Both are malformed SQL once they reach the database. The model keeps them because they are what the code produces: `SqlProperties.EmptyFiltersGiveBareWhere` and `SqlProperties.FalsyEquityLeavesDanglingAnd` state them as properties.

## How it is modelled

- **Inputs.**
  - A JavaScript object is a sequence of `(key, value)` pairs in own-property order. `Object.keys` and `Object.values` are its projections (`Sql.Keys` and `Sql.Values`).
  - Values are an opaque type parameter, because the builders only pass them through.
  - The company keys are a closed enumeration, `Sql.CompanyKey`.
  - A job filter is the sum `Sql.JobFilter` = `Title(v) | MinSalary(v) | HasEquity(bool)`.
  - `jsToSql` is a `map<string, string>`.
- **Output.** The builders produce structured fragments: `Clauses.Assignment` for `"col"=$n`, and `Clauses.Predicate` for each comparison a filter can emit. A `WHERE` element is an `Option<Predicate>`, where `None` stands for the `undefined` of a false `hasEquity`. The rendering functions (`AssignmentSql`, `PredicateSql`, `SetColsSql`, `WhereSql`) produce exactly the source's template strings.
- **Partners.** Each builder comes with independent definitions, and lemmas connect the two:
  - Parsers (`ClauseParser.ParseSetCols` and `ClauseParser.ParseWhere`) read the text back into structure.
  - A scanner (`Parameters.Placeholders`) lists the `$n` placeholders of any text, left to right.
  - The loop of `sqlForFilteringJobs` is a method, proved equal to the counter-free reference `Sql.JobsClause`.
- **Errors.** The thrown `BadRequestError` is the `Failure` side of a `Result`.

## Model

| member | source | states |
|---|---|---|
| Sql.SqlForPartialUpdate | helpers/sql.js:5-18 | fails exactly when the data has no keys, and then with `BadRequest("No data")`; otherwise the values are the data's values, one per key, in key order |
| SqlProperties.PartialUpdateAssignments | helpers/sql.js:10-16 | for non-empty data, the `SET` text parses back into exactly one assignment per key, in key order; key `i` names the aliased column `jsToSql[key] \|\| key` and placeholder `$(i+1)`, and that placeholder's value is the key's own value |
| SqlProperties.PartialUpdatePlaceholders | helpers/sql.js:10-16 | the placeholders in the `SET` text are `$1 .. $k` in order without gaps, one per bound value |
| Sql.SqlForFiltering | helpers/sql.js:23-35 | the clause starts with `"WHERE "`; it is exactly `"WHERE "` when there are no keys; the values are the filter values, one per key, in key order |
| SqlProperties.CompanyFilterPredicates | helpers/sql.js:26-33 | a non-empty company filter parses back into one predicate per key, in key order: `name` gives `LOWER(name) LIKE '%'\|\|$n\|\|'%'`, which lower-cases the column but not the bound value, and `minEmployees`/`maxEmployees` compare `num_employees` with `>=`/`<=`; key `i` uses `$(i+1)`, bound to key `i`'s value |
| SqlProperties.CompanyFilterPlaceholders | helpers/sql.js:26-33 | the placeholders of a company clause are `$1 .. $k` in order, one per bound value |
| Sql.SqlForFilteringJobs | helpers/sql.js:40-62 | the single pass with its running counter returns exactly the reference clause `JobsClause`, in which slot `i` is numbered after the values bound by the filters before it |
| SqlProperties.JobFilterPredicates | helpers/sql.js:45-60 | a non-empty job filter parses back into one slot per key: `title` gives `LOWER(title) LIKE '%'\|\|$n\|\|'%'`, which lower-cases the column but not the bound value, and `minSalary` gives `salary >=`, each with a placeholder bound to that filter's own value; a true `hasEquity` gives `equity > 0`, and a false one gives an empty slot |
| SqlProperties.JobSlotsServe | helpers/sql.js:45-57 | every job filter gets the slot it should, and the placeholder of a binding filter refers to its own value, wherever `hasEquity` keys sit |
| SqlProperties.JobFilterPlaceholders | helpers/sql.js:42-60 | the placeholders of a job clause are `$1 .. $k` in order, one per bound value, so `hasEquity` never consumes a number |
| SqlProperties.JobParamsNumbered | helpers/sql.js:43-55 | the numbers the job slots refer to are `1 .. \|values\|` in order |
| SqlProperties.JobValueCount | helpers/sql.js:46-56 | exactly one value is bound per `title` or `minSalary` filter, whatever the number or truth of `hasEquity` filters |
| SqlProperties.HasEquityBindsNothing | helpers/sql.js:56 | inserting a `hasEquity` filter anywhere leaves the values unchanged and every other slot unchanged, with its number; its own slot is `equity > 0` when true and empty when false |
| SqlProperties.EquityBindsNoValue | helpers/sql.js:56 | inserting a `hasEquity` filter anywhere leaves the bound values unchanged |
| SqlProperties.FalsyEquityLeavesDanglingAnd | helpers/sql.js:56-59 | appending a false `hasEquity` to non-empty filters appends `" AND "` to the clause and binds nothing |
| SqlProperties.EmptyFiltersGiveBareWhere | helpers/sql.js:32 | no company keys, no job keys, or only a false `hasEquity` all give the bare `"WHERE "` and no values |
| SqlProperties.BoundValuesAppend | helpers/sql.js:42-55 | the values bound by concatenated filter lists are the concatenation of their values |
| ClauseParser.ParseWhereRender | helpers/sql.js:32 | a rendered `WHERE` clause with at least one slot parses back into exactly its slots |
| ClauseParser.ParseSlotsRender | helpers/sql.js:32 | the `" AND "`-join of rendered slots parses back into the slots, empty slots included |
| ClauseParser.ParsePredicateRender | helpers/sql.js:27-29 | every rendered comparison, from either filter builder, parses back into itself, whatever follows it after a space |
| ClauseParser.ParseSetColsRender | helpers/sql.js:10-15 | a rendered `SET` list parses back into its assignments, provided no column name contains a double quote |
| ClauseParser.ParseAssignmentRender | helpers/sql.js:11 | one rendered `"col"=$n` parses back into its column and number, provided the column name contains no double quote |
| Clauses.PlaceholdersOfWhere | helpers/sql.js:32 | the placeholders of a `WHERE` clause are the numbers of its slots, in order |
| Clauses.PlaceholdersOfSetCols | helpers/sql.js:15 | the placeholders of a `SET` list are the numbers of its assignments, in order, provided no column name contains `$` |
| Decimal.ParseNatToString | helpers/sql.js:11 | reading back the decimal digits that `$${idx + 1}` prints gives the number |
| Decimal.NatToStringParse | helpers/sql.js:11 | every canonical digit string is the printed form of the number it denotes |
| Decimal.NatToStringInjective | helpers/sql.js:11 | distinct numbers print distinct placeholders |
| SqlExamples.PartialUpdateExample | helpers/sql.test.js:4-6 | `{name, description}` with `description` renamed gives `"name"=$1, "company_description"=$2` and both values |
| SqlExamples.CompanyFilterExample | helpers/sql.test.js:11-13 | `{name, minEmployees}` gives the name match on `$1` and `num_employees >=$2` |
| SqlExamples.JobFilterEquityExample | helpers/sql.test.js:18-20 | `{title, hasEquity: true}` gives the title match on `$1` and `equity > 0`, with only the title bound |
| SqlExamples.JobFilterSalaryExample | helpers/sql.test.js:21-22 | `{title, minSalary}` gives the title match on `$1` and `salary >=$2` |

## Left out

- The `console.log(keys)` calls in both filter builders are a logging side effect and are not modelled.
- `BadRequestError` is modelled only as the `BadRequest(message)` error variant. Its HTTP status and class hierarchy are outside this model.
- The truthiness of `jsToSql[colName]` is modelled for string aliases only: an alias counts when it is present and non-empty. Non-string aliases, and properties inherited through the prototype chain, are outside the model.
- Unrecognised filter keys are excluded by the closed key types. In the source, such a key in `sqlForFiltering` still binds a value and yields an empty (`undefined`) element; in `sqlForFilteringJobs` it yields an empty element only.
- The `hasEquity` value is a boolean. JavaScript truthiness of other values (such as the strings `"false"` or `""`) is not modelled.
- The inputs are always objects. A `null` or `undefined` argument makes `Object.keys` throw a `TypeError` in all three builders (helpers/sql.js:6, 24, 41); callers pass an object, and that exception path is not modelled.
- Own-property order is taken as given by the input sequence. JavaScript's rule that integer-like keys come first is not modelled.
- Duplicate keys cannot occur in a JavaScript object; the sequence model does not rule them out, and no property depends on it.
- Values are opaque. Numbers such as `10000.99` in the examples are Dafny reals, and floating point is not modelled.
- SqlProperties.PartialUpdateAssignments: holds only for column names without a double quote. The source quotes names without escaping, so a name with `"` makes the text ambiguous.
- SqlProperties.PartialUpdatePlaceholders: holds only for column names without `$`. A `$` followed by digits in a column name would be read as a placeholder.
- ClauseParser.ParseSetColsRender: requires quote-free column names, for the same reason as above.
- ClauseParser.ParseAssignmentRender: requires a quote-free column name, for the same reason as above.
- Clauses.PlaceholdersOfSetCols: requires `$`-free column names, for the same reason as above.
- ClauseParser.ParseWhereRender: requires at least one slot. An empty clause is the bare `"WHERE "`, which `SqlProperties.EmptyFiltersGiveBareWhere` covers instead.
- The callers (`models/company.js`, `models/job.js`) and the database are not part of this model.
