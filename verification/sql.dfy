/** The clause builder of helpers/sql.js: `sqlForPartialUpdate`,
    `sqlForFiltering` and `sqlForFilteringJobs`.

    A JavaScript object is a sequence of (key, value) pairs in its
    own-property order, the order `Object.keys` and `Object.values` share.
    Values are opaque: the builders only pass them through. */
module Sql {
  import opened Wrappers
  import opened Strings
  import opened Clauses

  /** The `BadRequestError` thrown for an empty update. */
  datatype Error = BadRequest(message: string)

  /** `{ setCols, values }` returned by `sqlForPartialUpdate`. */
  datatype UpdateClause<V> = UpdateClause(setCols: string, values: seq<V>)

  /** `{ sql, values }` returned by both filter builders. */
  datatype WhereClause<V> = WhereClause(sql: string, values: seq<V>)

  /** `Object.keys(obj)`. */
  function Keys<K, V>(obj: seq<(K, V)>): seq<K> {
    seq(|obj|, i requires 0 <= i < |obj| => obj[i].0)
  }

  /** `Object.values(obj)`. */
  function Values<K, V>(obj: seq<(K, V)>): seq<V> {
    seq(|obj|, i requires 0 <= i < |obj| => obj[i].1)
  }

  // sqlForPartialUpdate

  /** `jsToSql[colName] || colName`: the alias when one is present and is a
      non-empty (truthy) string, the key itself otherwise. */
  function Column(jsToSql: map<string, string>, key: string): string {
    if key in jsToSql && jsToSql[key] != "" then jsToSql[key] else key
  }

  /** `keys.map((colName, idx) => ...)`: key `idx` becomes `"col"=$(idx+1)`. */
  function UpdateAssignments(keys: seq<string>, jsToSql: map<string, string>): seq<Assignment> {
    seq(|keys|, i requires 0 <= i < |keys| => Assignment(Column(jsToSql, keys[i]), i + 1))
  }

  function SqlForPartialUpdate<V>(dataToUpdate: seq<(string, V)>, jsToSql: map<string, string>)
    : (r: Result<UpdateClause<V>, Error>)
    ensures r.Failure? <==> |dataToUpdate| == 0
    ensures r.Failure? ==> r.error == BadRequest("No data")
    ensures r.Success? ==>
      && |r.value.values| == |dataToUpdate|
      && forall i :: 0 <= i < |dataToUpdate| ==> r.value.values[i] == dataToUpdate[i].1
  {
    var keys := Keys(dataToUpdate);
    if |keys| == 0 then Failure(BadRequest("No data"))
    else Success(UpdateClause(SetColsSql(UpdateAssignments(keys, jsToSql)), Values(dataToUpdate)))
  }

  // sqlForFiltering

  /** The filter keys a company search accepts. */
  datatype CompanyKey = Name | MinEmployees | MaxEmployees

  /** The `map` callback of `sqlForFiltering` for a key with index `param - 1`. */
  function CompanyPredicate(key: CompanyKey, param: nat): Predicate {
    match key
    case Name => NameLike(param)
    case MinEmployees => EmployeesAtLeast(param)
    case MaxEmployees => EmployeesAtMost(param)
  }

  function CompanySlots(keys: seq<CompanyKey>): seq<Option<Predicate>> {
    seq(|keys|, i requires 0 <= i < |keys| => Some(CompanyPredicate(keys[i], i + 1)))
  }

  function SqlForFiltering<V>(filterParams: seq<(CompanyKey, V)>): (r: WhereClause<V>)
    ensures StartsWith(r.sql, "WHERE ")
    ensures |filterParams| == 0 ==> r.sql == "WHERE "
    ensures |r.values| == |filterParams|
    ensures forall i :: 0 <= i < |filterParams| ==> r.values[i] == filterParams[i].1
  {
    var r := WhereClause(WhereSql(CompanySlots(Keys(filterParams))), Values(filterParams));
    StartsWithAppend("WHERE ", Join(" AND ", SlotTexts(CompanySlots(Keys(filterParams)))));
    r
  }

  // sqlForFilteringJobs

  /** One own property of a job search's filter object. */
  datatype JobFilter<V> = Title(title: V) | MinSalary(minSalary: V) | HasEquity(hasEquity: bool)

  /** The value `values.push` records for a `title` or `minSalary` filter. */
  function PushedValue<V>(f: JobFilter<V>): Option<V> {
    match f
    case Title(v) => Some(v)
    case MinSalary(v) => Some(v)
    case HasEquity(_) => None
  }

  /** The values the job filters bind, in key order: one per `title` and
      `minSalary` filter, none for `hasEquity`. */
  function BoundValues<V>(filters: seq<JobFilter<V>>): seq<V>
    decreases |filters|
  {
    if |filters| == 0 then []
    else
      var init := BoundValues(filters[..|filters| - 1]);
      match PushedValue(filters[|filters| - 1])
      case Some(v) => init + [v]
      case None => init
  }

  /** Extending the filters by one extends the bound values by that filter's
      pushed value, if any. */
  lemma BoundValuesStep<V>(filters: seq<JobFilter<V>>, i: nat)
    requires i < |filters|
    ensures BoundValues(filters[..i + 1])
         == BoundValues(filters[..i]) + (match PushedValue(filters[i]) case Some(v) => [v] case None => [])
  {
    assert filters[..i + 1][..i] == filters[..i];
  }

  /** The `map` callback of `sqlForFilteringJobs` once `next - 1` values have
      been pushed; `undefined` for a falsy `hasEquity`. */
  function JobSlot<V>(f: JobFilter<V>, next: nat): Option<Predicate> {
    match f
    case Title(_) => Some(TitleLike(next))
    case MinSalary(_) => Some(SalaryAtLeast(next))
    case HasEquity(b) => if b then Some(EquityPositive) else None
  }

  /** The slots of a job search: slot `i` is numbered after the values bound
      by the filters before it. */
  function JobSlots<V>(filters: seq<JobFilter<V>>): seq<Option<Predicate>> {
    seq(|filters|, i requires 0 <= i < |filters| => JobSlot(filters[i], |BoundValues(filters[..i])| + 1))
  }

  /** What `sqlForFilteringJobs` returns, stated without its running counter. */
  function JobsClause<V>(filters: seq<JobFilter<V>>): WhereClause<V> {
    WhereClause(WhereSql(JobSlots(filters)), BoundValues(filters))
  }

  /** The single pass of `sqlForFilteringJobs`: `values.push` and `idx++`
      for `title` and `minSalary`, nothing bound for `hasEquity`. */
  method SqlForFilteringJobs<V>(filterParams: seq<JobFilter<V>>) returns (clause: WhereClause<V>)
    ensures clause == JobsClause(filterParams)
  {
    ghost var slots := JobSlots(filterParams);
    var values: seq<V> := [];
    var idx: nat := 0;
    var filters: seq<Option<Predicate>> := [];
    for i := 0 to |filterParams|
      invariant idx == |values|
      invariant values == BoundValues(filterParams[..i])
      invariant filters == slots[..i]
    {
      BoundValuesStep(filterParams, i);
      assert slots[i] == JobSlot(filterParams[i], idx + 1);
      match filterParams[i] {
        case Title(v) =>
          values := values + [v];
          idx := idx + 1;
          filters := filters + [Some(TitleLike(idx))];
        case MinSalary(v) =>
          values := values + [v];
          idx := idx + 1;
          filters := filters + [Some(SalaryAtLeast(idx))];
        case HasEquity(b) =>
          filters := filters + [if b then Some(EquityPositive) else None];
      }
      assert slots[..i + 1] == slots[..i] + [slots[i]];
    }
    assert filterParams[..|filterParams|] == filterParams;
    assert slots[..|filterParams|] == slots;
    clause := WhereClause(WhereSql(filters), values);
  }
}
