/** What the three builders of helpers/sql.js guarantee: the fragment reads
    back as one term per key, the placeholders run 1, 2, ... without gaps,
    and each placeholder is bound to the value of the key that produced it. */
module SqlProperties {
  import opened Wrappers
  import opened Strings
  import opened Parameters
  import opened Clauses
  import opened ClauseParser
  import opened Sql

  // sqlForPartialUpdate

  /** The `SET` list reads back as one `"column"=$n` per key, in key order:
      the column is the key's alias (or the key), `n` is the key's 1-based
      position, and value `n` is that key's value. Column names holding a
      double quote are excluded: they are quoted without escaping, so the
      text would be ambiguous. */
  lemma PartialUpdateAssignments<V>(dataToUpdate: seq<(string, V)>, jsToSql: map<string, string>)
    requires |dataToUpdate| > 0
    requires forall i :: 0 <= i < |dataToUpdate| ==> '"' !in Column(jsToSql, dataToUpdate[i].0)
    ensures
      var r := SqlForPartialUpdate(dataToUpdate, jsToSql);
      && r.Success?
      && var parsed := ParseSetCols(r.value.setCols);
      && parsed.Some?
      && |parsed.value| == |dataToUpdate|
      && forall i :: 0 <= i < |dataToUpdate| ==>
           && parsed.value[i].column == Column(jsToSql, dataToUpdate[i].0)
           && parsed.value[i].param == i + 1
           && r.value.values[parsed.value[i].param - 1] == dataToUpdate[i].1
  {
    ParseSetColsRender(UpdateAssignments(Keys(dataToUpdate), jsToSql));
  }

  /** The placeholders of the `SET` list are `$1 .. $k` in order, one per
      bound value, when no column name holds a `$`. */
  lemma PartialUpdatePlaceholders<V>(dataToUpdate: seq<(string, V)>, jsToSql: map<string, string>)
    requires forall i :: 0 <= i < |dataToUpdate| ==> '$' !in Column(jsToSql, dataToUpdate[i].0)
    ensures
      var r := SqlForPartialUpdate(dataToUpdate, jsToSql);
      r.Success? ==>
        var ps := Placeholders(r.value.setCols);
        |ps| == |r.value.values| && NumberedFromOne(ps)
  {
    if |dataToUpdate| > 0 {
      PlaceholdersOfSetCols(UpdateAssignments(Keys(dataToUpdate), jsToSql));
    }
  }

  // sqlForFiltering

  /** A non-empty company filter reads back as one predicate per key, in key
      order, numbered by the key's 1-based position, and value `i` is the
      value of key `i`. */
  lemma CompanyFilterPredicates<V>(filterParams: seq<(CompanyKey, V)>)
    requires |filterParams| > 0
    ensures
      var r := SqlForFiltering(filterParams);
      var parsed := ParseWhere(r.sql);
      && parsed.Some?
      && |parsed.value| == |filterParams|
      && forall i :: 0 <= i < |filterParams| ==>
           && parsed.value[i] == Some(CompanyPredicate(filterParams[i].0, i + 1))
           && r.values[i] == filterParams[i].1
  {
    ParseWhereRender(CompanySlots(Keys(filterParams)));
  }

  /** The placeholders of a company filter are `$1 .. $k` in order, one per
      bound value. */
  lemma CompanyFilterPlaceholders<V>(filterParams: seq<(CompanyKey, V)>)
    ensures
      var r := SqlForFiltering(filterParams);
      var ps := Placeholders(r.sql);
      |ps| == |r.values| && NumberedFromOne(ps)
  {
    var slots := CompanySlots(Keys(filterParams));
    forall i | 0 <= i < |slots|
      ensures SlotParams(slots[i]) == [1 + i]
    {
      assert slots[i] == Some(CompanyPredicate(filterParams[i].0, i + 1));
    }
    ParamsOfNumberedSlots(slots, 1);
    PlaceholdersOfWhere(slots);
    assert Placeholders(SqlForFiltering(filterParams).sql) == Params(slots);
  }

  // sqlForFilteringJobs

  /** Bound values of concatenated filters are concatenated. */
  lemma {:induction false} BoundValuesAppend<V>(a: seq<JobFilter<V>>, b: seq<JobFilter<V>>)
    ensures BoundValues(a + b) == BoundValues(a) + BoundValues(b)
    decreases |b|
  {
    if |b| == 0 {
      assert a + b == a;
    } else {
      var init := b[..|b| - 1];
      assert (a + b)[..|a + b| - 1] == a + init;
      BoundValuesAppend(a, init);
    }
  }

  /** The slots of a prefix are the prefix of the slots. */
  lemma JobSlotsPrefix<V>(filters: seq<JobFilter<V>>, k: nat)
    requires k <= |filters|
    ensures JobSlots(filters[..k]) == JobSlots(filters)[..k]
  {
    forall j | 0 <= j < k
      ensures JobSlots(filters[..k])[j] == JobSlots(filters)[j]
    {
      assert filters[..k][..j] == filters[..j];
    }
  }

  /** Whether a slot is what a filter should produce, with its placeholder
      bound to the filter's own value. */
  ghost predicate SlotServes<V>(f: JobFilter<V>, slot: Option<Predicate>, values: seq<V>) {
    match f
    case Title(v) =>
      && slot.Some? && slot.value.TitleLike?
      && 1 <= slot.value.param <= |values| && values[slot.value.param - 1] == v
    case MinSalary(v) =>
      && slot.Some? && slot.value.SalaryAtLeast?
      && 1 <= slot.value.param <= |values| && values[slot.value.param - 1] == v
    case HasEquity(b) =>
      slot == (if b then Some(EquityPositive) else None)
  }

  /** Every job filter gets the slot it should, and a `title` or `minSalary`
      slot's placeholder is bound to that filter's value, wherever `hasEquity`
      sits among the keys. */
  lemma JobSlotsServe<V>(filters: seq<JobFilter<V>>)
    ensures
      var r := JobsClause(filters);
      forall i :: 0 <= i < |filters| ==> SlotServes(filters[i], JobSlots(filters)[i], r.values)
  {
    var values := BoundValues(filters);
    forall i | 0 <= i < |filters|
      ensures SlotServes(filters[i], JobSlots(filters)[i], values)
    {
      var before := BoundValues(filters[..i]);
      BoundValuesStep(filters, i);
      assert filters == filters[..i + 1] + filters[i + 1..];
      BoundValuesAppend(filters[..i + 1], filters[i + 1..]);
      match PushedValue(filters[i]) {
        case Some(v) =>
          assert values[|before|] == v;
        case None =>
      }
    }
  }

  /** A non-empty job filter reads back as exactly its slots: one per key,
      each the slot that key should produce. */
  lemma JobFilterPredicates<V>(filters: seq<JobFilter<V>>)
    requires |filters| > 0
    ensures
      var r := JobsClause(filters);
      var parsed := ParseWhere(r.sql);
      && parsed.Some?
      && |parsed.value| == |filters|
      && forall i :: 0 <= i < |filters| ==> SlotServes(filters[i], parsed.value[i], r.values)
  {
    ParseWhereRender(JobSlots(filters));
    JobSlotsServe(filters);
  }

  /** The parameters the job slots refer to are `1 .. |values|` in order. */
  lemma {:induction false} JobParamsNumbered<V>(filters: seq<JobFilter<V>>)
    ensures |Params(JobSlots(filters))| == |BoundValues(filters)|
    ensures NumberedFromOne(Params(JobSlots(filters)))
    decreases |filters|
  {
    if |filters| > 0 {
      var n := |filters| - 1;
      var init := filters[..n];
      JobParamsNumbered(init);
      JobSlotsPrefix(filters, n);
      var slots := JobSlots(filters);
      assert slots == slots[..n] + [slots[n]];
      ParamsAppend(slots[..n], [slots[n]]);
      BoundValuesStep(filters, n);
      assert filters[..n + 1] == filters;
    }
  }

  /** The placeholders of a job filter are `$1 .. $k` in order, one per bound
      value: `hasEquity` never consumes a number. */
  lemma JobFilterPlaceholders<V>(filters: seq<JobFilter<V>>)
    ensures
      var r := JobsClause(filters);
      var ps := Placeholders(r.sql);
      |ps| == |r.values| && NumberedFromOne(ps)
  {
    PlaceholdersOfWhere(JobSlots(filters));
    JobParamsNumbered(filters);
  }

  /** How many filters bind a value: the `title` and `minSalary` ones. */
  function BindingFilterCount<V>(filters: seq<JobFilter<V>>): nat
    decreases |filters|
  {
    if |filters| == 0 then 0
    else (if filters[0].HasEquity? then 0 else 1) + BindingFilterCount(filters[1..])
  }

  /** The values bound by a filter in front of others: its own, if any, then
      theirs. */
  lemma BoundValuesCons<V>(f: JobFilter<V>, rest: seq<JobFilter<V>>)
    ensures |BoundValues([f] + rest)| == (if f.HasEquity? then 0 else 1) + |BoundValues(rest)|
  {
    BoundValuesAppend([f], rest);
    BoundValuesStep([f], 0);
    assert [f][..0] == [];
    assert [f][..1] == [f];
  }

  /** One value is bound per `title` or `minSalary` filter, whatever the
      number or truthiness of `hasEquity` filters. */
  lemma {:induction false} JobValueCount<V>(filters: seq<JobFilter<V>>)
    ensures |JobsClause(filters).values| == BindingFilterCount(filters)
    decreases |filters|
  {
    if |filters| > 0 {
      assert filters == [filters[0]] + filters[1..];
      BoundValuesCons(filters[0], filters[1..]);
      JobValueCount(filters[1..]);
    }
  }

  /** A `hasEquity` filter binds no value wherever it is inserted. */
  lemma EquityBindsNoValue<V>(pre: seq<JobFilter<V>>, b: bool, post: seq<JobFilter<V>>)
    ensures BoundValues(pre + [HasEquity(b)] + post) == BoundValues(pre + post)
  {
    var e: seq<JobFilter<V>> := [HasEquity(b)];
    assert BoundValues(e) == BoundValues(e[..0]);
    BoundValuesAppend(pre, e);
    BoundValuesAppend(pre + e, post);
    BoundValuesAppend(pre, post);
  }

  /** A slot after an inserted `hasEquity` keeps its predicate and number. */
  lemma EquityKeepsLaterSlot<V>(pre: seq<JobFilter<V>>, b: bool, post: seq<JobFilter<V>>, k: nat)
    requires k < |post|
    ensures JobSlots(pre + [HasEquity(b)] + post)[|pre| + 1 + k] == JobSlots(pre + post)[|pre| + k]
  {
    var with := pre + [HasEquity(b)] + post;
    var without := pre + post;
    assert with[..|pre| + 1 + k] == pre + [HasEquity(b)] + post[..k];
    assert without[..|pre| + k] == pre + post[..k];
    EquityBindsNoValue(pre, b, post[..k]);
    assert with[|pre| + 1 + k] == without[|pre| + k];
  }

  /** A slot before an inserted `hasEquity` keeps its predicate and number. */
  lemma EquityKeepsEarlierSlot<V>(pre: seq<JobFilter<V>>, b: bool, post: seq<JobFilter<V>>, j: nat)
    requires j < |pre|
    ensures JobSlots(pre + [HasEquity(b)] + post)[j] == JobSlots(pre + post)[j]
  {
    var with := pre + [HasEquity(b)] + post;
    var without := pre + post;
    assert with[..j] == without[..j];
    assert with[j] == without[j];
  }

  /** Inserting a `hasEquity` filter anywhere adds no value and leaves every
      other slot, with its number, as it was; its own slot is `equity > 0`
      when true and empty when false. */
  lemma HasEquityBindsNothing<V>(pre: seq<JobFilter<V>>, b: bool, post: seq<JobFilter<V>>)
    ensures
      var with := pre + [HasEquity(b)] + post;
      var without := pre + post;
      && JobsClause(with).values == JobsClause(without).values
      && JobSlots(with)
         == JobSlots(without)[..|pre|] + [if b then Some(EquityPositive) else None] + JobSlots(without)[|pre|..]
  {
    EquityBindsNoValue(pre, b, post);
    var lhs := JobSlots(pre + [HasEquity(b)] + post);
    var slots := JobSlots(pre + post);
    var rhs := slots[..|pre|] + [if b then Some(EquityPositive) else None] + slots[|pre|..];
    assert |lhs| == |rhs|;
    forall j | 0 <= j < |lhs|
      ensures lhs[j] == rhs[j]
    {
      if j < |pre| {
        EquityKeepsEarlierSlot(pre, b, post, j);
      } else if j > |pre| {
        EquityKeepsLaterSlot(pre, b, post, j - |pre| - 1);
      } else {
        assert (pre + [HasEquity(b)] + post)[j] == HasEquity(b);
      }
    }
  }

  /** A falsy `hasEquity` after other filters adds an empty element to the
      joined list, leaving the clause ending in a dangling " AND ". */
  lemma FalsyEquityLeavesDanglingAnd<V>(filters: seq<JobFilter<V>>)
    requires |filters| > 0
    ensures
      JobsClause(filters + [HasEquity(false)])
      == WhereClause(JobsClause(filters).sql + " AND ", JobsClause(filters).values)
  {
    var extended := filters + [HasEquity(false)];
    var n := |filters|;
    assert extended[..n] == filters;
    BoundValuesStep(extended, n);
    assert extended[..n + 1] == extended;
    JobSlotsPrefix(extended, n);
    var slots := JobSlots(filters);
    assert JobSlots(extended) == slots + [None];
    assert SlotTexts(slots + [None]) == SlotTexts(slots) + [""];
    JoinSnoc(" AND ", SlotTexts(slots), "");
    assert Join(" AND ", SlotTexts(slots)) + " AND " + "" == Join(" AND ", SlotTexts(slots)) + " AND ";
  }

  /** With no filter keys, or only a falsy `hasEquity`, both filter builders
      return the bare "WHERE " and no values. */
  lemma EmptyFiltersGiveBareWhere<V>()
    ensures SqlForFiltering<V>([]) == WhereClause("WHERE ", [])
    ensures JobsClause<V>([]) == WhereClause("WHERE ", [])
    ensures JobsClause<V>([HasEquity(false)]) == WhereClause("WHERE ", [])
  {
    var falsy: seq<JobFilter<V>> := [HasEquity(false)];
    assert falsy[..0] == [];
    assert JobSlots(falsy) == [None];
  }
}
