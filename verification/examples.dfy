/** The concrete cases exercised by helpers/sql.test.js and by the "bad
    request with no data" case of models/job.test.js, with the values of
    those tests as a small scalar type. */
module SqlExamples {
  import opened Wrappers
  import opened Decimal
  import opened Strings
  import opened Parameters
  import opened Clauses
  import opened Sql
  import ExampleTexts

  datatype Scalar = Text(text: string) | Number(number: real)

  lemma SmallParams()
    ensures Param(1) == "$1" && Param(2) == "$2"
  {
    assert NatToString(1) == [DigitChar(1)] == "1";
    assert NatToString(2) == [DigitChar(2)] == "2";
  }

  /** An update of two keys, in terms of its two assignments. */
  lemma UpdateOfTwo<V>(k1: string, v1: V, k2: string, v2: V, jsToSql: map<string, string>)
    ensures SqlForPartialUpdate([(k1, v1), (k2, v2)], jsToSql)
         == Success(UpdateClause(
              AssignmentSql(Assignment(Column(jsToSql, k1), 1)) + ", "
              + AssignmentSql(Assignment(Column(jsToSql, k2), 2)),
              [v1, v2]))
  {
    var data := [(k1, v1), (k2, v2)];
    var assigns := UpdateAssignments(Keys(data), jsToSql);
    assert assigns == [Assignment(Column(jsToSql, k1), 1), Assignment(Column(jsToSql, k2), 2)];
    var texts := AssignmentTexts(assigns);
    assert texts == [AssignmentSql(assigns[0]), AssignmentSql(assigns[1])];
    JoinTwo(", ", texts[0], texts[1]);
    assert Values(data) == [v1, v2];
  }

  lemma PartialUpdateExample()
    ensures SqlForPartialUpdate([("name", Text("TestName")), ("description", Text("test"))],
                                map["description" := "company_description"])
         == Success(UpdateClause("\"name\"=$1, \"company_description\"=$2", [Text("TestName"), Text("test")]))
  {
    var jsToSql := map["description" := "company_description"];
    UpdateOfTwo("name", Text("TestName"), "description", Text("test"), jsToSql);
    assert Column(jsToSql, "name") == "name";
    assert Column(jsToSql, "description") == "company_description";
    SmallParams();
    ExampleTexts.NameAssignment();
    ExampleTexts.DescriptionAssignment();
    ExampleTexts.UpdateSetCols();
  }

  lemma PartialUpdateNoData()
    ensures SqlForPartialUpdate<Scalar>([], map[]) == Failure(BadRequest("No data"))
  {
  }

  /** The clause of two slots, from the texts of the two. */
  lemma WhereOfTwo(slots: seq<Option<Predicate>>)
    requires |slots| == 2
    ensures WhereSql(slots) == "WHERE " + SlotSql(slots[0]) + " AND " + SlotSql(slots[1])
  {
    var texts := SlotTexts(slots);
    assert texts == [SlotSql(slots[0]), SlotSql(slots[1])];
    JoinTwo(" AND ", texts[0], texts[1]);
  }

  lemma CompanyFilterExample()
    ensures SqlForFiltering([(Name, Text("TestName")), (MinEmployees, Number(500.0))])
         == WhereClause("WHERE LOWER(name) LIKE '%'||$1||'%' AND num_employees >=$2",
                        [Text("TestName"), Number(500.0)])
  {
    var filters := [(Name, Text("TestName")), (MinEmployees, Number(500.0))];
    var slots := CompanySlots(Keys(filters));
    assert slots == [Some(NameLike(1)), Some(EmployeesAtLeast(2))];
    WhereOfTwo(slots);
    SmallParams();
    ExampleTexts.NameLikeFirst();
    ExampleTexts.EmployeesAtLeastSecond();
    ExampleTexts.CompanyWhere();
    assert Values(filters) == [Text("TestName"), Number(500.0)];
    assert SqlForFiltering(filters) == WhereClause(WhereSql(slots), Values(filters));
  }

  /** The slots and values of a `title` filter followed by another filter:
      the title takes `$1`, the other filter is numbered `2` if it binds. */
  lemma TitleThen<V>(v: V, second: JobFilter<V>)
    ensures JobSlots([Title(v), second]) == [Some(TitleLike(1)), JobSlot(second, 2)]
    ensures BoundValues([Title(v), second])
         == [v] + (match PushedValue(second) case Some(w) => [w] case None => [])
  {
    var filters := [Title(v), second];
    assert filters[..0] == [];
    BoundValuesStep(filters, 0);
    BoundValuesStep(filters, 1);
    assert filters[..2] == filters;
  }

  lemma JobFilterEquityExample()
    ensures JobsClause([Title(Text("TestName")), HasEquity(true)])
         == WhereClause("WHERE LOWER(title) LIKE '%'||$1||'%' AND equity > 0", [Text("TestName")])
  {
    var filters := [Title(Text("TestName")), HasEquity(true)];
    TitleThen(Text("TestName"), HasEquity(true));
    WhereOfTwo(JobSlots(filters));
    SmallParams();
    ExampleTexts.TitleLikeFirst();
    ExampleTexts.TitleEquityWhere();
  }

  lemma JobFilterSalaryExample()
    ensures JobsClause([Title(Text("TestName")), MinSalary(Number(10000.99))])
         == WhereClause("WHERE LOWER(title) LIKE '%'||$1||'%' AND salary >=$2",
                        [Text("TestName"), Number(10000.99)])
  {
    var filters := [Title(Text("TestName")), MinSalary(Number(10000.99))];
    TitleThen(Text("TestName"), MinSalary(Number(10000.99)));
    WhereOfTwo(JobSlots(filters));
    SmallParams();
    ExampleTexts.TitleLikeFirst();
    ExampleTexts.SalaryAtLeastSecond();
    ExampleTexts.TitleSalaryWhere();
  }
}
