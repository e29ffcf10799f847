/** The SQL fragments the builders emit, as data: a `SET` list is a sequence
    of assignments, a `WHERE` clause a sequence of predicate slots. Each
    renders to exactly the text of helpers/sql.js; an empty slot stands for
    the `undefined` a `map` callback returns, which `join` renders as "". */
module Clauses {
  import opened Wrappers
  import opened Decimal
  import opened Strings
  import opened Parameters

  /** `"column"=$param`, one element of a `SET` list. */
  datatype Assignment = Assignment(column: string, param: nat)

  function AssignmentSql(a: Assignment): string {
    "\"" + a.column + "\"=" + Param(a.param)
  }

  function AssignmentTexts(assigns: seq<Assignment>): (texts: seq<string>)
    ensures |texts| == |assigns|
    ensures forall i :: 0 <= i < |assigns| ==> texts[i] == AssignmentSql(assigns[i])
    decreases |assigns|
  {
    if |assigns| == 0 then [] else [AssignmentSql(assigns[0])] + AssignmentTexts(assigns[1..])
  }

  /** `cols.join(", ")`. */
  function SetColsSql(assigns: seq<Assignment>): string {
    Join(", ", AssignmentTexts(assigns))
  }

  /** The parameter indices of a `SET` list, in order. */
  function AssignmentParams(assigns: seq<Assignment>): (ps: seq<nat>)
    ensures |ps| == |assigns|
    ensures forall i :: 0 <= i < |assigns| ==> ps[i] == assigns[i].param
    decreases |assigns|
  {
    if |assigns| == 0 then [] else [assigns[0].param] + AssignmentParams(assigns[1..])
  }

  /** The predicates either filter builder can emit. */
  datatype Predicate =
    | NameLike(param: nat)
    | EmployeesAtLeast(param: nat)
    | EmployeesAtMost(param: nat)
    | TitleLike(param: nat)
    | SalaryAtLeast(param: nat)
    | EquityPositive

  const NameLikeHead := "LOWER(name) LIKE '%'||"
  const TitleLikeHead := "LOWER(title) LIKE '%'||"
  const LikeTail := "||'%'"
  const EmployeesAtLeastHead := "num_employees >="
  const EmployeesAtMostHead := "num_employees <="
  const SalaryAtLeastHead := "salary >="
  const EquityPositiveSql := "equity > 0"

  function PredicateSql(p: Predicate): string {
    match p
    case NameLike(n) => NameLikeHead + Param(n) + LikeTail
    case EmployeesAtLeast(n) => EmployeesAtLeastHead + Param(n)
    case EmployeesAtMost(n) => EmployeesAtMostHead + Param(n)
    case TitleLike(n) => TitleLikeHead + Param(n) + LikeTail
    case SalaryAtLeast(n) => SalaryAtLeastHead + Param(n)
    case EquityPositive => EquityPositiveSql
  }

  /** An element of the `filters` array: `undefined` joins as the empty string. */
  function SlotSql(slot: Option<Predicate>): string {
    match slot
    case None => ""
    case Some(p) => PredicateSql(p)
  }

  function SlotTexts(slots: seq<Option<Predicate>>): (texts: seq<string>)
    ensures |texts| == |slots|
    ensures forall i :: 0 <= i < |slots| ==> texts[i] == SlotSql(slots[i])
    decreases |slots|
  {
    if |slots| == 0 then [] else [SlotSql(slots[0])] + SlotTexts(slots[1..])
  }

  /** `"WHERE " + filters.join(" AND ")`. */
  function WhereSql(slots: seq<Option<Predicate>>): string {
    "WHERE " + Join(" AND ", SlotTexts(slots))
  }

  /** The parameter index a slot refers to, if any. */
  function SlotParams(slot: Option<Predicate>): seq<nat> {
    match slot
    case Some(p) => if p.EquityPositive? then [] else [p.param]
    case None => []
  }

  /** The parameter indices a sequence of slots refers to, in order. */
  function Params(slots: seq<Option<Predicate>>): seq<nat>
    decreases |slots|
  {
    if |slots| == 0 then [] else SlotParams(slots[0]) + Params(slots[1..])
  }

  /** The parameters of consecutive slots are those of each part in turn. */
  lemma {:induction false} ParamsAppend(a: seq<Option<Predicate>>, b: seq<Option<Predicate>>)
    ensures Params(a + b) == Params(a) + Params(b)
    decreases |a|
  {
    if |a| == 0 {
      assert a + b == b;
    } else {
      assert (a + b)[1..] == a[1..] + b;
      ParamsAppend(a[1..], b);
    }
  }

  /** Slots that each refer to one parameter, numbered on from `base`, refer
      to `base, base + 1, ...` in order. */
  lemma {:induction false} ParamsOfNumberedSlots(slots: seq<Option<Predicate>>, base: nat)
    requires forall i :: 0 <= i < |slots| ==> SlotParams(slots[i]) == [base + i]
    ensures |Params(slots)| == |slots|
    ensures forall i :: 0 <= i < |slots| ==> Params(slots)[i] == base + i
    decreases |slots|
  {
    if |slots| > 0 {
      ParamsOfNumberedSlots(slots[1..], base + 1);
    }
  }

  /** The placeholders written into one slot's text are the slot's parameters. */
  lemma PlaceholdersOfSlot(slot: Option<Predicate>)
    ensures Placeholders(SlotSql(slot)) == SlotParams(slot)
  {
    match slot {
      case None =>
      case Some(p) =>
        match p {
          case NameLike(n) => PlaceholdersOfTerm(NameLikeHead, n, LikeTail);
          case EmployeesAtLeast(n) =>
            PlaceholdersOfTerm(EmployeesAtLeastHead, n, []);
            assert EmployeesAtLeastHead + Param(n) + [] == PredicateSql(p);
          case EmployeesAtMost(n) =>
            PlaceholdersOfTerm(EmployeesAtMostHead, n, []);
            assert EmployeesAtMostHead + Param(n) + [] == PredicateSql(p);
          case TitleLike(n) => PlaceholdersOfTerm(TitleLikeHead, n, LikeTail);
          case SalaryAtLeast(n) =>
            PlaceholdersOfTerm(SalaryAtLeastHead, n, []);
            assert SalaryAtLeastHead + Param(n) + [] == PredicateSql(p);
          case EquityPositive =>
            PlaceholdersSkip(EquityPositiveSql, []);
            assert EquityPositiveSql + [] == EquityPositiveSql;
        }
    }
  }

  /** The placeholders of a rendered `WHERE` clause are exactly, and in order,
      the parameters its slots refer to. */
  lemma PlaceholdersOfWhere(slots: seq<Option<Predicate>>)
    ensures Placeholders(WhereSql(slots)) == Params(slots)
  {
    var joined := Join(" AND ", SlotTexts(slots));
    assert !IsDigit(" AND "[0]);
    PlaceholdersSkip("WHERE ", joined);
    PlaceholdersJoin(" AND ", SlotTexts(slots));
    PlaceholdersOfSlotTexts(slots);
  }

  lemma {:induction false} PlaceholdersOfSlotTexts(slots: seq<Option<Predicate>>)
    ensures PlaceholdersOfParts(SlotTexts(slots)) == Params(slots)
    decreases |slots|
  {
    if |slots| > 0 {
      PlaceholdersOfSlot(slots[0]);
      assert SlotTexts(slots)[1..] == SlotTexts(slots[1..]);
      PlaceholdersOfSlotTexts(slots[1..]);
    }
  }

  /** The placeholders of a rendered `SET` list are exactly, and in order,
      the parameters of its assignments, provided no column name holds a `$`. */
  lemma PlaceholdersOfSetCols(assigns: seq<Assignment>)
    requires forall i :: 0 <= i < |assigns| ==> '$' !in assigns[i].column
    ensures Placeholders(SetColsSql(assigns)) == AssignmentParams(assigns)
  {
    var texts := AssignmentTexts(assigns);
    assert !IsDigit(", "[0]);
    PlaceholdersJoin(", ", texts);
    PlaceholdersOfAssignmentTexts(assigns);
  }

  lemma {:induction false} PlaceholdersOfAssignmentTexts(assigns: seq<Assignment>)
    requires forall i :: 0 <= i < |assigns| ==> '$' !in assigns[i].column
    ensures PlaceholdersOfParts(AssignmentTexts(assigns)) == AssignmentParams(assigns)
    decreases |assigns|
  {
    if |assigns| > 0 {
      var a := assigns[0];
      var head := "\"" + a.column + "\"=";
      PlaceholdersOfTerm(head, a.param, []);
      assert head + Param(a.param) + [] == AssignmentSql(a);
      assert AssignmentTexts(assigns)[1..] == AssignmentTexts(assigns[1..]);
      PlaceholdersOfAssignmentTexts(assigns[1..]);
    }
  }
}
