/** Readers for the fragments the builders emit. They are the inverses of the
    renderings in `Clauses`: reading a rendered `SET` list or `WHERE` clause
    recovers every assignment or predicate slot, with its parameter index. */
module ClauseParser {
  import opened Wrappers
  import opened Decimal
  import opened Strings
  import opened Parameters
  import opened Clauses

  /** Reads a placeholder `$n` at the front of `s`. */
  function ParseParam(s: string): (r: Option<(nat, string)>)
    ensures r.Some? ==> |r.value.1| < |s|
  {
    if |s| > 1 && s[0] == '$' && IsDigit(s[1]) then
      var k := DigitRun(s[1..]);
      Some((ParseDigits(s[1..][..k]), s[1..][k..]))
    else None
  }

  /** Reads `head$ntail` at the front of `s`. */
  function ParseTerm(s: string, head: string, tail: string): (r: Option<(nat, string)>)
    ensures r.Some? ==> |r.value.1| < |s|
  {
    if StartsWith(s, head) then
      match ParseParam(s[|head|..])
      case Some((n, rest)) =>
        if StartsWith(rest, tail) then Some((n, rest[|tail|..])) else None
      case None => None
    else None
  }

  /** Reads one predicate at the front of `s`. */
  function ParsePredicate(s: string): (r: Option<(Predicate, string)>)
    ensures r.Some? ==> |r.value.1| < |s|
  {
    if StartsWith(s, NameLikeHead) then
      match ParseTerm(s, NameLikeHead, LikeTail)
      case Some((n, rest)) => Some((NameLike(n), rest))
      case None => None
    else if StartsWith(s, TitleLikeHead) then
      match ParseTerm(s, TitleLikeHead, LikeTail)
      case Some((n, rest)) => Some((TitleLike(n), rest))
      case None => None
    else if StartsWith(s, EmployeesAtLeastHead) then
      match ParseTerm(s, EmployeesAtLeastHead, "")
      case Some((n, rest)) => Some((EmployeesAtLeast(n), rest))
      case None => None
    else if StartsWith(s, EmployeesAtMostHead) then
      match ParseTerm(s, EmployeesAtMostHead, "")
      case Some((n, rest)) => Some((EmployeesAtMost(n), rest))
      case None => None
    else if StartsWith(s, SalaryAtLeastHead) then
      match ParseTerm(s, SalaryAtLeastHead, "")
      case Some((n, rest)) => Some((SalaryAtLeast(n), rest))
      case None => None
    else if StartsWith(s, EquityPositiveSql) then
      Some((EquityPositive, s[|EquityPositiveSql|..]))
    else None
  }

  /** Reads one slot: a predicate, or nothing at all for an empty slot. */
  function ParseSlot(s: string): (r: (Option<Predicate>, string))
    ensures |r.1| <= |s|
  {
    match ParsePredicate(s)
    case Some((p, rest)) => (Some(p), rest)
    case None => (None, s)
  }

  /** Reads slots separated by " AND " up to the end of `s`. */
  function ParseSlots(s: string): Option<seq<Option<Predicate>>>
    decreases |s|
  {
    var (slot, rest) := ParseSlot(s);
    if |rest| == 0 then Some([slot])
    else if StartsWith(rest, " AND ") then
      match ParseSlots(rest[5..])
      case Some(more) => Some([slot] + more)
      case None => None
    else None
  }

  /** Reads a whole `WHERE` clause into its predicate slots. */
  function ParseWhere(s: string): Option<seq<Option<Predicate>>> {
    if StartsWith(s, "WHERE ") then ParseSlots(s[6..]) else None
  }

  /** Reads one `"column"=$n` assignment at the front of `s`. */
  function ParseAssignment(s: string): (r: Option<(Assignment, string)>)
    ensures r.Some? ==> |r.value.1| < |s|
  {
    if |s| == 0 || s[0] != '"' then None
    else
      var body := s[1..];
      var k := Find(body, '"');
      if k == |body| then None
      else
        var after := body[k + 1..];
        if StartsWith(after, "=") then
          match ParseParam(after[1..])
          case Some((n, rest)) => Some((Assignment(body[..k], n), rest))
          case None => None
        else None
  }

  /** Reads assignments separated by ", " up to the end of `s`. */
  function ParseSetCols(s: string): Option<seq<Assignment>>
    decreases |s|
  {
    match ParseAssignment(s)
    case None => None
    case Some((a, rest)) =>
      if |rest| == 0 then Some([a])
      else if StartsWith(rest, ", ") then
        match ParseSetCols(rest[2..])
        case Some(more) => Some([a] + more)
        case None => None
      else None
  }

  // Round trips

  lemma ParseParamRender(n: nat, rest: string)
    requires rest == [] || !IsDigit(rest[0])
    ensures ParseParam(Param(n) + rest) == Some((n, rest))
  {
    var digits := NatToString(n);
    var s := Param(n) + rest;
    assert s[1..] == digits + rest;
    DigitRunOfNat(n, rest);
    assert s[1..][..|digits|] == digits;
    assert s[1..][|digits|..] == rest;
    ParseNatToString(n);
  }

  lemma ParseTermRender(head: string, n: nat, tail: string, rest: string)
    requires tail + rest == [] || !IsDigit((tail + rest)[0])
    ensures ParseTerm(head + Param(n) + tail + rest, head, tail) == Some((n, rest))
  {
    var s := head + Param(n) + tail + rest;
    assert s == head + (Param(n) + (tail + rest));
    StartsWithAppend(head, Param(n) + (tail + rest));
    ParseParamRender(n, tail + rest);
    StartsWithAppend(tail, rest);
  }

  /** `s` cannot start with `prefix` when they differ at a position both have. */
  lemma DifferAt(head: string, x: string, prefix: string, i: nat)
    requires i < |head| && i < |prefix| && head[i] != prefix[i]
    ensures !StartsWith(head + x, prefix)
  {
    var s := head + x;
    assert s[i] == head[i];
    if |prefix| <= |s| {
      assert s[..|prefix|][i] == s[i];
    }
  }

  /** Text that begins with a space, or nothing, is no predicate. */
  lemma ParsePredicateNone(s: string)
    requires s == [] || s[0] == ' '
    ensures ParsePredicate(s) == None
  {
    if s != [] {
      assert s == [s[0]] + s[1..];
      DifferAt([s[0]], s[1..], NameLikeHead, 0);
      DifferAt([s[0]], s[1..], TitleLikeHead, 0);
      DifferAt([s[0]], s[1..], EmployeesAtLeastHead, 0);
      DifferAt([s[0]], s[1..], EmployeesAtMostHead, 0);
      DifferAt([s[0]], s[1..], SalaryAtLeastHead, 0);
      DifferAt([s[0]], s[1..], EquityPositiveSql, 0);
    }
  }

  lemma ParseNameLikeRender(n: nat, rest: string)
    requires rest == [] || rest[0] == ' '
    ensures ParsePredicate(PredicateSql(NameLike(n)) + rest) == Some((NameLike(n), rest))
  {
    var t := Param(n) + LikeTail + rest;
    assert PredicateSql(NameLike(n)) + rest == NameLikeHead + t == NameLikeHead + Param(n) + LikeTail + rest;
    StartsWithAppend(NameLikeHead, t);
    ParseTermRender(NameLikeHead, n, LikeTail, rest);
  }

  lemma ParseTitleLikeRender(n: nat, rest: string)
    requires rest == [] || rest[0] == ' '
    ensures ParsePredicate(PredicateSql(TitleLike(n)) + rest) == Some((TitleLike(n), rest))
  {
    var t := Param(n) + LikeTail + rest;
    assert PredicateSql(TitleLike(n)) + rest == TitleLikeHead + t == TitleLikeHead + Param(n) + LikeTail + rest;
    DifferAt(TitleLikeHead, t, NameLikeHead, 6);
    StartsWithAppend(TitleLikeHead, t);
    ParseTermRender(TitleLikeHead, n, LikeTail, rest);
  }

  lemma ParseEmployeesAtLeastRender(n: nat, rest: string)
    requires rest == [] || rest[0] == ' '
    ensures ParsePredicate(PredicateSql(EmployeesAtLeast(n)) + rest) == Some((EmployeesAtLeast(n), rest))
  {
    var t := Param(n) + rest;
    assert PredicateSql(EmployeesAtLeast(n)) + rest == EmployeesAtLeastHead + t == EmployeesAtLeastHead + Param(n) + "" + rest;
    DifferAt(EmployeesAtLeastHead, t, NameLikeHead, 0);
    DifferAt(EmployeesAtLeastHead, t, TitleLikeHead, 0);
    StartsWithAppend(EmployeesAtLeastHead, t);
    ParseTermRender(EmployeesAtLeastHead, n, "", rest);
  }

  lemma ParseEmployeesAtMostRender(n: nat, rest: string)
    requires rest == [] || rest[0] == ' '
    ensures ParsePredicate(PredicateSql(EmployeesAtMost(n)) + rest) == Some((EmployeesAtMost(n), rest))
  {
    var t := Param(n) + rest;
    assert PredicateSql(EmployeesAtMost(n)) + rest == EmployeesAtMostHead + t == EmployeesAtMostHead + Param(n) + "" + rest;
    DifferAt(EmployeesAtMostHead, t, NameLikeHead, 0);
    DifferAt(EmployeesAtMostHead, t, TitleLikeHead, 0);
    DifferAt(EmployeesAtMostHead, t, EmployeesAtLeastHead, 14);
    StartsWithAppend(EmployeesAtMostHead, t);
    ParseTermRender(EmployeesAtMostHead, n, "", rest);
  }

  lemma ParseSalaryAtLeastRender(n: nat, rest: string)
    requires rest == [] || rest[0] == ' '
    ensures ParsePredicate(PredicateSql(SalaryAtLeast(n)) + rest) == Some((SalaryAtLeast(n), rest))
  {
    var t := Param(n) + rest;
    assert PredicateSql(SalaryAtLeast(n)) + rest == SalaryAtLeastHead + t == SalaryAtLeastHead + Param(n) + "" + rest;
    DifferAt(SalaryAtLeastHead, t, NameLikeHead, 0);
    DifferAt(SalaryAtLeastHead, t, TitleLikeHead, 0);
    DifferAt(SalaryAtLeastHead, t, EmployeesAtLeastHead, 0);
    DifferAt(SalaryAtLeastHead, t, EmployeesAtMostHead, 0);
    StartsWithAppend(SalaryAtLeastHead, t);
    ParseTermRender(SalaryAtLeastHead, n, "", rest);
  }

  lemma ParseEquityPositiveRender(rest: string)
    requires rest == [] || rest[0] == ' '
    ensures ParsePredicate(PredicateSql(EquityPositive) + rest) == Some((EquityPositive, rest))
  {
    DifferAt(EquityPositiveSql, rest, NameLikeHead, 0);
    DifferAt(EquityPositiveSql, rest, TitleLikeHead, 0);
    DifferAt(EquityPositiveSql, rest, EmployeesAtLeastHead, 0);
    DifferAt(EquityPositiveSql, rest, EmployeesAtMostHead, 0);
    DifferAt(EquityPositiveSql, rest, SalaryAtLeastHead, 0);
    StartsWithAppend(EquityPositiveSql, rest);
  }

  /** Every predicate reads back as itself, whatever follows it, as long as
      what follows is the end or a separator. */
  lemma ParsePredicateRender(p: Predicate, rest: string)
    requires rest == [] || rest[0] == ' '
    ensures ParsePredicate(PredicateSql(p) + rest) == Some((p, rest))
  {
    match p {
      case NameLike(n) => ParseNameLikeRender(n, rest);
      case TitleLike(n) => ParseTitleLikeRender(n, rest);
      case EmployeesAtLeast(n) => ParseEmployeesAtLeastRender(n, rest);
      case EmployeesAtMost(n) => ParseEmployeesAtMostRender(n, rest);
      case SalaryAtLeast(n) => ParseSalaryAtLeastRender(n, rest);
      case EquityPositive => ParseEquityPositiveRender(rest);
    }
  }

  lemma ParseSlotRender(slot: Option<Predicate>, rest: string)
    requires rest == [] || rest[0] == ' '
    ensures ParseSlot(SlotSql(slot) + rest) == (slot, rest)
  {
    match slot {
      case None =>
        assert SlotSql(slot) + rest == rest;
        ParsePredicateNone(rest);
      case Some(p) =>
        ParsePredicateRender(p, rest);
    }
  }

  /** Reading the " AND "-join of rendered slots gives the slots back. */
  lemma {:induction false} ParseSlotsRender(slots: seq<Option<Predicate>>)
    requires |slots| > 0
    ensures ParseSlots(Join(" AND ", SlotTexts(slots))) == Some(slots)
    decreases |slots|
  {
    var texts := SlotTexts(slots);
    if |slots| == 1 {
      assert SlotSql(slots[0]) + [] == Join(" AND ", texts);
      ParseSlotRender(slots[0], []);
      assert [slots[0]] == slots;
    } else {
      var more := Join(" AND ", SlotTexts(slots[1..]));
      assert texts[1..] == SlotTexts(slots[1..]);
      assert Join(" AND ", texts) == SlotSql(slots[0]) + (" AND " + more);
      ParseSlotRender(slots[0], " AND " + more);
      StartsWithAppend(" AND ", more);
      ParseSlotsRender(slots[1..]);
      assert [slots[0]] + slots[1..] == slots;
    }
  }

  /** A rendered non-empty `WHERE` clause reads back as exactly its slots. */
  lemma ParseWhereRender(slots: seq<Option<Predicate>>)
    requires |slots| > 0
    ensures ParseWhere(WhereSql(slots)) == Some(slots)
  {
    StartsWithAppend("WHERE ", Join(" AND ", SlotTexts(slots)));
    ParseSlotsRender(slots);
  }

  lemma ParseAssignmentRender(a: Assignment, rest: string)
    requires '"' !in a.column
    requires rest == [] || !IsDigit(rest[0])
    ensures ParseAssignment(AssignmentSql(a) + rest) == Some((a, rest))
  {
    var s := AssignmentSql(a) + rest;
    var after := "=" + Param(a.param) + rest;
    var body := s[1..];
    assert s[0] == '"';
    assert body == a.column + ['"'] + after;
    FindAfter(a.column, '"', after);
    assert body[..|a.column|] == a.column;
    assert body[|a.column| + 1..] == after;
    StartsWithAppend("=", Param(a.param) + rest);
    assert after[1..] == Param(a.param) + rest;
    ParseParamRender(a.param, rest);
  }

  /** One assignment followed by ", " reads as that assignment in front of
      whatever the remainder reads as. */
  lemma ParseSetColsCons(a: Assignment, more: string)
    requires '"' !in a.column
    ensures ParseSetCols(AssignmentSql(a) + (", " + more))
         == (match ParseSetCols(more) case Some(m) => Some([a] + m) case None => None)
  {
    var rest := ", " + more;
    ParseAssignmentRender(a, rest);
    StartsWithAppend(", ", more);
  }

  /** A rendered non-empty `SET` list whose column names hold no double quote
      reads back as exactly its assignments. */
  lemma {:induction false} ParseSetColsRender(assigns: seq<Assignment>)
    requires |assigns| > 0
    requires forall i :: 0 <= i < |assigns| ==> '"' !in assigns[i].column
    ensures ParseSetCols(SetColsSql(assigns)) == Some(assigns)
    decreases |assigns|
  {
    var texts := AssignmentTexts(assigns);
    if |assigns| == 1 {
      assert SetColsSql(assigns) == AssignmentSql(assigns[0]) + [];
      ParseAssignmentRender(assigns[0], []);
      assert [assigns[0]] == assigns;
    } else {
      var more := SetColsSql(assigns[1..]);
      assert texts[1..] == AssignmentTexts(assigns[1..]);
      assert SetColsSql(assigns) == AssignmentSql(assigns[0]) + (", " + more);
      ParseSetColsCons(assigns[0], more);
      ParseSetColsRender(assigns[1..]);
      assert [assigns[0]] + assigns[1..] == assigns;
    }
  }
}
