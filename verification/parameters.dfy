/** Positional parameters as they appear in SQL text: `$` followed by a
    decimal index. `Placeholders` reads them back out of any string, which
    is how the properties of the generated fragments are stated. */
module Parameters {
  import opened Decimal
  import opened Strings

  /** The placeholder text `$n`, as in the template `$${idx + 1}`. */
  function Param(n: nat): string {
    "$" + NatToString(n)
  }

  /** The indices of the placeholders of `s`, left to right: every `$` that
      is directly followed by a digit, read with its maximal run of digits. */
  function Placeholders(s: string): seq<nat>
    decreases |s|
  {
    if |s| == 0 then []
    else if s[0] == '$' && |s| > 1 && IsDigit(s[1]) then
      var k := DigitRun(s[1..]);
      [ParseDigits(s[1..][..k])] + Placeholders(s[1..][k..])
    else Placeholders(s[1..])
  }

  /** Indices `1, 2, ..., |ps|` in this order: contiguous, no gaps. */
  predicate NumberedFromOne(ps: seq<nat>) {
    forall i :: 0 <= i < |ps| ==> ps[i] == i + 1
  }

  /** The placeholders of the parts, concatenated in order. */
  function PlaceholdersOfParts(parts: seq<string>): seq<nat>
    decreases |parts|
  {
    if |parts| == 0 then [] else Placeholders(parts[0]) + PlaceholdersOfParts(parts[1..])
  }

  /** One step of the scan at a placeholder. */
  lemma PlaceholdersAtParam(x: string)
    requires |x| > 0 && IsDigit(x[0])
    ensures Placeholders("$" + x) == [ParseDigits(x[..DigitRun(x)])] + Placeholders(x[DigitRun(x)..])
  {
    assert ("$" + x)[1..] == x;
  }

  /** One step of the scan past a character that starts no placeholder. */
  lemma PlaceholdersAtOther(s: string)
    requires |s| > 0 && !(s[0] == '$' && |s| > 1 && IsDigit(s[1]))
    ensures Placeholders(s) == Placeholders(s[1..])
  {
  }

  /** Text that does not start with a digit cannot extend a placeholder at
      the end of what precedes it, so scanning distributes over the join. */
  lemma {:induction false} PlaceholdersAppend(a: string, b: string)
    requires b == [] || !IsDigit(b[0])
    ensures Placeholders(a + b) == Placeholders(a) + Placeholders(b)
    decreases |a|, 1
  {
    if |a| == 0 {
      assert a + b == b;
    } else if a[0] == '$' && |a| > 1 && IsDigit(a[1]) {
      assert a == "$" + a[1..];
      assert a + b == "$" + a[1..] + b;
      PlaceholdersAppendParam(a[1..], b);
    } else if a[0] == '$' && |a| == 1 {
      if |b| > 0 {
        assert (a + b)[1..] == b;
        PlaceholdersAtOther(a + b);
      } else {
        assert a + b == a;
      }
      PlaceholdersAtOther(a);
      assert a[1..] == [];
    } else {
      assert (a + b)[1..] == a[1..] + b;
      PlaceholdersAtOther(a);
      PlaceholdersAtOther(a + b);
      PlaceholdersAppend(a[1..], b);
    }
  }

  /** The placeholder case of `PlaceholdersAppend`. */
  lemma {:induction false} PlaceholdersAppendParam(x: string, b: string)
    requires b == [] || !IsDigit(b[0])
    requires |x| > 0 && IsDigit(x[0])
    ensures Placeholders("$" + x + b) == Placeholders("$" + x) + Placeholders(b)
    decreases |x| + 1, 0
  {
    var k := DigitRun(x);
    var head := [ParseDigits(x[..k])];
    PlaceholdersAtParam(x);
    PlaceholdersAtParamAppend(x, b);
    PlaceholdersAppend(x[k..], b);
    DollarAppend(x, b);
    AppendAssoc(head, Placeholders(x[k..]), Placeholders(b));
  }

  /** The scan at a placeholder ignores a continuation that is not a digit. */
  lemma PlaceholdersAtParamAppend(x: string, b: string)
    requires b == [] || !IsDigit(b[0])
    requires |x| > 0 && IsDigit(x[0])
    ensures Placeholders("$" + (x + b))
         == [ParseDigits(x[..DigitRun(x)])] + Placeholders(x[DigitRun(x)..] + b)
  {
    var k := DigitRun(x);
    DigitRunPrefix(x, b);
    SplitAppend(x, b, k);
    PlaceholdersAtParam(x + b);
  }

  lemma DollarAppend(x: string, b: string)
    ensures "$" + x + b == "$" + (x + b)
  {
  }

  lemma AppendAssoc(a: seq<nat>, b: seq<nat>, c: seq<nat>)
    ensures a + (b + c) == a + b + c
  {
  }

  /** Text without `$` contributes no placeholder. */
  lemma {:induction false} PlaceholdersSkip(x: string, y: string)
    requires '$' !in x
    ensures Placeholders(x + y) == Placeholders(y)
    decreases |x|
  {
    if |x| > 0 {
      var s := x + y;
      assert s[0] == x[0] != '$';
      assert Placeholders(s) == Placeholders(s[1..]);
      assert s[1..] == x[1..] + y;
      PlaceholdersSkip(x[1..], y);
    } else {
      assert x + y == y;
    }
  }

  /** `$n` followed by a non-digit is read as the single placeholder `n`. */
  lemma PlaceholdersOfParam(n: nat, rest: string)
    requires rest == [] || !IsDigit(rest[0])
    ensures Placeholders(Param(n) + rest) == [n] + Placeholders(rest)
  {
    var digits := NatToString(n);
    var s := Param(n) + rest;
    assert s[1..] == digits + rest;
    DigitRunOfNat(n, rest);
    assert s[1..][..|digits|] == digits;
    assert s[1..][|digits|..] == rest;
    ParseNatToString(n);
  }

  /** A fragment `head$ntail`, with no other `$` in it, holds exactly the
      placeholder `n`. */
  lemma PlaceholdersOfTerm(head: string, n: nat, tail: string)
    requires '$' !in head && '$' !in tail
    requires tail == [] || !IsDigit(tail[0])
    ensures Placeholders(head + Param(n) + tail) == [n]
  {
    assert head + Param(n) + tail == head + (Param(n) + tail);
    PlaceholdersSkip(head, Param(n) + tail);
    PlaceholdersOfParam(n, tail);
    PlaceholdersSkip(tail, []);
    assert tail + [] == tail;
  }

  /** Joining with a separator that holds no `$` and does not start with a
      digit neither adds, drops nor merges placeholders. */
  lemma {:induction false} PlaceholdersJoin(sep: string, parts: seq<string>)
    requires |sep| > 0 && '$' !in sep && !IsDigit(sep[0])
    ensures Placeholders(Join(sep, parts)) == PlaceholdersOfParts(parts)
    decreases |parts|
  {
    if |parts| == 1 {
      assert PlaceholdersOfParts(parts[1..]) == [];
    } else if |parts| > 1 {
      var rest := Join(sep, parts[1..]);
      assert parts[0] + sep + rest == parts[0] + (sep + rest);
      PlaceholdersAppend(parts[0], sep + rest);
      PlaceholdersSkip(sep, rest);
      PlaceholdersJoin(sep, parts[1..]);
    }
  }
}
