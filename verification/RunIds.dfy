/** Decimal text, and the run ids that carry a round's number. */
module RunIds {
  import opened Values

  function Digit(d: nat): char
    requires d < 10
  {
    '0' + d as char
  }

  /** Decimal printing of a natural number. */
  function Decimal(n: nat): (s: string)
    ensures |s| > 0
  {
    if n < 10 then [Digit(n)] else Decimal(n / 10) + [Digit(n % 10)]
  }

  predicate IsDigit(c: char) { '0' <= c <= '9' }

  predicate Digits(s: string) { forall i :: 0 <= i < |s| ==> IsDigit(s[i]) }

  function DigitsValue(s: string): int
    requires Digits(s)
  {
    if |s| == 0 then 0 else 10 * DigitsValue(s[..|s| - 1]) + (s[|s| - 1] as int - '0' as int)
  }

  const MAX_INT64 := 0x7FFF_FFFF_FFFF_FFFF
  const MAX_INT32 := 0x7FFF_FFFF

  /** strconv.Atoi: an optional sign and at least one digit, within 64 bits. */
  function Atoi(s: string): Option<int> {
    var body := if |s| > 0 && (s[0] == '+' || s[0] == '-') then s[1..] else s;
    if |body| == 0 || !Digits(body) then None
    else
      var n := if |s| > 0 && s[0] == '-' then -DigitsValue(body) else DigitsValue(body);
      if -MAX_INT64 - 1 <= n <= MAX_INT64 then Some(n) else None
  }

  lemma {:induction false} DecimalValue(n: nat)
    ensures Digits(Decimal(n)) && DigitsValue(Decimal(n)) == n
  {
    if n < 10 {
      assert [Digit(n)][..0] == [];
      assert DigitsValue([Digit(n)]) == 10 * DigitsValue([]) + n;
    } else {
      DecimalValue(n / 10);
      var s := Decimal(n);
      assert s[..|s| - 1] == Decimal(n / 10);
    }
  }

  /** Parsing undoes printing. */
  lemma AtoiDecimal(n: nat)
    requires n <= MAX_INT64
    ensures Atoi(Decimal(n)) == Some(n)
  {
    DecimalValue(n);
    assert IsDigit(Decimal(n)[0]);
  }

  function RunId(project: string, round: nat): string { project + "-round-" + Decimal(round) }

  /** Truncation to 32 bits. */
  function Int32(n: int): int { (n + 0x8000_0000) % 0x1_0000_0000 - 0x8000_0000 }

  function ExtractRound(runId: string, project: string): int {
    var prefix := project + "-round-";
    if !(prefix <= runId) then 0
    else match Atoi(runId[|prefix|..])
      case None => 0
      case Some(n) => Int32(n)
  }

  /** The round is recovered from the run id over the whole range of the 32-bit round counter. */
  lemma ExtractInvertsRunId(project: string, round: nat)
    requires round <= MAX_INT32
    ensures ExtractRound(RunId(project, round), project) == round
  {
    var prefix := project + "-round-";
    assert RunId(project, round) == prefix + Decimal(round);
    assert RunId(project, round)[|prefix|..] == Decimal(round);
    AtoiDecimal(round);
  }

  /** What carries no round of the project reads as round 0; a number beyond 32 bits wraps around. */
  lemma ExtractOther(runId: string, project: string)
    ensures var prefix := project + "-round-";
            var n := if prefix <= runId then Atoi(runId[|prefix|..]) else None;
            var round := ExtractRound(runId, project);
            if n.None? then round == 0
            else -0x8000_0000 <= round <= MAX_INT32 && (round - n.value) % 0x1_0000_0000 == 0
  {
    hide Atoi;
  }

  /** A sign is read, and after it nothing but digits, of a number within 64 bits. */
  lemma AtoiReads(s: string)
    ensures s != "" && IsDigit(s[0]) ==>
              Atoi("+" + s) == Atoi(s) && (Atoi(s).Some? ==> Atoi("-" + s) == Some(-Atoi(s).value))
    ensures Atoi(s).Some? ==>
              && -0x8000_0000_0000_0000 <= Atoi(s).value <= 0x7FFF_FFFF_FFFF_FFFF
              && s !in {"", "+", "-"}
              && forall i :: 0 <= i < |s| ==> '0' <= s[i] <= '9' || (i == 0 && (s[0] == '+' || s[0] == '-'))
  {
    assert ("+" + s)[1..] == s && ("-" + s)[1..] == s;
    if Atoi(s).Some? && (s[0] == '+' || s[0] == '-') {
      assert forall i :: 0 < i < |s| ==> s[i] == s[1..][i - 1];
    }
    if s != "" && IsDigit(s[0]) && Atoi(s).Some? {
      assert Digits(s);
      PositiveDigits(s);
    }
  }

  /** Digits are a number if and only if it fits into 64 bits, a negative one reaching one further. */
  lemma AtoiFits(s: string)
    requires s != "" && Digits(s)
    ensures Atoi(s).Some? <==> DigitsValue(s) <= 0x7FFF_FFFF_FFFF_FFFF
    ensures Atoi("-" + s).Some? <==> DigitsValue(s) <= 0x8000_0000_0000_0000
    ensures Atoi(s).Some? ==> Atoi(s).value == DigitsValue(s)
  {
    assert ("-" + s)[1..] == s && IsDigit(s[0]);
    PositiveDigits(s);
  }

  lemma {:induction false} PositiveDigits(s: string)
    requires Digits(s)
    ensures DigitsValue(s) >= 0
  {
    if |s| > 0 { PositiveDigits(s[..|s| - 1]); }
  }

  lemma RunIdInjective(project: string, a: nat, b: nat)
    requires RunId(project, a) == RunId(project, b)
    ensures a == b
  {
    var prefix := project + "-round-";
    assert RunId(project, a)[|prefix|..] == Decimal(a) && RunId(project, b)[|prefix|..] == Decimal(b);
    DecimalValue(a);
    DecimalValue(b);
  }

  /** The run ids of the rounds up to `last`. */
  function Ids(project: string, last: nat): set<string> {
    set n | 1 <= n <= last :: RunId(project, n)
  }

  lemma {:induction false} IdsCount(project: string, last: nat)
    ensures |Ids(project, last)| == last
    ensures RunId(project, last + 1) !in Ids(project, last)
    ensures Ids(project, last + 1) == Ids(project, last) + {RunId(project, last + 1)}
  {
    forall n | 1 <= n <= last ensures RunId(project, n) != RunId(project, last + 1) {
      if RunId(project, n) == RunId(project, last + 1) { RunIdInjective(project, n, last + 1); }
    }
    if last > 0 {
      IdsCount(project, last - 1);
    } else {
      assert Ids(project, 0) == {};
    }
  }
}
