/** Decimal text as Go's strconv writes and reads it, and the trimming helpers of package strings. */
module Text {
  import opened Options

  const MAX_INT32 := 0x7FFF_FFFF
  const MAX_INT64 := 0x7FFF_FFFF_FFFF_FFFF

  predicate IsDigit(c: char) {
    '0' <= c <= '9'
  }

  predicate AllDigits(s: string) {
    forall i :: 0 <= i < |s| ==> IsDigit(s[i])
  }

  function DigitChar(d: nat): (c: char)
    requires d < 10
    ensures IsDigit(c) && c as int - '0' as int == d
  {
    ('0' as int + d) as char
  }

  function Digits(n: nat): (s: string)
    ensures |s| >= 1 && AllDigits(s)
  {
    if n < 10 then [DigitChar(n)] else Digits(n / 10) + [DigitChar(n % 10)]
  }

  /** The number a run of digits spells. */
  function Value(s: string): nat
    requires AllDigits(s)
  {
    if s == "" then 0 else Value(s[..|s| - 1]) * 10 + (s[|s| - 1] as int - '0' as int)
  }

  /** strconv.Itoa */
  function Itoa(n: int): string {
    if n < 0 then "-" + Digits(-n) else Digits(n)
  }

  /** strconv.Atoi on a 64-bit platform: one optional sign, at least one digit, value within int64. */
  function Atoi(s: string): Option<int> {
    var signed := |s| > 0 && (s[0] == '+' || s[0] == '-');
    var digits := if signed then s[1..] else s;
    if digits == "" || !AllDigits(digits) then None
    else
      var n: int := if signed && s[0] == '-' then -(Value(digits) as int) else Value(digits);
      if -MAX_INT64 - 1 <= n <= MAX_INT64 then Some(n) else None
  }

  lemma {:induction false} ValueOfDigits(n: nat)
    ensures Value(Digits(n)) == n
  {
    if n >= 10 {
      ValueOfDigits(n / 10);
      assert Digits(n)[..|Digits(n)| - 1] == Digits(n / 10);
    }
  }

  /** Reading back what Itoa wrote gives the number, for every int64. */
  lemma AtoiItoa(n: int)
    requires -MAX_INT64 - 1 <= n <= MAX_INT64
    ensures Itoa(n) != ""
    ensures Atoi(Itoa(n)) == Some(n)
  {
    ValueOfDigits(if n < 0 then -n else n);
    if n < 0 {
      assert Itoa(n)[1..] == Digits(-n);
    } else {
      assert IsDigit(Itoa(n)[0]);
    }
  }

  function Pow10(k: nat): (p: nat)
    ensures p > 0
  {
    if k == 0 then 1 else 10 * Pow10(k - 1)
  }

  lemma {:induction false} DigitsLength(n: nat, k: nat)
    requires k >= 1 && n < Pow10(k)
    ensures |Digits(n)| <= k
  {
    if n >= 10 {
      assert Pow10(1) == 10;
      DigitsLength(n / 10, k - 1);
    }
  }

  /** int64 values need at most 19 digits and a sign. */
  lemma ItoaLength(n: int)
    requires -MAX_INT64 - 1 <= n <= MAX_INT64
    ensures 1 <= |Itoa(n)| <= 20
  {
    assert Pow10(19) == 10_000_000_000_000_000_000 by {
      assert Pow10(4) == 10_000;
      assert Pow10(8) == 1_0000_0000;
      assert Pow10(12) == 1_0000_0000_0000;
      assert Pow10(16) == 1_0000_0000_0000_0000;
    }
    DigitsLength(if n < 0 then -n else n, 19);
  }

  /** strings.TrimRight and strings.TrimLeft */
  function TrimRight(s: string, cutset: set<char>): (r: string)
    ensures r <= s
    ensures r == "" || r[|r| - 1] !in cutset
    ensures forall i :: |r| <= i < |s| ==> s[i] in cutset
  {
    if s != "" && s[|s| - 1] in cutset then TrimRight(s[..|s| - 1], cutset) else s
  }

  function TrimLeft(s: string, cutset: set<char>): (r: string)
    ensures |r| <= |s| && r == s[|s| - |r|..]
    ensures r == "" || r[0] !in cutset
  {
    if s != "" && s[0] in cutset then TrimLeft(s[1..], cutset) else s
  }

  /** What follows the last '-' of s (all of s when it has none). */
  function AfterLastDash(s: string): string {
    if s == "" || s[|s| - 1] == '-' then "" else AfterLastDash(s[..|s| - 1]) + [s[|s| - 1]]
  }

  lemma {:induction false} DigitsFollowLastDash(p: string, d: string)
    requires AllDigits(d)
    ensures AfterLastDash(p + ("-" + d)) == d
  {
    var s := p + ("-" + d);
    if d != "" {
      assert s[..|s| - 1] == p + ("-" + d[..|d| - 1]);
      DigitsFollowLastDash(p, d[..|d| - 1]);
    }
  }
}
