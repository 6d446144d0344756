/** Decimal integers as text: Go's strconv.ParseInt in base 10 and strconv.FormatInt. */
module IntText {
  import opened Wrappers

  predicate IsDigit(ch: char) {
    '0' <= ch <= '9'
  }

  predicate AllDigits(s: string) {
    forall i :: 0 <= i < |s| ==> IsDigit(s[i])
  }

  function DigitsValue(s: string): nat
    requires AllDigits(s)
  {
    if s == "" then 0
    else DigitsValue(s[..|s| - 1]) * 10 + (s[|s| - 1] as int - '0' as int)
  }

  function Signed(s: string): (bool, string) {
    if s != "" && s[0] == '-' then (true, s[1..])
    else if s != "" && s[0] == '+' then (false, s[1..])
    else (false, s)
  }

  /** The value of a decimal integer between lo and hi, None when the text is not one. */
  function ParseInt(s: string, lo: int, hi: int): Option<int> {
    var (negative, digits) := Signed(s);
    if digits == "" || !AllDigits(digits) then None
    else
      var n: int := DigitsValue(digits);
      var value := if negative then -n else n;
      if lo <= value <= hi then Some(value) else None
  }

  function Digit(d: nat): char
    requires d < 10
  {
    ('0' as int + d) as char
  }

  function FormatNat(n: nat): (s: string)
    ensures s != "" && AllDigits(s)
  {
    if n < 10 then [Digit(n)] else FormatNat(n / 10) + [Digit(n % 10)]
  }

  function FormatInt(n: int): string {
    if n < 0 then "-" + FormatNat(-n) else FormatNat(n)
  }

  lemma {:induction false} FormatNatValue(n: nat)
    ensures DigitsValue(FormatNat(n)) == n
  {
    var s := FormatNat(n);
    if n < 10 {
      assert s[..0] == "";
    } else {
      FormatNatValue(n / 10);
      assert s[..|s| - 1] == FormatNat(n / 10);
    }
  }

  lemma NoSign(s: string)
    requires s != "" && AllDigits(s)
    ensures Signed(s) == (false, s) && Signed("-" + s) == (true, s)
  {
    assert IsDigit(s[0]);
    assert ("-" + s)[1..] == s;
  }

  /** Parsing undoes formatting, and refuses what is out of range. */
  lemma ParseFormat(n: int, lo: int, hi: int)
    ensures ParseInt(FormatInt(n), lo, hi) == if lo <= n <= hi then Some(n) else None
  {
    var m: nat := if n < 0 then -n else n;
    FormatNatValue(m);
    NoSign(FormatNat(m));
  }

  /** A plus sign and leading zeros change nothing; anything but digits after the sign is no integer. */
  lemma ParseVariants(n: nat, s: string, lo: int, hi: int)
    requires lo <= 0 && n <= hi
    ensures ParseInt("+" + FormatNat(n), lo, hi) == Some(n)
    ensures ParseInt("0" + FormatNat(n), lo, hi) == Some(n)
    ensures (s in ["", "+", "-"]) || (exists i :: 0 < i < |s| && !IsDigit(s[i])) ==> ParseInt(s, lo, hi) == None
  {
    var digits := FormatNat(n);
    FormatNatValue(n);
    assert ("+" + digits)[1..] == digits;
    LeadingZero(digits);
    if i :| 0 < i < |s| && !IsDigit(s[i]) {
      assert s[1..][i - 1] == s[i];
    }
  }

  lemma {:induction false} LeadingZero(digits: string)
    requires AllDigits(digits)
    ensures AllDigits("0" + digits) && DigitsValue("0" + digits) == DigitsValue(digits)
  {
    if digits == "" {
      assert "0"[..0] == "";
    } else {
      var before := digits[..|digits| - 1];
      LeadingZero(before);
      assert ("0" + digits)[..|digits|] == "0" + before;
    }
  }

  /** The text is the usual one: a minus sign for negative integers alone, and no leading zero. */
  lemma FormatIsUsual(n: int)
    ensures 0 <= n ==> AllDigits(FormatInt(n))
    ensures n < 0 ==> FormatInt(n) == "-" + FormatInt(-n)
    ensures 1 <= n ==> FormatInt(n)[0] != '0'
    ensures FormatInt(0) == "0"
  {
    if 1 <= n {
      NoLeadingZero(n);
    }
  }

  lemma {:induction false} NoLeadingZero(n: nat)
    requires 1 <= n
    ensures FormatNat(n)[0] != '0'
  {
    if 10 <= n {
      NoLeadingZero(n / 10);
    }
  }
}
