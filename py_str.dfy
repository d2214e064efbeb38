/**
 * The parts of Python's `str`, `int()`, `str(int)` and `float()` that the export scripts
 * rely on, written out over `seq<char>`.
 *
 * Letters are the ASCII ones, the eighteen Polish letters the field-name cleaner folds,
 * and the basic Cyrillic alphabet (the field names and boolean literals of the Planfix
 * account are Polish and Russian); every other non-ASCII character counts as neither
 * alphanumeric nor upper-case.
 */
module PyStr {
  import opened Wrappers
  import opened SeqFacts

  predicate IsDigit(c: char) { '0' <= c <= '9' }
  predicate IsAsciiUpper(c: char) { 'A' <= c <= 'Z' }
  predicate IsAsciiLower(c: char) { 'a' <= c <= 'z' }
  predicate IsCyrillicUpper(c: char) { '\U{0410}' <= c <= '\U{042F}' || c == '\U{0401}' }
  predicate IsCyrillicLower(c: char) { '\U{0430}' <= c <= '\U{044F}' || c == '\U{0451}' }

  /** Ą Ć Ę Ł Ń Ó Ś Ź Ż */
  predicate IsPolishUpper(c: char) {
    c == '\U{0104}' || c == '\U{0106}' || c == '\U{0118}' || c == '\U{0141}' || c == '\U{0143}'
    || c == '\U{00D3}' || c == '\U{015A}' || c == '\U{0179}' || c == '\U{017B}'
  }

  /** ą ć ę ł ń ó ś ź ż */
  predicate IsPolishLower(c: char) {
    c == '\U{0105}' || c == '\U{0107}' || c == '\U{0119}' || c == '\U{0142}' || c == '\U{0144}'
    || c == '\U{00F3}' || c == '\U{015B}' || c == '\U{017A}' || c == '\U{017C}'
  }

  predicate IsUpper(c: char) { IsAsciiUpper(c) || IsCyrillicUpper(c) || IsPolishUpper(c) }
  predicate IsLowerLetter(c: char) { IsAsciiLower(c) || IsCyrillicLower(c) || IsPolishLower(c) }

  /** `str.isalnum` on one character. */
  predicate IsAlnum(c: char) { IsDigit(c) || IsUpper(c) || IsLowerLetter(c) }

  /** `str.lower` on one character. */
  function Lower(c: char): (r: char)
    ensures !IsUpper(r)
    ensures IsAlnum(r) <==> IsAlnum(c)
    ensures !IsUpper(c) ==> r == c
    ensures IsUpper(c) ==> IsLowerLetter(r)
  {
    if IsAsciiUpper(c) || '\U{0410}' <= c <= '\U{042F}' then (c as int + 32) as char
    else if c == '\U{0401}' then '\U{0451}'
    else if c == '\U{00D3}' then '\U{00F3}'
    else if IsPolishUpper(c) then (c as int + 1) as char
    else c
  }

  function LowerStr(s: string): (r: string)
    ensures |r| == |s|
  {
    seq(|s|, i requires 0 <= i < |s| => Lower(s[i]))
  }

  predicate AllDigits(s: string) { forall i :: 0 <= i < |s| ==> IsDigit(s[i]) }

  /** The value of a run of decimal digits, most significant first. */
  function DigitsValue(s: string): nat
    requires AllDigits(s)
    decreases |s|
  {
    if s == [] then 0 else DigitsValue(s[..|s| - 1]) * 10 + (s[|s| - 1] as int - '0' as int)
  }

  predicate HasSign(s: string) { |s| > 0 && (s[0] == '+' || s[0] == '-') }

  function Unsigned(s: string): string { if HasSign(s) then s[1..] else s }

  /** What `int()` accepts here: an optional sign and at least one ASCII digit. */
  predicate IsIntLiteral(s: string) { |Unsigned(s)| > 0 && AllDigits(Unsigned(s)) }

  /** `int(s)`; `None` where Python raises `ValueError`. */
  function ParseInt(s: string): (r: Option<int>)
    ensures r.Some? <==> IsIntLiteral(s)
  {
    if !IsIntLiteral(s) then None
    else if HasSign(s) && s[0] == '-' then Some(-(DigitsValue(s[1..]) as int))
    else Some(DigitsValue(Unsigned(s)))
  }

  function DigitChar(d: nat): (c: char)
    requires d < 10
    ensures IsDigit(c) && c as int - '0' as int == d
  {
    ('0' as int + d) as char
  }

  function NatToString(n: nat): string
    decreases n
  {
    if n < 10 then [DigitChar(n)] else NatToString(n / 10) + [DigitChar(n % 10)]
  }

  /** `str(n)` for an `int`, as an f-string formats it. */
  function IntToString(n: int): string {
    if n < 0 then "-" + NatToString(-n) else NatToString(n)
  }

  lemma {:induction false} NatToStringDigits(n: nat)
    ensures |NatToString(n)| > 0 && AllDigits(NatToString(n))
    ensures DigitsValue(NatToString(n)) == n
    decreases n
  {
    if n >= 10 {
      NatToStringDigits(n / 10);
      var s := NatToString(n);
      assert s[..|s| - 1] == NatToString(n / 10);
    }
  }

  /** `int(str(n)) == n`: the integer formatting the record ids use is read back by `int()`. */
  lemma IntToStringRoundTrip(n: int)
    ensures ParseInt(IntToString(n)) == Some(n)
  {
    if n < 0 {
      NatToStringDigits(-n);
      assert IntToString(n)[1..] == NatToString(-n);
    } else {
      NatToStringDigits(n);
    }
  }

  // ---------------------------------------------------------------------------------------
  // float()

  /** The ASCII characters `str.strip()` and `float()` treat as white space. */
  predicate IsSpace(c: char) {
    c == ' ' || c == '\t' || c == '\n' || c == '\r' || c == '\U{000B}' || c == '\U{000C}'
  }

  function StripLeft(s: string): string
    decreases |s|
  {
    if |s| > 0 && IsSpace(s[0]) then StripLeft(s[1..]) else s
  }

  function StripRight(s: string): string
    decreases |s|
  {
    if |s| > 0 && IsSpace(s[|s| - 1]) then StripRight(s[..|s| - 1]) else s
  }

  function Strip(s: string): string { StripRight(StripLeft(s)) }

  /** Digits with at most one `.`, and at least one digit. */
  predicate IsMantissa(m: string) {
    var d := IndexOf(m, '.');
    if d == |m| then |m| > 0 && AllDigits(m)
    else |m| >= 2 && AllDigits(m[..d]) && AllDigits(m[d + 1..])
  }

  predicate IsExponent(x: string) { |Unsigned(x)| > 0 && AllDigits(Unsigned(x)) }

  predicate IsDecimalLiteral(u: string) {
    var e := IndexOf(LowerStr(u), 'e');
    IsMantissa(u[..e]) && (e == |u| || IsExponent(u[e + 1..]))
  }

  predicate IsFloatLiteral(t: string) {
    var u := Unsigned(t);
    LowerStr(u) == "inf" || LowerStr(u) == "infinity" || LowerStr(u) == "nan" || IsDecimalLiteral(u)
  }

  /** `float(s)` succeeds. */
  predicate IsFloat(s: string) { IsFloatLiteral(Strip(s)) }

  lemma LowerStrOfDigits(v: string)
    requires AllDigits(v)
    ensures LowerStr(v) == v
  {
  }

  lemma {:induction false} StripLeftKeeps(s: string)
    requires |s| > 0 && !IsSpace(s[0])
    ensures StripLeft(s) == s
  {
  }

  lemma {:induction false} StripRightKeeps(s: string)
    requires |s| > 0 && !IsSpace(s[|s| - 1])
    ensures StripRight(s) == s
  {
  }

  /** A run of digits is a number to `float()`. */
  lemma DigitsAreFloat(v: string)
    requires |v| > 0 && AllDigits(v)
    ensures IsFloat(v)
  {
    StripLeftKeeps(v);
    StripRightKeeps(v);
    LowerStrOfDigits(v);
    assert Unsigned(v) == v;
    assert IndexOf(LowerStr(v), 'e') == |v|;
    assert v[..|v|] == v;
    assert IndexOf(v, '.') == |v|;
  }

  /**
   * A word that starts with a letter other than `e`, `i` and `n` (in any case) and does not end
   * in white space is not a number to `float()`.
   */
  lemma WordNotFloat(v: string)
    requires |v| > 0 && IsLowerLetter(Lower(v[0])) && Lower(v[0]) !in "ein"
    requires !IsSpace(v[|v| - 1])
    ensures !IsFloat(v)
  {
    assert !IsSpace(v[0]) && !IsDigit(v[0]) && v[0] != '.' && v[0] != '+' && v[0] != '-';
    StripLeftKeeps(v);
    StripRightKeeps(v);
    assert Strip(v) == v;
    assert Unsigned(v) == v;
    var e := IndexOf(LowerStr(v), 'e');
    assert e > 0;
    var m := v[..e];
    assert m[0] == v[0];
    var d := IndexOf(m, '.');
    assert d > 0;
    if d < |m| {
      assert m[..d][0] == v[0];
    }
    assert !IsMantissa(m);
  }

  /**
   * A text that starts with a digit and has no white space and no `e` is a number to `float()`
   * exactly when it is digits with at most one `.`.
   */
  lemma PlainFloat(t: string)
    requires |t| > 0 && IsDigit(t[0])
    requires forall i :: 0 <= i < |t| ==> !IsSpace(t[i]) && !IsUpper(t[i]) && t[i] != 'e'
    ensures IsFloat(t) <==> IsMantissa(t)
  {
    StripLeftKeeps(t);
    StripRightKeeps(t);
    assert Strip(t) == t && Unsigned(t) == t;
    LowerStrKeeps(t);
    IndexOfAbsent(t, 'e');
    assert t[..|t|] == t;
  }

  /** A character that is neither a digit nor `.` rules out a mantissa. */
  lemma MantissaStray(m: string, i: nat)
    requires i < |m| && !IsDigit(m[i]) && m[i] != '.'
    ensures !IsMantissa(m)
  {
    var d := IndexOf(m, '.');
    if d < |m| {
      if i < d {
        assert m[..d][i] == m[i];
      } else {
        assert m[d + 1..][i - d - 1] == m[i];
      }
    }
  }

  /** Two `.` rule out a mantissa. */
  lemma MantissaTwoDots(m: string, i: nat, j: nat)
    requires i < j < |m| && m[i] == '.' && m[j] == '.'
    ensures !IsMantissa(m)
  {
    var d := IndexOf(m, '.');
    assert d <= i;
    assert m[d + 1..][j - d - 1] == m[j];
  }

  function DigitOf(c: char): nat
    requires IsDigit(c)
  {
    c as int - '0' as int
  }

  lemma DigitsValueOne(s: string)
    requires |s| == 1 && AllDigits(s)
    ensures DigitsValue(s) == DigitOf(s[0])
  {
    assert s[..0] == [];
  }

  lemma DigitsValueSnoc(s: string)
    requires |s| > 0 && AllDigits(s)
    ensures AllDigits(s[..|s| - 1])
    ensures DigitsValue(s) == DigitsValue(s[..|s| - 1]) * 10 + DigitOf(s[|s| - 1])
  {
  }

  lemma DigitsValueTwo(s: string)
    requires |s| == 2 && AllDigits(s)
    ensures DigitsValue(s) == DigitOf(s[0]) * 10 + DigitOf(s[1])
  {
    DigitsValueSnoc(s);
    DigitsValueOne(s[..1]);
  }

  lemma DigitsValueFour(s: string)
    requires |s| == 4 && AllDigits(s)
    ensures DigitsValue(s) == DigitOf(s[0]) * 1000 + DigitOf(s[1]) * 100 + DigitOf(s[2]) * 10 + DigitOf(s[3])
  {
    DigitsValueSnoc(s);
    DigitsValueSnoc(s[..3]);
    assert s[..3][..2] == s[..2];
    DigitsValueTwo(s[..2]);
  }

  lemma LowerStrKeeps(s: string)
    requires forall i :: 0 <= i < |s| ==> !IsUpper(s[i])
    ensures LowerStr(s) == s
  {
  }
}
