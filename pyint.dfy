/** Python's `int(text)` in base 10, as the release-date scan uses it: surrounding
    whitespace is stripped, one optional sign is allowed, the digits may be grouped by
    single underscores, and at most 4300 digits are accepted (the default limit of
    `sys.set_int_max_str_digits`, Python 3.11 on). Any other text raises `ValueError`,
    modelled as `None`. */
module PyInt {
  import opened Common

  /** The characters `int()` strips from both ends: ASCII tab, line feed, vertical tab,
      form feed, carriage return and space, and the non-ASCII characters `str.isspace()`
      accepts (which `int()` first turns into spaces). The ASCII separators U+001C to
      U+001F are not among them: `int()` rejects them although `str.isspace()` accepts them. */
  predicate IsSpace(c: char) {
    var n := c as int;
    (9 <= n <= 13) || n == 32 || n == 0x85 || n == 0xA0 || n == 0x1680 ||
    (0x2000 <= n <= 0x200A) || n == 0x2028 || n == 0x2029 || n == 0x202F ||
    n == 0x205F || n == 0x3000
  }

  predicate IsDigit(c: char) {
    '0' <= c <= '9'
  }

  /** A character other than an ASCII digit, `_`, a sign or the whitespace `int()` strips.
      Apart from the non-ASCII decimal digits (which this model does not cover), no such
      character occurs in text `int()` accepts. */
  predicate IsForeign(c: char) {
    !IsSpace(c) && !IsDigit(c) && c != '_' && c != '+' && c != '-'
  }

  function TrimLeft(s: string): string {
    if |s| > 0 && IsSpace(s[0]) then TrimLeft(s[1..]) else s
  }

  function TrimRight(s: string): string {
    if |s| > 0 && IsSpace(s[|s| - 1]) then TrimRight(s[..|s| - 1]) else s
  }

  function Strip(s: string): string {
    TrimRight(TrimLeft(s))
  }

  /** Digits with single underscores between them: `digit ('_'? digit)*`. */
  predicate DigitGroups(s: string) {
    && |s| > 0
    && IsDigit(s[0])
    && IsDigit(s[|s| - 1])
    && (forall i :: 0 <= i < |s| ==> IsDigit(s[i]) || s[i] == '_')
    && (forall i :: 0 <= i < |s| - 1 && s[i] == '_' ==> IsDigit(s[i + 1]))
  }

  /** The decimal value of the digits of `s`, read left to right; underscores carry no value. */
  function DigitsValue(s: string): nat {
    if s == [] then 0
    else
      var last := s[|s| - 1];
      if IsDigit(last) then DigitsValue(s[..|s| - 1]) * 10 + (last as int - '0' as int)
      else DigitsValue(s[..|s| - 1])
  }

  /** The most digits `int()` converts; longer text raises `ValueError`. */
  const MaxStrDigits := 4300

  /** The number of digits in `s`; underscores and signs are not digits. */
  function DigitCount(s: string): nat {
    if s == [] then 0
    else DigitCount(s[..|s| - 1]) + if IsDigit(s[|s| - 1]) then 1 else 0
  }

  /** `int(s)`: `Some(value)`, or `None` where Python raises `ValueError`. */
  function ParseInt(s: string): Option<int> {
    var t := Strip(s);
    if DigitCount(t) > MaxStrDigits then None
    else if |t| > 0 && (t[0] == '+' || t[0] == '-') then
      if DigitGroups(t[1..]) then
        var v: int := DigitsValue(t[1..]);
        Some(if t[0] == '-' then -v else v)
      else None
    else if DigitGroups(t) then Some(DigitsValue(t))
    else None
  }

  function DigitChar(d: nat): (c: char)
    requires d < 10
    ensures IsDigit(c) && c as int - '0' as int == d
  {
    ('0' as int + d) as char
  }

  /** The canonical decimal rendering of a natural number, as `str(n)` writes it. */
  function Decimal(n: nat): string {
    if n < 10 then [DigitChar(n)] else Decimal(n / 10) + [DigitChar(n % 10)]
  }

  lemma {:induction false} DecimalIsDigits(n: nat)
    ensures |Decimal(n)| > 0
    ensures forall i :: 0 <= i < |Decimal(n)| ==> IsDigit(Decimal(n)[i])
  {
    if n >= 10 {
      DecimalIsDigits(n / 10);
    }
  }

  lemma {:induction false} DecimalValue(n: nat)
    ensures DigitsValue(Decimal(n)) == n
  {
    if n >= 10 {
      var d := Decimal(n / 10);
      var s := d + [DigitChar(n % 10)];
      assert s[..|s| - 1] == d;
      DecimalValue(n / 10);
    }
  }

  lemma {:induction false} DigitCountOfDigits(s: string)
    requires forall i :: 0 <= i < |s| ==> IsDigit(s[i])
    ensures DigitCount(s) == |s|
  {
    if s != [] {
      DigitCountOfDigits(s[..|s| - 1]);
    }
  }

  /** `int(str(n)) == n` for every rendering within the digit limit: the parse inverts
      the canonical rendering. */
  lemma ParseDecimal(n: nat)
    requires |Decimal(n)| <= MaxStrDigits
    ensures ParseInt(Decimal(n)) == Some(n)
  {
    var s := Decimal(n);
    DecimalIsDigits(n);
    DecimalValue(n);
    DigitCountOfDigits(s);
    assert TrimLeft(s) == s;
    assert TrimRight(s) == s;
  }

  /** `int('+' + str(n)) == n`: a leading plus sign is accepted. */
  lemma ParsePlusDecimal(n: nat)
    requires |Decimal(n)| <= MaxStrDigits
    ensures ParseInt("+" + Decimal(n)) == Some(n)
  {
    var d := Decimal(n);
    var s := "+" + d;
    DecimalIsDigits(n);
    DecimalValue(n);
    assert s[1..] == d;
    DigitCountOfDigits(d);
    assert DigitCount(s) == DigitCount(d) by {
      DigitCountAfterSign(s);
    }
    assert TrimLeft(s) == s;
    assert TrimRight(s) == s;
  }

  lemma {:induction false} TrimLeftKeeps(s: string, c: char)
    requires c in s && !IsSpace(c)
    ensures c in TrimLeft(s)
  {
    if |s| > 0 && IsSpace(s[0]) {
      assert c in s[1..] by {
        var i :| 0 <= i < |s| && s[i] == c;
        assert i != 0;
        assert s[1..][i - 1] == c;
      }
      TrimLeftKeeps(s[1..], c);
    }
  }

  lemma {:induction false} TrimRightKeeps(s: string, c: char)
    requires c in s && !IsSpace(c)
    ensures c in TrimRight(s)
  {
    if |s| > 0 && IsSpace(s[|s| - 1]) {
      assert c in s[..|s| - 1] by {
        var i :| 0 <= i < |s| && s[i] == c;
        assert i != |s| - 1;
        assert s[..|s| - 1][i] == c;
      }
      TrimRightKeeps(s[..|s| - 1], c);
    }
  }

  /** Text holding a character other than an ASCII digit, `_`, a sign or the whitespace
      `int()` strips never parses; this is the `ValueError` branch the release-date scan
      skips. */
  lemma ParseRejectsForeign(s: string, i: nat)
    requires i < |s| && IsForeign(s[i])
    ensures ParseInt(s) == None
  {
    var c := s[i];
    TrimLeftKeeps(s, c);
    TrimRightKeeps(TrimLeft(s), c);
    var t := Strip(s);
    var j :| 0 <= j < |t| && t[j] == c;
    if |t| > 0 && (t[0] == '+' || t[0] == '-') {
      assert j > 0;
      assert t[1..][j - 1] == c;
    }
  }

  lemma {:induction false} DigitCountAfterSign(s: string)
    requires |s| > 0 && !IsDigit(s[0])
    ensures DigitCount(s) == DigitCount(s[1..])
    decreases |s|
  {
    if |s| > 1 {
      var init := s[..|s| - 1];
      assert init[1..] == s[1..][..|s[1..]| - 1];
      DigitCountAfterSign(init);
    } else {
      assert s[1..] == [];
      assert s[..|s| - 1] == [];
    }
  }

  /** A run of more than 4300 digits, such as 4300 zeros followed by a year, raises
      `ValueError`, whatever its value. */
  lemma ParseRejectsLong(s: string)
    requires |s| > MaxStrDigits && forall i :: 0 <= i < |s| ==> IsDigit(s[i])
    ensures ParseInt(s) == None
  {
    assert TrimLeft(s) == s;
    assert TrimRight(s) == s;
    DigitCountOfDigits(s);
  }
}
