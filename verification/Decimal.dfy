/** Decimal text of integers, as Python's `str` and `int` convert it. */
module Decimal {
  import opened Prelude

  predicate IsDigit(c: char) {
    '0' <= c <= '9'
  }

  function DigitChar(d: nat): (c: char)
    requires d < 10
    ensures IsDigit(c)
  {
    '0' + d as char
  }

  function DigitValue(c: char): nat
    requires IsDigit(c)
  {
    (c - '0') as nat
  }

  /** `str(n)` for `n >= 0` */
  function Digits(n: nat): (s: string)
    ensures s != []
  {
    if n < 10 then [DigitChar(n)] else Digits(n / 10) + [DigitChar(n % 10)]
  }

  /** `str(n)` */
  function IntText(n: int): string {
    if n < 0 then "-" + Digits(-n) else Digits(n)
  }

  predicate AllDigits(s: string) {
    forall i | 0 <= i < |s| :: IsDigit(s[i])
  }

  /** The number a digit string denotes; the inverse of `Digits`. */
  function Value(s: string): nat
    requires AllDigits(s)
  {
    if s == [] then 0 else 10 * Value(s[..|s| - 1]) + DigitValue(s[|s| - 1])
  }

  // ---------- reading ----------

  /** Characters `str.strip()` removes. */
  predicate IsStripped(c: char) {
    var n := c as int;
    || 9 <= n <= 13 || 0x1C <= n <= 0x20 || 0x2000 <= n <= 0x200A
    || n in {0x85, 0xA0, 0x1680, 0x2028, 0x2029, 0x202F, 0x205F, 0x3000}
  }

  function StripLeft(s: string): string {
    if s != [] && IsStripped(s[0]) then StripLeft(s[1..]) else s
  }

  function StripRight(s: string): string {
    if s != [] && IsStripped(s[|s| - 1]) then StripRight(s[..|s| - 1]) else s
  }

  /** Digits with single underscores between them allowed, without the underscores. */
  function Ungrouped(s: string): (r: Option<string>)
    ensures r.Some? ==> r.value != [] && AllDigits(r.value)
  {
    if s == [] || !IsDigit(s[0]) then None
    else if |s| == 1 then Some(s)
    else
      var more :- Ungrouped(if s[1] == '_' then s[2..] else s[1..]);
      Some([s[0]] + more)
  }

  /** `int(s)`, `None` where Python raises `ValueError`: white space around, a sign, and grouped digits. */
  function ParseInt(s: string): Option<int> {
    var t := StripRight(StripLeft(s));
    var signed := t != [] && (t[0] == '-' || t[0] == '+');
    var digits :- Ungrouped(if signed then t[1..] else t);
    var magnitude: int := Value(digits);
    Some(if t[0] == '-' then -magnitude else magnitude)
  }

  lemma {:induction false} UngroupedDigits(s: string)
    requires s != [] && AllDigits(s)
    ensures Ungrouped(s) == Some(s)
  {
    if |s| > 1 {
      UngroupedDigits(s[1..]);
      assert [s[0]] + s[1..] == s;
    }
  }

  lemma {:induction false} DigitsValue(n: nat)
    ensures AllDigits(Digits(n))
    ensures Value(Digits(n)) == n
    ensures Digits(n)[0] == '0' <==> n == 0
  {
    if n >= 10 {
      DigitsValue(n / 10);
      var s := Digits(n);
      assert s[..|s| - 1] == Digits(n / 10);
    }
  }

  lemma SolidStays(s: string)
    requires s != [] && !IsStripped(s[0]) && !IsStripped(s[|s| - 1])
    ensures StripRight(StripLeft(s)) == s
  {
  }

  /** Digits, with a minus or without. */
  lemma SignedDigits(digits: string, negative: bool)
    requires digits != [] && AllDigits(digits)
    ensures ParseInt((if negative then "-" else "") + digits) ==
      Some(if negative then -(Value(digits) as int) else Value(digits))
  {
    hide StripLeft, StripRight, Value;
    var s := (if negative then "-" else "") + digits;
    assert s[|s| - 1] == digits[|digits| - 1] && IsDigit(s[|s| - 1]);
    SolidStays(s);
    UngroupedDigits(digits);
    hide Ungrouped;
    if negative {
      assert s[1..] == digits;
    } else {
      assert s == digits;
    }
  }

  /** `int(str(n)) == n`, hence different integers have different texts. */
  lemma IntTextRoundTrip(n: int)
    ensures ParseInt(IntText(n)) == Some(n)
  {
    hide Digits, ParseInt, Value;
    var digits := Digits(if n < 0 then -n else n);
    DigitsValue(if n < 0 then -n else n);
    SignedDigits(digits, n < 0);
    assert "" + digits == digits;
  }

  lemma IntTextInjective(m: int, n: int)
    requires IntText(m) == IntText(n)
    ensures m == n
  {
    IntTextRoundTrip(m);
    IntTextRoundTrip(n);
  }

  // ---------- the same, digit by digit ----------

  /** The decimal text of a number, digit by digit. */
  lemma IntTextSays(n: int)
    ensures 0 <= n < 10 ==> IntText(n) == ["0123456789"[n]]
    ensures n >= 10 ==> IntText(n) == IntText(n / 10) + IntText(n % 10)
    ensures n < 0 ==> IntText(n) == ['-'] + IntText(-n)
  {
  }

  /** A digit, and whether an underscore precedes it. */
  datatype Digit = Digit(d: nat, grouped: bool)

  ghost predicate AreDigits(ds: seq<Digit>) {
    forall i | 0 <= i < |ds| :: ds[i].d < 10
  }

  ghost function Glyph(d: nat): char
    requires d < 10
  {
    "0123456789"[d]
  }

  lemma GlyphSays(d: nat)
    requires d < 10
    ensures IsDigit(Glyph(d)) && DigitValue(Glyph(d)) == d
    ensures Glyph(d) != '_' && Glyph(d) != '-' && Glyph(d) != '+' && !IsStripped(Glyph(d))
  {
  }

  ghost function Spelled(ds: seq<Digit>): string
    requires AreDigits(ds)
  {
    if ds == [] then []
    else (if ds[0].grouped then ['_', Glyph(ds[0].d)] else [Glyph(ds[0].d)]) + Spelled(ds[1..])
  }

  /** A numeral: its first digit has no underscore before it. */
  ghost function Numeral(ds: seq<Digit>): string
    requires AreDigits(ds) && ds != []
  {
    [Glyph(ds[0].d)] + Spelled(ds[1..])
  }

  ghost function Worth(ds: seq<Digit>): nat {
    if ds == [] then 0 else 10 * Worth(ds[..|ds| - 1]) + ds[|ds| - 1].d
  }

  /** Characters that `str.isspace` accepts. */
  ghost predicate IsBlank(s: string) {
    forall i | 0 <= i < |s| :: s[i] as int in {
      9, 10, 11, 12, 13, 28, 29, 30, 31, 32, 133, 160, 5760, 8192, 8193, 8194, 8195, 8196, 8197, 8198, 8199, 8200, 8201,
      8202, 8232, 8233, 8239, 8287, 12288}
  }

  ghost function PlainDigits(ds: seq<Digit>): string
    requires AreDigits(ds)
  {
    seq(|ds|, i requires 0 <= i < |ds| => Glyph(ds[i].d))
  }

  lemma {:induction false} NumeralUngrouped(ds: seq<Digit>)
    requires AreDigits(ds) && ds != []
    ensures Ungrouped(Numeral(ds)) == Some(PlainDigits(ds))
    ensures IsDigit(Numeral(ds)[|Numeral(ds)| - 1])
    decreases |ds|
  {
    hide Glyph;
    var s := Numeral(ds);
    GlyphSays(ds[0].d);
    if |ds| == 1 {
      assert ds[1..] == [];
      assert PlainDigits(ds) == s;
    } else {
      var more := ds[1..];
      NumeralUngrouped(more);
      GlyphSays(more[0].d);
      if more[0].grouped {
        assert s[1] == '_' && s[2..] == Numeral(more);
      } else {
        assert s[1] != '_' && s[1..] == Numeral(more);
      }
      assert PlainDigits(ds) == [s[0]] + PlainDigits(more);
      assert s[|s| - 1] == Numeral(more)[|Numeral(more)| - 1];
    }
  }

  lemma {:induction false} PlainWorth(ds: seq<Digit>)
    requires AreDigits(ds)
    ensures AllDigits(PlainDigits(ds)) && Value(PlainDigits(ds)) == Worth(ds)
  {
    hide Glyph;
    forall i | 0 <= i < |ds| ensures IsDigit(PlainDigits(ds)[i]) { GlyphSays(ds[i].d); }
    if ds != [] {
      var n := |ds| - 1;
      PlainWorth(ds[..n]);
      assert PlainDigits(ds)[..n] == PlainDigits(ds[..n]);
      GlyphSays(ds[n].d);
    }
  }

  lemma {:induction false} BlankLeft(before: string, s: string)
    requires IsBlank(before) && s != [] && !IsStripped(s[0])
    ensures StripLeft(before + s) == s
  {
    if before == [] {
      assert before + s == s;
    } else {
      assert (before + s)[1..] == before[1..] + s;
      BlankLeft(before[1..], s);
    }
  }

  lemma {:induction false} BlankRight(s: string, after: string)
    requires IsBlank(after) && s != [] && !IsStripped(s[|s| - 1])
    ensures StripRight(s + after) == s
  {
    if after == [] {
      assert s + after == s;
    } else {
      assert (s + after)[..|s + after| - 1] == s + after[..|after| - 1];
      BlankRight(s, after[..|after| - 1]);
    }
  }

  /** `int` reads every way to write a number: blanks around it, a sign or none, digits with single underscores
      between them. */
  lemma ReadsAnySpelling(before: string, sign: string, ds: seq<Digit>, after: string)
    requires IsBlank(before) && IsBlank(after) && sign in {"", "+", "-"} && AreDigits(ds) && ds != []
    ensures ParseInt(before + sign + Numeral(ds) + after) ==
      Some(if sign == "-" then -(Worth(ds) as int) else Worth(ds))
  {
    hide Ungrouped, StripLeft, StripRight, Spelled, Value, Glyph, IsBlank, IsStripped, PlainDigits, Worth;
    var numeral := Numeral(ds);
    var s := sign + numeral;
    NumeralUngrouped(ds);
    PlainWorth(ds);
    GlyphSays(ds[0].d);
    assert s[|s| - 1] == numeral[|numeral| - 1];
    EndsVisible(s, sign, ds[0].d);
    BlankLeft(before, s + after);
    BlankRight(s, after);
    assert before + sign + numeral + after == before + (s + after);
    if sign == "" {
      assert s == numeral;
    } else {
      assert s[0] == sign[0] && s[1..] == numeral;
    }
  }

  lemma EndsVisible(s: string, sign: string, d: nat)
    requires d < 10 && sign in {"", "+", "-"} && |s| > |sign| && sign <= s && s[|sign|] == Glyph(d)
    requires IsDigit(s[|s| - 1])
    ensures !IsStripped(s[0]) && !IsStripped(s[|s| - 1])
  {
    GlyphSays(d);
  }
}
