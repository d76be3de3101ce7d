/** UTF-8 (RFC 3629, section 3), and decoding that replaces what is none as the Unicode Standard (section 3.9)
    recommends: what the decoders of the protocol and the relay do to any bytes. */
module Utf8 {
  import opened Prelude
  import opened Framing
  import opened Protocol

  /** One character, in one to four bytes. */
  ghost function CharBytes(c: char): (r: Bytes)
    ensures 1 <= |r| <= 4
  {
    var n := c as int;
    if n < 0x80 then [n]
    else if n < 0x800 then [0xC0 + n / 0x40, 0x80 + n % 0x40]
    else if n < 0x1_0000 then [0xE0 + n / 0x1000, 0x80 + n / 0x40 % 0x40, 0x80 + n % 0x40]
    else [0xF0 + n / 0x4_0000, 0x80 + n / 0x1000 % 0x40, 0x80 + n / 0x40 % 0x40, 0x80 + n % 0x40]
  }

  ghost function TextBytes(s: string): Bytes {
    if s == [] then [] else CharBytes(s[0]) + TextBytes(s[1..])
  }

  // ---------- one character ----------

  lemma CharRead(c: char, more: Bytes)
    ensures FirstChar(CharBytes(c) + more) == Some(Decoded(c, |CharBytes(c)|))
  {
    var n := c as int;
    var raw := CharBytes(c) + more;
    assert forall i | 0 <= i < |CharBytes(c)| :: raw[i] == CharBytes(c)[i];
    if 0x800 <= n < 0x1_0000 {
      Split3(n);
    } else if n >= 0x1_0000 {
      Split4(n);
    }
  }

  lemma Split3(n: nat)
    ensures n == n / 0x1000 * 0x1000 + n / 0x40 % 0x40 * 0x40 + n % 0x40
  {
    assert n / 0x1000 == n / 0x40 / 0x40;
  }

  lemma Split4(n: nat)
    ensures n == n / 0x4_0000 * 0x4_0000 + n / 0x1000 % 0x40 * 0x1000 + n / 0x40 % 0x40 * 0x40 + n % 0x40
  {
    Split3(n);
    assert n / 0x4_0000 == n / 0x1000 / 0x40;
  }

  lemma ReadChar(raw: Bytes)
    requires raw != [] && FirstChar(raw).Some?
    ensures var d := FirstChar(raw).value; CharBytes(d.c) == raw[..d.width]
  {
    var d := FirstChar(raw).value;
    var n, b := d.c as int, raw[0] as int;
    if d.width == 2 {
      assert n == (b - 0xC0) * 0x40 + Bits(raw, 1);
    } else if d.width == 3 {
      var x, y, z: int := b - 0xE0, Bits(raw, 1), Bits(raw, 2);
      assert n == x * 0x1000 + y * 0x40 + z;
      Digits3(x, y, z);
    } else if d.width == 4 {
      var x, y, z, t: int := b - 0xF0, Bits(raw, 1), Bits(raw, 2), Bits(raw, 3);
      assert n == x * 0x4_0000 + y * 0x1000 + z * 0x40 + t;
      Digits4(x, y, z, t);
    }
  }

  lemma Digits3(x: int, y: int, z: int)
    requires 0 <= x && 0 <= y < 0x40 && 0 <= z < 0x40
    ensures var n := x * 0x1000 + y * 0x40 + z; n / 0x1000 == x && n / 0x40 % 0x40 == y && n % 0x40 == z
  {
    assert (x * 0x1000 + y * 0x40 + z) / 0x40 == x * 0x40 + y;
  }

  lemma Digits4(x: int, y: int, z: int, t: int)
    requires 0 <= x && 0 <= y < 0x40 && 0 <= z < 0x40 && 0 <= t < 0x40
    ensures var n := x * 0x4_0000 + y * 0x1000 + z * 0x40 + t;
      n / 0x4_0000 == x && n / 0x1000 % 0x40 == y && n / 0x40 % 0x40 == z && n % 0x40 == t
  {
    var n := x * 0x4_0000 + y * 0x1000 + z * 0x40 + t;
    Digits3(x * 0x40 + y, z, t);
    assert n / 0x1000 == x * 0x40 + y;
  }

  /** The first character is read exactly where its bytes are. */
  lemma FirstCharExactly(raw: Bytes, c: char)
    requires raw != []
    ensures FirstChar(raw) == Some(Decoded(c, |CharBytes(c)|)) <==> CharBytes(c) <= raw
    ensures FirstChar(raw).Some? ==> CharBytes(FirstChar(raw).value.c) <= raw
  {
    hide CharBytes;
    if CharBytes(c) <= raw {
      CharRead(c, raw[|CharBytes(c)|..]);
      assert CharBytes(c) + raw[|CharBytes(c)|..] == raw;
    }
    if FirstChar(raw).Some? { ReadChar(raw); }
    hide FirstChar;
  }

  // ---------- text ----------

  /** Bytes decode to a text exactly if they are its UTF-8 encoding. */
  lemma {:induction false} FromBytesExactly(raw: Bytes, s: string)
    ensures FromBytes(raw) == Some(s) <==> raw == TextBytes(s)
    decreases |raw|
  {
    hide CharBytes, FirstChar;
    if raw == [] {
      if s != [] { assert TextBytes(s) != []; }
    } else if s == [] {
    } else {
      FirstCharExactly(raw, s[0]);
      var k := |CharBytes(s[0])|;
      if CharBytes(s[0]) <= raw {
        FromBytesExactly(raw[k..], s[1..]);
        assert raw == CharBytes(s[0]) + raw[k..];
        if FromBytes(raw) == Some(s) { TailOf(raw, s, k); }
        if raw == TextBytes(s) {
          assert raw[k..] == TextBytes(s[1..]);
          assert [s[0]] + s[1..] == s;
        }
      } else {
        if FromBytes(raw) == Some(s) { HeadOf(raw, s); }
      }
    }
  }

  lemma TailOf(raw: Bytes, s: string, k: nat)
    requires raw != [] && s != [] && FirstChar(raw) == Some(Decoded(s[0], k)) && k <= |raw| && k > 0
    requires FromBytes(raw) == Some(s)
    ensures FromBytes(raw[k..]) == Some(s[1..])
  {
    hide FirstChar;
  }

  lemma HeadOf(raw: Bytes, s: string)
    requires raw != [] && s != [] && FromBytes(raw) == Some(s)
    ensures CharBytes(s[0]) <= raw
  {
    ReadChar(raw);
    hide FirstChar, CharBytes;
  }

  // ---------- replacement ----------

  /** These bytes are the beginning, but not all, of some character. */
  ghost predicate Begins(p: Bytes) {
    exists c: char :: |p| < |CharBytes(c)| && CharBytes(c)[..|p|] == p
  }

  /** A character at the front stays as it is. */
  lemma SanitizedChar(c: char, more: Bytes)
    ensures Sanitized(CharBytes(c) + more) == CharBytes(c) + Sanitized(more)
  {
    hide FirstChar, CharBytes;
    var raw, k := CharBytes(c) + more, |CharBytes(c)|;
    CharRead(c, more);
    assert raw[..k] == CharBytes(c) && raw[k..] == more;
  }

  /** What lead byte and second byte longer characters have. */
  lemma CharShape(c: char)
    ensures var r := CharBytes(c);
      && (|r| >= 3 ==> 0xE0 <= r[0] < 0xF5 && SecondFits(r) && Continues(r, 2))
      && (|r| == 3 ==> r[0] < 0xF0) && (|r| == 4 ==> r[0] >= 0xF0)
  {
    var n := c as int;
    if 0x800 <= n < 0x1_0000 {
      Split3(n);
    } else if n >= 0x1_0000 {
      Split4(n);
    }
  }

  lemma Char3(b: int, y: int)
    requires 0xE0 <= b < 0xF0 && 0x80 <= y < 0xC0 && (b == 0xE0 ==> y >= 0xA0) && (b == 0xED ==> y < 0xA0)
    ensures Begins([b, y])
  {
    var n := (b - 0xE0) * 0x1000 + (y - 0x80) * 0x40 + 0;
    Digits3(b - 0xE0, y - 0x80, 0);
    assert 0x800 <= n < 0xD800 || 0xE000 <= n < 0x1_0000;
    var c := n as char;
    assert CharBytes(c) == [b, y, 0x80];
    assert CharBytes(c)[..2] == [b, y];
  }

  lemma Char4(b: int, y: int, z: int)
    requires 0xF0 <= b < 0xF5 && 0x80 <= y < 0xC0 && (b == 0xF0 ==> y >= 0x90) && (b == 0xF4 ==> y < 0x90)
    requires 0x80 <= z < 0xC0
    ensures Begins([b, y]) && Begins([b, y, z])
  {
    var n := (b - 0xF0) * 0x4_0000 + (y - 0x80) * 0x1000 + (z - 0x80) * 0x40 + 0;
    Digits4(b - 0xF0, y - 0x80, z - 0x80, 0);
    assert 0x1_0000 <= n < 0x11_0000;
    var c := n as char;
    assert CharBytes(c) == [b, y, z, 0x80];
    assert CharBytes(c)[..2] == [b, y] && CharBytes(c)[..3] == [b, y, z];
  }

  /** One replacement stands for as much as could have begun a character, and for one byte at least. */
  lemma BadWidthBegins(raw: Bytes)
    requires raw != [] && FirstChar(raw).None?
    ensures BadWidth(raw) > 1 ==> Begins(raw[..BadWidth(raw)])
  {
    hide Begins;
    var w := BadWidth(raw);
    if w > 1 && raw[0] < 0xF0 {
      Char3(raw[0], raw[1]);
      assert raw[..2] == [raw[0], raw[1]];
      hide FirstChar;
    } else if w > 1 {
      Char4(raw[0], raw[1], if w == 3 then raw[2] else 0x80);
      assert raw[..2] == [raw[0], raw[1]];
      if w == 3 { assert raw[..3] == [raw[0], raw[1], raw[2]]; }
    }
  }

  lemma NothingLonger(raw: Bytes, j: nat)
    requires raw != [] && FirstChar(raw).None? && BadWidth(raw) < j <= |raw|
    ensures !Begins(raw[..j])
  {
    if Begins(raw[..j]) {
      var c: char :| j < |CharBytes(c)| && CharBytes(c)[..j] == raw[..j];
      CharShape(c);
      var r := CharBytes(c);
      assert forall i | 0 <= i < j :: raw[i] == raw[..j][i] == r[..j][i] == r[i];
      hide CharBytes, FirstChar;
      assert false;
    }
  }

  /** Where no character is, one U+FFFD replaces the longest beginning of one, or a single byte that begins none. */
  lemma ReplacedExactly(raw: Bytes, k: nat)
    requires raw != [] && forall c: char :: !(CharBytes(c) <= raw)
    requires 1 <= k <= |raw| && (k == 1 || Begins(raw[..k])) && forall j | k < j <= |raw| :: !Begins(raw[..j])
    ensures Sanitized(raw) == [0xEF, 0xBF, 0xBD] + Sanitized(raw[k..])
  {
    hide Begins, CharBytes, FirstChar, BadWidth;
    if FirstChar(raw).Some? { FirstCharExactly(raw, FirstChar(raw).value.c); }
    var w := BadWidth(raw);
    BadWidthBegins(raw);
    if w < k { NothingLonger(raw, k); }
    assert w == k;
  }
}
