/** Percent-encoding and relay fields, exactly: which bytes are escaped and how, what unescaping makes of any text, and
    which fields a line has (api/cloud.py, RFC 3986). */
module Percent {
  import opened Prelude
  import opened Framing
  import opened JsonText
  import opened Protocol
  import opened RelayCodec

  // ---------- quoting ----------

  ghost function UpperGlyph(d: nat): Byte
    requires d < 16
  {
    "0123456789ABCDEF"[d] as int
  }

  ghost function LowerGlyph(d: nat): Byte
    requires d < 16
  {
    "0123456789abcdef"[d] as int
  }

  /** Which bytes stay: letters, digits, `-`, `.`, `_` and `~`; any other becomes `%` and two upper-case digits. */
  lemma QuoteSays(b: Byte)
    ensures Quote([b]) ==
      if 65 <= b <= 90 || 97 <= b <= 122 || 48 <= b <= 57 || b in {45, 46, 95, 126} then [b]
      else [37, UpperGlyph(b / 16), UpperGlyph(b % 16)]
  {
    assert [b][1..] == [];
  }

  lemma {:induction false} QuoteConcat(a: Bytes, b: Bytes)
    ensures Quote(a + b) == Quote(a) + Quote(b)
  {
    if a == [] {
      assert a + b == b;
    } else {
      assert (a + b)[0] == a[0] && (a + b)[1..] == a[1..] + b;
      QuoteConcat(a[1..], b);
    }
  }

  // ---------- unquoting ----------

  /** A byte written as itself or escaped, in digits of either case. */
  datatype Written = Raw(b: Byte) | Escaped(high: nat, low: nat, upperHigh: bool, upperLow: bool)

  ghost predicate IsWritten(ws: seq<Written>) {
    forall i | 0 <= i < |ws| ::
      match ws[i]
      case Raw(b) => b < 128 && b != 37
      case Escaped(h, l, _, _) => h < 16 && l < 16
  }

  ghost function HexGlyph(d: nat, upper: bool): Byte
    requires d < 16
  {
    if upper then UpperGlyph(d) else LowerGlyph(d)
  }

  ghost function Spell(ws: seq<Written>): Bytes
    requires IsWritten(ws)
  {
    if ws == [] then []
    else (match ws[0]
          case Raw(b) => [b]
          case Escaped(h, l, uh, ul) => [37, HexGlyph(h, uh), HexGlyph(l, ul)])
         + Spell(ws[1..])
  }

  ghost function Denoted(ws: seq<Written>): Bytes
    requires IsWritten(ws)
  {
    if ws == [] then []
    else [match ws[0] case Raw(b) => b case Escaped(h, l, _, _) => 16 * h + l] + Denoted(ws[1..])
  }

  lemma HexGlyphSays(d: nat, upper: bool)
    requires d < 16
    ensures HexValue(HexGlyph(d, upper) as char) == Some(d) && HexGlyph(d, upper) < 128
  {
  }

  lemma {:induction false} SpellUnescaped(ws: seq<Written>)
    requires IsWritten(ws)
    ensures Unescaped(Spell(ws)) == Denoted(ws)
    ensures forall i | 0 <= i < |Spell(ws)| :: Spell(ws)[i] < 128
  {
    hide HexGlyph, HexValue;
    if ws != [] {
      SpellUnescaped(ws[1..]);
      var s := Spell(ws);
      match ws[0]
      case Raw(b) => assert s[0] == b && s[1..] == Spell(ws[1..]);
      case Escaped(h, l, uh, ul) =>
        HexGlyphSays(h, uh);
        HexGlyphSays(l, ul);
        assert s[0] == 37 && s[1] == HexGlyph(h, uh) && s[2] == HexGlyph(l, ul) && s[3..] == Spell(ws[1..]);
    }
  }

  /** However a text is percent-encoded in ASCII, it is decoded to the bytes meant, and those as UTF-8. */
  lemma AnySpellingUnquoted(ws: seq<Written>)
    requires IsWritten(ws)
    ensures Unquote(Spell(ws)) == Sanitized(Denoted(ws))
    ensures IsText(Denoted(ws)) ==> Unquote(Spell(ws)) == Denoted(ws)
  {
    var s := Spell(ws);
    SpellUnescaped(ws);
    hide Spell, Denoted, Unescaped, Sanitized, FromBytes;
    AllAscii(s);
    if IsText(Denoted(ws)) { TextStays(Denoted(ws)); }
  }

  lemma AllAscii(s: Bytes)
    requires forall i | 0 <= i < |s| :: s[i] < 128
    ensures Unquote(s) == Sanitized(Unescaped(s))
  {
    assert AsciiRun(s) == |s|;
    assert s[..|s|] == s && s[|s|..] == [];
    if s == [] { assert Unescaped([]) == []; }
  }

  /** What follows the `%` at `i` makes it an escape. */
  ghost predicate EscapeAt(s: Bytes, i: nat) {
    && i + 2 < |s| && s[i] == 37
    && (exists d: nat | d < 16 :: s[i + 1] == UpperGlyph(d) || s[i + 1] == LowerGlyph(d))
    && (exists d: nat | d < 16 :: s[i + 2] == UpperGlyph(d) || s[i + 2] == LowerGlyph(d))
  }

  lemma HexValueSays(b: Byte)
    ensures HexValue(b as char).Some? <==> exists d: nat | d < 16 :: b == UpperGlyph(d) || b == LowerGlyph(d)
  {
    var v := HexValue(b as char);
    if v.Some? {
      assert b == UpperGlyph(v.value) || b == LowerGlyph(v.value);
    }
  }

  lemma {:induction false} NothingUnescaped(s: Bytes)
    requires forall i: nat :: !EscapeAt(s, i)
    ensures Unescaped(s) == s
  {
    hide HexValue;
    if s != [] {
      if |s| >= 3 {
        HexValueSays(s[1]);
        HexValueSays(s[2]);
        assert !EscapeAt(s, 0);
      }
      forall i: nat ensures !EscapeAt(s[1..], i) {
        assert !EscapeAt(s, i + 1);
      }
      NothingUnescaped(s[1..]);
    }
  }

  /** A text without escapes stays as it is: `+`, a lone `%` and characters beyond ASCII included. */
  lemma {:induction false} UnescapedStays(s: Bytes)
    requires forall i: nat :: !EscapeAt(s, i)
    ensures Unquote(s) == s
    decreases |s|
  {
    hide EscapeAt, Unescaped;
    if s == [] {
    } else if s[0] >= 0x80 {
      EscapesOf(s, 1);
      UnescapedStays(s[1..]);
    } else {
      var k := AsciiRun(s);
      EscapesOf(s, k);
      NothingUnescaped(s[..k]);
      RunIsAscii(s);
      AsciiIsText(s[..k]);
      TextStays(s[..k]);
      UnescapedStays(s[k..]);
    }
  }

  lemma EscapesOf(s: Bytes, k: nat)
    requires k <= |s| && forall i: nat :: !EscapeAt(s, i)
    ensures forall i: nat :: !EscapeAt(s[..k], i) && !EscapeAt(s[k..], i)
  {
    forall i: nat ensures !EscapeAt(s[..k], i) && !EscapeAt(s[k..], i) {
      assert !EscapeAt(s, i) && !EscapeAt(s, k + i);
    }
  }

  lemma {:induction false} RunIsAscii(s: Bytes)
    ensures forall i | 0 <= i < AsciiRun(s) :: s[i] < 0x80
    ensures AsciiRun(s) < |s| ==> s[AsciiRun(s)] >= 0x80
  {
    if s != [] && s[0] < 0x80 {
      RunIsAscii(s[1..]);
      assert forall i | 1 <= i < |s| :: s[i] == s[1..][i - 1];
    }
  }

  /** Characters beyond ASCII stay where they are, and what is before and after them is decoded by itself. */
  lemma {:induction false} UnquoteApart(a: Bytes, c: Byte, b: Bytes)
    requires c >= 0x80
    ensures Unquote(a + [c] + b) == Unquote(a) + [c] + Unquote(b)
    decreases |a|
  {
    hide Unescaped, Sanitized;
    var s := a + [c] + b;
    if a == [] {
      assert s[1..] == b;
    } else if a[0] >= 0x80 {
      assert s[1..] == a[1..] + [c] + b;
      UnquoteApart(a[1..], c, b);
    } else {
      var k := AsciiRun(a);
      RunBefore(a, c, b);
      assert s[..k] == a[..k] && s[k..] == a[k..] + [c] + b;
      UnquoteApart(a[k..], c, b);
    }
  }

  lemma {:induction false} RunBefore(a: Bytes, c: Byte, b: Bytes)
    requires c >= 0x80
    ensures AsciiRun(a + [c] + b) == AsciiRun(a)
  {
    if a == [] {
    } else {
      assert (a + [c] + b)[1..] == a[1..] + [c] + b;
      RunBefore(a[1..], c, b);
    }
  }

  // ---------- fields ----------

  /** The parts with an ampersand between them. */
  ghost function Ampersands(parts: seq<Bytes>): Bytes {
    if parts == [] then [] else if |parts| == 1 then parts[0] else parts[0] + [38] + Ampersands(parts[1..])
  }

  lemma {:induction false} PartsJoined(line: Bytes)
    ensures Ampersands(Parts(line)) == line && forall i | 0 <= i < |Parts(line)| :: 38 !in Parts(line)[i]
    decreases |line|
  {
    var i := IndexOf(line, 38);
    if i < |line| {
      var rest := line[i + 1..];
      PartsJoined(rest);
      assert Parts(line)[1..] == Parts(rest);
      assert line == line[..i] + [38] + rest;
    }
  }

  lemma PartsStep(first: Bytes, rest: Bytes)
    requires 38 !in first
    ensures Parts(first + [38] + rest) == [first] + Parts(rest)
  {
    var line := first + [38] + rest;
    assert line[|first|] == 38 && forall j | 0 <= j < |first| :: line[j] == first[j];
    IndexIs(line, 38, |first|);
    assert line[..|first|] == first && line[|first| + 1..] == rest;
  }

  lemma {:induction false} JoinedParts(parts: seq<Bytes>)
    requires parts != [] && forall i | 0 <= i < |parts| :: 38 !in parts[i]
    ensures Parts(Ampersands(parts)) == parts
  {
    if |parts| == 1 {
      OnePart(parts[0]);
      assert parts == [parts[0]];
    } else {
      JoinedParts(parts[1..]);
      PartsStep(parts[0], Ampersands(parts[1..]));
      assert parts == [parts[0]] + parts[1..];
    }
    hide Parts;
  }

  lemma OnePart(line: Bytes)
    requires 38 !in line
    ensures Parts(line) == [line]
  {
  }

  /** A line has one splitting at its ampersands. */
  lemma PartsExactly(line: Bytes, parts: seq<Bytes>)
    requires parts != []
    ensures Parts(line) == parts <==> line == Ampersands(parts) && forall i | 0 <= i < |parts| :: 38 !in parts[i]
  {
    PartsJoined(line);
    if forall i | 0 <= i < |parts| :: 38 !in parts[i] { JoinedParts(parts); }
    hide Parts, Ampersands;
  }

  /** This part gives `key` a value. */
  ghost predicate Gives(part: Bytes, key: Bytes) {
    61 !in key && key + [61] <= part
  }

  /** What follows the key and a separator. */
  ghost function After(part: Bytes, key: Bytes): Bytes {
    if |key| < |part| then part[|key| + 1..] else []
  }

  lemma GivesAt(part: Bytes, key: Bytes)
    ensures var i := IndexOf(part, 61); Gives(part, key) <==> i < |part| && part[..i] == key
  {
    var i := IndexOf(part, 61);
    if Gives(part, key) {
      assert part[|key|] == (key + [61])[|key|] == 61;
      assert forall j | 0 <= j < |key| :: part[j] == (key + [61])[j] == key[j];
      IndexIs(part, 61, |key|);
      assert part[..|key|] == key;
    }
    if i < |part| && part[..i] == key {
      assert key + [61] == part[..i + 1];
      assert forall j | 0 <= j < i :: key[j] == part[j];
    }
  }

  lemma AddedPart(fields: Fields, part: Bytes, key: Bytes)
    ensures Get(AddPart(fields, part), key) == if Gives(part, key) then Some(After(part, key)) else Get(fields, key)
  {
    hide Gives, Get;
    GivesAt(part, key);
    var i := IndexOf(part, 61);
    if i < |part| { PutGet(fields, part[..i], part[i + 1..], key); }
  }

  lemma {:induction false} AddedParts(fields: Fields, parts: seq<Bytes>, key: Bytes)
    ensures forall i | 0 <= i < |parts| && Gives(parts[i], key)
                       && (forall j | i < j < |parts| :: !Gives(parts[j], key)) ::
      Get(AddParts(fields, parts), key) == Some(After(parts[i], key))
    ensures (forall i | 0 <= i < |parts| :: !Gives(parts[i], key)) ==>
      Get(AddParts(fields, parts), key) == Get(fields, key)
    decreases |parts|
  {
    hide Gives;
    if parts != [] {
      var more := parts[1..];
      AddedPart(fields, parts[0], key);
      AddedParts(AddPart(fields, parts[0]), more, key);
      hide AddPart, Get;
      forall i | 0 <= i < |parts| && Gives(parts[i], key) && (forall j | i < j < |parts| :: !Gives(parts[j], key))
        ensures Get(AddParts(fields, parts), key) == Some(After(parts[i], key))
      {
        assert forall j | 0 <= j < |more| :: more[j] == parts[j + 1];
        if i > 0 { assert more[i - 1] == parts[i]; }
      }
    }
  }

  /** The fields of a line, exactly: split the decoded line at its ampersands; the value of a key is what follows it and
      the first `=` in the last part that starts so, and a key that starts none has no value. */
  lemma FieldsSay(line: Bytes, parts: seq<Bytes>, key: Bytes)
    requires parts != [] && Sanitized(line) == Ampersands(parts) && forall i | 0 <= i < |parts| :: 38 !in parts[i]
    ensures forall i | 0 <= i < |parts| && Gives(parts[i], key)
                       && (forall j | i < j < |parts| :: !Gives(parts[j], key)) ::
      Get(FieldsOf(line), key) == Some(After(parts[i], key))
    ensures (forall i | 0 <= i < |parts| :: !Gives(parts[i], key)) ==> Get(FieldsOf(line), key).None?
  {
    hide Gives, Ampersands, Sanitized, AddParts;
    PartsExactly(Sanitized(line), parts);
    AddedParts([], parts, key);
  }
}
