/** The grammar of JSON texts (RFC 8259), for the values modelled here, with white space anywhere and every way to write
    a string: the parser accepts exactly these texts, and the printer writes the compact one (api/protocol.py). */
module JsonGrammar {
  import opened Prelude
  import opened Decimal
  import opened Framing
  import opened JsonText
  import Protocol
  import Utf8

  // ---------- texts ----------

  /** One character of a string literal: itself, a two-character escape, a code, or a pair of surrogate codes. */
  datatype Glyph =
    | Plain(c: char)
    | Short(letter: char)
    | Code(a: char, b: char, c: char, d: char)
    | Pair(a: char, b: char, c: char, d: char, e: char, f: char, g: char, h: char)

  datatype Doc =
    | NullDoc
    | BoolDoc(b: bool)
    | NumberDoc(negative: bool, digits: string)
    | TextDoc(glyphs: seq<Glyph>)
    | ArrayDoc(gap: string, cells: seq<Cell>)     // the gap counts only without cells
    | ObjectDoc(gap: string, members: seq<Member>)

  /** A value with the white space around it. */
  datatype Cell = Cell(before: string, doc: Doc, after: string)

  datatype Member = Member(before: string, key: seq<Glyph>, middle: string, value: Cell)

  ghost predicate IsGap(s: string) {
    forall i | 0 <= i < |s| :: s[i] in {' ', '\t', '\n', '\r'}
  }

  ghost predicate IsHex(a: char, b: char, c: char, d: char) {
    HexValue(a).Some? && HexValue(b).Some? && HexValue(c).Some? && HexValue(d).Some?
  }

  ghost function CodeOf(a: char, b: char, c: char, d: char): nat
    requires IsHex(a, b, c, d)
  {
    4096 * HexValue(a).value + 256 * HexValue(b).value + 16 * HexValue(c).value + HexValue(d).value
  }

  ghost predicate IsGlyph(g: Glyph) {
    match g
    case Plain(c) => c != '\"' && c != '\\' && c as int >= 32
    case Short(letter) => letter in {'\"', '\\', '/', 'b', 'f', 'n', 'r', 't'}
    case Code(a, b, c, d) => IsHex(a, b, c, d) && !(0xD800 <= CodeOf(a, b, c, d) < 0xE000)
    case Pair(a, b, c, d, e, f, g, h) =>
      && IsHex(a, b, c, d) && 0xD800 <= CodeOf(a, b, c, d) < 0xDC00
      && IsHex(e, f, g, h) && 0xDC00 <= CodeOf(e, f, g, h) < 0xE000
  }

  /** The character it stands for. */
  ghost function CharOf(g: Glyph): char
    requires IsGlyph(g)
  {
    match g
    case Plain(c) => c
    case Short(letter) =>
      if letter == 'b' then 8 as char
      else if letter == 'f' then 12 as char
      else if letter == 'n' then 10 as char
      else if letter == 'r' then 13 as char
      else if letter == 't' then 9 as char
      else letter
    case Code(a, b, c, d) =>
      assert CodeOf(a, b, c, d) < 0x1_0000;
      CodeOf(a, b, c, d) as char
    case Pair(a, b, c, d, e, f, g, h) =>
      (0x1_0000 + (CodeOf(a, b, c, d) - 0xD800) * 0x400 + (CodeOf(e, f, g, h) - 0xDC00)) as char
  }

  ghost predicate AreGlyphs(gs: seq<Glyph>) {
    forall i | 0 <= i < |gs| :: IsGlyph(gs[i])
  }

  ghost function TextOf(gs: seq<Glyph>): string
    requires AreGlyphs(gs)
  {
    seq(|gs|, i requires 0 <= i < |gs| => CharOf(gs[i]))
  }

  /** Digits without a leading zero. */
  ghost predicate IsInteger(digits: string) {
    digits != [] && AllDigits(digits) && (|digits| > 1 ==> digits[0] != '0')
  }

  ghost predicate IsDoc(doc: Doc)
    decreases doc
  {
    match doc
    case NumberDoc(_, digits) => IsInteger(digits)
    case TextDoc(gs) => AreGlyphs(gs)
    case ArrayDoc(gap, cells) => IsGap(gap) && forall i | 0 <= i < |cells| :: IsCell(cells[i])
    case ObjectDoc(gap, members) => IsGap(gap) && forall i | 0 <= i < |members| :: IsMember(members[i])
    case _ => true
  }

  ghost predicate IsCell(cell: Cell)
    decreases cell
  {
    IsGap(cell.before) && IsDoc(cell.doc) && IsGap(cell.after)
  }

  ghost predicate IsMember(m: Member)
    decreases m
  {
    && IsGap(m.before) && AreGlyphs(m.key) && IsGap(m.middle)
    && IsGap(m.value.before) && IsDoc(m.value.doc) && IsGap(m.value.after)
  }

  ghost predicate AreCells(cells: seq<Cell>) {
    forall i | 0 <= i < |cells| :: IsCell(cells[i])
  }

  ghost predicate AreMembers(members: seq<Member>) {
    forall i | 0 <= i < |members| :: IsMember(members[i])
  }

  /** The value of a text; of a repeated key the last one counts. */
  ghost function Meaning(doc: Doc): Json
    requires IsDoc(doc)
    decreases doc, 0
  {
    match doc
    case NullDoc => Null
    case BoolDoc(b) => Bool(b)
    case NumberDoc(negative, digits) => Number(if negative then -(Value(digits) as int) else Value(digits))
    case TextDoc(gs) => Text(TextOf(gs))
    case ArrayDoc(_, cells) => Array(Meanings(cells))
    case ObjectDoc(_, members) => Object(Update([], Pairs(members)))
  }

  ghost function Meanings(cells: seq<Cell>): seq<Json>
    requires AreCells(cells)
    decreases cells, 1
  {
    if cells == [] then []
    else
      assert cells[0].doc < cells[0];
      [Meaning(cells[0].doc)] + Meanings(cells[1..])
  }

  ghost function Pairs(members: seq<Member>): seq<Item<string, Json>>
    requires AreMembers(members)
    decreases members, 1
  {
    if members == [] then []
    else
      assert members[0].value.doc < members[0].value < members[0];
      [Item(TextOf(members[0].key), Meaning(members[0].value.doc))] + Pairs(members[1..])
  }

  ghost function GlyphThen(g: Glyph, rest: string): string {
    match g
    case Plain(c) => [c] + rest
    case Short(letter) => ['\\', letter] + rest
    case Code(a, b, c, d) => ['\\', 'u', a, b, c, d] + rest
    case Pair(a, b, c, d, e, f, g, h) => ['\\', 'u', a, b, c, d, '\\', 'u', e, f, g, h] + rest
  }

  /** The characters, the closing quote, and what follows. */
  ghost function GlyphsThen(gs: seq<Glyph>, rest: string): string {
    if gs == [] then ['\"'] + rest else GlyphThen(gs[0], GlyphsThen(gs[1..], rest))
  }

  /** A text and what follows it. */
  ghost function DocThen(doc: Doc, rest: string): string
    decreases doc, 0
  {
    match doc
    case NullDoc => "null" + rest
    case BoolDoc(b) => (if b then "true" else "false") + rest
    case NumberDoc(negative, digits) => (if negative then "-" else "") + digits + rest
    case TextDoc(gs) => ['\"'] + GlyphsThen(gs, rest)
    case ArrayDoc(gap, cells) => ['['] + if cells == [] then gap + [']'] + rest else CellsThen(cells, rest)
    case ObjectDoc(gap, members) => ['{'] + if members == [] then gap + ['}'] + rest else MembersThen(members, rest)
  }

  ghost function CellsThen(cells: seq<Cell>, rest: string): string
    requires cells != []
    decreases cells, 1
  {
    var cell := cells[0];
    cell.before + DocThen(cell.doc, cell.after +
      if |cells| == 1 then [']'] + rest else [','] + CellsThen(cells[1..], rest))
  }

  ghost function MembersThen(members: seq<Member>, rest: string): string
    requires members != []
    decreases members, 1
  {
    var m := members[0];
    m.before + ['\"'] + GlyphsThen(m.key, m.middle + [':'] + (m.value.before + DocThen(m.value.doc, m.value.after +
      if |members| == 1 then ['}'] + rest else [','] + MembersThen(members[1..], rest))))
  }

  // ---------- every such text is parsed ----------

  lemma {:induction false} GapSkipped(gap: string, s: string)
    requires IsGap(gap)
    ensures SkipSpace(gap + s) == SkipSpace(s)
  {
    if gap == [] {
      assert gap + s == s;
    } else {
      assert (gap + s)[1..] == gap[1..] + s;
      GapSkipped(gap[1..], s);
    }
  }

  lemma {:induction false} SkippedOnce(s: string)
    ensures SkipSpace(SkipSpace(s)) == SkipSpace(s)
    ensures SkipSpace(s) != [] ==> !IsSpace(SkipSpace(s)[0])
  {
    if s != [] && IsSpace(s[0]) { SkippedOnce(s[1..]); }
  }

  lemma GlyphParsed(g: Glyph, rest: string)
    requires IsGlyph(g)
    ensures var s := GlyphThen(g, rest); s != [] && s[0] != '\"' && ParseChar(s) == Some(Parsed(CharOf(g), rest))
  {
    hide ParseHexFour, HexValue, ParseUnicode;
    var s := GlyphThen(g, rest);
    match g
    case Plain(c) => assert s[1..] == rest;
    case Short(_) => assert s[2..] == rest;
    case Code(a, b, c, d) =>
      SingleParsed(a, b, c, d, rest);
      assert s[2..] == [a, b, c, d] + rest;
    case Pair(a, b, c, d, e, f, g, h) =>
      PairParsed(a, b, c, d, e, f, g, h, rest);
      assert s[2..] == [a, b, c, d] + (['\\', 'u', e, f, g, h] + rest);
  }

  lemma SingleParsed(a: char, b: char, c: char, d: char, rest: string)
    requires IsGlyph(Code(a, b, c, d))
    ensures ParseUnicode([a, b, c, d] + rest) == Some(Parsed(CharOf(Code(a, b, c, d)), rest))
  {
    hide ParseHexFour, HexValue;
    CodeParsed(a, b, c, d, rest);
    assert ([a, b, c, d] + rest)[4..] == rest;
  }

  lemma CodeParsed(a: char, b: char, c: char, d: char, rest: string)
    requires IsHex(a, b, c, d)
    ensures ParseHexFour([a, b, c, d] + rest) == Some(CodeOf(a, b, c, d))
  {
    var s := [a, b, c, d] + rest;
    assert s[0] == a && s[1] == b && s[2] == c && s[3] == d;
    hide HexValue;
  }

  lemma PairParsed(a: char, b: char, c: char, d: char, e: char, f: char, g: char, h: char, rest: string)
    requires IsGlyph(Pair(a, b, c, d, e, f, g, h))
    ensures ParseUnicode([a, b, c, d] + (['\\', 'u', e, f, g, h] + rest)) ==
      Some(Parsed(CharOf(Pair(a, b, c, d, e, f, g, h)), rest))
  {
    var more := ['\\', 'u', e, f, g, h] + rest;
    var s := [a, b, c, d] + more;
    CodeParsed(a, b, c, d, more);
    CodeParsed(e, f, g, h, rest);
    assert s[4..] == more && s[4] == more[0] && s[5] == more[1];
    assert s[6..] == [e, f, g, h] + rest;
    assert s[10..] == rest;
    hide ParseHexFour, HexValue;
  }

  lemma {:induction false} GlyphsParsed(gs: seq<Glyph>, rest: string)
    requires AreGlyphs(gs)
    ensures ParseChars(GlyphsThen(gs, rest)) == Some(Parsed(TextOf(gs), rest))
  {
    hide IsGlyph, CharOf, ParseChar, GlyphThen;
    if gs == [] {
      assert (['\"'] + rest)[1..] == rest;
      assert TextOf(gs) == [];
    } else {
      GlyphsParsed(gs[1..], rest);
      GlyphParsed(gs[0], GlyphsThen(gs[1..], rest));
      assert TextOf(gs) == [CharOf(gs[0])] + TextOf(gs[1..]);
    }
  }

  /** What may follow a value. */
  ghost predicate Follows(rest: string) {
    rest == [] || rest[0] in {' ', '\t', '\n', '\r', ',', ']', '}'}
  }

  lemma NumberParsed(negative: bool, digits: string, rest: string)
    requires IsInteger(digits) && Follows(rest)
    ensures ParseValue((if negative then "-" else "") + digits + rest) ==
      Some(Parsed(Number(if negative then -(Value(digits) as int) else Value(digits)), rest))
  {
    hide Value;
    var s := digits + rest;
    var whole := (if negative then "-" else "") + digits + rest;
    CountDigitsStops(digits, rest);
    assert s[..|digits|] == digits && s[|digits|..] == rest && s[0] == digits[0];
    assert ParseNat(s) == Some(Parsed(Value(digits), rest)) by { hide ParseValue; }
    if negative {
      assert whole[0] == '-' && whole[1..] == s;
    } else {
      assert whole == s;
    }
    assert IsDigit(digits[0]);
    hide CountDigits, ParseNat;
  }

  lemma AfterCell(after: string, mark: char, rest: string)
    requires IsGap(after) && mark in {',', ']', '}'}
    ensures Follows(after + ([mark] + rest)) && SkipSpace(after + ([mark] + rest)) == [mark] + rest
  {
    GapSkipped(after, [mark] + rest);
    if after != [] { assert (after + ([mark] + rest))[0] == after[0]; }
  }

  /** A text starts visibly. */
  lemma DocStarts(doc: Doc, rest: string)
    requires IsDoc(doc)
    ensures DocThen(doc, rest) != [] && SkipSpace(DocThen(doc, rest)) == DocThen(doc, rest)
    ensures DocThen(doc, rest)[0] != ']' && DocThen(doc, rest)[0] != '}'
  {
    if doc.NumberDoc? {
      var s := (if doc.negative then "-" else "") + doc.digits;
      assert s[0] == if doc.negative then '-' else doc.digits[0];
      assert doc.negative || IsDigit(doc.digits[0]);
      assert DocThen(doc, rest)[0] == s[0];
    }
    hide CellsThen, MembersThen;
  }

  lemma {:induction false} DocParsed(before: string, doc: Doc, rest: string)
    requires IsGap(before) && IsDoc(doc) && Follows(rest)
    ensures ParseValue(before + DocThen(doc, rest)) == Some(Parsed(Meaning(doc), rest))
    decreases doc, 0
  {
    hide GlyphsThen, ParseChars, ParseArray, ParseObject, CellsThen, MembersThen, Meanings, Pairs, SkipSpace,
         ParseNumber;
    var s := DocThen(doc, rest);
    GapSkipped(before, s);
    DocStarts(doc, rest);
    ValueSkips(before + s, s);
    match doc
    case NullDoc => assert s[4..] == rest;
    case BoolDoc(b) => assert b ==> s[4..] == rest; assert !b ==> s[5..] == rest;
    case NumberDoc(negative, digits) => NumberParsed(negative, digits, rest);
    case TextDoc(gs) =>
      GlyphsParsed(gs, rest);
      assert s[1..] == GlyphsThen(gs, rest);
    case ArrayDoc(gap, cells) => ArrayDocParsed(gap, cells, rest);
    case ObjectDoc(gap, members) => ObjectDocParsed(gap, members, rest);
  }

  lemma ValueSkips(s: string, t: string)
    requires SkipSpace(s) == SkipSpace(t)
    ensures ParseValue(s) == ParseValue(t)
  {
    hide ParseArray, ParseObject, ParseNumber, ParseChars, ParseWord;
  }

  lemma {:induction false} ArrayDocParsed(gap: string, cells: seq<Cell>, rest: string)
    requires IsDoc(ArrayDoc(gap, cells))
    ensures var s := DocThen(ArrayDoc(gap, cells), rest);
      s[0] == '[' && ParseArray(s[1..]) == Some(Parsed(Array(Meanings(cells)), rest))
    decreases cells, 2
  {
    var s := DocThen(ArrayDoc(gap, cells), rest);
    if cells == [] {
      assert s[1..] == gap + ([']'] + rest);
      GapSkipped(gap, [']'] + rest);
      assert ([']'] + rest)[1..] == rest;
    } else {
      assert s[1..] == CellsThen(cells, rest);
      CellsParsed(cells, rest);
      CellsStart(cells, rest);
      ItemsSkip(s[1..]);
    }
    hide ParseItems, CellsThen;
  }

  lemma CellsStart(cells: seq<Cell>, rest: string)
    requires AreCells(cells) && cells != []
    ensures var s := SkipSpace(CellsThen(cells, rest)); s != [] && s[0] != ']'
  {
    var more := if |cells| == 1 then [']'] + rest else [','] + CellsThen(cells[1..], rest);
    DocStarts(cells[0].doc, cells[0].after + more);
    GapSkipped(cells[0].before, DocThen(cells[0].doc, cells[0].after + more));
    hide DocThen;
  }

  lemma ItemsSkip(s: string)
    ensures ParseItems(SkipSpace(s)) == ParseItems(s)
  {
    SkippedOnce(s);
    ValueSkips(SkipSpace(s), s);
    hide ParseValue;
  }

  lemma {:induction false} CellsParsed(cells: seq<Cell>, rest: string)
    requires AreCells(cells) && cells != []
    ensures ParseItems(CellsThen(cells, rest)) == Some(Parsed(Meanings(cells), rest))
    decreases cells, 1
  {
    hide ParseValue, DocThen, Meaning, IsDoc, SkipSpace;
    var cell := cells[0];
    assert cell.doc < cell && IsCell(cell);
    if |cells| == 1 {
      AfterCell(cell.after, ']', rest);
      DocParsed(cell.before, cell.doc, cell.after + ([']'] + rest));
      assert ([']'] + rest)[1..] == rest;
      assert cells[1..] == [] && Meanings(cells) == [Meaning(cell.doc)];
      assert CellsThen(cells, rest) == cell.before + DocThen(cell.doc, cell.after + ([']'] + rest));
    } else {
      var more := CellsThen(cells[1..], rest);
      AfterCell(cell.after, ',', more);
      DocParsed(cell.before, cell.doc, cell.after + ([','] + more));
      assert ([','] + more)[1..] == more;
      CellsParsed(cells[1..], rest);
      assert CellsThen(cells, rest) == cell.before + DocThen(cell.doc, cell.after + ([','] + more));
    }
  }

  lemma {:induction false} ObjectDocParsed(gap: string, members: seq<Member>, rest: string)
    requires IsDoc(ObjectDoc(gap, members))
    ensures var s := DocThen(ObjectDoc(gap, members), rest);
      s[0] == '{' && ParseObject(s[1..]) == Some(Parsed(Object(Update([], Pairs(members))), rest))
    decreases members, 2
  {
    hide ParseFields, MembersThen, Pairs, Update, IsMember;
    var s := DocThen(ObjectDoc(gap, members), rest);
    if members == [] {
      assert s[1..] == gap + (['}'] + rest);
      GapSkipped(gap, ['}'] + rest);
      assert (['}'] + rest)[1..] == rest;
      NoMembers();
    } else {
      assert s[1..] == MembersThen(members, rest);
      MembersParsed(members, rest);
      MembersStart(members, rest);
      FieldsSkip(s[1..]);
    }
  }

  /** One member, and what follows its key. */
  ghost function MemberThen(m: Member, more: string): string {
    var value := m.value.before + DocThen(m.value.doc, m.value.after + more);
    m.before + ['\"'] + GlyphsThen(m.key, m.middle + [':'] + value)
  }

  lemma MembersStart(members: seq<Member>, rest: string)
    requires AreMembers(members) && members != []
    ensures var s := SkipSpace(MembersThen(members, rest)); s != [] && s[0] != '}'
  {
    var m := members[0];
    assert IsMember(m);
    var more := if |members| == 1 then ['}'] + rest else [','] + MembersThen(members[1..], rest);
    var tail := GlyphsThen(m.key, m.middle + [':'] + (m.value.before + DocThen(m.value.doc, m.value.after + more)));
    assert MembersThen(members, rest) == m.before + (['\"'] + tail);
    GapSkipped(m.before, ['\"'] + tail);
    hide DocThen, GlyphsThen;
  }

  lemma FieldsSkip(s: string)
    ensures ParseFields(SkipSpace(s)) == ParseFields(s)
  {
    SkippedOnce(s);
    hide ParseValue, ParseChars;
  }

  /** One member is read, and then what follows decides. */
  lemma MemberParsed(m: Member, mark: char, rest: string)
    requires IsMember(m) && mark in {',', '}'}
    requires ParseValue(m.value.before + DocThen(m.value.doc, m.value.after + ([mark] + rest))) ==
      Some(Parsed(Meaning(m.value.doc), m.value.after + ([mark] + rest)))
    ensures var field := Item(TextOf(m.key), Meaning(m.value.doc));
      ParseFields(MemberThen(m, [mark] + rest)) ==
        if mark == '}' then Some(Parsed([field], rest))
        else match ParseFields(rest)
             case None => None
             case Some(others) => Some(Parsed([field] + others.result, others.rest))
  {
    hide ParseValue, DocThen, Meaning, IsDoc, GlyphsThen, ParseChars, TextOf, AreGlyphs;
    var value := m.value.before + DocThen(m.value.doc, m.value.after + ([mark] + rest));
    var colon := m.middle + [':'] + value;
    var text := ['\"'] + GlyphsThen(m.key, colon);
    assert MemberThen(m, [mark] + rest) == m.before + text;
    GapSkipped(m.before, text);
    assert text[1..] == GlyphsThen(m.key, colon);
    assert SkipSpace(text) == text;
    GlyphsParsed(m.key, colon);
    assert colon == m.middle + ([':'] + value);
    GapSkipped(m.middle, [':'] + value);
    assert SkipSpace([':'] + value) == [':'] + value && ([':'] + value)[1..] == value;
    AfterCell(m.value.after, mark, rest);
    assert ([mark] + rest)[1..] == rest;
    hide SkipSpace;
  }

  lemma {:induction false} MembersParsed(members: seq<Member>, rest: string)
    requires AreMembers(members) && members != []
    ensures ParseFields(MembersThen(members, rest)) == Some(Parsed(Pairs(members), rest))
    decreases members, 1
  {
    hide ParseValue, ParseFields, DocThen, Meaning, IsDoc, GlyphsThen, TextOf, AreGlyphs;
    var m := members[0];
    assert IsMember(m) && m.value.doc < m.value < m;
    if |members| == 1 {
      AfterCell(m.value.after, '}', rest);
      DocParsed(m.value.before, m.value.doc, m.value.after + (['}'] + rest));
      MemberParsed(m, '}', rest);
      assert members[1..] == [] && Pairs(members) == [Item(TextOf(m.key), Meaning(m.value.doc))];
      assert MembersThen(members, rest) == MemberThen(m, ['}'] + rest);
    } else {
      var more := MembersThen(members[1..], rest);
      AfterCell(m.value.after, ',', more);
      DocParsed(m.value.before, m.value.doc, m.value.after + ([','] + more));
      MembersParsed(members[1..], rest);
      MemberParsed(m, ',', more);
      assert MembersThen(members, rest) == MemberThen(m, [','] + more);
    }
  }

  // ---------- nothing else is ----------

  lemma {:induction false} GapOf(s: string) returns (gap: string)
    ensures IsGap(gap) && s == gap + SkipSpace(s)
  {
    if s != [] && IsSpace(s[0]) {
      gap := GapOf(s[1..]);
      gap := [s[0]] + gap;
    } else {
      gap := [];
    }
  }

  lemma GlyphOf(s: string) returns (g: Glyph)
    requires s != [] && s[0] != '\"' && ParseChar(s).Some?
    ensures IsGlyph(g) && ParseChar(s).value.result == CharOf(g) && s == GlyphThen(g, ParseChar(s).value.rest)
  {
    hide HexValue;
    if s[0] != '\\' {
      g := Plain(s[0]);
    } else if s[1] != 'u' {
      g := Short(s[1]);
    } else {
      g := UnicodeOf(s[2..]);
      assert s[..2] == ['\\', 'u'] && s == s[..2] + s[2..];
      hide ParseUnicode;
    }
  }

  lemma UnicodeOf(s: string) returns (g: Glyph)
    requires ParseUnicode(s).Some?
    ensures (g.Code? || g.Pair?) && IsGlyph(g) && ParseUnicode(s).value.result == CharOf(g)
    ensures ['\\', 'u'] + s == GlyphThen(g, ParseUnicode(s).value.rest)
  {
    hide HexValue;
    var rest := ParseUnicode(s).value.rest;
    var n := ParseHexFour(s).value;
    if n < 0xD800 || 0xE000 <= n {
      g := Code(s[0], s[1], s[2], s[3]);
      assert s == [s[0], s[1], s[2], s[3]] + rest;
    } else {
      var low := ParseHexFour(s[6..]);
      g := Pair(s[0], s[1], s[2], s[3], s[6], s[7], s[8], s[9]);
      assert s == [s[0], s[1], s[2], s[3], '\\', 'u', s[6], s[7], s[8], s[9]] + rest;
    }
  }

  lemma {:induction false} GlyphsOf(s: string) returns (gs: seq<Glyph>)
    requires ParseChars(s).Some?
    ensures AreGlyphs(gs) && ParseChars(s).value.result == TextOf(gs)
    ensures s == GlyphsThen(gs, ParseChars(s).value.rest)
    decreases |s|
  {
    hide ParseChar, IsGlyph, CharOf, GlyphThen;
    if s[0] == '\"' {
      gs := [];
      assert s == ['\"'] + s[1..];
    } else {
      var g := GlyphOf(s);
      gs := GlyphsOf(ParseChar(s).value.rest);
      assert TextOf([g] + gs) == [CharOf(g)] + TextOf(gs) by { assert ([g] + gs)[1..] == gs; }
      assert ([g] + gs)[1..] == gs;
      gs := [g] + gs;
    }
  }

  lemma NatOf(s: string) returns (digits: string)
    requires ParseNat(s).Some?
    ensures IsInteger(digits) && s == digits + ParseNat(s).value.rest && ParseNat(s).value.result == Value(digits)
  {
    hide Value, CountDigits;
    var k := CountDigits(s);
    digits := s[..k];
  }

  lemma NumberOf(s: string) returns (doc: Doc)
    requires ParseNumber(s).Some?
    ensures doc.NumberDoc? && IsDoc(doc) && ParseNumber(s).value.result == Meaning(doc)
    ensures s == DocThen(doc, ParseNumber(s).value.rest)
  {
    hide Value, ParseNat, IsInteger;
    var negative := s != [] && s[0] == '-';
    var t := if negative then s[1..] else s;
    var digits := NatOf(t);
    var rest := ParseNat(t).value.rest;
    doc := NumberDoc(negative, digits);
    if negative {
      assert s == "-" + digits + rest;
    } else {
      assert s == "" + digits + rest;
    }
  }

  lemma WordOf(s: string) returns (doc: Doc)
    requires ParseWord(s).Some?
    ensures IsDoc(doc) && ParseWord(s).value.result == Meaning(doc) && s == DocThen(doc, ParseWord(s).value.rest)
  {
    if "null" <= s {
      doc := NullDoc;
      assert s == "null" + s[4..];
    } else if "true" <= s {
      doc := BoolDoc(true);
      assert s == "true" + s[4..];
    } else {
      doc := BoolDoc(false);
      assert s == "false" + s[5..];
    }
  }

  lemma {:induction false} DocOf(input: string) returns (before: string, doc: Doc)
    requires ParseValue(input).Some?
    ensures IsGap(before) && IsDoc(doc) && ParseValue(input).value.result == Meaning(doc)
    ensures input == before + DocThen(doc, ParseValue(input).value.rest)
    decreases |input|, 0
  {
    hide ParseArray, ParseObject, ParseChars, ParseNumber, ParseWord, GlyphsThen, SkipSpace, AreGlyphs, TextOf;
    before := GapOf(input);
    var s := SkipSpace(input);
    if s[0] == '\"' {
      var gs := GlyphsOf(s[1..]);
      doc := TextDoc(gs);
      assert s == ['\"'] + s[1..];
    } else if s[0] == '[' {
      doc := ArrayOf(s[1..]);
      assert s == ['['] + s[1..];
    } else if s[0] == '{' {
      doc := ObjectOf(s[1..]);
      assert s == ['{'] + s[1..];
    } else if s[0] == '-' || IsDigit(s[0]) {
      doc := NumberOf(s);
    } else {
      doc := WordOf(s);
    }
  }

  lemma {:induction false} ArrayOf(s: string) returns (doc: Doc)
    requires ParseArray(s).Some?
    ensures doc.ArrayDoc? && IsDoc(doc) && ParseArray(s).value.result == Meaning(doc)
    ensures ['['] + s == DocThen(doc, ParseArray(s).value.rest)
    decreases |s|, 2
  {
    hide ParseItems, SkipSpace, CellsThen;
    var inside := SkipSpace(s);
    var gap := GapOf(s);
    if inside != [] && inside[0] == ']' {
      doc := ArrayDoc(gap, []);
      assert inside == [']'] + inside[1..];
      assert ['['] + s == ['['] + (gap + [']'] + inside[1..]);
    } else {
      ItemsSkip(s);
      var cells := CellsOf(s);
      doc := ArrayDoc([], cells);
    }
  }

  lemma {:induction false} CellsOf(s: string) returns (cells: seq<Cell>)
    requires ParseItems(s).Some?
    ensures cells != [] && AreCells(cells) && ParseItems(s).value.result == Meanings(cells)
    ensures s == CellsThen(cells, ParseItems(s).value.rest)
    decreases |s|, 1
  {
    hide ParseValue, SkipSpace, IsDoc, DocThen, Meaning;
    var before, doc := DocOf(s);
    var first := ParseValue(s).value;
    var gap := GapOf(first.rest);
    var after := SkipSpace(first.rest);
    var cell := Cell(before, doc, gap);
    assert IsCell(cell);
    assert after == [after[0]] + after[1..];
    if after[0] == ']' {
      cells := [cell];
      assert cells[1..] == [];
      assert Meanings(cells) == [Meaning(doc)];
    } else {
      var more := CellsOf(after[1..]);
      cells := [cell] + more;
      assert cells[1..] == more;
    }
  }

  lemma {:induction false} ObjectOf(s: string) returns (doc: Doc)
    requires ParseObject(s).Some?
    ensures doc.ObjectDoc? && IsDoc(doc) && ParseObject(s).value.result == Meaning(doc)
    ensures ['{'] + s == DocThen(doc, ParseObject(s).value.rest)
    decreases |s|, 2
  {
    hide ParseFields, SkipSpace, MembersThen, Update;
    var inside := SkipSpace(s);
    var gap := GapOf(s);
    if inside != [] && inside[0] == '}' {
      doc := ObjectDoc(gap, []);
      assert inside == ['}'] + inside[1..];
      assert ['{'] + s == ['{'] + (gap + ['}'] + inside[1..]);
      NoMembers();
    } else {
      FieldsSkip(s);
      var members := MembersOf(s);
      doc := ObjectDoc([], members);
    }
  }

  lemma NoMembers()
    ensures Update<string, Json>([], Pairs([])) == []
  {
  }

  lemma {:induction false} MembersOf(s: string) returns (members: seq<Member>)
    requires ParseFields(s).Some?
    ensures members != [] && AreMembers(members) && ParseFields(s).value.result == Pairs(members)
    ensures s == MembersThen(members, ParseFields(s).value.rest)
    decreases |s|, 1
  {
    hide ParseValue, ParseChars, SkipSpace, IsDoc, DocThen, Meaning, AreGlyphs, TextOf, GlyphsThen;
    var before := GapOf(s);
    var t := SkipSpace(s);
    assert t == ['\"'] + t[1..];
    var key := ParseChars(t[1..]).value;
    var gs := GlyphsOf(t[1..]);
    var middle := GapOf(key.rest);
    var colon := SkipSpace(key.rest);
    assert colon == [':'] + colon[1..];
    var first, doc := DocOf(colon[1..]);
    var val := ParseValue(colon[1..]).value;
    var gap := GapOf(val.rest);
    var after := SkipSpace(val.rest);
    assert after == [after[0]] + after[1..];
    var m := Member(before, gs, middle, Cell(first, doc, gap));
    assert IsMember(m);
    assert s == MemberThen(m, after) by {
      assert middle + ([':'] + colon[1..]) == middle + [':'] + colon[1..];
      assert before + (['\"'] + t[1..]) == before + ['\"'] + t[1..];
    }
    if after[0] == '}' {
      members := [m];
      assert members[1..] == [];
      assert Pairs(members) == [Item(TextOf(gs), Meaning(doc))];
      assert MembersThen(members, after[1..]) == MemberThen(m, ['}'] + after[1..]);
    } else {
      var more := MembersOf(after[1..]);
      members := [m] + more;
      assert members[1..] == more;
      var rest := ParseFields(after[1..]).value.rest;
      assert MembersThen(members, rest) == MemberThen(m, [','] + MembersThen(more, rest));
    }
  }

  // ---------- whole texts ----------

  lemma {:induction false} GlyphsAppend(gs: seq<Glyph>, a: string, b: string)
    ensures GlyphsThen(gs, a + b) == GlyphsThen(gs, a) + b
  {
    if gs != [] { GlyphsAppend(gs[1..], a, b); }
  }

  lemma {:induction false} DocAppend(doc: Doc, a: string, b: string)
    ensures DocThen(doc, a + b) == DocThen(doc, a) + b
    decreases doc, 0
  {
    hide CellsThen, MembersThen, GlyphsThen;
    match doc
    case TextDoc(gs) => GlyphsAppend(gs, a, b);
    case ArrayDoc(gap, cells) => if cells != [] { CellsAppend(cells, a, b); }
    case ObjectDoc(gap, members) => if members != [] { MembersAppend(members, a, b); }
    case _ =>
  }

  lemma {:induction false} CellsAppend(cells: seq<Cell>, a: string, b: string)
    requires cells != []
    ensures CellsThen(cells, a + b) == CellsThen(cells, a) + b
    decreases cells, 1
  {
    hide DocThen;
    var cell := cells[0];
    assert cell.doc < cell;
    if |cells| == 1 {
      DocAppend(cell.doc, cell.after + ([']'] + a), b);
      assert cell.after + ([']'] + a) + b == cell.after + ([']'] + (a + b));
    } else {
      CellsAppend(cells[1..], a, b);
      var more := [','] + CellsThen(cells[1..], a);
      DocAppend(cell.doc, cell.after + more, b);
      assert cell.after + more + b == cell.after + ([','] + CellsThen(cells[1..], a + b));
    }
  }

  lemma MemberAppend(m: Member, more: string, b: string)
    requires forall a: string :: DocThen(m.value.doc, a + b) == DocThen(m.value.doc, a) + b
    ensures MemberThen(m, more + b) == MemberThen(m, more) + b
  {
    hide DocThen, GlyphsThen;
    var tail := m.middle + [':'] + (m.value.before + DocThen(m.value.doc, m.value.after + more));
    assert m.value.after + (more + b) == m.value.after + more + b;
    assert tail + b == m.middle + [':'] + (m.value.before + DocThen(m.value.doc, m.value.after + (more + b)));
    GlyphsAppend(m.key, tail, b);
  }

  lemma {:induction false} MembersAppend(members: seq<Member>, a: string, b: string)
    requires members != []
    ensures MembersThen(members, a + b) == MembersThen(members, a) + b
    decreases members, 1
  {
    hide DocThen, GlyphsThen;
    var m := members[0];
    assert m.value.doc < m.value < m;
    forall c: string ensures DocThen(m.value.doc, c + b) == DocThen(m.value.doc, c) + b {
      DocAppend(m.value.doc, c, b);
    }
    if |members| == 1 {
      MemberAppend(m, ['}'] + a, b);
      assert ['}'] + a + b == ['}'] + (a + b);
    } else {
      MembersAppend(members[1..], a, b);
      MemberAppend(m, [','] + MembersThen(members[1..], a), b);
      assert [','] + MembersThen(members[1..], a) + b == [','] + MembersThen(members[1..], a + b);
    }
    FirstMember(members, a);
    FirstMember(members, a + b);
  }

  lemma FirstMember(members: seq<Member>, rest: string)
    requires members != []
    ensures var more := if |members| == 1 then ['}'] + rest else [','] + MembersThen(members[1..], rest);
      MembersThen(members, rest) == MemberThen(members[0], more)
  {
    hide DocThen, GlyphsThen;
  }

  /** A text ends visibly. */
  lemma DocEnds(doc: Doc)
    requires IsDoc(doc)
    ensures var s := DocThen(doc, []); s != [] && !IsStripped(s[|s| - 1])
  {
    var s := DocThen(doc, []);
    match doc
    case NumberDoc(negative, digits) =>
      assert s[|s| - 1] == digits[|digits| - 1] && IsDigit(digits[|digits| - 1]);
    case TextDoc(gs) => GlyphsEnd(gs);
    case ArrayDoc(gap, cells) => if cells != [] { CellsEnd(cells); } else { assert s[|s| - 1] == ']'; }
    case ObjectDoc(gap, members) => if members != [] { MembersEnd(members); } else { assert s[|s| - 1] == '}'; }
    case _ =>
    hide CellsThen, MembersThen, GlyphsThen;
  }

  lemma {:induction false} GlyphsEnd(gs: seq<Glyph>)
    ensures var s := GlyphsThen(gs, []); s != [] && s[|s| - 1] == '\"'
  {
    if gs != [] { GlyphsEnd(gs[1..]); }
  }

  lemma {:induction false} CellsEnd(cells: seq<Cell>)
    requires cells != []
    ensures var s := CellsThen(cells, []); s != [] && s[|s| - 1] == ']'
  {
    hide DocThen;
    var cell := cells[0];
    if |cells| == 1 {
      DocAppend(cell.doc, [], cell.after + ([']'] + []));
      assert [] + (cell.after + ([']'] + [])) == cell.after + ([']'] + []);
    } else {
      CellsEnd(cells[1..]);
      var more := cell.after + ([','] + CellsThen(cells[1..], []));
      DocAppend(cell.doc, [], more);
      assert [] + more == more;
    }
  }

  lemma {:induction false} MembersEnd(members: seq<Member>)
    requires members != []
    ensures var s := MembersThen(members, []); s != [] && s[|s| - 1] == '}'
  {
    hide DocThen, GlyphsThen;
    var m := members[0];
    forall b: string, c: string ensures DocThen(m.value.doc, c + b) == DocThen(m.value.doc, c) + b {
      DocAppend(m.value.doc, c, b);
    }
    var more := if |members| == 1 then ['}'] + [] else [','] + MembersThen(members[1..], []);
    if |members| > 1 { MembersEnd(members[1..]); }
    MemberAppend(m, [], more);
    assert [] + more == more && more[|more| - 1] == '}';
    assert MembersThen(members, []) == MemberThen(m, more);
  }

  lemma {:induction false} LeftOf(s: string) returns (blank: string)
    ensures IsBlank(blank) && s == blank + StripLeft(s)
    ensures StripLeft(s) != [] ==> !IsStripped(StripLeft(s)[0])
  {
    if s != [] && IsStripped(s[0]) {
      blank := LeftOf(s[1..]);
      blank := [s[0]] + blank;
    } else {
      blank := [];
    }
  }

  lemma {:induction false} RightOf(s: string) returns (blank: string)
    ensures IsBlank(blank) && s == StripRight(s) + blank
  {
    if s != [] && IsStripped(s[|s| - 1]) {
      blank := RightOf(s[..|s| - 1]);
      assert s == s[..|s| - 1] + [s[|s| - 1]];
      blank := blank + [s[|s| - 1]];
    } else {
      blank := [];
    }
  }

  /** This text, with blanks around it, has this value. */
  ghost predicate Writes(s: string, v: Json, before: string, doc: Doc, after: string) {
    IsBlank(before) && IsBlank(after) && IsDoc(doc) && s == before + DocThen(doc, after) && Meaning(doc) == v
  }

  lemma WrittenParsed(s: string, v: Json, before: string, doc: Doc, after: string)
    requires Writes(s, v, before, doc, after)
    ensures Parse(s) == Some(v)
  {
    hide ParseValue, DocThen, Meaning, IsDoc, StripLeft, StripRight, IsBlank, IsStripped;
    var t := DocThen(doc, []);
    DocEnds(doc);
    DocStarts(doc, []);
    DocVisible(doc);
    DocAppend(doc, [], after);
    assert [] + after == after;
    assert s == before + (t + after);
    BlankLeft(before, t + after);
    BlankRight(t, after);
    DocParsed([], doc, []);
    assert [] + t == t;
  }

  lemma DocVisible(doc: Doc)
    requires IsDoc(doc)
    ensures DocThen(doc, []) != [] && !IsStripped(DocThen(doc, [])[0])
  {
    if doc.NumberDoc? {
      var s := (if doc.negative then "-" else "") + doc.digits;
      assert s[0] == if doc.negative then '-' else doc.digits[0];
      assert doc.negative || IsDigit(doc.digits[0]);
      assert DocThen(doc, [])[0] == s[0];
    }
    hide CellsThen, MembersThen, GlyphsThen;
  }

  lemma ParsedWritten(s: string) returns (before: string, doc: Doc, after: string)
    requires Parse(s).Some?
    ensures Writes(s, Parse(s).value, before, doc, after)
  {
    hide ParseValue, DocThen, Meaning, IsDoc, StripLeft, StripRight, SkipSpace;
    var left := LeftOf(s);
    var right := RightOf(StripLeft(s));
    var t := StripRight(StripLeft(s));
    var gap;
    gap, doc := DocOf(t);
    var rest := ParseValue(t).value.rest;
    var last := GapOf(rest);
    assert rest == last;
    before, after := left + gap, rest + right;
    DocAppend(doc, rest, right);
    assert s == left + (gap + DocThen(doc, rest) + right);
    GapsAreBlank(gap);
    GapsAreBlank(last);
  }

  lemma GapsAreBlank(s: string)
    requires IsGap(s)
    ensures IsBlank(s)
  {
  }

  /** The parser, exactly: a string parses to a value exactly if it is a text of that value with blanks around it. */
  lemma ParseExactly(s: string, v: Json)
    ensures Parse(s) == Some(v) <==> exists before, doc, after :: Writes(s, v, before, doc, after)
  {
    if Parse(s) == Some(v) {
      var before, doc, after := ParsedWritten(s);
      assert Writes(s, v, before, doc, after);
    }
    forall before, doc, after | Writes(s, v, before, doc, after) ensures Parse(s) == Some(v) {
      WrittenParsed(s, v, before, doc, after);
    }
    hide Parse, Writes;
  }

  /** Decoding, exactly: bytes are a frame exactly if they are, in UTF-8, a text of an object with its fields. */
  lemma DecodeExactly(raw: Bytes, frame: Protocol.Frame)
    ensures Protocol.Decode(raw) == Some(frame) <==>
      exists s: string, before, doc, after ::
        raw == Utf8.TextBytes(s) && Writes(s, Object(frame), before, doc, after)
  {
    hide Parse, Writes, Protocol.FromBytes, Utf8.TextBytes;
    var text := Protocol.FromBytes(raw);
    if text.Some? {
      Utf8.FromBytesExactly(raw, text.value);
      ParseExactly(text.value, Object(frame));
    }
    forall s: string, before, doc, after | raw == Utf8.TextBytes(s) && Writes(s, Object(frame), before, doc, after)
      ensures Protocol.Decode(raw) == Some(frame)
    {
      Utf8.FromBytesExactly(raw, s);
      ParseExactly(s, Object(frame));
    }
    if Protocol.Decode(raw) == Some(frame) {
      var before, doc, after :| Writes(text.value, Object(frame), before, doc, after);
    }
  }

  // ---------- printing ----------

  ghost function HexChar(d: nat): char
    requires d < 16
  {
    "0123456789abcdef"[d]
  }

  ghost function CodeGlyph(n: nat): (g: Glyph)
    requires n < 0x1_0000
    ensures g.Code?
  {
    Code(HexChar(n / 0x1000), HexChar(n / 0x100 % 16), HexChar(n / 0x10 % 16), HexChar(n % 16))
  }

  /** How a character is printed: escaped if it is a quote, a backslash, a control character or not ASCII. */
  ghost function CompactGlyph(c: char): Glyph {
    var n := c as int;
    if c == '\"' || c == '\\' then Short(c)
    else if n == 8 then Short('b')
    else if n == 9 then Short('t')
    else if n == 10 then Short('n')
    else if n == 12 then Short('f')
    else if n == 13 then Short('r')
    else if 32 <= n < 127 then Plain(c)
    else if n < 0x1_0000 then CodeGlyph(n)
    else
      var high, low := CodeGlyph(0xD800 + (n - 0x1_0000) / 0x400), CodeGlyph(0xDC00 + (n - 0x1_0000) % 0x400);
      Pair(high.a, high.b, high.c, high.d, low.a, low.b, low.c, low.d)
  }

  ghost function CompactGlyphs(s: string): seq<Glyph> {
    if s == [] then [] else [CompactGlyph(s[0])] + CompactGlyphs(s[1..])
  }

  /** The one text without white space that is printed for a value. */
  ghost function Compact(v: Json): Doc
    decreases v, 0
  {
    match v
    case Null => NullDoc
    case Bool(b) => BoolDoc(b)
    case Number(n) => NumberDoc(n < 0, IntText(if n < 0 then -n else n))
    case Text(s) => TextDoc(CompactGlyphs(s))
    case Array(items) => ArrayDoc([], CompactCells(items))
    case Object(fields) => ObjectDoc([], CompactMembers(fields))
  }

  ghost function CompactCells(items: seq<Json>): seq<Cell>
    decreases items, 1
  {
    if items == [] then [] else [Cell([], Compact(items[0]), [])] + CompactCells(items[1..])
  }

  ghost function CompactMembers(fields: Dict<string, Json>): seq<Member>
    decreases fields, 1
  {
    if fields == [] then []
    else
      assert fields[0].val < fields[0];
      [CompactMember(fields[0].key, Compact(fields[0].val))] + CompactMembers(fields[1..])
  }

  ghost function CompactMember(key: string, val: Doc): Member {
    Member([], CompactGlyphs(key), [], Cell([], val, []))
  }

  lemma EscapeIs(c: char, rest: string)
    ensures Escape(c, rest) == GlyphThen(CompactGlyph(c), rest)
  {
    hide HexFour, HexChar;
    var n := c as int;
    if n >= 0x1_0000 {
      PairIs(c, rest);
    } else if !ShortEscape(c).Some? && !(32 <= n < 127) {
      HexIs(n, rest);
      hide ShortEscape;
    }
  }

  lemma PairIs(c: char, rest: string)
    requires c as int >= 0x1_0000
    ensures Escape(c, rest) == GlyphThen(CompactGlyph(c), rest)
  {
    hide HexFour, HexChar, Escape, CompactGlyph, CodeGlyph;
    var n := c as int;
    var high, low := 0xD800 + (n - 0x1_0000) / 0x400, 0xDC00 + (n - 0x1_0000) % 0x400;
    HighParts(c, high, low, rest);
    HexIs(low, rest);
    HexIs(high, Backslash('u', HexFour(low, rest)));
    var h, l := CodeGlyph(high), CodeGlyph(low);
    BackslashIs([h.a, h.b, h.c, h.d], [l.a, l.b, l.c, l.d], rest);
    hide Backslash;
    assert ['\\', 'u'] + [h.a, h.b, h.c, h.d] + ['\\', 'u'] + [l.a, l.b, l.c, l.d] ==
      ['\\', 'u', h.a, h.b, h.c, h.d, '\\', 'u', l.a, l.b, l.c, l.d];
  }

  lemma BackslashIs(h: string, l: string, rest: string)
    ensures Backslash('u', h + Backslash('u', l + rest)) == ['\\', 'u'] + h + ['\\', 'u'] + l + rest
  {
    assert Backslash('u', l + rest) == ['\\', 'u'] + l + rest;
    assert h + (['\\', 'u'] + l + rest) == h + ['\\', 'u'] + l + rest;
    assert ['\\', 'u'] + (h + ['\\', 'u'] + l + rest) == ['\\', 'u'] + h + ['\\', 'u'] + l + rest;
  }

  lemma HighParts(c: char, high: nat, low: nat, rest: string)
    requires c as int >= 0x1_0000
    requires high == 0xD800 + (c as int - 0x1_0000) / 0x400 && low == 0xDC00 + (c as int - 0x1_0000) % 0x400
    ensures high < 0x1_0000 && low < 0x1_0000
    ensures var h, l := CodeGlyph(high), CodeGlyph(low);
      CompactGlyph(c) == Pair(h.a, h.b, h.c, h.d, l.a, l.b, l.c, l.d)
    ensures Escape(c, rest) == Backslash('u', HexFour(high, Backslash('u', HexFour(low, rest))))
  {
    hide HexFour, CodeGlyph, Backslash, Prepend;
  }

  lemma HexIs(n: nat, rest: string)
    requires n < 0x1_0000
    ensures var g := CodeGlyph(n); HexFour(n, rest) == [g.a, g.b, g.c, g.d] + rest
  {
    assert forall d: nat | d < 16 :: HexDigit(d) == HexChar(d);
  }

  lemma {:induction false} EscapesAre(s: string, rest: string)
    ensures EscapeAll(s, rest) == GlyphsThen(CompactGlyphs(s), rest)
  {
    hide Escape, GlyphThen, CompactGlyph;
    if s != [] {
      EscapesAre(s[1..], rest);
      EscapeIs(s[0], EscapeAll(s[1..], rest));
      assert CompactGlyphs(s)[1..] == CompactGlyphs(s[1..]);
    }
  }

  /** The printer, exactly. */
  lemma {:induction false} PrintExactly(v: Json, rest: string)
    ensures PrintThen(v, rest) == DocThen(Compact(v), rest)
    decreases v, 0
  {
    match v
    case Number(n) => NumberPrinted(n, rest);
    case Text(s) => EscapesAre(s, rest);
    case Array(items) =>
      if items == [] {
        assert CompactCells(items) == [];
      } else {
        ItemsPrinted(items, rest);
      }
    case Object(fields) =>
      if fields == [] {
        assert CompactMembers(fields) == [];
      } else {
        FieldsPrinted(fields, rest);
      }
    case _ =>
    hide EscapeAll, GlyphsThen, CellsThen, MembersThen, PrintItems, PrintFields;
  }

  lemma NumberPrinted(n: int, rest: string)
    ensures IntText(n) + rest == DocThen(Compact(Number(n)), rest)
  {
  }

  lemma {:induction false} ItemsPrinted(items: seq<Json>, rest: string)
    requires items != []
    ensures PrintItems(items, rest) == CellsThen(CompactCells(items), rest)
    decreases items, 1
  {
    hide PrintThen, DocThen, Compact;
    var more := PrintMoreItems(items[1..], rest);
    PrintExactly(items[0], more);
    assert CompactCells(items)[1..] == CompactCells(items[1..]);
    if |items| > 1 { ItemsPrinted(items[1..], rest); }
    assert [] + more == more && [] + DocThen(Compact(items[0]), more) == DocThen(Compact(items[0]), more);
  }

  lemma FieldPrinted(field: Item<string, Json>, doc: Doc, more: string)
    requires PrintThen(field.val, more) == DocThen(doc, more)
    ensures PrintField(field, more) == MemberThen(CompactMember(field.key, doc), more)
  {
    hide PrintThen, DocThen, EscapeAll, GlyphsThen, CompactGlyphs;
    var val := PrintThen(field.val, more);
    EscapesAre(field.key, [':'] + val);
    assert [] + more == more && [] + val == val && [] + [':'] + val == [':'] + val;
    var text := ['\"'] + EscapeAll(field.key, [':'] + val);
    assert [] + text == text;
  }

  lemma {:induction false} FieldsPrinted(fields: Dict<string, Json>, rest: string)
    requires fields != []
    ensures PrintFields(fields, rest) == MembersThen(CompactMembers(fields), rest)
    decreases fields, 1
  {
    hide PrintThen, DocThen, Compact, PrintField, MemberThen, CompactMember, MembersThen;
    var more := PrintMoreFields(fields[1..], rest);
    var members := CompactMembers(fields);
    assert fields[0].val < fields[0];
    PrintExactly(fields[0].val, more);
    FieldPrinted(fields[0], Compact(fields[0].val), more);
    assert members[1..] == CompactMembers(fields[1..]);
    if |fields| > 1 { FieldsPrinted(fields[1..], rest); }
    FirstMember(members, rest);
  }
}
