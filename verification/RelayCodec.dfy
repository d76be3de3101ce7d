/** The relay's line format: percent-encoded frames inside `key=value&...` lines (api/cloud.py). */
module RelayCodec {
  import opened Prelude
  import opened Framing
  import opened Decimal
  import opened JsonText
  import opened Protocol
  import opened Environment
  import opened Wire

  const AMPERSAND: Byte := 38
  const EQUALS: Byte := 61
  const PERCENT: Byte := 37

  // ---------- percent-encoding (RFC 3986, sections 2.1 and 2.3) ----------

  predicate Unreserved(b: Byte) {
    var c := b as char;
    'a' <= c <= 'z' || 'A' <= c <= 'Z' || '0' <= c <= '9' || c == '-' || c == '.' || c == '_' || c == '~'
  }

  function UpperHex(d: nat): (b: Byte)
    requires d < 0x10
    ensures Unreserved(b) && HexValue(b as char) == Some(d)
  {
    if d < 10 then 48 + d else 65 + d - 10
  }

  /** `urllib.parse.quote(s, safe="")` on the UTF-8 bytes of `s` */
  function Quote(s: Bytes): Bytes {
    if s == [] then []
    else (if Unreserved(s[0]) then [s[0]] else [PERCENT, UpperHex(s[0] / 0x10), UpperHex(s[0] % 0x10)]) + Quote(s[1..])
  }

  /** Escapes decoded, anything else left alone, `+` included. */
  function Unescaped(s: Bytes): Bytes {
    if s == [] then []
    else if s[0] == PERCENT && |s| >= 3 && HexValue(s[1] as char).Some? && HexValue(s[2] as char).Some? then
      [HexValue(s[1] as char).value * 0x10 + HexValue(s[2] as char).value] + Unescaped(s[3..])
    else [s[0]] + Unescaped(s[1..])
  }

  /** How many of the first bytes are ASCII. */
  function AsciiRun(s: Bytes): (k: nat)
    ensures k <= |s| && (s != [] && s[0] < 0x80 ==> k > 0)
    ensures (forall i | 0 <= i < |s| :: s[i] < 0x80) ==> k == |s|
  {
    if s == [] || s[0] >= 0x80 then 0 else 1 + AsciiRun(s[1..])
  }

  /** `urllib.parse.unquote`, on the UTF-8 bytes of a text: runs of ASCII are unescaped and decoded, with replacement
      characters where that is no UTF-8; other characters stay. */
  function Unquote(s: Bytes): Bytes
    decreases |s|
  {
    if s == [] then []
    else if s[0] >= 0x80 then [s[0]] + Unquote(s[1..])
    else Sanitized(Unescaped(s[..AsciiRun(s)])) + Unquote(s[AsciiRun(s)..])
  }

  lemma {:induction false} UnescapedQuote(s: Bytes)
    ensures Unescaped(Quote(s)) == s
  {
    if s != [] {
      UnescapedQuote(s[1..]);
      var q := Quote(s);
      if Unreserved(s[0]) {
        assert q[0] == s[0] && q[1..] == Quote(s[1..]);
      } else {
        assert q[0] == PERCENT && q[1] == UpperHex(s[0] / 0x10) && q[2] == UpperHex(s[0] % 0x10);
        assert q[3..] == Quote(s[1..]);
      }
      assert s == [s[0]] + s[1..];
    }
  }

  /** Quoting any text and unquoting it gives the text back. */
  lemma QuoteRoundTrip(s: Bytes)
    requires IsText(s)
    ensures Unquote(Quote(s)) == s
  {
    var q := Quote(s);
    QuotedIsSafe(s);
    UnescapedQuote(s);
    TextStays(s);
    assert AsciiRun(q) == |q|;
    assert q[..|q|] == q && q[|q|..] == [];
    if q == [] { assert Unescaped([]) == []; }
  }

  /** Quoted text holds only unreserved characters and percent signs, so no `&`, `=`, CR or LF. */
  lemma {:induction false} QuotedIsSafe(s: Bytes)
    ensures forall i | 0 <= i < |Quote(s)| :: Unreserved(Quote(s)[i]) || Quote(s)[i] == PERCENT
  {
    if s != [] {
      QuotedIsSafe(s[1..]);
    }
  }

  // ---------- key=value&key=value ----------

  type Fields = Dict<Bytes, Bytes>

  /** Where `b` first occurs, or `|s|`. */
  function IndexOf(s: Bytes, b: Byte): (i: nat)
    ensures i <= |s| && (i < |s| ==> s[i] == b)
    ensures forall j | 0 <= j < i :: s[j] != b
  {
    if s == [] || s[0] == b then 0
    else
      var i := IndexOf(s[1..], b);
      assert forall j | 1 <= j < 1 + i :: s[j] == s[1..][j - 1];
      1 + i
  }

  /** `line.split("&")` */
  function Parts(line: Bytes): (parts: seq<Bytes>)
    ensures parts != []
    decreases |line|
  {
    var i := IndexOf(line, AMPERSAND);
    if i == |line| then [line] else [line[..i]] + Parts(line[i + 1..])
  }

  /** `key, sep, value = part.partition("=")`, counted only if there is a separator. */
  function AddPart(fields: Fields, part: Bytes): Fields {
    var i := IndexOf(part, EQUALS);
    if i == |part| then fields else Put(fields, part[..i], part[i + 1..])
  }

  function AddParts(fields: Fields, parts: seq<Bytes>): Fields
    decreases |parts|
  {
    if parts == [] then fields else AddParts(AddPart(fields, parts[0]), parts[1..])
  }

  /** The fields of a line, as the UTF-8 bytes of the texts they are. */
  function FieldsOf(line: Bytes): Fields {
    AddParts([], Parts(Sanitized(line)))
  }

  /** `_parse_line` */
  method ParseLine(line: Bytes) returns (fields: Fields)
    ensures fields == FieldsOf(line)
  {
    fields := [];
    var parts := Parts(Sanitized(line));
    var i := 0;
    while i < |parts|
      invariant 0 <= i <= |parts|
      invariant AddParts(fields, parts[i..]) == FieldsOf(line)
    {
      assert parts[i..][0] == parts[i] && parts[i..][1..] == parts[i + 1..];
      var eq := IndexOf(parts[i], EQUALS);
      if eq < |parts[i]| {
        fields := Put(fields, parts[i][..eq], parts[i][eq + 1..]);
      }
      i := i + 1;
    }
  }

  function Pair(field: Item<Bytes, Bytes>): Bytes {
    field.key + [EQUALS] + field.val
  }

  /** `"&".join(f"{key}={value}" ...)` */
  function ComposeFields(fields: Fields): Bytes {
    if fields == [] then []
    else if |fields| == 1 then Pair(fields[0])
    else Pair(fields[0]) + [AMPERSAND] + ComposeFields(fields[1..])
  }

  /** Text that cannot be mistaken for structure. */
  ghost predicate Plain(s: Bytes) {
    IsText(s) && forall i | 0 <= i < |s| :: s[i] != AMPERSAND && s[i] != CR && s[i] != LF
  }

  /** Keys and values fit for a relay line: no `&`, no line break, and no `=` in a key. */
  ghost predicate Composable(fields: Fields) {
    forall i | 0 <= i < |fields| :: Plain(fields[i].key) && Plain(fields[i].val) && EQUALS !in fields[i].key
  }

  lemma IndexIs(s: Bytes, b: Byte, i: nat)
    requires i < |s| && s[i] == b && forall j | 0 <= j < i :: s[j] != b
    ensures IndexOf(s, b) == i
  {
  }

  lemma PairParts(field: Item<Bytes, Bytes>)
    requires EQUALS !in field.key
    ensures forall fields: Fields :: AddPart(fields, Pair(field)) == Put(fields, field.key, field.val)
  {
    var part := Pair(field);
    assert forall j | 0 <= j < |field.key| :: part[j] == field.key[j];
    IndexIs(part, EQUALS, |field.key|);
    assert part[..|field.key|] == field.key && part[|field.key| + 1..] == field.val;
  }

  lemma {:induction false} ComposedParts(fields: Fields, into: Fields)
    requires Composable(fields) && fields != []
    ensures AddParts(into, Parts(ComposeFields(fields))) == Update(into, fields)
    ensures Plain(Pair(fields[0]))
    decreases |fields|
  {
    var first, line := Pair(fields[0]), ComposeFields(fields);
    PairParts(fields[0]);
    PairPlain(fields[0]);
    var into' := Put(into, fields[0].key, fields[0].val);
    if |fields| == 1 {
      assert Parts(line) == [first];
      assert fields[1..] == [];
      assert AddParts(into, [first]) == AddParts(AddPart(into, first), [first][1..]);
    } else {
      IndexIs(line, AMPERSAND, |first|);
      assert line[..|first|] == first && line[|first| + 1..] == ComposeFields(fields[1..]);
      ComposedParts(fields[1..], into');
      assert Parts(line)[1..] == Parts(ComposeFields(fields[1..]));
    }
  }

  lemma PairPlain(field: Item<Bytes, Bytes>)
    requires Plain(field.key) && Plain(field.val)
    ensures Plain(Pair(field))
  {
    AsciiIsText([EQUALS]);
    TextConcat(field.key, [EQUALS]);
    TextConcat(field.key + [EQUALS], field.val);
    hide FromBytes;
  }

  lemma {:induction false} ComposedIsText(fields: Fields)
    requires Composable(fields)
    ensures IsText(ComposeFields(fields))
  {
    if fields == [] {
      AsciiIsText([]);
    } else {
      PairPlain(fields[0]);
      if |fields| > 1 {
        ComposedIsText(fields[1..]);
        AsciiIsText([AMPERSAND]);
        TextConcat(Pair(fields[0]), [AMPERSAND]);
        TextConcat(Pair(fields[0]) + [AMPERSAND], ComposeFields(fields[1..]));
      }
    }
    hide FromBytes;
  }

  /** Composing any field map into a line and parsing it gives the map back, values with `=` and `+` included. */
  lemma FieldsRoundTrip(fields: Fields)
    requires Composable(fields) && Distinct(fields)
    ensures FieldsOf(ComposeFields(fields)) == fields
  {
    ComposedIsText(fields);
    TextStays(ComposeFields(fields));
    hide FromBytes, Sanitized;
    if fields == [] {
      assert Parts([]) == [[]];
      assert AddParts([], [[]]) == AddParts(AddPart([], []), [[]][1..]);
    } else {
      ComposedParts(fields, []);
      assert [] + fields == fields;
      UpdateFresh([], fields);
    }
  }

  lemma {:induction false} ComposedIsOneLine(fields: Fields)
    requires Composable(fields)
    ensures forall i | 0 <= i < |ComposeFields(fields)| :: ComposeFields(fields)[i] != CR
    ensures !Terminated(ComposeFields(fields))
  {
    ComposedHasNoCr(fields);
    NotTerminated(ComposeFields(fields));
  }

  lemma {:induction false} ComposedHasNoCr(fields: Fields)
    requires Composable(fields)
    ensures forall i | 0 <= i < |ComposeFields(fields)| :: ComposeFields(fields)[i] != CR
  {
    if fields != [] {
      PairPlain(fields[0]);
      if |fields| > 1 { ComposedHasNoCr(fields[1..]); }
    }
  }

  // ---------- frames on relay lines ----------

  /** Field names and values, as `str.encode` gives them. */
  function Word(s: string): Bytes
    requires IsAscii(s)
  {
    ToBytes(s)
  }

  const CMD: Bytes := Word("cmd")
  const TOPIC: Bytes := Word("topic")
  const MESSAGE: Bytes := Word("message")
  const DEVICE_ID: Bytes := Word("device_id")
  const DEVICE_KEY: Bytes := Word("device_key")
  const NUM: Bytes := Word("num")

  /** `_compose`: the given fields, then the device's identity. */
  function Composed(fields: Fields, id: Bytes, key: Bytes): Fields {
    fields + [Item(DEVICE_ID, id), Item(DEVICE_KEY, key)]
  }

  function ReportTopic(id: Bytes): Bytes {
    Word("device_") + id
  }

  function SubscribeFields(id: Bytes, key: Bytes): Fields {
    Composed([Item(CMD, Word("subscribe")), Item(TOPIC, ReportTopic(id))], id, key)
  }

  function PublishFields(id: Bytes, key: Bytes, frame: Frame): Fields {
    Composed([Item(CMD, Word("publish")), Item(TOPIC, Word("control_") + id), Item(MESSAGE, Quote(Bare(frame)))],
             id, key)
  }

  lemma WordSays(s: string)
    requires IsAscii(s)
    ensures |Word(s)| == |s| && forall i | 0 <= i < |s| :: Word(s)[i] == s[i] as int
  {
  }

  lemma WordConcat(a: string, b: string, c: string)
    requires IsAscii(a) && IsAscii(b) && c == a + b
    ensures IsAscii(c) && Word(c) == Word(a) + Word(b)
  {
  }

  /** One field, the separator, and the rest of the line. */
  lemma ComposedFirst(fields: Fields)
    requires |fields| > 1
    ensures ComposeFields(fields) == fields[0].key + Word("=") + fields[0].val + Word("&") + ComposeFields(fields[1..])
  {
    assert Word("=") == [EQUALS] && Word("&") == [AMPERSAND];
    hide Word;
  }

  lemma ComposedLast(field: Item<Bytes, Bytes>)
    ensures ComposeFields([field]) == field.key + Word("=") + field.val
  {
    assert Word("=") == [EQUALS];
    hide Word;
  }

  /** Every line ends with the device's credentials. */
  lemma CredentialsSpelled(id: Bytes, key: Bytes)
    ensures ComposeFields([Item(DEVICE_ID, id), Item(DEVICE_KEY, key)]) ==
      Word("device_id=") + id + Word("&device_key=") + key
  {
    hide Word, ComposeFields;
    var fields := [Item(DEVICE_ID, id), Item(DEVICE_KEY, key)];
    ComposedFirst(fields);
    ComposedLast(fields[1]);
    assert fields[1..] == [fields[1]];
    WordConcat("device_id", "=", "device_id=");
    WordConcat("&", "device_key", "&device_key");
    WordConcat("&device_key", "=", "&device_key=");
    assert DEVICE_ID + Word("=") + id + Word("&") + (DEVICE_KEY + Word("=") + key) ==
      (DEVICE_ID + Word("=")) + id + (Word("&") + DEVICE_KEY + Word("=")) + key;
  }

  /** The subscription, letter by letter. */
  lemma SubscriptionSpelled(id: Bytes, key: Bytes)
    ensures ComposeFields(SubscribeFields(id, key)) ==
      Word("cmd=subscribe") + Word("&topic=device_") + id + Word("&device_id=") + id + Word("&device_key=") + key
  {
    hide Word, ComposeFields;
    var fields := SubscribeFields(id, key);
    var rest := ComposeFields(fields[2..]);
    CredentialsSpelled(id, key);
    assert fields[2..] == [Item(DEVICE_ID, id), Item(DEVICE_KEY, key)] && fields[1..][1..] == fields[2..];
    ComposedFirst(fields);
    ComposedFirst(fields[1..]);
    CommandsSpelled();
    TopicsSpelled();
    WordConcat("&", "device_id=", "&device_id=");
    assert ComposeFields(fields) ==
      (CMD + Word("=") + Word("subscribe")) + (Word("&") + TOPIC + Word("=") + Word("device_")) + id + Word("&") + rest;
    assert Word("&") + (Word("device_id=") + id + Word("&device_key=") + key) ==
      (Word("&") + Word("device_id=")) + id + Word("&device_key=") + key;
  }

  /** How the lines start. */
  lemma CommandsSpelled()
    ensures Word("cmd=subscribe") == CMD + Word("=") + Word("subscribe")
    ensures Word("cmd=publish") == CMD + Word("=") + Word("publish")
  {
    hide Word;
    WordConcat("cmd", "=", "cmd=");
    WordConcat("cmd=", "subscribe", "cmd=subscribe");
    WordConcat("cmd=", "publish", "cmd=publish");
  }

  lemma TopicsSpelled()
    ensures Word("&topic=device_") == Word("&") + TOPIC + Word("=") + Word("device_")
    ensures Word("&topic=control_") == Word("&") + TOPIC + Word("=") + Word("control_")
  {
    hide Word;
    WordConcat("&", "topic", "&topic");
    WordConcat("&topic", "=", "&topic=");
    WordConcat("&topic=", "device_", "&topic=device_");
    WordConcat("&topic=", "control_", "&topic=control_");
  }

  lemma MessageSpelled(id: Bytes, key: Bytes, message: Bytes)
    ensures ComposeFields([Item(MESSAGE, message), Item(DEVICE_ID, id), Item(DEVICE_KEY, key)]) ==
      Word("message=") + message + Word("&device_id=") + id + Word("&device_key=") + key
  {
    hide Word, ComposeFields;
    var fields := [Item(MESSAGE, message), Item(DEVICE_ID, id), Item(DEVICE_KEY, key)];
    ComposedFirst(fields);
    assert fields[1..] == [Item(DEVICE_ID, id), Item(DEVICE_KEY, key)];
    CredentialsSpelled(id, key);
    WordConcat("message", "=", "message=");
    WordConcat("&", "device_id=", "&device_id=");
    assert MESSAGE + Word("=") + message + Word("&") + (Word("device_id=") + id + Word("&device_key=") + key) ==
      (MESSAGE + Word("=")) + message + (Word("&") + Word("device_id=")) + id + Word("&device_key=") + key;
  }

  /** The publication, letter by letter. */
  lemma PublicationSpelled(id: Bytes, key: Bytes, frame: Frame)
    ensures ComposeFields(PublishFields(id, key, frame)) ==
      Word("cmd=publish") + Word("&topic=control_") + id + Word("&message=") + Quote(Bare(frame))
      + Word("&device_id=") + id + Word("&device_key=") + key
  {
    hide Word, ComposeFields, Bare, Quote;
    var fields := PublishFields(id, key, frame);
    var message := Quote(Bare(frame));
    assert fields[2..] == [Item(MESSAGE, message), Item(DEVICE_ID, id), Item(DEVICE_KEY, key)];
    assert fields[1..][1..] == fields[2..];
    ComposedFirst(fields);
    ComposedFirst(fields[1..]);
    MessageSpelled(id, key, message);
    CommandsSpelled();
    TopicsSpelled();
    WordConcat("&", "message=", "&message=");
    Regrouped(CMD + Word("=") + Word("publish"), Word("&"), TOPIC + Word("=") + Word("control_"), id, Word("message="),
              message + Word("&device_id=") + id + Word("&device_key=") + key);
    hide *;
  }

  lemma Regrouped(a: Bytes, sep: Bytes, b: Bytes, c: Bytes, d: Bytes, e: Bytes)
    ensures a + sep + (b + c + sep + (d + e)) == a + (sep + b) + c + (sep + d) + e
  {
  }

  /** The frame a line's `message` holds, if it holds one. */
  function MessageOf(fields: Fields): Option<Frame> {
    var raw :- Get(fields, MESSAGE);
    Decode(Unquote(raw))
  }

  /** These fields make a line, and wrap this frame. */
  ghost predicate Carries(fields: Fields, frame: Frame) {
    && WellFormed(Object(frame))
    && Composable(fields) && Distinct(fields)
    && Get(fields, MESSAGE) == Some(Quote(Bare(frame)))
  }

  lemma QuotedIsPlain(s: Bytes)
    ensures Plain(Quote(s))
  {
    QuotedIsSafe(s);
    AsciiIsText(Quote(s));
    hide FromBytes;
  }

  lemma PlainWord(s: string)
    requires IsAscii(s) && forall i | 0 <= i < |s| :: s[i] != '&' && s[i] != '\r' && s[i] != '\n'
    ensures Plain(Word(s))
  {
    hide FromBytes;
    AsciiIsText(Word(s));
  }

  lemma PlainConcat(a: Bytes, b: Bytes)
    requires Plain(a) && Plain(b)
    ensures Plain(a + b)
  {
    hide FromBytes;
    TextConcat(a, b);
  }

  /** The names of the fields are distinct and fit for a line. */
  lemma NamesAreFit()
    ensures forall name | name in [CMD, TOPIC, MESSAGE, DEVICE_ID, DEVICE_KEY] :: Plain(name) && EQUALS !in name
    ensures |CMD| == 3 && |TOPIC| == 5 && |MESSAGE| == 7 && |DEVICE_ID| == 9 && |DEVICE_KEY| == 10
  {
    hide Plain;
    PlainWord("cmd");
    PlainWord("topic");
    PlainWord("message");
    PlainWord("device_id");
    PlainWord("device_key");
  }

  lemma SubscribeIsComposable(id: Bytes, key: Bytes)
    requires Plain(id) && Plain(key)
    ensures Composable(SubscribeFields(id, key)) && Distinct(SubscribeFields(id, key))
  {
    hide Plain;
    NamesAreFit();
    PlainWord("subscribe");
    PlainWord("device_");
    PlainConcat(Word("device_"), id);
  }

  /** The publish line of any frame, for any device whose id and key are plain text. */
  lemma PublishCarries(id: Bytes, key: Bytes, frame: Frame)
    requires Plain(id) && Plain(key) && WellFormed(Object(frame))
    ensures Carries(PublishFields(id, key, frame), frame)
  {
    hide Plain, WellFormed, Bare, Quote;
    var fields := PublishFields(id, key, frame);
    NamesAreFit();
    PlainWord("publish");
    PlainWord("control_");
    PlainConcat(Word("control_"), id);
    QuotedIsPlain(Bare(frame));
    assert Get(fields, MESSAGE) == Get(fields[1..], MESSAGE) == Get(fields[1..][1..], MESSAGE);
  }

  lemma UnwrapCarried(fields: Fields, frame: Frame)
    requires Carries(fields, frame)
    ensures FieldsOf(ComposeFields(fields)) == fields && MessageOf(fields) == Some(frame)
    ensures ComposeFields(fields) != [] && !Terminated(ComposeFields(fields))
  {
    FieldsRoundTrip(fields);
    ComposedIsOneLine(fields);
    AsciiIsText(Bare(frame));
    QuoteRoundTrip(Bare(frame));
    DecodeBare(frame);
    assert fields != [];
  }

  datatype Carried = Carried(fields: Fields, frame: Frame)

  /** The lines of a stream of messages. */
  function RelayLines(messages: seq<Carried>): seq<Bytes> {
    seq(|messages|, i requires 0 <= i < |messages| => ComposeFields(messages[i].fields))
  }

  lemma {:induction false} BareIfEach(lines: seq<Bytes>)
    requires forall i | 0 <= i < |lines| :: lines[i] != [] && !Terminated(lines[i])
    ensures AllBare(lines) && NonBlank(lines) == lines
  {
    if lines != [] {
      BareIfEach(lines[1..]);
    }
  }

  /** Reading any part of a stream of full lines yields the first of them, all of them once all is read. */
  lemma ReadBack(lines: seq<Bytes>, calls: seq<seq<Choice>>)
    requires forall i | 0 <= i < |lines| :: lines[i] != [] && !Terminated(lines[i])
    requires Resume(calls).arrived <= Join(lines)
    ensures Resume(calls).yielded <= lines
    ensures Resume(calls).arrived == Join(lines) && !Terminated(Resume(calls).buffer) ==> Resume(calls).yielded == lines
  {
    var s := Resume(calls);
    FramingRefinement(calls);
    BareIfEach(lines);
    SplitJoin(lines, []);
    assert Join(lines) + [] == Join(lines);
    LinesOfPrefix(s.arrived, Join(lines));
    assert Lines(s.arrived) <= lines;
    BareIfEach(Lines(s.arrived));
    assert s.yielded <= Lines(s.arrived);
    hide Resume, Join;
  }

  /** Relay round trip: frames encoded, quoted, composed into lines and sent over TCP in any chunking,
      read with any pattern of interruptions, come out as the same fields and the same frames, in order;
      all of them, once the stream is read to its end. */
  lemma RelayRoundTrip(messages: seq<Carried>, calls: seq<seq<Choice>>)
    requires forall i | 0 <= i < |messages| :: Carries(messages[i].fields, messages[i].frame)
    requires Resume(calls).arrived <= Join(RelayLines(messages))
    ensures var lines := Resume(calls).yielded;
      && |lines| <= |messages|
      && (forall i | 0 <= i < |lines| ::
            FieldsOf(lines[i]) == messages[i].fields && MessageOf(FieldsOf(lines[i])) == Some(messages[i].frame))
    ensures Resume(calls).arrived == Join(RelayLines(messages)) && !Terminated(Resume(calls).buffer) ==>
      |Resume(calls).yielded| == |messages|
  {
    forall i | 0 <= i < |messages|
      ensures RelayLines(messages)[i] != [] && !Terminated(RelayLines(messages)[i])
      ensures FieldsOf(RelayLines(messages)[i]) == messages[i].fields
      ensures MessageOf(messages[i].fields) == Some(messages[i].frame)
    {
      UnwrapCarried(messages[i].fields, messages[i].frame);
    }
    ReadBack(RelayLines(messages), calls);
    hide Resume, Join, Carries, FieldsOf, MessageOf;
  }
}
