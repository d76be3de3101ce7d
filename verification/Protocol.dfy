/** The device frame: sequence numbers, builders, encoding (api/protocol.py). */
module Protocol {
  import opened Prelude
  import opened Framing
  import opened Decimal
  import opened JsonText

  const CMD_QUERY := 2
  const CMD_SET := 3
  const PROTOCOL_VERSION := 0

  /** The wildcard attribute: everything the device has. */
  const ATTR_ALL := 0

  /** A frame is a JSON object. */
  type Frame = Dict<string, Json>

  // ---------- sequence numbers ----------

  /** `new_sn` as a step on `_last_sn`, given the clock in milliseconds. */
  function NextSn(last: int, clock: int): int {
    if clock <= last then last + 1 else clock
  }

  /** The number issued last after one call per clock reading, `_last_sn` starting at 0. */
  function SnAfter(clocks: seq<int>): int {
    if clocks == [] then 0 else NextSn(SnAfter(clocks[..|clocks| - 1]), clocks[|clocks| - 1])
  }

  /** Closed form: the n-th number is the greatest of n and c_i + (n - i), for i <= n.
      It never lags the clock, and leads it by no more than this drift. */
  lemma {:induction false} SnClosedForm(clocks: seq<int>)
    ensures SnAfter(clocks) >= |clocks|
    ensures forall i | 0 <= i < |clocks| :: SnAfter(clocks) >= clocks[i] + (|clocks| - 1 - i)
    ensures SnAfter(clocks) == |clocks|
         || exists i | 0 <= i < |clocks| :: SnAfter(clocks) == clocks[i] + (|clocks| - 1 - i)
  {
    if clocks != [] {
      var n := |clocks| - 1;
      var before := clocks[..n];
      SnClosedForm(before);
      forall i | 0 <= i < |clocks| ensures SnAfter(clocks) >= clocks[i] + (n - i) {
        if i < n { assert before[i] == clocks[i]; }
      }
      if clocks[n] <= SnAfter(before) {
        if SnAfter(before) != n {
          var i :| 0 <= i < n && SnAfter(before) == before[i] + (n - 1 - i);
          assert SnAfter(clocks) == clocks[i] + (n - i);
        }
      } else {
        assert SnAfter(clocks) == clocks[n] + (n - n);
      }
    }
  }

  /** Whatever the clock does, later numbers are larger, so no text is ever issued twice. */
  lemma {:induction false} SnsDistinct(clocks: seq<int>, i: nat, j: nat)
    requires i < j <= |clocks|
    ensures SnAfter(clocks[..i]) < SnAfter(clocks[..j])
    ensures IntText(SnAfter(clocks[..i])) != IntText(SnAfter(clocks[..j]))
    decreases j - i
  {
    assert clocks[..j][..j - 1] == clocks[..j - 1];
    if i < j - 1 {
      SnsDistinct(clocks, i, j - 1);
    }
    if IntText(SnAfter(clocks[..i])) == IntText(SnAfter(clocks[..j])) {
      IntTextInjective(SnAfter(clocks[..i]), SnAfter(clocks[..j]));
    }
  }

  // ---------- frames ----------

  function Numbers(ns: seq<int>): seq<Json> {
    seq(|ns|, i requires 0 <= i < |ns| => Number(ns[i]))
  }

  function Envelope(cmd: int, sn: string, msg: Dict<string, Json>): Frame {
    [Item("pv", Number(PROTOCOL_VERSION)), Item("cmd", Number(cmd)), Item("sn", Text(sn)), Item("msg", Object(msg))]
  }

  /** A read-only query; no attributes stands for `None` or `[]`, which ask for everything. */
  function QueryFrame(attrs: seq<int>, sn: string): Frame {
    Envelope(CMD_QUERY, sn, [Item("attr", Array(Numbers(if attrs == [] then [ATTR_ALL] else attrs)))])
  }

  /** Callers key a payload by integers or by their decimal text. */
  datatype Key = IntKey(n: int) | TextKey(s: string)

  type Payload = Dict<Key, int>

  /** `str(dpid)` */
  function KeyText(k: Key): string {
    match k
    case IntKey(n) => IntText(n)
    case TextKey(s) => s
  }

  /** What `set_frame` demands of its caller: distinct keys, each readable by `int`. */
  ghost predicate ValidPayload(payload: Payload) {
    Distinct(payload) && forall i | 0 <= i < |payload| :: ParseInt(KeyText(payload[i].key)).Some?
  }

  /** `{str(dpid): value for dpid, value in payload.items()}` */
  function DataMap(payload: Payload): Dict<string, Json> {
    Update([], DataItems(payload))
  }

  function DataItems(payload: Payload): seq<Item<string, Json>> {
    seq(|payload|, i requires 0 <= i < |payload| => Item(KeyText(payload[i].key), Number(payload[i].val)))
  }

  /** `[int(dpid) for dpid in data]` */
  function AttrList(data: Dict<string, Json>): seq<int>
    requires forall i | 0 <= i < |data| :: ParseInt(data[i].key).Some?
  {
    seq(|data|, i requires 0 <= i < |data| => ParseInt(data[i].key).value)
  }

  /** A write frame. */
  function SetFrame(payload: Payload, sn: string): Frame
    requires ValidPayload(payload)
  {
    DataMapKeys(payload);
    var data := DataMap(payload);
    Envelope(CMD_SET, sn, [Item("attr", Array(Numbers(AttrList(data)))), Item("data", Object(data))])
  }

  lemma DataMapKeys(payload: Payload)
    requires ValidPayload(payload)
    ensures Distinct(DataMap(payload))
    ensures forall i | 0 <= i < |DataMap(payload)| ::
      ParseInt(DataMap(payload)[i].key).Some? && DataMap(payload)[i].val.Number?
  {
    var items := DataItems(payload);
    UpdateDistinct([], items);
    UpdateKeeps([], items, (it: Item<string, Json>) => ParseInt(it.key).Some? && it.val.Number?);
  }

  lemma IntKeysReadBack(payload: Payload)
    requires Distinct(payload) && forall i | 0 <= i < |payload| :: payload[i].key.IntKey?
    ensures ValidPayload(payload)
    ensures DataMap(payload) == DataItems(payload)
    ensures forall i | 0 <= i < |payload| :: ParseInt(DataItems(payload)[i].key) == Some(payload[i].key.n)
  {
    var items := DataItems(payload);
    forall i | 0 <= i < |payload| ensures ParseInt(KeyText(payload[i].key)) == Some(payload[i].key.n) {
      IntTextRoundTrip(payload[i].key.n);
    }
    forall i, j | 0 <= i < j < |items| ensures items[i].key != items[j].key {
      assert payload[i].key != payload[j].key;
    }
    assert [] + items == items;
    UpdateFresh([], items);
  }

  /** Keyed by distinct integers, `data` holds exactly the payload under decimal keys and
      `attr` lists exactly the same datapoints, in the same order. */
  lemma SetFrameMirrorsPayload(payload: Payload, sn: string)
    requires Distinct(payload) && forall i | 0 <= i < |payload| :: payload[i].key.IntKey?
    ensures ValidPayload(payload)
    ensures SetFrame(payload, sn) == Envelope(CMD_SET, sn, [
      Item("attr", Array(Numbers(seq(|payload|, i requires 0 <= i < |payload| => payload[i].key.n)))),
      Item("data", Object(seq(|payload|, i requires 0 <= i < |payload| =>
        Item(IntText(payload[i].key.n), Number(payload[i].val)))))])
  {
    IntKeysReadBack(payload);
    var data := DataMap(payload);
    assert AttrList(data) == seq(|payload|, i requires 0 <= i < |payload| => payload[i].key.n);
    assert data == seq(|payload|, i requires 0 <= i < |payload| =>
      Item(IntText(payload[i].key.n), Number(payload[i].val)));
  }

  lemma FramesWellFormed(cmd: int, sn: string, msg: Dict<string, Json>)
    requires WellFormed(Object(msg))
    ensures WellFormed(Object(Envelope(cmd, sn, msg)))
    ensures Get(Envelope(cmd, sn, msg), "sn") == Some(Text(sn))
  {
    var frame := Envelope(cmd, sn, msg);
    assert frame[0].key == "pv" && frame[1].key == "cmd" && frame[2].key == "sn" && frame[3].key == "msg";
    assert "pv" != "cmd" && "pv" != "sn" && "pv" != "msg" && "cmd" != "sn" && "sn" != "msg";
    assert "cmd"[0] != "msg"[0];
    assert Get(frame, "sn") == Get(frame[1..], "sn") == Get(frame[1..][1..], "sn");
  }

  lemma QueryFrameWellFormed(attrs: seq<int>, sn: string)
    ensures WellFormed(Object(QueryFrame(attrs, sn)))
    ensures Get(QueryFrame(attrs, sn), "sn") == Some(Text(sn))
  {
    var ns := if attrs == [] then [ATTR_ALL] else attrs;
    assert WellFormed(Array(Numbers(ns)));
    FramesWellFormed(CMD_QUERY, sn, [Item("attr", Array(Numbers(ns)))]);
  }

  lemma SetFrameWellFormed(payload: Payload, sn: string)
    requires ValidPayload(payload)
    ensures WellFormed(Object(SetFrame(payload, sn)))
    ensures Get(SetFrame(payload, sn), "sn") == Some(Text(sn))
  {
    DataMapKeys(payload);
    var data := DataMap(payload);
    assert WellFormed(Array(Numbers(AttrList(data))));
    var msg := [Item("attr", Array(Numbers(AttrList(data)))), Item("data", Object(data))];
    assert "attr" != "data" by { assert "attr"[0] != "data"[0]; }
    assert WellFormed(Object(msg));
    FramesWellFormed(CMD_SET, sn, msg);
  }

  // ---------- bytes ----------

  predicate IsAscii(s: string) {
    forall i | 0 <= i < |s| :: s[i] as int < 0x80
  }

  /** `s.encode()` for ASCII text. */
  function ToBytes(s: string): Bytes
    requires IsAscii(s)
  {
    seq(|s|, i requires 0 <= i < |s| => s[i] as int)
  }

  /** One character and the number of bytes it takes. */
  datatype Decoded = Decoded(c: char, width: nat)

  predicate Continues(raw: Bytes, i: nat) {
    i < |raw| && 0x80 <= raw[i] < 0xC0
  }

  /** The six bits that a continuation byte carries. */
  function Bits(raw: Bytes, i: nat): (n: nat)
    requires Continues(raw, i)
    ensures n < 0x40
  {
    var b: int := raw[i];
    b - 0x80
  }

  /** A character of a code point in this range, encoded in this many bytes. */
  function Scalar(n: nat, least: nat, width: nat): Option<Decoded> {
    if least <= n < 0xD800 || (0xE000 <= n < 0x11_0000 && least <= n) then Some(Decoded(n as char, width)) else None
  }

  /** The first character of UTF-8 text; `None` for a bad or overlong sequence. */
  function FirstChar(raw: Bytes): (r: Option<Decoded>)
    requires raw != []
    ensures r.Some? ==> 0 < r.value.width <= |raw|
  {
    var b: int := raw[0];
    if b < 0x80 then Scalar(b, 0, 1)
    else if 0xC0 <= b < 0xE0 && Continues(raw, 1) then
      Scalar((b - 0xC0) * 0x40 + Bits(raw, 1), 0x80, 2)
    else if 0xE0 <= b < 0xF0 && Continues(raw, 1) && Continues(raw, 2) then
      Scalar((b - 0xE0) * 0x1000 + Bits(raw, 1) * 0x40 + Bits(raw, 2), 0x800, 3)
    else if 0xF0 <= b < 0xF8 && Continues(raw, 1) && Continues(raw, 2) && Continues(raw, 3) then
      Scalar((b - 0xF0) * 0x4_0000 + Bits(raw, 1) * 0x1000 + Bits(raw, 2) * 0x40 + Bits(raw, 3), 0x1_0000, 4)
    else None
  }

  /** `raw.decode("utf-8")`, or `None` for a `UnicodeDecodeError`. */
  function FromBytes(raw: Bytes): Option<string>
    decreases |raw|
  {
    if raw == [] then Some([])
    else
      var first :- FirstChar(raw);
      var more :- FromBytes(raw[first.width..]);
      Some([first.c] + more)
  }

  lemma {:induction false} BytesRoundTrip(s: string)
    requires IsAscii(s)
    ensures FromBytes(ToBytes(s)) == Some(s)
  {
    if s != [] {
      BytesRoundTrip(s[1..]);
      assert ToBytes(s)[1..] == ToBytes(s[1..]);
      assert FirstChar(ToBytes(s)) == Some(Decoded(s[0], 1));
      assert s == [s[0]] + s[1..];
    }
  }

  /** The second byte of a sequence that starts like this one may be what it is. */
  predicate SecondFits(raw: Bytes)
    requires raw != []
  {
    && Continues(raw, 1)
    && (raw[0] == 0xE0 ==> raw[1] >= 0xA0) && (raw[0] == 0xED ==> raw[1] < 0xA0)
    && (raw[0] == 0xF0 ==> raw[1] >= 0x90) && (raw[0] == 0xF4 ==> raw[1] < 0x90)
  }

  /** How many bytes one replacement character stands for where no character can be read. */
  function BadWidth(raw: Bytes): (k: nat)
    requires raw != []
    ensures 0 < k <= |raw|
  {
    if 0xE0 <= raw[0] < 0xF5 && SecondFits(raw)
    then if raw[0] >= 0xF0 && Continues(raw, 2) then 3 else 2
    else 1
  }

  /** U+FFFD */
  const REPLACEMENT: Bytes := [0xEF, 0xBF, 0xBD]

  /** `raw.decode("utf-8", "replace")`, as the UTF-8 bytes of the text. */
  function Sanitized(raw: Bytes): Bytes
    decreases |raw|
  {
    if raw == [] then []
    else
      var first := FirstChar(raw);
      if first.Some? then raw[..first.value.width] + Sanitized(raw[first.value.width..])
      else REPLACEMENT + Sanitized(raw[BadWidth(raw)..])
  }

  /** Valid UTF-8: the bytes of some text. */
  predicate IsText(raw: Bytes) {
    FromBytes(raw).Some?
  }

  /** Text needs no replacements. */
  lemma {:induction false} TextStays(raw: Bytes)
    requires IsText(raw)
    ensures Sanitized(raw) == raw
    decreases |raw|
  {
    if raw != [] {
      var k := FirstChar(raw).value.width;
      TextStays(raw[k..]);
      assert raw[..k] + raw[k..] == raw;
    }
  }

  lemma FirstCharLocal(a: Bytes, b: Bytes)
    requires a != [] && FirstChar(a).Some?
    ensures FirstChar(a + b) == FirstChar(a)
  {
    assert forall i | 0 <= i < |a| :: (a + b)[i] == a[i];
  }

  lemma {:induction false} TextConcat(a: Bytes, b: Bytes)
    requires IsText(a) && IsText(b)
    ensures IsText(a + b)
    decreases |a|
  {
    if a == [] {
      assert a + b == b;
    } else {
      var k := FirstChar(a).value.width;
      FirstCharLocal(a, b);
      TextConcat(a[k..], b);
      assert (a + b)[k..] == a[k..] + b;
    }
  }

  lemma {:induction false} AsciiIsText(raw: Bytes)
    requires forall i | 0 <= i < |raw| :: raw[i] < 0x80
    ensures IsText(raw)
  {
    if raw != [] {
      AsciiIsText(raw[1..]);
    }
  }

  /** The encoded frame without its terminator. */
  function Bare(frame: Frame): (line: Bytes)
    ensures line != [] && !Terminated(line)
    ensures forall i | 0 <= i < |line| :: 0x20 <= line[i] < 0x7F
  {
    PrintIsTidy(Object(frame), []);
    PrintStarts(Object(frame), []);
    var line := ToBytes(Print(Object(frame)));
    NotTerminated(line);
    line
  }

  /** `encode(frame)` */
  function Encode(frame: Frame): Bytes {
    Bare(frame) + TERMINATOR
  }

  /** `decode(raw)` */
  function Decode(raw: Bytes): Option<Frame> {
    var text :- FromBytes(raw);
    var v :- Parse(text);
    if v.Object? then Some(v.fields) else None
  }

  /** Exactly one terminator, at the very end: a receiver that splits at CRLF gets the one line. */
  lemma EncodedIsOneLine(frame: Frame)
    ensures Find(Encode(frame)) == |Encode(frame)| - 2
    ensures forall i | 0 <= i < |Encode(frame)| - 2 :: Encode(frame)[i] != CR && Encode(frame)[i] != LF
    ensures Lines(Encode(frame)) == [Bare(frame)] && Rest(Encode(frame)) == []
  {
    SplitLine(Bare(frame), []);
    assert Bare(frame) + TERMINATOR + [] == Encode(frame);
  }

  /** The line a receiver gets decodes to the frame that was encoded. */
  lemma DecodeBare(frame: Frame)
    requires WellFormed(Object(frame))
    ensures Decode(Bare(frame)) == Some(frame)
  {
    var text := Print(Object(frame));
    PrintIsTidy(Object(frame), []);
    BytesRoundTrip(text);
    RoundTrip(Object(frame));
  }

  /** `decode(encode(frame)) == frame`, terminator included. */
  lemma DecodeEncode(frame: Frame)
    requires WellFormed(Object(frame))
    ensures Decode(Encode(frame)) == Some(frame)
  {
    var text := Print(Object(frame));
    PrintIsTidy(Object(frame), []);
    PrintStarts(Object(frame), []);
    var whole := text + "\r\n";
    BytesRoundTrip(whole);
    assert Encode(frame) == ToBytes(whole);
    assert StripLeft(whole) == whole;
    assert whole[..|whole| - 1] == text + "\r" && (text + "\r")[..|text|] == text;
    assert StripRight(whole) == StripRight(text + "\r") == StripRight(text);
    assert StripLeft(text) == text;
    RoundTrip(Object(frame));
  }

  /** Different frames never look alike on the wire. */
  lemma BareInjective(f: Frame, g: Frame)
    requires WellFormed(Object(f)) && WellFormed(Object(g)) && Bare(f) == Bare(g)
    ensures f == g
  {
    DecodeBare(f);
    DecodeBare(g);
  }

  /** The data map of a reply, or `None` where the transports raise for want of one. */
  function DataOf(reply: Frame): Option<Dict<string, Json>> {
    var msg :- Get(reply, "msg");
    if !msg.Object? then None
    else
      var data :- Get(msg.fields, "data");
      if data.Object? then Some(data.fields) else None
  }

  /** `reply.get("res") == 0` */
  predicate Accepted(reply: Frame) {
    Get(reply, "res") == Some(Number(0)) || Get(reply, "res") == Some(Bool(false))
  }

  // ---------- requests ----------

  /** What a client asks of a transport, whichever transport serves it. */
  datatype Call = Query(attrs: seq<int>) | Control(payload: Payload)

  datatype Reply = Readings(data: Dict<string, Json>) | Acknowledged(accepted: bool)

  ghost predicate ValidCall(call: Call) {
    call.Control? ==> ValidPayload(call.payload)
  }

  function FrameOf(call: Call, sn: string): Frame
    requires ValidCall(call)
  {
    match call
    case Query(attrs) => QueryFrame(attrs, sn)
    case Control(payload) => SetFrame(payload, sn)
  }

  /** What a reply frame tells the caller, or `None` where the transports raise `TransportError`. */
  function Understand(call: Call, frame: Frame): Option<Reply> {
    match call
    case Query(_) =>
      var data :- DataOf(frame);
      Some(Readings(data))
    case Control(_) => Some(Acknowledged(Accepted(frame)))
  }

  // ---------- frames and replies, in the words of the protocol ----------

  /** A query frame: version 0, command 2, its number, and the attributes asked for, 0 for everything. */
  lemma QueryFrameSays(attrs: seq<int>, sn: string)
    ensures FrameOf(Call.Query(attrs), sn) == [
      Item("pv", Number(0)), Item("cmd", Number(2)), Item("sn", Text(sn)),
      Item("msg", Object([Item("attr", Array(
        if attrs == [] then [Number(0)] else seq(|attrs|, i requires 0 <= i < |attrs| => Number(attrs[i]))))]))]
  {
    assert Numbers([0]) == [Number(0)];
    assert Numbers(attrs) == seq(|attrs|, i requires 0 <= i < |attrs| => Number(attrs[i]));
  }

  /** `str(k) == t` */
  ghost predicate Reads(k: Key, t: string) {
    k == TextKey(t) || (k.IntKey? && IntText(k.n) == t)
  }

  /** A write frame, whatever its payload is keyed by: version 0, command 3, its number; `data` gives every text the
      value of the last key that reads so, and no other text a value; `attr` lists its keys as integers, in order. */
  lemma SetFrameSays(payload: Payload, sn: string) returns (attr: seq<Json>, data: Dict<string, Json>)
    requires ValidPayload(payload)
    ensures var f := FrameOf(Call.Control(payload), sn);
      && Get(f, "pv") == Some(Number(0)) && Get(f, "cmd") == Some(Number(3)) && Get(f, "sn") == Some(Text(sn))
      && |f| == 4 && Get(f, "msg").Some? && Get(f, "msg").value.Object?
      && var msg := Get(f, "msg").value.fields;
         |msg| == 2 && Get(msg, "attr") == Some(Array(attr)) && Get(msg, "data") == Some(Object(data))
    ensures Distinct(data) && |attr| == |data|
    ensures forall i | 0 <= i < |data| ::
      ParseInt(data[i].key).Some? && attr[i] == Number(ParseInt(data[i].key).value)
    ensures forall t: string, i | 0 <= i < |payload| && Reads(payload[i].key, t)
                                  && (forall j | i < j < |payload| :: !Reads(payload[j].key, t)) ::
      Get(data, t) == Some(Number(payload[i].val))
    ensures forall t: string | (forall i | 0 <= i < |payload| :: !Reads(payload[i].key, t)) :: Get(data, t).None?
  {
    DataMapKeys(payload);
    data := DataMap(payload);
    attr := Numbers(AttrList(data));
    SetFrameParts(payload, sn, attr, data);
    forall t: string
      ensures forall i | 0 <= i < |payload| && Reads(payload[i].key, t)
                         && (forall j | i < j < |payload| :: !Reads(payload[j].key, t)) ::
        Get(data, t) == Some(Number(payload[i].val))
      ensures (forall i | 0 <= i < |payload| :: !Reads(payload[i].key, t)) ==> Get(data, t).None?
    {
      DataSays(payload, t);
    }
    hide DataMap, AttrList, FrameOf, ParseInt, Get, Reads;
  }

  lemma SetFrameParts(payload: Payload, sn: string, attr: seq<Json>, data: Dict<string, Json>)
    requires ValidPayload(payload) && data == DataMap(payload)
    requires forall i | 0 <= i < |data| :: ParseInt(data[i].key).Some?
    requires attr == Numbers(AttrList(data))
    ensures var f := FrameOf(Call.Control(payload), sn);
      && Get(f, "pv") == Some(Number(0)) && Get(f, "cmd") == Some(Number(3)) && Get(f, "sn") == Some(Text(sn))
      && |f| == 4 && Get(f, "msg") == Some(Object([Item("attr", Array(attr)), Item("data", Object(data))]))
    ensures var msg := [Item("attr", Array(attr)), Item("data", Object(data))];
      Get(msg, "attr") == Some(Array(attr)) && Get(msg, "data") == Some(Object(data))
  {
    hide DataMap, AttrList, ParseInt;
    var f := FrameOf(Call.Control(payload), sn);
    assert "pv" != "cmd" && "pv" != "sn" && "pv" != "msg" && "cmd" != "sn" && "sn" != "msg";
    assert "cmd"[0] != "msg"[0] && "attr"[0] != "data"[0];
    assert Get(f, "cmd") == Get(f[1..], "cmd");
    assert Get(f, "sn") == Get(f[1..], "sn") == Get(f[1..][1..], "sn");
    assert Get(f, "msg") == Get(f[1..], "msg") == Get(f[1..][1..], "msg") == Get(f[1..][1..][1..], "msg");
  }

  lemma DataSays(payload: Payload, t: string)
    ensures forall i | 0 <= i < |payload| && Reads(payload[i].key, t)
                       && (forall j | i < j < |payload| :: !Reads(payload[j].key, t)) ::
      Get(DataMap(payload), t) == Some(Number(payload[i].val))
    ensures (forall i | 0 <= i < |payload| :: !Reads(payload[i].key, t)) ==> Get(DataMap(payload), t).None?
  {
    hide IntText;
    var items := DataItems(payload);
    assert forall i | 0 <= i < |payload| :: (items[i].key == t <==> Reads(payload[i].key, t));
    forall i | 0 <= i < |payload| && Reads(payload[i].key, t)
               && (forall j | i < j < |payload| :: !Reads(payload[j].key, t))
      ensures Get(DataMap(payload), t) == Some(Number(payload[i].val))
    {
      UpdateLast([], items, i);
    }
    if forall i | 0 <= i < |payload| :: !Reads(payload[i].key, t) { UpdateOthers([], items, t); }
  }

  /** The verdict of a write: the device accepted exactly if `res` is 0. */
  lemma VerdictSays(payload: Payload, frame: Frame)
    ensures Understand(Call.Control(payload), frame) ==
      Some(Acknowledged(Get(frame, "res") == Some(Number(0)) || Get(frame, "res") == Some(Bool(false))))
  {
  }

  /** These are the values under `data` in the reply's `msg`. */
  ghost predicate HoldsData(frame: Frame, data: Dict<string, Json>) {
    exists msg: Dict<string, Json> :: Get(frame, "msg") == Some(Object(msg)) && Get(msg, "data") == Some(Object(data))
  }

  /** The readings of a query are exactly those; there are none if there is no such map. */
  lemma ReadingsSay(attrs: seq<int>, frame: Frame)
    ensures var r := Understand(Call.Query(attrs), frame);
      && (r.Some? ==> r.value.Readings?)
      && forall data: Dict<string, Json> :: r == Some(Readings(data)) <==> HoldsData(frame, data)
  {
    forall data: Dict<string, Json>
      ensures Understand(Call.Query(attrs), frame) == Some(Readings(data)) <==> HoldsData(frame, data)
    {
      var msg := Get(frame, "msg");
      if msg.Some? && msg.value.Object? {
        assert Get(frame, "msg") == Some(Object(msg.value.fields));
      }
    }
    hide Get;
  }

  lemma FrameOfWellFormed(call: Call, sn: string)
    requires ValidCall(call)
    ensures WellFormed(Object(FrameOf(call, sn)))
    ensures Get(FrameOf(call, sn), "sn") == Some(Text(sn))
  {
    match call
    case Query(attrs) => QueryFrameWellFormed(attrs, sn);
    case Control(payload) => SetFrameWellFormed(payload, sn);
  }

  // ---------- what is decoded ----------

  /** A decoded frame never repeats a key, at any depth. */
  lemma DecodedIsWellFormed(raw: Bytes)
    ensures Decode(raw).Some? ==> WellFormed(Object(Decode(raw).value))
  {
    if FromBytes(raw).Some? {
      ParsedIsWellFormed(FromBytes(raw).value);
    }
    hide Parse, FromBytes;
  }

  lemma {:induction false} GetIsWellFormed(d: Dict<string, Json>, k: string)
    requires forall i | 0 <= i < |d| :: WellFormed(d[i].val)
    ensures Get(d, k).Some? ==> WellFormed(Get(d, k).value)
  {
    if d != [] {
      GetIsWellFormed(d[1..], k);
    }
    hide WellFormed;
  }

  /** The readings in a reply: one value per datapoint. */
  lemma ReadingsDistinct(attrs: seq<int>, raw: Bytes)
    requires Decode(raw).Some?
    ensures var r := Understand(Call.Query(attrs), Decode(raw).value);
      r.Some? ==> r.value.Readings? && Distinct(r.value.data)
  {
    var frame := Decode(raw).value;
    DecodedIsWellFormed(raw);
    GetIsWellFormed(frame, "msg");
    var msg := Get(frame, "msg");
    if msg.Some? && msg.value.Object? {
      GetIsWellFormed(msg.value.fields, "data");
    }
    hide Decode, Get;
  }

  /** What that means. */
  lemma MatchesSays(line: Bytes, sn: string)
    ensures Matches(line, sn) <==> Decode(line).Some? && Get(Decode(line).value, "sn") == Some(Text(sn))
  {
  }

  /** The frame on this line carries this sequence number. */
  predicate Matches(line: Bytes, sn: string) {
    var frame := Decode(line);
    frame.Some? && Get(frame.value, "sn") == Some(Text(sn))
  }
}
