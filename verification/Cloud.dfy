/** The cloud relay transport: subscribe, publish one frame, wait for the report (api/cloud.py). */
module Cloud {
  import opened Prelude
  import opened Framing
  import opened Decimal
  import opened JsonText
  import opened Protocol
  import opened Environment
  import opened Deliveries
  import opened Wire
  import opened RelayCodec

  // ---------- what a line from the relay means to an exchange ----------

  datatype Verdict = Ignored | Undelivered | Report(frame: Frame)

  /** The receipt of a publish that reached no subscriber. */
  predicate UndeliveredAck(fields: Fields) {
    Get(fields, CMD) == Some(Word("publish")) && Get(fields, NUM) == Some(Word("0"))
  }

  /** `_extract_report` */
  function ExtractReport(fields: Fields, topic: Bytes): Option<Frame> {
    if Get(fields, TOPIC) != Some(topic) then None else MessageOf(fields)
  }

  function Judge(line: Bytes, topic: Bytes, sn: string): Verdict {
    var fields := FieldsOf(line);
    if UndeliveredAck(fields) then Undelivered
    else
      var reply := ExtractReport(fields, topic);
      if reply.Some? && Get(reply.value, "sn") == Some(Text(sn)) then Report(reply.value) else Ignored
  }

  /** The first line that matters, or `|lines|`. */
  function Decisive(lines: seq<Bytes>, topic: Bytes, sn: string): (i: nat)
    ensures i <= |lines|
    ensures i < |lines| ==> Judge(lines[i], topic, sn) != Ignored
    ensures forall j | 0 <= j < i :: Judge(lines[j], topic, sn) == Ignored
  {
    if lines == [] || Judge(lines[0], topic, sn) != Ignored then 0
    else
      var i := Decisive(lines[1..], topic, sn);
      assert forall j | 1 <= j < 1 + i :: lines[j] == lines[1..][j - 1];
      1 + i
  }

  /** What it says. */
  function FirstVerdict(lines: seq<Bytes>, topic: Bytes, sn: string): Verdict {
    var i := Decisive(lines, topic, sn);
    if i < |lines| then Judge(lines[i], topic, sn) else Ignored
  }

  lemma FirstVerdictConcat(a: seq<Bytes>, b: seq<Bytes>, topic: Bytes, sn: string)
    ensures FirstVerdict(a + b, topic, sn)
         == if FirstVerdict(a, topic, sn) != Ignored then FirstVerdict(a, topic, sn) else FirstVerdict(b, topic, sn)
  {
    hide Judge;
    DecisiveConcat(a, b, topic, sn);
    hide Decisive;
    var i, m := Decisive(a, topic, sn), Decisive(b, topic, sn);
    if i < |a| {
      assert (a + b)[i] == a[i];
    } else if m < |b| {
      assert (a + b)[|a| + m] == b[m];
    }
  }

  lemma {:induction false} DecisiveConcat(a: seq<Bytes>, b: seq<Bytes>, topic: Bytes, sn: string)
    ensures var i := Decisive(a, topic, sn);
      Decisive(a + b, topic, sn) == if i < |a| then i else |a| + Decisive(b, topic, sn)
  {
    hide Judge;
    if a == [] {
      assert a + b == b;
    } else {
      assert (a + b)[0] == a[0] && (a + b)[1..] == a[1..] + b;
      DecisiveConcat(a[1..], b, topic, sn);
    }
  }

  // ---------- the same in the words of the relay ----------

  /** The relay's receipt for a publication that reached nobody: `cmd=publish` and `num=0`, the bytes written out. */
  ghost predicate ReachedNobody(line: Bytes) {
    && Get(FieldsOf(line), [99, 109, 100]) == Some([112, 117, 98, 108, 105, 115, 104])
    && Get(FieldsOf(line), [110, 117, 109]) == Some([48])
  }

  /** A report addressed to this `topic`, whose `message` holds this frame, carrying this number. */
  ghost predicate Reports(line: Bytes, topic: Bytes, sn: string, frame: Frame) {
    && Get(FieldsOf(line), [116, 111, 112, 105, 99]) == Some(topic)
    && Get(frame, "sn") == Some(Text(sn))
    && var message := Get(FieldsOf(line), [109, 101, 115, 115, 97, 103, 101]);
       message.Some? && Decode(Unquote(message.value)) == Some(frame)
  }

  lemma ReportsMean(line: Bytes, topic: Bytes, sn: string, frame: Frame)
    requires Reports(line, topic, sn, frame)
    ensures MessageOf(FieldsOf(line)) == Some(frame) && Get(frame, "sn") == Some(Text(sn))
    ensures Get(FieldsOf(line), MESSAGE).Some? && Decode(Unquote(Get(FieldsOf(line), MESSAGE).value)) == Some(frame)
  {
    NamesSpelled();
    hide FieldsOf, Get, Decode, Unquote;
  }

  lemma NamesSpelled()
    ensures CMD == [99, 109, 100] && NUM == [110, 117, 109] && TOPIC == [116, 111, 112, 105, 99]
    ensures MESSAGE == [109, 101, 115, 115, 97, 103, 101]
    ensures Word("publish") == [112, 117, 98, 108, 105, 115, 104] && Word("0") == [48]
  {
  }

  /** What each line means to an exchange. */
  lemma JudgeExactly(line: Bytes, topic: Bytes, sn: string)
    ensures Judge(line, topic, sn) == Undelivered <==> ReachedNobody(line)
    ensures forall frame: Frame ::
      Judge(line, topic, sn) == Report(frame) <==> !ReachedNobody(line) && Reports(line, topic, sn, frame)
  {
    NamesSpelled();
    hide FieldsOf, Get, Decode, Unquote;
  }

  /** The line that settles an exchange with a report: the first report to it, no receipt for a publication that
      reached nobody having come before. */
  ghost predicate SettledBy(lines: seq<Bytes>, topic: Bytes, sn: string, frame: Frame, i: nat)
    requires i < |lines|
  {
    && Reports(lines[i], topic, sn, frame)
    && (forall j | 0 <= j <= i :: !ReachedNobody(lines[j]))
    && forall j, f: Frame | 0 <= j < i :: !Reports(lines[j], topic, sn, f)
  }

  lemma ReportComesFirst(lines: seq<Bytes>, topic: Bytes, sn: string, frame: Frame)
    ensures FirstVerdict(lines, topic, sn) == Report(frame) <==>
      exists i: nat | i < |lines| :: SettledBy(lines, topic, sn, frame, i)
  {
    hide Judge, Reports, ReachedNobody;
    forall j | 0 <= j < |lines| ensures JudgedAs(lines[j], topic, sn) {
      JudgedSo(lines[j], topic, sn);
    }
    var k := Decisive(lines, topic, sn);
    if FirstVerdict(lines, topic, sn) == Report(frame) {
      assert SettledBy(lines, topic, sn, frame, k);
    }
    forall i: nat | i < |lines| && SettledBy(lines, topic, sn, frame, i)
      ensures FirstVerdict(lines, topic, sn) == Report(frame)
    {
      assert Judge(lines[i], topic, sn) == Report(frame);
      forall j | 0 <= j < i ensures Judge(lines[j], topic, sn) == Ignored {
        assert JudgedAs(lines[j], topic, sn);
      }
      assert k == i;
    }
  }

  ghost predicate JudgedAs(line: Bytes, topic: Bytes, sn: string) {
    var v := Judge(line, topic, sn);
    && (v == Undelivered <==> ReachedNobody(line))
    && (forall frame: Frame :: v == Report(frame) <==> !ReachedNobody(line) && Reports(line, topic, sn, frame))
    && (v == Ignored <==> !ReachedNobody(line) && forall frame: Frame :: !Reports(line, topic, sn, frame))
  }

  lemma JudgedSo(line: Bytes, topic: Bytes, sn: string)
    ensures JudgedAs(line, topic, sn)
  {
    JudgeExactly(line, topic, sn);
    hide Judge, Reports, ReachedNobody;
    var v := Judge(line, topic, sn);
    if v.Report? { assert Reports(line, topic, sn, v.frame); }
  }

  /** The ordinary receipt, or any other line that is no report to this exchange, is passed over. */
  lemma ReceiptsIgnored(line: Bytes, topic: Bytes, sn: string)
    requires Get(FieldsOf(line), [110, 117, 109]) != Some([48])
    requires forall frame: Frame :: !Reports(line, topic, sn, frame)
    ensures Judge(line, topic, sn) == Ignored
  {
    hide FieldsOf, Get, Judge, Reports;
    JudgedSo(line, topic, sn);
  }

  /** No report settles an exchange exactly if none comes, or a receipt for a publication that reached nobody comes
      before, or with, the first. */
  lemma NoReportExactly(lines: seq<Bytes>, topic: Bytes, sn: string)
    ensures Answer(FirstVerdict(lines, topic, sn)).None? <==>
      forall i: nat, frame: Frame | i < |lines| && Reports(lines[i], topic, sn, frame) ::
        exists j | 0 <= j <= i :: ReachedNobody(lines[j])
  {
    hide Judge, Reports, ReachedNobody;
    forall j | 0 <= j < |lines| ensures JudgedAs(lines[j], topic, sn) {
      JudgedSo(lines[j], topic, sn);
    }
    var k, v := Decisive(lines, topic, sn), FirstVerdict(lines, topic, sn);
    if v.Report? {
      assert Reports(lines[k], topic, sn, v.frame);
      assert forall j | 0 <= j <= k :: JudgedAs(lines[j], topic, sn);
    } else {
      forall i: nat, frame: Frame | i < |lines| && Reports(lines[i], topic, sn, frame)
        ensures exists j | 0 <= j <= i :: ReachedNobody(lines[j])
      {
        assert JudgedAs(lines[i], topic, sn) && Judge(lines[i], topic, sn) != Ignored;
        assert k <= i && JudgedAs(lines[k], topic, sn);
        assert ReachedNobody(lines[k]);
      }
    }
  }

  // ---------- an exchange, as its connection shows it ----------

  function Packet(fields: Fields): (r: Bytes)
    ensures r != []
  {
    ComposeFields(fields) + TERMINATOR
  }

  /** The relay assigned to a device, the device's identity there, and how long to wait for its report. */
  datatype Endpoint = Endpoint(host: Address, id: Bytes, key: Bytes, timeout: real)

  function Subscription(d: Endpoint): Bytes {
    ComposeFields(SubscribeFields(d.id, d.key))
  }

  function Publication(d: Endpoint, frame: Frame): Bytes {
    ComposeFields(PublishFields(d.id, d.key, frame))
  }

  /** Everything an exchange may write: the subscription, then the frame. */
  function Script(d: Endpoint, frame: Frame): Bytes {
    Join([Subscription(d), Publication(d, frame)])
  }

  function Answer(v: Verdict): Option<Frame> {
    if v.Report? then Some(v.frame) else None
  }

  /** What the connection of an exchange looks like afterwards: the script went out in order, as far as it
      got, nothing was read before it was out completely, and the answer is what the first decisive line says. */
  ghost predicate Exchanged(c: Conn, d: Endpoint, frame: Frame, sn: string, r: Option<Frame>) {
    && c.sent <= Script(d, frame)
    && (c.got != [] ==> c.sent == Script(d, frame))
    && r == Answer(FirstVerdict(NonBlank(Lines(c.got)), ReportTopic(d.id), sn))
  }

  lemma Unanswered(c: Conn, d: Endpoint, frame: Frame, sn: string)
    requires c.got == [] && c.sent <= Script(d, frame)
    ensures Exchanged(c, d, frame, sn, None)
  {
  }

  lemma ClosedIsExchanged(c: Conn, d: Endpoint, frame: Frame, sn: string, r: Option<Frame>)
    requires Exchanged(c, d, frame, sn, r)
    ensures Exchanged(c.(open := false), d, frame, sn, r)
  {
  }

  lemma AtLast(before: seq<Conn>, c: Conn, bytes: Bytes)
    ensures Sent(before + [c], |before|, bytes) == before + [c.(sent := c.sent + bytes)]
    ensures Received(before + [c], |before|, bytes) == before + [c.(got := c.got + bytes)]
    ensures Closed(before + [c], |before|) == before + [c.(open := false)]
  {
  }

  lemma Scripted(d: Endpoint, frame: Frame)
    ensures Script(d, frame) == Packet(SubscribeFields(d.id, d.key)) + Packet(PublishFields(d.id, d.key, frame))
  {
    var a, b := Subscription(d), Publication(d, frame);
    assert Join([a, b]) == a + TERMINATOR + Join([b]);
    assert Join([b]) == b + TERMINATOR + Join([]);
    hide ComposeFields;
  }

  /** What has been judged so far, and what the buffer still holds. */
  lemma JudgedSoFar(popped: seq<Bytes>, buffer: Bytes, topic: Bytes, sn: string)
    requires AllBare(popped)
    ensures var v := FirstVerdict(NonBlank(popped), topic, sn);
      && (v != Ignored ==> FirstVerdict(NonBlank(Lines(Join(popped) + buffer)), topic, sn) == v)
      && (!Terminated(buffer) ==> FirstVerdict(NonBlank(Lines(Join(popped) + buffer)), topic, sn) == v)
  {
    SplitJoin(popped, buffer);
    NonBlankConcat(popped, Lines(buffer));
    FirstVerdictConcat(NonBlank(popped), NonBlank(Lines(buffer)), topic, sn);
    hide FirstVerdict, Join;
  }

  lemma NothingJudged(topic: Bytes, sn: string)
    ensures FirstVerdict([], topic, sn) == Ignored
  {
  }

  lemma JudgeNext(lines: seq<Bytes>, line: Bytes, topic: Bytes, sn: string)
    requires FirstVerdict(lines, topic, sn) == Ignored
    ensures FirstVerdict(lines + [line], topic, sn) == Judge(line, topic, sn)
  {
    FirstVerdictConcat(lines, [line], topic, sn);
    assert FirstVerdict([line], topic, sn) == Judge(line, topic, sn);
    hide Judge;
  }

  // ---------- what an exchange comes to ----------

  /** Whether an exchange gets a connection, what it writes, its report if any, and what is left to decide outside. */
  datatype Fate = Fate(connects: bool, sent: Bytes, reply: Option<Frame>, left: Outside)

  /** Reading until `deadline`: the first decisive line to come decides, and nothing after it is read. */
  function Awaited(d: Endpoint, sent: Bytes, buffer: Bytes, w: Outside, deadline: real, sn: string): (f: Fate)
    ensures f.connects && f.sent == sent && w.now <= f.left.now
  {
    var lines, topic := Coming(buffer, w, deadline), ReportTopic(d.id);
    Fate(true, sent, Answer(FirstVerdict(lines, topic, sn)),
         LeftAfter(buffer, w, deadline, Decisive(lines, topic, sn) + 1).ahead)
  }

  /** Writing two packets, the second only if the first went out, and then reading. */
  function Conversed(d: Endpoint, first: Bytes, second: Bytes, w: Outside, deadline: real, sn: string): (f: Fate)
    ensures w.now <= f.left.now
  {
    var n, m := Taken(Next(w), |first|), Taken(Next(Later(w)), |second|);
    if n < |first| then Fate(true, first[..n], None, Later(w))
    else if m < |second| then Fate(true, first + second[..m], None, Later(Later(w)))
    else Awaited(d, first + second, [], Later(Later(w)), deadline, sn)
  }

  /** What an exchange comes to; the deadline is `timeout` after its start. */
  function Expected(d: Endpoint, frame: Frame, sn: string, w: Outside): (f: Fate)
    ensures w.now <= f.left.now
  {
    var start := Tick(w);
    if !Next(start).Good? then Fate(false, [], None, Later(start))
    else Conversed(d, Packet(SubscribeFields(d.id, d.key)), Packet(PublishFields(d.id, d.key, frame)),
                   Later(start), start.now + d.timeout, sn)
  }

  /** The connection is made and both packets go out. */
  predicate Publishes(d: Endpoint, frame: Frame, w: Outside) {
    var subscribe, publish := Packet(SubscribeFields(d.id, d.key)), Packet(PublishFields(d.id, d.key, frame));
    var connecting := Tick(w);
    && Next(connecting).Good?
    && Taken(Next(Later(connecting)), |subscribe|) == |subscribe|
    && Taken(Next(Later(Later(connecting))), |publish|) == |publish|
  }

  lemma PublishesAll(d: Endpoint, frame: Frame, sn: string, w: Outside)
    ensures var f := Expected(d, frame, sn, w); Publishes(d, frame, w) <==> f.connects && f.sent == Script(d, frame)
    ensures Expected(d, frame, sn, w).sent <= Script(d, frame)
  {
    Scripted(d, frame);
    hide Packet, Awaited, Script, Coming, LeftAfter;
  }

  /** The connection is made, and takes the subscription and then the frame, each with its line end. */
  predicate TakesBoth(d: Endpoint, frame: Frame, w: Outside) {
    Welcomes(w) && Lets(Later(w), |Subscription(d)| + 2) && Lets(Later(Later(w)), |Publication(d, frame)| + 2)
  }

  /** What an exchange comes to, exactly: it connects if it is let, and a report is its result exactly if both lines
      get out and, of the lines that come within the timeout, counted from the start, this report settles it. */
  lemma ExpectedExactly(d: Endpoint, frame: Frame, sn: string, w: Outside)
    ensures var f, start := Expected(d, frame, sn, w), Tick(w);
      var lines := Coming([], Later(Later(Later(start))), start.now + d.timeout);
      && (f.connects <==> Welcomes(start)) && (Publishes(d, frame, w) <==> TakesBoth(d, frame, start))
      && forall g: Frame :: f.reply == Some(g) <==>
           TakesBoth(d, frame, start) && exists i: nat | i < |lines| :: SettledBy(lines, DEVICE_TOPIC + d.id, sn, g, i)
  {
    var f, start := Expected(d, frame, sn, w), Tick(w);
    var lines := Coming([], Later(Later(Later(start))), start.now + d.timeout);
    RepliesIf(d, frame, sn, w);
    hide Expected, Coming, TakesBoth, Publishes, SettledBy, FirstVerdict, Tick, Later, Welcomes;
    forall g: Frame
      ensures f.reply == Some(g) <==>
        TakesBoth(d, frame, start) && exists i: nat | i < |lines| :: SettledBy(lines, DEVICE_TOPIC + d.id, sn, g, i)
    {
      ReportComesFirst(lines, DEVICE_TOPIC + d.id, sn, g);
    }
  }

  /** `device_`, under which a device reports. */
  const DEVICE_TOPIC: Bytes := [100, 101, 118, 105, 99, 101, 95]

  lemma RepliesIf(d: Endpoint, frame: Frame, sn: string, w: Outside)
    ensures var f, start := Expected(d, frame, sn, w), Tick(w);
      var lines := Coming([], Later(Later(Later(start))), start.now + d.timeout);
      && (f.connects <==> Welcomes(start)) && (Publishes(d, frame, w) <==> TakesBoth(d, frame, start))
      && f.reply == if TakesBoth(d, frame, start) then Answer(FirstVerdict(lines, DEVICE_TOPIC + d.id, sn)) else None
  {
    hide Coming, FirstVerdict, LeftAfter, Packet, Tick, Subscription, Publication, Awaited, Later;
    PacketSizes(d, frame);
    var start := Tick(w);
    AwaitedIs(d, Later(Later(Later(start))), start.now + d.timeout, sn);
    assert ReportTopic(d.id) == DEVICE_TOPIC + d.id;
  }

  lemma PacketSizes(d: Endpoint, frame: Frame)
    ensures |Packet(SubscribeFields(d.id, d.key))| == |Subscription(d)| + 2
    ensures |Packet(PublishFields(d.id, d.key, frame))| == |Publication(d, frame)| + 2
  {
    hide ComposeFields;
  }

  lemma AwaitedIs(d: Endpoint, w: Outside, deadline: real, sn: string)
    ensures forall sent: Bytes ::
      Awaited(d, sent, [], w, deadline, sn).reply ==
        Answer(FirstVerdict(Coming([], w, deadline), ReportTopic(d.id), sn))
  {
    hide Coming, FirstVerdict, LeftAfter;
  }

  lemma AwaitedNext(a: Scene, deadline: real, line: Bytes, b: Scene, d: Endpoint, sent: Bytes, sn: string)
    requires Pulled(a, deadline, Yielded(line), b)
    ensures var v := Judge(line, ReportTopic(d.id), sn);
      Awaited(d, sent, a.buffer, a.ahead, deadline, sn) ==
        if v != Ignored then Fate(true, sent, Answer(v), b.ahead) else Awaited(d, sent, b.buffer, b.ahead, deadline, sn)
  {
    hide Coming, Ending, Judge, LeftAfter;
    var topic, there := ReportTopic(d.id), Coming(b.buffer, b.ahead, deadline);
    DecisiveNext(line, there, topic, sn);
    assert Leaves(a, deadline, Yielded(line), b, Decisive([line] + there, topic, sn) + 1);
    LeftAtOnce(b, deadline);
  }

  lemma DecisiveNext(line: Bytes, lines: seq<Bytes>, topic: Bytes, sn: string)
    ensures var v := Judge(line, topic, sn);
      && Decisive([line] + lines, topic, sn) == (if v != Ignored then 0 else Decisive(lines, topic, sn) + 1)
      && FirstVerdict([line] + lines, topic, sn) == if v != Ignored then v else FirstVerdict(lines, topic, sn)
  {
    assert ([line] + lines)[1..] == lines;
    hide Judge;
  }

  lemma AwaitedLast(a: Scene, deadline: real, status: Status, b: Scene, d: Endpoint, sent: Bytes, sn: string)
    requires Pulled(a, deadline, status, b) && !status.Going? && !status.Yielded?
    ensures Awaited(d, sent, a.buffer, a.ahead, deadline, sn) == Fate(true, sent, None, b.ahead)
  {
    hide Coming, Ending, Judge, LeftAfter;
    assert Leaves(a, deadline, status, b, 1);
  }

  /** A visit to the relay: the connection it used, if it got one, and the report it came back with. */
  datatype Visit = Visit(used: Option<Conn>, reply: Option<Frame>)

  /** A visit as the outside world decides it: a connection exactly if one is to be had, closed already; on it
      exactly as much of the script as gets out; the report that comes first; and so much is left to decide. */
  ghost predicate Visited(d: Endpoint, frame: Frame, sn: string, w: Outside, before: seq<Conn>,
                          v: Visit, after: seq<Conn>, w': Outside)
  {
    var f := Expected(d, frame, sn, w);
    && after == before + (if v.used.Some? then [v.used.value] else [])
    && (v.used.Some? <==> f.connects) && v.reply == f.reply && w' == f.left
    && (v.used.Some? ==>
          var c := v.used.value;
          c.host == d.host && !c.open && c.sent == f.sent && Exchanged(c, d, frame, sn, v.reply))
  }

  lemma NotVisited(d: Endpoint, frame: Frame, sn: string, w: Outside, before: seq<Conn>)
    requires !Next(Tick(w)).Good?
    ensures Visited(d, frame, sn, w, before, Visit(None, None), before, Later(Tick(w)))
  {
    hide Packet, Conversed;
  }

  lemma VisitedOver(d: Endpoint, frame: Frame, sn: string, w: Outside, before: seq<Conn>, c: Conn, r: Option<Frame>,
                    w': Outside)
    requires Next(Tick(w)).Good? && c.host == d.host && Exchanged(c, d, frame, sn, r)
    requires Fate(true, c.sent, r, w') ==
      Conversed(d, Packet(SubscribeFields(d.id, d.key)), Packet(PublishFields(d.id, d.key, frame)),
                Later(Tick(w)), Tick(w).now + d.timeout, sn)
    ensures var closed := c.(open := false);
      Visited(d, frame, sn, w, before, Visit(Some(closed), r), before + [closed], w')
  {
    hide Packet, Conversed, Exchanged;
    ClosedIsExchanged(c, d, frame, sn, r);
  }

  /** A visit on behalf of `call`, with sequence number `n`. */
  ghost predicate Served(d: Endpoint, call: Call, n: int, w: Outside, before: seq<Conn>,
                         v: Visit, after: seq<Conn>, w': Outside)
  {
    ValidCall(call) && Visited(d, FrameOf(call, IntText(n)), IntText(n), w, before, v, after, w')
  }

  /** What a caller gets; `None` stands for a `TransportError`. */
  function ResultOf(call: Call, reply: Option<Frame>): Option<Reply> {
    if reply.Some? then Understand(call, reply.value) else None
  }

  // ---------- what the relay hears ----------

  function Deliver(host: Address, lines: seq<Bytes>): seq<Delivery> {
    seq(|lines|, i requires 0 <= i < |lines| => Delivery(host, lines[i]))
  }

  lemma {:induction false} CountDelivered(host: Address, lines: seq<Bytes>, d: Delivery)
    ensures Count(Deliver(host, lines), d) == if host == d.host then Count(lines, d.line) else 0
  {
    if lines != [] {
      CountDelivered(host, lines[1..], d);
      assert Deliver(host, lines)[1..] == Deliver(host, lines[1..]);
    }
  }

  lemma {:induction false} HeardAppended(conns: seq<Conn>, c: Conn, d: Delivery)
    ensures Heard(conns + [c], d) == Heard(conns, d) + HeardOn(c, d)
  {
    var after := conns + [c];
    if conns == [] {
      assert after[1..] == [];
    } else {
      HeardAppended(conns[1..], c, d);
      assert after[0] == conns[0] && after[1..] == conns[1..] + [c];
    }
  }

  /** A further connection adds exactly the lines completed on it. */
  lemma AddsConnection(conns: seq<Conn>, c: Conn)
    ensures Adds(conns, conns + [c], Deliver(c.host, Lines(c.sent)))
  {
    forall d: Delivery
      ensures Heard(conns + [c], d) == Heard(conns, d) + Count(Deliver(c.host, Lines(c.sent)), d)
    {
      HeardAppended(conns, c, d);
      CountDelivered(c.host, Lines(c.sent), d);
    }
  }

  /** The relay hears the subscription before the frame, and each at most once. */
  lemma ScriptHeard(c: Conn, d: Endpoint, frame: Frame)
    requires Plain(d.id) && Plain(d.key) && WellFormed(Object(frame)) && c.sent <= Script(d, frame)
    ensures Deliver(c.host, Lines(c.sent)) <=
      [Delivery(c.host, Subscription(d)), Delivery(c.host, Publication(d, frame))]
    ensures c.sent == Script(d, frame) <==> |Lines(c.sent)| == 2
  {
    var lines := [Subscription(d), Publication(d, frame)];
    Reassemble(c.sent);
    ScriptIsBare(d, frame);
    SplitJoin(lines, []);
    assert Join(lines) + [] == Join(lines);
    assert lines + Lines([]) == lines;
    LinesOfPrefix(c.sent, Join(lines));
    hide Join, Lines, Subscription, Publication;
  }

  /** The lines completed during a visit. */
  function SaidBy(v: Visit): seq<Delivery> {
    if v.used.Some? then Deliver(v.used.value.host, Lines(v.used.value.sent)) else []
  }

  /** A call is heard by the relay as at most one subscription and then at most one frame, and by nobody
      else; it never has a result without both. */
  lemma VisitHeard(d: Endpoint, call: Call, n: int, w: Outside, before: seq<Conn>,
                    v: Visit, after: seq<Conn>, w': Outside)
    requires Plain(d.id) && Plain(d.key) && Served(d, call, n, w, before, v, after, w')
    ensures Adds(before, after, SaidBy(v))
    ensures SaidBy(v) <=
      [Delivery(d.host, Subscription(d)), Delivery(d.host, Publication(d, FrameOf(call, IntText(n))))]
    ensures v.reply.Some? ==> |SaidBy(v)| == 2
  {
    var frame := FrameOf(call, IntText(n));
    FrameOfWellFormed(call, IntText(n));
    hide FrameOf, Subscription, Publication, Adds, Lines, Script, Expected;
    ExpectsOnlyIfConnected(d, frame, IntText(n), w);
    if v.used.Some? {
      AddsConnection(before, v.used.value);
      ScriptHeard(v.used.value, d, frame);
      if v.reply.Some? { ReportNeedsInput(v.used.value, d, frame, IntText(n), v.reply); }
    } else {
      assert after == before;
      AddsNothing(before, after);
    }
  }

  lemma ExpectsOnlyIfConnected(d: Endpoint, frame: Frame, sn: string, w: Outside)
    ensures Expected(d, frame, sn, w).reply.Some? ==> Expected(d, frame, sn, w).connects
  {
    hide Packet, Awaited;
  }

  /** The relay hears the frame of a call exactly once if the connection is made and both packets go out, and
      otherwise never. */
  lemma PublishedExactly(d: Endpoint, call: Call, n: int, w: Outside, before: seq<Conn>,
                         v: Visit, after: seq<Conn>, w': Outside)
    requires Plain(d.id) && Plain(d.key) && Served(d, call, n, w, before, v, after, w')
    ensures var frame := FrameOf(call, IntText(n));
      && |SaidBy(v)| == (if v.used.None? then 0 else |Lines(v.used.value.sent)|)
      && (|SaidBy(v)| == 2 <==> Publishes(d, frame, w))
      && Heard(after, Delivery(d.host, Publication(d, frame))) ==
           Heard(before, Delivery(d.host, Publication(d, frame))) + if Publishes(d, frame, w) then 1 else 0
  {
    var frame := FrameOf(call, IntText(n));
    FrameOfWellFormed(call, IntText(n));
    VisitHeard(d, call, n, w, before, v, after, w');
    PublishesAll(d, frame, IntText(n), w);
    hide FrameOf, Subscription, Publication, Lines, Script, Expected, Publishes;
    if v.used.Some? { ScriptHeard(v.used.value, d, frame); }
    CountPublications(d, frame, SaidBy(v));
    assert Adds(before, after, SaidBy(v));
  }

  lemma CountPublications(d: Endpoint, frame: Frame, said: seq<Delivery>)
    requires said <= [Delivery(d.host, Subscription(d)), Delivery(d.host, Publication(d, frame))]
    ensures Count(said, Delivery(d.host, Publication(d, frame))) == if |said| == 2 then 1 else 0
  {
    RelayLinesStart(d, frame);
    hide Subscription, Publication;
    var sub, pub := Delivery(d.host, Subscription(d)), Delivery(d.host, Publication(d, frame));
    if |said| == 2 {
      assert said == [sub] + [pub];
      CountConcat([sub], [pub], pub);
      CountOne(pub, pub);
    }
    CountOne(sub, pub);
    assert |said| == 1 ==> said == [sub];
  }

  lemma ComposedStarts(fields: RelayCodec.Fields, i: nat)
    requires fields != [] && i < |RelayCodec.Pair(fields[0])|
    ensures i < |ComposeFields(fields)| && ComposeFields(fields)[i] == RelayCodec.Pair(fields[0])[i]
  {
  }

  /** Both relay lines start with their command, and that tells them apart. */
  lemma RelayLinesStart(d: Endpoint, frame: Frame)
    ensures |Subscription(d)| > 4 && Subscription(d)[0] == 99 && Subscription(d)[4] == 115
    ensures |Publication(d, frame)| > 4 && Publication(d, frame)[0] == 99 && Publication(d, frame)[4] == 112
  {
    var sub, pub := SubscribeFields(d.id, d.key), PublishFields(d.id, d.key, frame);
    assert RelayCodec.Pair(sub[0]) == CMD + [RelayCodec.EQUALS] + Word("subscribe");
    assert RelayCodec.Pair(pub[0]) == CMD + [RelayCodec.EQUALS] + Word("publish");
    ComposedStarts(sub, 0);
    ComposedStarts(sub, 4);
    ComposedStarts(pub, 0);
    ComposedStarts(pub, 4);
  }

  lemma ReportNeedsInput(c: Conn, d: Endpoint, frame: Frame, sn: string, r: Option<Frame>)
    requires Exchanged(c, d, frame, sn, r) && r.Some?
    ensures c.sent == Script(d, frame)
  {
    hide Script;
  }

  lemma ReportsGiveReadings(d: Endpoint, attrs: seq<int>, n: int, w: Outside, before: seq<Conn>,
                    v: Visit, after: seq<Conn>, w': Outside)
    requires Served(d, Call.Query(attrs), n, w, before, v, after, w')
    ensures var r := ResultOf(Call.Query(attrs), v.reply); r.Some? ==> r.value.Readings? && Distinct(r.value.data)
  {
    hide Script, Understand, Decode, FieldsOf, Reports, Get, Unquote;
    if v.reply.Some? {
      var lines, topic := NonBlank(Lines(v.used.value.got)), ReportTopic(d.id);
      ReportComesFirst(lines, topic, IntText(n), v.reply.value);
      var i: nat :| i < |lines| && SettledBy(lines, topic, IntText(n), v.reply.value, i);
      ReportsMean(lines[i], topic, IntText(n), v.reply.value);
      ReadingsDistinct(attrs, Unquote(Get(FieldsOf(lines[i]), MESSAGE).value));
    }
  }

  /** A visit touches no other connection and leaves none of its own open. */
  lemma LeavesNothingOpen(d: Endpoint, call: Call, n: int, w: Outside, before: seq<Conn>,
                    v: Visit, after: seq<Conn>, w': Outside)
    requires Served(d, call, n, w, before, v, after, w')
    ensures before <= after && forall i | |before| <= i < |after| :: !after[i].open
  {
    hide Exchanged;
  }

  /** What the relay reads off a connection: first a subscription to our report topic, then our frame;
      either whole or not at all, and the frame never without the subscription. */
  lemma SubscribesFirst(c: Conn, d: Endpoint, frame: Frame)
    requires Plain(d.id) && Plain(d.key) && WellFormed(Object(frame)) && c.sent <= Script(d, frame)
    ensures |Lines(c.sent)| <= 2
    ensures |Lines(c.sent)| >= 1 ==> FieldsOf(Lines(c.sent)[0]) == SubscribeFields(d.id, d.key)
    ensures |Lines(c.sent)| == 2 ==>
      && FieldsOf(Lines(c.sent)[1]) == PublishFields(d.id, d.key, frame)
      && MessageOf(FieldsOf(Lines(c.sent)[1])) == Some(frame)
  {
    ScriptHeard(c, d, frame);
    var lines := Lines(c.sent);
    var heard := Deliver(c.host, lines);
    if |lines| >= 1 {
      assert heard[0].line == Subscription(d) == lines[0];
      SubscribeIsComposable(d.id, d.key);
      RelayCodec.FieldsRoundTrip(SubscribeFields(d.id, d.key));
    }
    if |lines| == 2 {
      assert heard[1].line == Publication(d, frame) == lines[1];
      PublishCarries(d.id, d.key, frame);
      UnwrapCarried(PublishFields(d.id, d.key, frame), frame);
    }
    hide Lines, Script, FieldsOf, MessageOf, PublishFields, Carries;
  }

  // ---------- whose answer a report is ----------

  /** A line the relay sends: the device's answer to the publication with this number, or something else. */
  datatype Forwarded = Forwarded(text: Bytes, answers: Option<int>)

  function Texts(us: seq<Forwarded>): seq<Bytes> {
    seq(|us|, i requires 0 <= i < |us| => us[i].text)
  }

  /** Answers carry the number of what they answer; anything else that carries a number carries a foreign one. */
  ghost predicate Forwards(u: Forwarded, foreign: iset<string>) {
    && !Terminated(u.text)
    && var frame := MessageOf(FieldsOf(u.text));
       frame.Some? && Get(frame.value, "sn").Some? && Get(frame.value, "sn").value.Text? ==>
         var sn := Get(frame.value, "sn").value.s;
         if u.answers.Some? then sn == IntText(u.answers.value) else sn in foreign
  }

  lemma {:induction false} TextsAreBare(us: seq<Forwarded>, foreign: iset<string>)
    requires forall u <- us :: Forwards(u, foreign)
    ensures AllBare(Texts(us))
  {
    hide MessageOf, FieldsOf, Terminated;
    if us != [] {
      assert us[0] in us;
      TextsAreBare(us[1..], foreign);
      assert Texts(us)[1..] == Texts(us[1..]);
    }
  }

  /** Reply correlation over the relay: what a visit returns was sent in answer to that visit's own publication, and
      everything that reads the same is an answer to it; whatever else the relay forwards before or after. */
  lemma ReportAnswers(d: Endpoint, call: Call, n: int, w: Outside, before: seq<Conn>, v: Visit, after: seq<Conn>,
                      w': Outside, us: seq<Forwarded>, foreign: iset<string>)
    requires Served(d, call, n, w, before, v, after, w') && v.reply.Some? && IntText(n) !in foreign
    requires forall u <- us :: Forwards(u, foreign)
    requires v.used.Some? && v.used.value.got <= Join(Texts(us))
    ensures exists u <- us ::
      && u.answers == Some(n) && MessageOf(FieldsOf(u.text)) == v.reply
      && forall t <- us | t.text == u.text :: t.answers == Some(n)
  {
    hide Expected, FieldsOf, MessageOf, Join, FrameOf, Script, IntText, Reports, Get;
    var got, topic := v.used.value.got, ReportTopic(d.id);
    ReportComesFirst(NonBlank(Lines(got)), topic, IntText(n), v.reply.value);
    var i: nat :| i < |NonBlank(Lines(got))| && SettledBy(NonBlank(Lines(got)), topic, IntText(n), v.reply.value, i);
    var line := NonBlank(Lines(got))[i];
    ReportsMean(line, topic, IntText(n), v.reply.value);
    TextsAreBare(us, foreign);
    LineSent(got, Texts(us), line);
    var k :| 0 <= k < |us| && us[k].text == line;
    forall t <- us | t.text == line ensures t.answers == Some(n) {
      assert Forwards(t, foreign);
      if t.answers.Some? { IntTextInjective(n, t.answers.value); }
    }
    assert us[k] in us;
  }

  lemma LineSent(got: Bytes, texts: seq<Bytes>, line: Bytes)
    requires AllBare(texts) && got <= Join(texts) && line in NonBlank(Lines(got))
    ensures line in texts
  {
    NonBlankMember(Lines(got), line);
    SplitJoin(texts, []);
    assert Join(texts) + [] == Join(texts);
    LinesOfPrefix(got, Join(texts));
    assert Lines(got) <= texts;
    hide Join, Lines;
  }

  lemma ScriptIsBare(d: Endpoint, frame: Frame)
    requires Plain(d.id) && Plain(d.key) && WellFormed(Object(frame))
    ensures AllBare([Subscription(d), Publication(d, frame)])
  {
    SubscribeIsComposable(d.id, d.key);
    ComposedIsOneLine(SubscribeFields(d.id, d.key));
    PublishCarries(d.id, d.key, frame);
    ComposedIsOneLine(PublishFields(d.id, d.key, frame));
    TwoBare(Subscription(d), Publication(d, frame));
  }

  lemma TwoBare(a: Bytes, b: Bytes)
    requires !Terminated(a) && !Terminated(b)
    ensures AllBare([a, b])
  {
    assert [a, b][1..] == [b] && [b][1..] == [];
  }

  /** `CloudRelayTransport`, for one device on its relay. */
  class CloudTransport {
    const rt: Runtime
    const device: Endpoint

    constructor (rt: Runtime, device: Endpoint)
      ensures this.rt == rt && this.device == device
    {
      this.rt, this.device := rt, device;
    }

    /** `send_line` twice, the second only if the first succeeded. */
    method SendTwo(conn: LineSocket, first: Bytes, second: Bytes, ghost before: seq<Conn>, ghost f: Fate,
                   ghost deadline: real, ghost sn: string)
        returns (ok: bool, ghost c: Conn)
      requires conn.rt == rt && conn.id == |before| && conn.Valid() && first != [] && second != []
      requires rt.conns == before + [Conn(device.host, [], [], true)]
      requires f == Conversed(device, first, second, rt.Ahead(), deadline, sn)
      modifies rt`choices, rt`conns
      ensures conn.Valid()
      ensures rt.conns == before + [c] && c.host == device.host && c.got == [] && c.sent == f.sent
      ensures ok ==> c.sent == first + second && f == Awaited(device, c.sent, [], rt.Ahead(), deadline, sn)
      ensures !ok ==> f == Fate(true, c.sent, None, rt.Ahead()) && c.sent <= first + second
    {
      hide Awaited;
      ghost var n;
      c := Conn(device.host, [], [], true);
      ok, n := conn.SendLine(first);
      AtLast(before, c, first[..n]);
      c := c.(sent := c.sent + first[..n]);
      if ok {
        assert c.sent == first;
        ok, n := conn.SendLine(second);
        AtLast(before, c, second[..n]);
        c := c.(sent := c.sent + second[..n]);
      }
    }

    /** `_exchange` on the connection just opened. */
    method Converse(conn: LineSocket, frame: Frame, sn: string, deadline: real, ghost before: seq<Conn>)
        returns (r: Option<Frame>)
      requires conn.rt == rt && conn.id == |before| && conn.Valid() && conn.popped == [] && conn.buffer == []
      requires rt.conns == before + [Conn(device.host, [], [], true)]
      modifies conn`buffer, conn`popped, rt`choices, rt`conns, rt`now, rt`ticks
      ensures conn.Valid()
      ensures |rt.conns| == |before| + 1 && rt.conns == before + [rt.conns[|before|]]
      ensures var c := rt.conns[|before|];
        && c.host == device.host && Exchanged(c, device, frame, sn, r)
        && Fate(true, c.sent, r, rt.Ahead()) ==
             Conversed(device, Packet(SubscribeFields(device.id, device.key)),
                       Packet(PublishFields(device.id, device.key, frame)), old(rt.Ahead()), deadline, sn)
    {
      hide Packet, Awaited, Conversed;
      var subscribe := Packet(SubscribeFields(device.id, device.key));
      var publish := Packet(PublishFields(device.id, device.key, frame));
      Scripted(device, frame);
      var ok;
      ghost var c;
      ghost var f := Conversed(device, subscribe, publish, rt.Ahead(), deadline, sn);
      ok, c := SendTwo(conn, subscribe, publish, before, f, deadline, sn);
      if ok {
        r := AwaitReport(conn, frame, sn, deadline, before, c);
      } else {
        r := None;
        Unanswered(c, device, frame, sn);
      }
    }

    method AwaitReport(conn: LineSocket, frame: Frame, sn: string, deadline: real,
                       ghost before: seq<Conn>, ghost c: Conn)
        returns (r: Option<Frame>)
      requires conn.rt == rt && conn.id == |before| && conn.Valid()
      requires rt.conns == before + [c] && conn.popped == []
      requires c.host == device.host && c.sent == Script(device, frame)
      modifies conn`buffer, conn`popped, rt`choices, rt`conns, rt`now, rt`ticks
      ensures conn.Valid()
      ensures |rt.conns| == |before| + 1 && rt.conns == before + [rt.conns[|before|]]
      ensures rt.conns[|before|].host == device.host && Exchanged(rt.conns[|before|], device, frame, sn, r)
      ensures rt.conns[|before|].sent == c.sent
      ensures Fate(true, c.sent, r, rt.Ahead()) ==
        Awaited(device, c.sent, old(conn.buffer), old(rt.Ahead()), deadline, sn)
    {
      hide Awaited, FirstVerdict, Coming, Ending, Read, Join, AllBare, Script, Pulled;
      ghost var topic, sent, c := ReportTopic(device.id), c.sent, c;
      ghost var f := Awaited(device, sent, conn.buffer, rt.Ahead(), deadline, sn);
      NothingJudged(topic, sn);
      while true
        invariant conn.Valid() && rt.conns == before + [c]
        invariant c.host == device.host && c.sent == sent
        invariant FirstVerdict(NonBlank(conn.popped), topic, sn) == Ignored
        invariant Awaited(device, sent, conn.buffer, rt.Ahead(), deadline, sn) == f
        decreases |rt.choices|, |conn.buffer|
      {
        ghost var popped, a := conn.popped, Scene(conn.buffer, rt.Ahead());
        var status, cs := conn.NextLine(deadline);
        ghost var b := Scene(conn.buffer, rt.Ahead());
        c := rt.conns[|before|];
        JudgedSoFar(conn.popped, conn.buffer, topic, sn);
        if !status.Yielded? {
          AwaitedLast(a, deadline, status, b, device, sent, sn);
          assert NonBlank(conn.popped) == NonBlank(popped);
          return None;
        }
        AwaitedNext(a, deadline, status.line, b, device, sent, sn);
        JudgeNext(NonBlank(popped), status.line, topic, sn);
        var fields := ParseLine(status.line);
        if UndeliveredAck(fields) {
          return None;
        }
        var reply := ExtractReport(fields, ReportTopic(device.id));
        if reply.Some? && Get(reply.value, "sn") == Some(Text(sn)) {
          return reply;
        }
      }
    }

    /** `_exchange`: at most one connection, closed on every exit. */
    method Exchange(frame: Frame, sn: string) returns (r: Option<Frame>, ghost v: Visit)
      modifies rt`choices, rt`conns, rt`now, rt`ticks
      ensures v.reply == r
      ensures Visited(device, frame, sn, old(rt.Ahead()), old(rt.conns), v, rt.conns, rt.Ahead())
    {
      hide LineSocket.Valid, Packet, Conversed, Exchanged, Visited, Join, AllBare, Sent, Received, Closed,
           SubscribeFields, PublishFields;
      var now := rt.Monotonic();
      var id := rt.Connect(device.host);
      ghost var w, before := old(rt.Ahead()), old(rt.conns);
      if id.None? {
        NotVisited(device, frame, sn, w, before);
        return None, Visit(None, None);
      }
      var conn := new LineSocket(rt, id.value);
      r := Converse(conn, frame, sn, now + device.timeout, before);
      ghost var c := rt.conns[|before|];
      AtLast(before, c, []);
      conn.Close();
      v := Visit(Some(c.(open := false)), r);
      VisitedOver(device, frame, sn, w, before, c, r, rt.Ahead());
    }

    /** `query` */
    method Query(attrs: seq<int>) returns (r: Option<Dict<string, Json>>, ghost v: Visit)
      modifies rt`choices, rt`conns, rt`now, rt`ticks, rt`wall, rt`lastSn
      ensures rt.lastSn == NextSn(old(rt.lastSn), Clock(old(rt.Ahead())))
      ensures Served(device, Call.Query(attrs), rt.lastSn, Dated(old(rt.Ahead())), old(rt.conns),
                     v, rt.conns, rt.Ahead())
      ensures ResultOf(Call.Query(attrs), v.reply) == if r.Some? then Some(Readings(r.value)) else None
      ensures forall data: Dict<string, Json> :: r == Some(data) <==> v.reply.Some? && HoldsData(v.reply.value, data)
    {
      hide Visited, QueryFrame, HoldsData, Get;
      var sn := rt.NewSn();
      var reply;
      reply, v := Exchange(QueryFrame(attrs, sn), sn);
      r := if reply.Some? then DataOf(reply.value) else None;
      if reply.Some? { ReadingsSay(attrs, reply.value); }
    }

    /** `control` */
    method Control(payload: Payload) returns (r: Option<bool>, ghost v: Visit)
      requires ValidPayload(payload)
      modifies rt`choices, rt`conns, rt`now, rt`ticks, rt`wall, rt`lastSn
      ensures rt.lastSn == NextSn(old(rt.lastSn), Clock(old(rt.Ahead())))
      ensures Served(device, Call.Control(payload), rt.lastSn, Dated(old(rt.Ahead())), old(rt.conns),
                     v, rt.conns, rt.Ahead())
      ensures ResultOf(Call.Control(payload), v.reply) == if r.Some? then Some(Acknowledged(r.value)) else None
      ensures r == var f := v.reply;
        if f.None? then None
        else Some(Get(f.value, "res") == Some(Number(0)) || Get(f.value, "res") == Some(Bool(false)))
    {
      hide Visited, SetFrame, Get;
      var sn := rt.NewSn();
      var reply;
      reply, v := Exchange(SetFrame(payload, sn), sn);
      r := if reply.Some? then Some(Accepted(reply.value)) else None;
      if reply.Some? { VerdictSays(payload, reply.value); }
    }
  }
}
