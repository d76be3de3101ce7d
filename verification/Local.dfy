/** The local transport: one held connection, replaced only while the frame is known not to be out (api/local.py). */
module Local {
  import opened Prelude
  import opened Framing
  import opened JsonText
  import opened Decimal
  import opened Protocol
  import opened Environment
  import opened Deliveries
  import opened Wire
  import opened LocalSteps

  // ---------- the reading loop is the waiting steps ----------

  lemma {:induction false} RunConcat(host: Address, job: Job, s: Config, a: seq<Choice>, b: seq<Choice>)
    requires Sane(s.world)
    ensures Run(host, job, s, a + b) == Run(host, job, Run(host, job, s, a), b)
  {
    if b == [] {
      assert a + b == a;
    } else {
      var n := |b| - 1;
      assert a + b == (a + b[..n]) + [b[n]];
      RunConcat(host, job, s, a, b[..n]);
      RunStep(host, job, s, a + b[..n], b[n]);
    }
  }

  /** Reading on from what was already taken in. */
  lemma PullOn(w: World, r: Reader, c: Choice)
    requires Sane(w) && w.held.Some? && r.status.Going?
    ensures var r' := Pull(Reader(r.buffer, [], [], Going), c);
      Intake(Intake(w, r), r') == Intake(w, Pull(r, c)) && r'.status == Pull(r, c).status
  {
    var r' := Pull(Reader(r.buffer, [], [], Going), c);
    var h := w.held.value;
    ReceivedMore(w.conns, h.id, r.arrived, r'.arrived);
    assert Pull(r, c).arrived == r.arrived + r'.arrived;
    assert h.popped + r.popped + r'.popped == h.popped + Pull(r, c).popped;
  }

  lemma {:induction false} WaitingReads(host: Address, job: Job, w: World, choices: seq<Choice>)
    requires Sane(w) && w.held.Some? && job.Exchange?
    requires Read(w.held.value.buffer, choices).status.Going?
    ensures Run(host, job, Config(w, Waiting), choices) ==
      Config(Intake(w, Read(w.held.value.buffer, choices)), Waiting)
  {
    var h := w.held.value;
    if choices == [] {
      ReceivedMore(w.conns, h.id, [], []);
      assert h.popped + [] == h.popped;
    } else {
      var n := |choices| - 1;
      WaitingReads(host, job, w, choices[..n]);
      PullOn(w, Read(h.buffer, choices[..n]), choices[n]);
    }
  }

  /** One resumption of the generator, in steps of the exchange. */
  lemma WaitingConcludes(host: Address, job: Job, w: World, choices: seq<Choice>)
    requires Sane(w) && w.held.Some? && job.Exchange? && choices != []
    requires Read(w.held.value.buffer, choices[..|choices| - 1]).status.Going?
    ensures var r := Read(w.held.value.buffer, choices);
      Run(host, job, Config(w, Waiting), choices) == Conclude(job, Intake(w, r), r.status)
  {
    var n := |choices| - 1;
    WaitingReads(host, job, w, choices[..n]);
    PullOn(w, Read(w.held.value.buffer, choices[..n]), choices[n]);
  }

  lemma RunNot(host: Address, job: Job, s: Config)
    requires Sane(s.world)
    ensures Run(host, job, s, []) == s
  {
  }

  // ---------- what an exchange comes to ----------

  /** Where the first line with this number is, or `|lines|`. */
  function Position(lines: seq<Bytes>, sn: string): (i: nat)
    ensures i <= |lines| && (i < |lines| ==> Matches(lines[i], sn))
    ensures forall j | 0 <= j < i :: !Matches(lines[j], sn)
  {
    if lines == [] || Matches(lines[0], sn) then 0
    else
      var i := Position(lines[1..], sn);
      assert forall j | 1 <= j < 1 + i :: lines[j] == lines[1..][j - 1];
      1 + i
  }

  /** How an exchange ends, the buffer of the connection then held if any, and what is left to decide outside. */
  datatype Fate = Fate(outcome: Outcome, held: Option<Bytes>, left: Outside)

  /** Reading until `deadline`: the first line to come with the number is the reply, buffered ones before those
      that still arrive; and nothing after it is read. */
  function AwaitedBy(buffer: Bytes, w: Outside, deadline: real, sn: string): (f: Fate)
    ensures w.now <= f.left.now
  {
    var lines := Coming(buffer, w, deadline);
    var i := Position(lines, sn);
    var rest := LeftAfter(buffer, w, deadline, i + 1);
    if i < |lines| then Fate(Replied(lines[i]), Some(rest.buffer), rest.ahead)
    else if Ending(w, deadline).Broken? then Fate(ReadFailed, Some(rest.buffer), rest.ahead)
    else Fate(NoAnswer, None, rest.ahead)
  }

  /** The deadline is `timeout` after the packet has gone out. */
  function Awaited(buffer: Bytes, w: Outside, timeout: real, sn: string): (f: Fate)
    ensures w.now <= f.left.now
  {
    AwaitedBy(buffer, Tick(w), Tick(w).now + timeout, sn)
  }

  predicate WritesAll(job: Job, w: Outside)
    requires job.Exchange?
  {
    Taken(Next(w), |Packet(job)|) == |Packet(job)|
  }

  /** Over a new connection. */
  function ExpectedAnew(job: Job, w: Outside, timeout: real): (f: Fate)
    requires job.Exchange?
    ensures w.now <= f.left.now
  {
    if !Next(w).Good? then Fate(Unreachable, None, Later(w))
    else if !WritesAll(job, Later(w)) then Fate(Unreachable, None, Later(Later(w)))
    else Awaited([], Later(Later(w)), timeout, job.sn)
  }

  /** What an exchange comes to, with a connection held and so much in its buffer or with none. */
  function Expected(job: Job, held: Option<Bytes>, w: Outside, timeout: real): (f: Fate)
    requires job.Exchange?
    ensures w.now <= f.left.now
  {
    if held.None? then ExpectedAnew(job, w, timeout)
    else
      var hungUp := held.value == [] && !Next(w).Good?;
      var asked := if held.value == [] then Later(w) else w;
      if hungUp then ExpectedAnew(job, asked, timeout)
      else if WritesAll(job, asked) then Awaited(held.value, Later(asked), timeout, job.sn)
      else ExpectedAnew(job, Later(asked), timeout)
  }

  // ---------- the same in the words of the protocol ----------

  /** Where reading for a reply to this line starts, if it starts at all: over the held connection, unless nothing is
      buffered and the peer has hung up, or else the write fails; then over a new one, if it is made and takes it. */
  function Started(line: Bytes, held: Option<Bytes>, w: Outside): Option<Scene> {
    var size := |line| + 2;
    if held.Some? && held.value != [] && Lets(w, size) then Some(Scene(held.value, Later(w)))
    else if held == Some([]) && Welcomes(w) && Lets(Later(w), size) then Some(Scene([], Later(Later(w))))
    else
      var u := if held.None? then w else if held == Some([]) && Welcomes(w) then Later(Later(w)) else Later(w);
      if Welcomes(u) && Lets(Later(u), size) then Some(Scene([], Later(Later(u)))) else None
  }

  /** The `i`-th line decodes to a frame that carries this number, and none before it does. */
  ghost predicate FirstReply(lines: seq<Bytes>, sn: string, i: nat)
    requires i < |lines|
  {
    && Decode(lines[i]).Some? && Get(Decode(lines[i]).value, "sn") == Some(Text(sn))
    && forall j | 0 <= j < i :: !(Decode(lines[j]).Some? && Get(Decode(lines[j]).value, "sn") == Some(Text(sn)))
  }

  lemma PositionIs(lines: seq<Bytes>, sn: string)
    ensures forall i: nat | i < |lines| :: FirstReply(lines, sn, i) <==> i == Position(lines, sn)
  {
    forall i: nat | i < |lines| ensures FirstReply(lines, sn, i) <==> i == Position(lines, sn) {
      var k := Position(lines, sn);
      assert k < |lines| ==> Matches(lines[k], sn);
      assert i < k ==> !Matches(lines[i], sn);
    }
    hide Decode, Get;
  }

  /** What reading from here to the deadline comes to: a line is the reply exactly if it is the first to come, buffered
      or in time, that carries the number; without one, the exchange fails by the read error if there is one, and with
      no answer if there is none. The connection is kept after a reply or a read error and dropped otherwise. */
  ghost predicate ReadsTo(f: Fate, buffer: Bytes, w: Outside, timeout: real, sn: string) {
    var reading := Tick(w);
    var deadline := reading.now + timeout;
    var lines := Coming(buffer, reading, deadline);
    && (forall line :: f.outcome == Replied(line) <==>
          exists i: nat | i < |lines| :: lines[i] == line && FirstReply(lines, sn, i))
    && (f.outcome == ReadFailed <==>
          Ending(reading, deadline).Broken? && forall i: nat | i < |lines| :: !FirstReply(lines, sn, i))
    && (f.outcome == NoAnswer <==>
          !Ending(reading, deadline).Broken? && forall i: nat | i < |lines| :: !FirstReply(lines, sn, i))
    && (f.held.Some? <==> f.outcome.Replied? || f.outcome.ReadFailed?)
  }

  /** What an exchange comes to, exactly: it is unreachable if its packet does not go out whole, and ends as reading
      does otherwise. */
  lemma ExpectedExactly(job: Job, held: Option<Bytes>, w: Outside, timeout: real)
    requires job.Exchange?
    ensures var f, start := Expected(job, held, w, timeout), Started(job.line, held, w);
      if start.None? then f.outcome == Unreachable && f.held.None?
      else ReadsTo(f, start.value.buffer, start.value.ahead, timeout, job.sn)
  {
    hide Expected, Started, Awaited, ReadsTo;
    StartedIs(job, held, w, timeout);
    var start := Started(job.line, held, w);
    if start.Some? { AwaitedExactly(start.value.buffer, start.value.ahead, timeout, job.sn); }
  }

  lemma AwaitedExactly(buffer: Bytes, w: Outside, timeout: real, sn: string)
    ensures ReadsTo(Awaited(buffer, w, timeout, sn), buffer, w, timeout, sn)
  {
    hide Coming, Ending, LeftAfter, FirstReply, Tick, Position;
    var deadline := Tick(w).now + timeout;
    var lines := Coming(buffer, Tick(w), deadline);
    PositionIs(lines, sn);
    var f, k := Awaited(buffer, w, timeout, sn), Position(lines, sn);
    if k < |lines| {
      assert f.outcome == Replied(lines[k]) && FirstReply(lines, sn, k);
    }
  }

  lemma StartedIs(job: Job, held: Option<Bytes>, w: Outside, timeout: real)
    requires job.Exchange?
    ensures var f, start := Expected(job, held, w, timeout), Started(job.line, held, w);
      if start.None? then f.outcome == Unreachable && f.held.None?
      else f == Awaited(start.value.buffer, start.value.ahead, timeout, job.sn)
  {
    hide Awaited, ExpectedAnew, WritesAll, Lets, Later, Next, Welcomes;
    LetsAll(job, w);
    LetsAll(job, Later(w));
    var u := if held.None? then w else if held == Some([]) && Welcomes(w) then Later(Later(w)) else Later(w);
    WelcomesIs(w);
    StartedAnew(job, u, timeout);
  }

  lemma WelcomesIs(w: Outside)
    ensures Welcomes(w) == Next(w).Good?
  {
  }

  lemma LetsAll(job: Job, w: Outside)
    requires job.Exchange?
    ensures WritesAll(job, w) == Lets(w, |job.line| + 2)
  {
  }

  lemma StartedAnew(job: Job, w: Outside, timeout: real)
    requires job.Exchange?
    ensures var f := ExpectedAnew(job, w, timeout);
      if Welcomes(w) && Lets(Later(w), |job.line| + 2) then f == Awaited([], Later(Later(w)), timeout, job.sn)
      else f.outcome == Unreachable && f.held.None?
  {
    hide Awaited, WritesAll, Lets;
    LetsAll(job, Later(w));
  }

  /** Reading a line: it is the reply, or the rest decides. */
  lemma AwaitedNext(a: Scene, deadline: real, line: Bytes, b: Scene, sn: string)
    requires Pulled(a, deadline, Yielded(line), b)
    ensures AwaitedBy(a.buffer, a.ahead, deadline, sn) ==
      if Matches(line, sn) then Fate(Replied(line), Some(b.buffer), b.ahead)
      else AwaitedBy(b.buffer, b.ahead, deadline, sn)
  {
    hide Coming, Ending, Matches;
    var there := Coming(b.buffer, b.ahead, deadline);
    PositionNext(line, there, sn);
    assert Leaves(a, deadline, Yielded(line), b, Position([line] + there, sn) + 1);
    hide LeftAfter, Position;
    LeftAtOnce(b, deadline);
  }

  lemma PositionNext(line: Bytes, lines: seq<Bytes>, sn: string)
    ensures Position([line] + lines, sn) == if Matches(line, sn) then 0 else Position(lines, sn) + 1
  {
    assert ([line] + lines)[1..] == lines;
    hide Matches;
  }

  /** Without another line, reading has ended. */
  lemma AwaitedLast(a: Scene, deadline: real, status: Status, b: Scene, sn: string)
    requires Pulled(a, deadline, status, b) && !status.Going? && !status.Yielded?
    ensures AwaitedBy(a.buffer, a.ahead, deadline, sn) ==
      if status.Raised? then Fate(ReadFailed, Some(b.buffer), b.ahead) else Fate(NoAnswer, None, b.ahead)
  {
    hide Coming, Ending, LeftAfter;
    assert Leaves(a, deadline, status, b, 1);
  }

  // ---------- what a call does ----------

  /** The job of one call, once its sequence number is drawn. */
  function JobOf(call: Call, n: int): (job: Job)
    requires ValidCall(call)
    ensures job.Exchange? && !Terminated(job.line) && job.sn == IntText(n)
  {
    LocalSteps.Exchange(Bare(FrameOf(call, IntText(n))), IntText(n))
  }

  /** What a caller gets for an outcome; `None` stands for a `TransportError`. */
  function ResultOf(call: Call, o: Outcome): Option<Reply> {
    if o.Replied? && Decode(o.line).Some? then Understand(call, Decode(o.line).value) else None
  }

  /** A job run to its end. */
  datatype Trace = Trace(job: Job, choices: seq<Choice>, outcome: Outcome)

  /** From `w` to `w'` the steps of `t` were taken against `host`: its frame was heard once if its write
      succeeded and otherwise never, nothing else was heard by anybody, and a reply carries its number. */
  ghost predicate Traced(host: Address, w: World, t: Trace, w': World) {
    && Sane(w)
    && Run(host, t.job, Config(w, Start(t.job)), t.choices) == Config(w', Finished(t.outcome))
    && Adds(w.conns, w'.conns, Said(host, t.job, Finished(t.outcome)))
    && Grows(w.conns, w'.conns)
    && (t.outcome.Replied? ==> t.job.Exchange? && Matches(t.outcome.line, t.job.sn))
  }

  class LocalTransport {
    const rt: Runtime
    const host: Address
    const timeout: real
    var conn: LineSocket?

    ghost function View(): World
      reads this, rt, conn
    {
      World(rt.conns, if conn == null then None else Some(LocalSteps.Held(conn.id, conn.buffer, conn.popped)))
    }

    /** The buffer of the connection held, if any. */
    ghost function Held(): Option<Bytes>
      reads this, conn
    {
      if conn == null then None else Some(conn.buffer)
    }

    /** The connection held, if any, is the only one open, goes to `host`, and carries no unfinished frame. */
    ghost predicate Valid()
      reads this, rt, conn
    {
      && (conn != null ==> conn.rt == rt)
      && AtRest(host, View())
    }

    ghost function Footprint(): set<object>
      reads this
    {
      {this} + if conn == null then {} else {conn}
    }

    constructor (rt: Runtime, host: Address, timeout: real)
      requires forall i | 0 <= i < |rt.conns| :: !rt.conns[i].open
      ensures this.rt == rt && this.host == host && this.timeout == timeout && conn == null && Valid()
    {
      this.rt, this.host, this.timeout, this.conn := rt, host, timeout, null;
    }

    /** `_disconnect` */
    method Drop()
      requires conn != null ==> conn.rt == rt && conn.Valid()
      modifies this`conn, rt`conns
      ensures conn == null
      ensures View() == Disconnect(old(View()))
    {
      if conn != null {
        conn.Close();
        conn := null;
      }
    }

    /** `close` */
    method Close()
      requires Valid()
      modifies this`conn, rt`conns
      ensures Valid() && conn == null
      ensures forall i | 0 <= i < |rt.conns| :: !rt.conns[i].open
      ensures Grows(old(rt.conns), rt.conns) && |rt.conns| == |old(rt.conns)| && Adds(old(rt.conns), rt.conns, [])
    {
      ghost var w0 := View();
      Drop();
      RunStep(host, Release, Config(w0, Releasing), [], Silent);
      JobEffect(host, Release, w0, [Silent]);
    }

    /** Write a packet; a failed write drops the connection. */
    method TrySend(ghost job: Job, packet: Bytes, ghost reused: bool) returns (ok: bool, ghost choices: seq<Choice>)
      requires conn != null && conn.rt == rt && conn.Valid()
      requires job.Exchange? && packet == Packet(job)
      modifies this`conn, rt`choices, rt`conns
      ensures rt.Ahead() == Later(old(rt.Ahead())) && ok == WritesAll(job, old(rt.Ahead()))
      ensures conn == if ok then old(conn) else null
      ensures ok ==> conn.Valid()
      ensures Run(host, job, Config(old(View()), Writing(reused, 0)), choices)
           == Config(View(), if ok then Waiting else if reused then Connecting else Finished(Unreachable))
    {
      hide Run, Step, Sent, Disconnect, Join, AllBare;
      ghost var w, n := View(), 0;
      ok, n := conn.SendLine(packet);
      choices := WriteChoices(n, |packet|);
      WriteSteps(host, job, w, reused, n);
      if !ok {
        Drop();
      }
    }

    /** `_await_reply` */
    method AwaitReply(ghost job: Job, sn: string) returns (o: Outcome, ghost choices: seq<Choice>)
      requires conn != null && conn.rt == rt && conn.Valid()
      requires job.Exchange? && sn == job.sn
      modifies this`conn, conn`buffer, conn`popped, rt`choices, rt`conns, rt`now, rt`ticks
      ensures conn == null || conn == old(conn)
      ensures Fate(o, Held(), rt.Ahead()) == Awaited(old(conn.buffer), old(rt.Ahead()), timeout, sn)
      ensures o.Replied? ==> Decode(o.line).Some? && Get(Decode(o.line).value, "sn") == Some(Text(sn))
      ensures Run(host, job, Config(old(View()), Waiting), choices) == Config(View(), Finished(o))
    {
      hide AwaitedBy, Read, Pulled, Run, Join, AllBare, Matches, Received, Closed, Decode, Get;
      choices := [];
      ghost var s, start := Config(View(), Waiting), conn.buffer;
      RunNot(host, job, s);
      var now := rt.Monotonic();
      var deadline := now + timeout;
      ghost var fate := AwaitedBy(start, rt.Ahead(), deadline, sn);
      while true
        invariant conn != null && conn == old(conn) && conn.Valid()
        invariant Run(host, job, s, choices) == Config(View(), Waiting)
        invariant AwaitedBy(conn.buffer, rt.Ahead(), deadline, sn) == fate
        decreases |rt.choices|, |conn.buffer|
      {
        ghost var w, before := View(), Scene(conn.buffer, rt.Ahead());
        var status, cs := conn.NextLine(deadline);
        ghost var after := Scene(conn.buffer, rt.Ahead());
        WaitingConcludes(host, job, w, cs);
        RunConcat(host, job, s, choices, cs);
        choices := choices + cs;
        if status.Yielded? {
          AwaitedNext(before, deadline, status.line, after, sn);
          if Matches(status.line, sn) {
            MatchesSays(status.line, sn);
            return Replied(status.line), choices;
          }
        } else {
          AwaitedLast(before, deadline, status, after, sn);
          if status.Exhausted? {
            Drop();
            return NoAnswer, choices;
          }
          return ReadFailed, choices;
        }
      }
    }

    /** `_exchange`: exactly the steps of `LocalSteps`, in whatever order of events the outside world
        chooses; so the frame is heard once if its write succeeded, and otherwise never. */
    method Exchange(job: Job) returns (o: Outcome, ghost choices: seq<Choice>)
      requires Valid() && job.Exchange? && !Terminated(job.line)
      modifies Footprint(), rt`choices, rt`conns, rt`now, rt`ticks
      ensures Valid() && fresh(Footprint() - old(Footprint()))
      ensures Run(host, job, Config(old(View()), Checking), choices) == Config(View(), Finished(o))
      ensures Fate(o, Held(), rt.Ahead()) == Expected(job, old(Held()), old(rt.Ahead()), timeout)
      ensures Adds(old(rt.conns), rt.conns, Said(host, job, Finished(o)))
      ensures Grows(old(rt.conns), rt.conns) && |rt.conns| <= |old(rt.conns)| + 1
      ensures o.Replied? ==> Decode(o.line).Some? && Get(Decode(o.line).value, "sn") == Some(Text(job.sn))
    {
      ghost var w0 := View();
      o, choices := ExchangeSteps(job);
      JobEffect(host, job, w0, choices);
    }

    method ExchangeSteps(job: Job) returns (o: Outcome, ghost choices: seq<Choice>)
      requires Valid() && job.Exchange?
      modifies Footprint(), rt`choices, rt`conns, rt`now, rt`ticks
      ensures Fate(o, Held(), rt.Ahead()) == Expected(job, old(Held()), old(rt.Ahead()), timeout)
      ensures conn != null ==> conn.rt == rt
      ensures fresh(Footprint() - old(Footprint()))
      ensures Run(host, job, Config(old(View()), Checking), choices) == Config(View(), Finished(o))
    {
      ghost var s := Config(View(), Checking);
      ghost var more;
      var held := None;
      if conn == null {
        RunStep(host, job, s, [], Silent);
        choices := [] + [Silent];
      } else {
        held, choices := ExchangeHeld(job);
      }
      if held.Some? {
        return held.value, choices;
      }
      o, more := ExchangeAnew(job);
      RunConcat(host, job, s, choices, more);
      choices := choices + more;
    }

    /** The first half of `_exchange`, over the connection held; `None` if the frame did not go out on it. */
    method ExchangeHeld(job: Job) returns (o: Option<Outcome>, ghost choices: seq<Choice>)
      requires conn != null && conn.rt == rt && conn.Valid() && job.Exchange?
      modifies this`conn, conn`buffer, conn`popped, rt`choices, rt`conns, rt`now, rt`ticks
      ensures conn == null || conn == old(conn)
      ensures o.None? ==> conn == null
      ensures Expected(job, old(Held()), old(rt.Ahead()), timeout) ==
        if o.Some? then Fate(o.value, Held(), rt.Ahead()) else ExpectedAnew(job, rt.Ahead(), timeout)
      ensures Run(host, job, Config(old(View()), Checking), choices)
           == Config(View(), if o.Some? then Finished(o.value) else Connecting)
    {
      ghost var s := Config(View(), Checking);
      ghost var more;
      var closed := conn.PeerHasClosed();
      RunStep(host, job, s, [], if closed then Silent else Good);
      choices := [] + [if closed then Silent else Good];
      if closed {
        Drop();
        return None, choices;
      }
      var ok;
      ok, more := TrySend(job, Packet(job), true);
      RunConcat(host, job, s, choices, more);
      choices := choices + more;
      if !ok {
        return None, choices;
      }
      var answer;
      answer, more := AwaitReply(job, job.sn);
      RunConcat(host, job, s, choices, more);
      return Some(answer), choices + more;
    }

    /** The second half of `_exchange`, with no connection held. */
    method ExchangeAnew(job: Job) returns (o: Outcome, ghost choices: seq<Choice>)
      requires conn == null && job.Exchange?
      modifies this`conn, rt`choices, rt`conns, rt`now, rt`ticks
      ensures conn != null ==> conn.rt == rt && fresh(conn)
      ensures Fate(o, Held(), rt.Ahead()) == ExpectedAnew(job, old(rt.Ahead()), timeout)
      ensures Run(host, job, Config(old(View()), Connecting), choices) == Config(View(), Finished(o))
    {
      ghost var s := Config(View(), Connecting);
      ghost var more;
      var id := rt.Connect(host);
      RunStep(host, job, s, [], if id.Some? then Good else Silent);
      choices := [] + [if id.Some? then Good else Silent];
      if id.None? {
        return Unreachable, choices;
      }
      conn := new LineSocket(rt, id.value);
      var ok;
      ok, more := TrySend(job, Packet(job), false);
      RunConcat(host, job, s, choices, more);
      choices := choices + more;
      if !ok {
        return Unreachable, choices;
      }
      o, more := AwaitReply(job, job.sn);
      RunConcat(host, job, s, choices, more);
      choices := choices + more;
    }

    /** `query`: a data map, or `None` for a `TransportError`. The exchange of a fresh query frame is run
        to its end, and what it heard decides the result. */
    method Query(attrs: seq<int>) returns (r: Option<Dict<string, Json>>, ghost t: Trace)
      requires Valid()
      modifies Footprint(), rt`choices, rt`conns, rt`now, rt`ticks, rt`wall, rt`lastSn
      ensures Valid() && fresh(Footprint() - old(Footprint()))
      ensures rt.lastSn == NextSn(old(rt.lastSn), Clock(old(rt.Ahead())))
      ensures t.job == JobOf(Call.Query(attrs), rt.lastSn) && Traced(host, old(View()), t, View())
      ensures Fate(t.outcome, Held(), rt.Ahead()) == Expected(t.job, old(Held()), Dated(old(rt.Ahead())), timeout)
      ensures ResultOf(Call.Query(attrs), t.outcome) == if r.Some? then Some(Readings(r.value)) else None
      ensures t.outcome.Replied? ==>
        var frame := Decode(t.outcome.line);
        frame.Some? && Get(frame.value, "sn") == Some(Text(IntText(rt.lastSn)))
      ensures forall data: Dict<string, Json> ::
        r == Some(data) <==> t.outcome.Replied? && HoldsData(Decode(t.outcome.line).value, data)
    {
      hide Run, Adds, Grows, Expected, Disconnect, Rest, Join, AllBare, HoldsData, Decode, Get;
      var sn := rt.NewSn();
      var job := LocalSteps.Exchange(Bare(QueryFrame(attrs, sn)), sn);
      var o, choices := Exchange(job);
      t := Trace(job, choices, o);
      r := if o.Replied? then DataOf(Decode(o.line).value) else None;
      if o.Replied? { ReadingsSay(attrs, Decode(o.line).value); }
    }

    /** `control`: whether the device accepted, or `None` for a `TransportError`. */
    method Control(payload: Payload) returns (r: Option<bool>, ghost t: Trace)
      requires Valid() && ValidPayload(payload)
      modifies Footprint(), rt`choices, rt`conns, rt`now, rt`ticks, rt`wall, rt`lastSn
      ensures Valid() && fresh(Footprint() - old(Footprint()))
      ensures rt.lastSn == NextSn(old(rt.lastSn), Clock(old(rt.Ahead())))
      ensures t.job == JobOf(Call.Control(payload), rt.lastSn) && Traced(host, old(View()), t, View())
      ensures Fate(t.outcome, Held(), rt.Ahead()) == Expected(t.job, old(Held()), Dated(old(rt.Ahead())), timeout)
      ensures ResultOf(Call.Control(payload), t.outcome) == if r.Some? then Some(Acknowledged(r.value)) else None
      ensures t.outcome.Replied? ==>
        var frame := Decode(t.outcome.line);
        frame.Some? && Get(frame.value, "sn") == Some(Text(IntText(rt.lastSn)))
      ensures r ==
        if !t.outcome.Replied? then None
        else
          var f := Decode(t.outcome.line);
          Some(Get(f.value, "res") == Some(Number(0)) || Get(f.value, "res") == Some(Bool(false)))
    {
      hide Run, Adds, Grows, Expected, Disconnect, Rest, Join, AllBare, HoldsData, Decode, Get;
      var sn := rt.NewSn();
      var job := LocalSteps.Exchange(Bare(SetFrame(payload, sn)), sn);
      var o, choices := Exchange(job);
      t := Trace(job, choices, o);
      r := if o.Replied? then Some(Accepted(Decode(o.line).value)) else None;
      if o.Replied? { VerdictSays(payload, Decode(o.line).value); }
    }
  }

  /** `sendall` getting `n` bytes out is one writing step, or none, and then a failing one if that is not all. */
  function WriteChoices(n: nat, size: nat): seq<Choice> {
    (if n == 0 then [] else [Wrote(n)]) + if n == size then [] else [Silent]
  }

  /** The world after `n` bytes of the packet have gone out. */
  function Written(job: Job, w: World, n: nat): (r: World)
    requires Sane(w) && w.held.Some? && job.Exchange? && n <= |Packet(job)|
    ensures Sane(r) && r.held == w.held
  {
    w.(conns := Sent(w.conns, w.held.value.id, Packet(job)[..n]))
  }

  lemma WriteStops(host: Address, job: Job, w: World, reused: bool, done: nat)
    requires Sane(w)
    ensures Step(host, job, Config(w, Writing(reused, done)), Silent)
         == Config(Disconnect(w), if reused then Connecting else Finished(Unreachable))
  {
    hide Disconnect;
  }

  lemma WroteNothing(job: Job, w: World)
    requires Sane(w) && w.held.Some? && job.Exchange?
    ensures Written(job, w, 0) == w
  {
    SentMore(w.conns, w.held.value.id, [], []);
    assert Packet(job)[..0] == [];
  }

  lemma WroteSome(host: Address, job: Job, w: World, reused: bool, n: nat)
    requires Sane(w) && w.held.Some? && job.Exchange? && 0 < n <= |Packet(job)|
    ensures Run(host, job, Config(w, Writing(reused, 0)), [Wrote(n)])
         == Config(Written(job, w, n), if n == |Packet(job)| then Waiting else Writing(reused, n))
  {
    hide Step, Run, Sent;
    var s := Config(w, Writing(reused, 0));
    RunNot(host, job, s);
    RunStep(host, job, s, [], Wrote(n));
    assert [] + [Wrote(n)] == [Wrote(n)];
    StepWrote(host, job, w, reused, 0, n);
    assert Packet(job)[0..n] == Packet(job)[..n];
  }

  lemma WriteSteps(host: Address, job: Job, w: World, reused: bool, n: nat)
    requires Sane(w) && w.held.Some? && job.Exchange? && n <= |Packet(job)|
    ensures Run(host, job, Config(w, Writing(reused, 0)), WriteChoices(n, |Packet(job)|))
         == if n == |Packet(job)| then Config(Written(job, w, n), Waiting)
            else Config(Disconnect(Written(job, w, n)), if reused then Connecting else Finished(Unreachable))
  {
    hide Step, Run, Disconnect, Written;
    var s := Config(w, Writing(reused, 0));
    if n == 0 {
      RunNot(host, job, s);
      WroteNothing(job, w);
    } else {
      WroteSome(host, job, w, reused, n);
    }
    if n < |Packet(job)| {
      var wrote: seq<Choice> := if n == 0 then [] else [Wrote(n)];
      RunStep(host, job, s, wrote, Silent);
      WriteStops(host, job, Written(job, w, n), reused, n);
    } else {
      assert WriteChoices(n, n) == [Wrote(n)];
    }
  }
}
