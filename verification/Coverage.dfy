/** "You are covered whenever at least one path works" (README.md:68), for the whole client (api/fallback.py): when
    that holds in every outside world, and a client for which it does not. */
module Coverage {
  import opened Prelude
  import opened Framing
  import opened Decimal
  import opened JsonText
  import opened Protocol
  import opened Environment
  import opened Deliveries
  import opened Wire
  import opened LocalSteps
  import opened Discovery
  import opened Rediscovering
  import opened Fallback
  import Breaker
  import Cloud
  import Local

  // ---------- a local path that works ----------

  /** A reply that any call can be answered with. */
  function ReplyFrame(sn: string): Frame {
    [Item("sn", Text(sn)), Item("msg", Object([Item("data", Object([]))])), Item("res", Number(0))]
  }

  function ReplyLine(sn: string): Bytes {
    Bare(ReplyFrame(sn))
  }

  lemma ReplyWellFormed(sn: string)
    ensures WellFormed(Object(ReplyFrame(sn)))
  {
    var data: Dict<string, Json> := [];
    assert WellFormed(Object(data));
    assert WellFormed(Object([Item("data", Object(data))]));
    assert "sn" != "msg" && "sn" != "res" && "msg"[0] != "res"[0];
  }

  /** It is for the call with this number, and tells the caller something. */
  lemma ReplyServes(call: Call, n: int)
    ensures Matches(ReplyLine(IntText(n)), IntText(n))
    ensures Local.ResultOf(call, Replied(ReplyLine(IntText(n)))).Some?
  {
    hide WellFormed, Bare, Decode, IntText;
    var frame := ReplyFrame(IntText(n));
    ReplyWellFormed(IntText(n));
    DecodeBare(frame);
    assert Get(frame, "msg") == Get(frame[1..], "msg") by { assert "sn" != "msg"; }
  }

  /** A connection held has been hung up or fails, a new one takes the write, and this line comes back. */
  function Answering(line: Bytes, held: bool, size: nat, now: real): Outside {
    Outside((if held then [Silent] else []) + [Good, Wrote(size), Chunk(line + TERMINATOR)], now, [], [], [])
  }

  /** Reading yields this line, whether it is in the buffer or still to come. */
  lemma LineRead(buffer: Bytes, w: Outside, timeout: real, sn: string, line: Bytes)
    requires line != [] && !Terminated(line) && Matches(line, sn) && w.ticks == []
    requires (buffer == line + TERMINATOR && w.choices == [])
          || (buffer == [] && w.choices == [Chunk(line + TERMINATOR)] && timeout > 0.0)
    ensures Local.Awaited(buffer, w, timeout, sn).outcome == Replied(line)
  {
    hide Matches, LeftAfter, Arriving, Ending, Coming, Lines, NonBlank, Terminated;
    var deadline := w.now + timeout;
    assert Tick(w) == w;
    if buffer == [] {
      assert Turnout(w, deadline) == Chunk(line + TERMINATOR);
      ComingReceived([], w, deadline);
      assert [] + (line + TERMINATOR) == line + TERMINATOR;
      LineBuffered(line, Turned(w, deadline), deadline);
    } else {
      LineBuffered(line, w, deadline);
    }
    assert Coming(buffer, w, deadline) == [line];
  }

  lemma LineBuffered(line: Bytes, w: Outside, deadline: real)
    requires line != [] && !Terminated(line) && w.ticks == [] && w.choices == []
    ensures Coming(line + TERMINATOR, w, deadline) == [line]
  {
    assert Arriving(w, deadline) == [];
    assert line + TERMINATOR + [] == line + TERMINATOR;
    SplitLine(line, []);
    assert Lines(line + TERMINATOR) == [line];
    assert [line][1..] == [] && NonBlank([line]) == [line];
  }

  /** In a world that answers, an exchange gets the answer, whatever connection is held before. */
  lemma AnsweredAnew(job: Job, held: Option<Bytes>, w: Outside, timeout: real, size: nat, line: Bytes)
    requires job.Exchange? && size >= |Packet(job)| && timeout > 0.0
    requires line != [] && !Terminated(line) && Matches(line, job.sn)
    requires w == Answering(line, held.Some?, size, w.now)
    ensures Local.Expected(job, held, w, timeout).outcome == Replied(line)
  {
    hide Matches, Local.ExpectedAnew;
    var start := if held.Some? then Later(w) else w;
    assert start.choices == [Good, Wrote(size), Chunk(line + TERMINATOR)];
    ReadAnew(job, start, timeout, size, line);
  }

  lemma ReadAnew(job: Job, w: Outside, timeout: real, size: nat, line: Bytes)
    requires job.Exchange? && size >= |Packet(job)| && timeout > 0.0
    requires line != [] && !Terminated(line) && Matches(line, job.sn)
    requires w.choices == [Good, Wrote(size), Chunk(line + TERMINATOR)] && w.ticks == []
    ensures Local.ExpectedAnew(job, w, timeout).outcome == Replied(line)
  {
    hide Matches, Local.Awaited, Packet;
    assert Later(w).choices == [Wrote(size), Chunk(line + TERMINATOR)];
    assert Later(Later(w)).choices == [Chunk(line + TERMINATOR)];
    LineRead([], Later(Later(w)), timeout, job.sn, line);
  }

  /** So does one over a held connection on which the answer has arrived already. */
  lemma AnsweredHeld(job: Job, w: Outside, timeout: real, size: nat, line: Bytes)
    requires job.Exchange? && size >= |Packet(job)|
    requires line != [] && !Terminated(line) && Matches(line, job.sn)
    requires w.choices == [Wrote(size)] && w.ticks == []
    ensures Local.Expected(job, Some(line + TERMINATOR), w, timeout).outcome == Replied(line)
  {
    hide Matches, Local.Awaited, Packet;
    assert Later(w).choices == [];
    LineRead(line + TERMINATOR, Later(w), timeout, job.sn, line);
  }

  lemma ServesIfReplied(v: Target, call: Call, a: Snapshot)
    requires ValidCall(call)
    requires Local.ResultOf(call, FateOf(v, call, a).outcome).Some?
    ensures LocalServes(v, call, a)
  {
    hide FateOf, Local.ResultOf, AfterSearch;
  }

  lemma AnsweringServes(v: Target, call: Call, a: Snapshot, w: Outside)
    requires ValidCall(call) && v.timeout > 0.0
    requires w == AnsweringTo(call, a, w.now)
    ensures LocalServes(v, call, a.(ahead := w))
  {
    hide Matches, Local.Expected, Packet, Bare, FrameOf, Local.ResultOf;
    var n := NextSn(a.lastSn, 0);
    var job, line := Local.JobOf(call, n), ReplyLine(IntText(n));
    ReplyServes(call, n);
    AnsweredAnew(job, a.held, w, v.timeout, |Packet(job)|, line);
    assert Dated(w) == w && FreshSn(a.(ahead := w)) == n;
    ServesIfReplied(v, call, a.(ahead := w));
  }

  /** A world that answers this call, made now. */
  function AnsweringTo(call: Call, a: Snapshot, now: real): Outside
    requires ValidCall(call)
  {
    var n := NextSn(a.lastSn, 0);
    Answering(ReplyLine(IntText(n)), a.held.Some?, |Packet(Local.JobOf(call, n))|, now)
  }

  lemma HeldServes(v: Target, call: Call, a: Snapshot, w: Outside)
    requires ValidCall(call)
    requires var n := NextSn(a.lastSn, 0);
      && a.held == Some(ReplyLine(IntText(n)) + TERMINATOR)
      && w == Outside([Wrote(|Packet(Local.JobOf(call, n))|)], w.now, [], [], [])
    ensures LocalServes(v, call, a.(ahead := w))
  {
    hide Matches, Local.Expected, Packet, Bare, FrameOf, Local.ResultOf;
    var n := NextSn(a.lastSn, 0);
    var job, line := Local.JobOf(call, n), ReplyLine(IntText(n));
    ReplyServes(call, n);
    AnsweredHeld(job, w, v.timeout, |Packet(job)|, line);
    assert Dated(w) == w && FreshSn(a.(ahead := w)) == n;
    ServesIfReplied(v, call, a.(ahead := w));
  }

  // ---------- the guard ----------

  /** This call, decided on at `check`, fails, although one of its paths works: the relay, or local in the world it
      is tried in or, if it is skipped, might have been tried in at that time. */
  ghost predicate Uncovered(u: Wiring, b: Breaker.State, call: Call, check: real, x: Called, w: Outside) {
    && x.call == call && x.breaker == b && Happened(u, x) && x.round.request.check == check && x.reply.None?
    && ValidCall(call)
    && var d := Decide(u.breaker, b, x.before);
       && MayFind(d, w) && w.now == d.at.ahead.now
       && (LocalWould(u.target, call, d, w) || RelayServes(u.relay, call, Between(u, b, call, x.before)))
  }

  ghost predicate MayFail(u: Wiring, b: Breaker.State, call: Call, check: real) {
    exists x: Called, w: Outside :: Uncovered(u, b, call, check, x, w)
  }

  /** "Covered whenever one path works", in every outside world and from every state before, is exactly what a call
      gets if there is no relay or the breaker lets local be tried. */
  lemma CoveredExactly(u: Wiring, b: Breaker.State, call: Call, check: real)
    requires ValidCall(call) && (u.breaker.hasCloud <==> u.relay.Some?)
    ensures !MayFail(u, b, call, check) <==> u.relay.None? || Breaker.TriesLocal(u.breaker, b, check)
  {
    if !Breaker.TriesLocal(u.breaker, b, check) {
      var x, w := FailsUntried(u, b, call, check);
      assert Uncovered(u, b, call, check, x, w);
    }
    forall x: Called, w: Outside | Uncovered(u, b, call, check, x, w)
      ensures u.relay.Some? && !Breaker.TriesLocal(u.breaker, b, check)
    {
      AnsweredExactly(u, b, call, x.round, x.reply, x.before, x.after, w);
      LocalInTime(u, b, call, x.before);
      hide Between, UsedLocally, Relayed, LocalWould, RelayServes;
    }
  }

  /** Local is skipped while it would answer, and the relay cannot be reached. */
  lemma FailsUntried(u: Wiring, b: Breaker.State, call: Call, check: real) returns (x: Called, w: Outside)
    requires ValidCall(call) && u.relay.Some? && u.breaker.hasCloud && !Breaker.TriesLocal(u.breaker, b, check)
    ensures Uncovered(u, b, call, check, x, w)
  {
    hide LocalServes, RelayServes, UsedLocally, Relayed, ReplyLine, Packet;
    var n := NextSn(0, 0);
    var held := if u.target.timeout > 0.0 then None else Some(ReplyLine(IntText(n)) + TERMINATOR);
    var a := Snapshot("", [], [], 0, 0, held, Outside([], check, [], [], []));
    assert Decide(u.breaker, b, a) == Decision(false, check, check, a);
    x := CallUntried(u, b, call, a);
    if u.target.timeout > 0.0 {
      w := AnsweringTo(call, a, check);
      AnsweringServes(u.target, call, a, w);
    } else {
      w := Outside([Wrote(|Packet(Local.JobOf(call, n))|)], check, [], [], []);
      HeldServes(u.target, call, a, w);
    }
  }

  /** A call without local and with a relay that refuses the connection. */
  lemma CallUntried(u: Wiring, b: Breaker.State, call: Call, a: Snapshot) returns (x: Called)
    requires ValidCall(call) && u.relay.Some? && Nothing(a.ahead)
    requires Decide(u.breaker, b, a) == Decision(false, a.ahead.now, a.ahead.now, a)
    ensures x.call == call && x.breaker == b && x.before == a && Happened(u, x) && x.reply.None?
    ensures x.round.request.check == a.ahead.now
  {
    hide LocalServes, RelayServes, UsedLocally, Cloud.Visited, FrameOf, Decide;
    var visit := Cloud.Visit(None, None);
    var after := a.(lastSn := FreshSn(a));
    x := Called(call, Round(RequestOf(u, b, call, a), [], None, a, Some(visit)), None, b, a, after);
    NothingDoneLocally(u, b, call, a, x.round);
    Cloud.NotVisited(u.relay.value, FrameOf(call, IntText(FreshSn(a))), IntText(FreshSn(a)), a.ahead, a.conns);
    assert Dated(a.ahead) == a.ahead && Later(Tick(a.ahead)) == a.ahead;
  }

  // ---------- a client that is not covered ----------

  /** Nothing more happens: connections are refused, nothing arrives, clocks stand still. */
  predicate Nothing(w: Outside) {
    w.choices == [] && w.ticks == [] && w.wall == [] && w.replies == []
  }

  lemma NothingLocally(v: Target, call: Call, a: Snapshot)
    requires ValidCall(call) && Nothing(a.ahead)
    ensures UseOf(v, call, a) == Use([Try(a.host, FreshSn(a), Unreachable)], None, UseOf(v, call, a).end)
    ensures UseOf(v, call, a).end.ahead == a.ahead
  {
    hide FrameOf, Bare;
    assert Local.Expected(Local.JobOf(call, FreshSn(a)), a.held, a.ahead, v.timeout) ==
      Local.Fate(Unreachable, None, a.ahead);
    NothingSought(v, AfterTry(v, call, a));
  }

  lemma NothingSought(v: Target, a: Snapshot)
    requires Nothing(a.ahead)
    ensures AfterSearch(v, a).host == a.host && AfterSearch(v, a).ahead == a.ahead
  {
    assert Listed(Arrived(a.ahead), {}) == [];
  }

  /** A call in a world where nothing happens fails at once. */
  lemma NothingServed(u: Wiring, x: Called)
    requires Happened(u, x) && Nothing(x.before.ahead) && (u.breaker.hasCloud <==> u.relay.Some?)
    ensures x.reply.None? && x.after.ahead == x.before.ahead
    ensures var q, now := x.round.request, x.before.ahead.now;
      !q.localWorks && q.check == q.probe == q.record == now
  {
    hide UseOf, Adds, Grows, SaidIn, Cloud.Conversed, Cloud.Exchanged, FrameOf, RelayServes;
    NothingLocally(u.target, x.call, x.before);
  }

  /** A failure has taken the breaker from `b` to `t`: the circuit is open anew, or one failure nearer to it. */
  predicate NearerToOpen(s: Breaker.Settings, b: Breaker.State, t: Breaker.State, now: real) {
    s.interval > 0.0 && Breaker.TriesLocal(s, b, now) && Breaker.TriesLocal(s, t, now) ==>
      b.openedAt.None? && t.openedAt.None? && t.failures == b.failures + 1 && t.failures < s.threshold
  }

  lemma NothingRecorded(s: Breaker.Settings, b: Breaker.State, q: Breaker.Request)
    requires s.hasCloud && !q.localWorks && q.check == q.probe == q.record
    ensures NearerToOpen(s, b, Breaker.Serve(s, b, q), q.check)
  {
  }

  lemma SkippedUncovered(u: Wiring, x: Called, w: Outside)
    requires Happened(u, x) && x.reply.None? && ValidCall(x.call) && Nothing(x.before.ahead) && u.target.timeout > 0.0
    requires !Breaker.TriesLocal(u.breaker, x.breaker, x.before.ahead.now)
    requires x.round.request.check == x.before.ahead.now && w == AnsweringTo(x.call, x.before, x.before.ahead.now)
    ensures Uncovered(u, x.breaker, x.call, w.now, x, w)
    ensures LocalWould(u.target, x.call, Decide(u.breaker, x.breaker, x.before), w)
  {
    hide Happened, LocalServes, RelayServes, Between, AnsweringTo;
    AnsweringNow(x.call, x.before, x.before.ahead.now);
    AnsweringServes(u.target, x.call, x.before, w);
  }

  lemma AnsweringNow(call: Call, a: Snapshot, now: real)
    requires ValidCall(call)
    ensures AnsweringTo(call, a, now).now == now
  {
    hide Packet, ReplyLine;
  }

  /** From here on nothing happens. */
  method CutOff(client: FallbackClient)
    requires client.Valid()
    modifies client.rt`choices, client.rt`ticks, client.rt`wall, client.rt`replies
    ensures client.Valid() && Nothing(client.rt.Ahead()) && client.rt.now == old(client.rt.now)
  {
    hide Accounted, Spaced, AtRest;
    ghost var before := client.local.Snap();
    client.rt.choices, client.rt.ticks, client.rt.wall, client.rt.replies := [], [], [], [];
    AddsNothing(before.conns, before.conns);
    AccountedStill(client.Wired(), client.State(), client.birth, client.life, before, client.local.Snap());
  }

  /** One call in such a world. */
  method CallNobody(client: FallbackClient, call: Call) returns (r: Option<Reply>, ghost x: Called)
    requires client.Valid() && client.cloud != null && ValidCall(call) && Nothing(client.rt.Ahead())
    modifies client.Footprint(), client.rt
    ensures client.Valid() && fresh(client.Footprint() - old(client.Footprint()))
    ensures r.None? && client.rt.Ahead() == old(client.rt.Ahead())
    ensures client.life == old(client.life) + [x] && Happened(client.Wired(), x)
    ensures x.call == call && x.reply.None? && x.breaker == old(client.State())
    ensures Nothing(x.before.ahead) && x.round.request.check == x.before.ahead.now == client.rt.now
    ensures NearerToOpen(client.settings, old(client.State()), client.State(), client.rt.now)
  {
    hide Happened, Served, Accounted, Breaker.Serve, Decide, RediscoveringTransport.Valid;
    ghost var b, before := client.State(), client.local.Snap();
    ghost var round;
    r, round := client.Attempt(call);
    x := Called(call, round, r, b, before, client.local.Snap());
    HappenedAs(client.Wired(), x);
    NothingServed(client.Wired(), x);
    NothingRecorded(client.settings, b, round.request);
  }

  lemma HappenedAs(u: Wiring, x: Called)
    requires Served(u, x.breaker, x.call, x.round, x.reply, x.before, x.after)
    ensures Happened(u, x)
  {
    hide Served;
  }

  /** Calls that reach nobody, until local is skipped. */
  method OpenCircuit(client: FallbackClient, call: Call)
    requires client.Valid() && client.cloud != null && ValidCall(call) && Nothing(client.rt.Ahead())
    requires client.settings.interval > 0.0
    modifies client.Footprint(), client.rt
    ensures client.Valid() && fresh(client.Footprint() - old(client.Footprint()))
    ensures client.rt.Ahead() == old(client.rt.Ahead())
    ensures !Breaker.TriesLocal(client.settings, client.State(), client.rt.now)
  {
    hide FallbackClient.Valid, Nothing, Happened, Decide, Breaker.TriesLocal;
    while Breaker.TriesLocal(client.settings, Breaker.State(client.failures, client.openedAt), client.rt.now)
      invariant client.Valid() && fresh(client.Footprint() - old(client.Footprint()))
      invariant client.rt.Ahead() == old(client.rt.Ahead())
      decreases Breaker.TriesLocal(client.settings, client.State(), client.rt.now), client.openedAt.None?,
                client.settings.threshold - client.failures
    {
      var r;
      ghost var x;
      r, x := CallNobody(client, call);
    }
  }

  /** Any client with a relay, in any state it can reach: when nobody can be reached for a while, it comes to a call
      that fails although local, used in its place and at its time, would have answered. */
  method LeaveUncovered(client: FallbackClient, call: Call)
      returns (r: Option<Reply>, ghost x: Called, ghost w: Outside)
    requires client.Valid() && client.cloud != null && ValidCall(call)
    requires client.settings.interval > 0.0 && client.local.timeout > 0.0
    modifies client.Footprint(), client.rt
    ensures client.Valid() && client.life != [] && x == client.life[|client.life| - 1] && r == x.reply
    ensures r.None? && Uncovered(client.Wired(), x.breaker, call, w.now, x, w)
    ensures LocalWould(client.local.Tracked(), call, Decide(client.settings, x.breaker, x.before), w)
  {
    hide FallbackClient.Valid, Nothing, Happened, LocalWould, Decide, Breaker.TriesLocal, Uncovered, AnsweringTo;
    CutOff(client);
    OpenCircuit(client, call);
    r, x := CallNobody(client, call);
    w := AnsweringTo(call, x.before, client.rt.now);
    SkippedUncovered(client.Wired(), x, w);
  }
}
