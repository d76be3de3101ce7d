/** A write that is sent twice: once to the device and once to the relay (api/fallback.py). At most once holds per
    path; end to end it holds exactly when local is not tried or there is no relay. */
module EndToEnd {
  import opened Prelude
  import opened Framing
  import opened Decimal
  import opened Protocol
  import opened Environment
  import opened Deliveries
  import opened Wire
  import opened LocalSteps
  import opened Discovery
  import opened Rediscovering
  import opened Fallback
  import opened Lifetime
  import Breaker
  import Cloud
  import Local
  import RelayCodec

  // ---------- exactly when ----------

  /** Between these states the device has heard the write, and the relay has heard it too. */
  ghost predicate HeardOnBoth(relay: Option<Cloud.Endpoint>, call: Call, before: Snapshot, after: Snapshot)
    requires ValidCall(call)
  {
    && relay.Some?
    && var mine := Delivery(before.host, FrameLine(call, FreshSn(before)));
       var theirs := Delivery(relay.value.host, RelayLine(relay.value, call, after.lastSn));
       Heard(after.conns, mine) > Heard(before.conns, mine) && Heard(after.conns, theirs) > Heard(before.conns, theirs)
  }

  /** The outside world sends a write twice: local is tried and its write goes out, but no reply comes or reading
      fails, and in what is then left to decide the relay can be reached and both lines go out to it. */
  predicate GoesTwice(u: Wiring, b: Breaker.State, call: Call, a: Snapshot)
    requires ValidCall(call)
  {
    var d, m := Decide(u.breaker, b, a), Between(u, b, call, a);
    var o := FateOf(u.target, call, d.at).outcome;
    && d.tries && u.relay.Some? && (o.NoAnswer? || o.ReadFailed?)
    && Cloud.Publishes(u.relay.value, FrameOf(call, IntText(FreshSn(m))), Dated(m.ahead))
  }

  /** The local half of a write, with what it makes the device hear. */
  lemma WrittenLocally(u: Wiring, b: Breaker.State, call: Call, round: Round, a: Snapshot)
    requires UsedLocally(u, b, call, round, a) && call.Control?
    ensures var d := Decide(u.breaker, b, a);
      var o := FateOf(u.target, call, d.at).outcome;
      && FreshSn(d.at) == FreshSn(a)
      && SaidIn(call, round.tries) ==
           (if d.tries && !o.Unreachable? && !o.Released? then [Delivery(a.host, FrameLine(call, FreshSn(a)))] else [])
      && (d.tries && o.Replied? ==> round.localReply.Some?)
      && (!(d.tries && o.Replied?) ==> round.localReply.None?)
  {
    var d := Decide(u.breaker, b, a);
    hide FateOf, Adds, Grows, AfterSearch, FrameOf, Decode;
    if d.tries {
      TryFits(u.target, call, d.at);
      SaidOnce(call, TryOf(u.target, call, d.at));
    } else {
      SaidNothing(call);
    }
  }

  lemma CountNone(said: seq<Delivery>, h: Address, line: Bytes)
    requires Count(LinesOf(said), line) == 0
    ensures Count(said, Delivery(h, line)) == 0
  {
    HostsShare(said, line, h, h);
  }

  /** What either party hears of a write is what is said on its own path. */
  lemma HeardApart(u: Wiring, x: Called)
    requires Happened(u, x) && PlainEndpoint(u.relay) && u.relay.Some?
    ensures ValidCall(x.call)
    ensures var mine := Delivery(x.before.host, FrameLine(x.call, FreshSn(x.before)));
      Heard(x.after.conns, mine) == Heard(x.before.conns, mine) + Count(SaidIn(x.call, x.round.tries), mine)
    ensures var theirs := Delivery(u.relay.value.host, RelayLine(u.relay.value, x.call, x.after.lastSn));
      Heard(x.after.conns, theirs) == Heard(x.before.conns, theirs) + Count(RelayHeard(x.round), theirs)
  {
    NumbersUsed(u, x);
    EffectBound(u, x.breaker, x.call, x.round, x.reply, x.before, x.after);
    var heard, relayed := SaidIn(x.call, x.round.tries), RelayHeard(x.round);
    var mine := Delivery(x.before.host, FrameLine(x.call, FreshSn(x.before)));
    var theirs := Delivery(u.relay.value.host, RelayLine(u.relay.value, x.call, x.after.lastSn));
    DeviceLineAtRelay(u, x, x.call, FreshSn(x.before));
    RelayLineLocally(u.relay.value, x.call, x.round.tries, x.call, x.after.lastSn);
    CountNone(relayed, mine.host, mine.line);
    CountNone(heard, theirs.host, theirs.line);
    CountConcat(heard, relayed, mine);
    CountConcat(heard, relayed, theirs);
    assert Adds(x.before.conns, x.after.conns, heard + relayed);
    hide Happened, SaidIn, RelayHeard, FrameLine, RelayLine, Heard;
  }

  /** The relay's half: the publication is heard exactly if the relay is asked and lets both lines through. */
  lemma WrittenToRelay(u: Wiring, x: Called)
    requires Happened(u, x) && PlainEndpoint(u.relay) && u.relay.Some?
    ensures ValidCall(x.call)
    ensures var m := Between(u, x.breaker, x.call, x.before);
      var theirs := Delivery(u.relay.value.host, RelayLine(u.relay.value, x.call, x.after.lastSn));
      Count(RelayHeard(x.round), theirs) > 0 <==>
        && x.round.localReply.None?
        && Cloud.Publishes(u.relay.value, FrameOf(x.call, IntText(FreshSn(m))), Dated(m.ahead))
  {
    hide Between, Locally, RequestOf, Adds, Grows, SaidIn, Cloud.Publishes, Cloud.ResultOf, FrameOf,
         Cloud.Publication, Cloud.Subscription;
    if x.round.visit.Some? {
      var frame := FrameOf(x.call, IntText(x.after.lastSn));
      Cloud.PublishedExactly(u.relay.value, x.call, x.after.lastSn, Dated(x.round.between.ahead),
                             x.round.between.conns, x.round.visit.value, x.after.conns, x.after.ahead);
      Cloud.VisitHeard(u.relay.value, x.call, x.after.lastSn, Dated(x.round.between.ahead),
                       x.round.between.conns, x.round.visit.value, x.after.conns, x.after.ahead);
      Cloud.CountPublications(u.relay.value, frame, Cloud.SaidBy(x.round.visit.value));
    }
  }

  /** A write is heard on both paths exactly if the outside world and the state before the call are so. */
  lemma WrittenTwice(u: Wiring, b: Breaker.State, call: Call,
                     round: Round, r: Option<Reply>, before: Snapshot, after: Snapshot)
    requires Served(u, b, call, round, r, before, after) && PlainEndpoint(u.relay) && call.Control?
    ensures HeardOnBoth(u.relay, call, before, after) <==> GoesTwice(u, b, call, before)
  {
    hide UsedLocally, Relayed, Between, FateOf, RequestOf, SaidIn, RelayHeard, FrameLine, RelayLine, Cloud.Publishes,
         Heard, FreshSn, Decide;
    var x := Called(call, round, r, b, before, after);
    WrittenLocally(u, b, call, round, before);
    if u.relay.Some? {
      HeardApart(u, x);
      WrittenToRelay(u, x);
      CountIsSome(call, round, before);
    }
  }

  lemma CountIsSome(call: Call, round: Round, a: Snapshot)
    requires ValidCall(call)
    requires SaidIn(call, round.tries) in {[], [Delivery(a.host, FrameLine(call, FreshSn(a)))]}
    ensures Count(SaidIn(call, round.tries), Delivery(a.host, FrameLine(call, FreshSn(a)))) > 0 <==>
      SaidIn(call, round.tries) != []
  {
    OneOrNone(call, round, a);
    hide SaidIn, FrameLine;
  }

  lemma OneOrNone(call: Call, round: Round, a: Snapshot)
    requires ValidCall(call)
    ensures var mine := Delivery(a.host, FrameLine(call, FreshSn(a)));
      && (SaidIn(call, round.tries) == [mine] ==> Count(SaidIn(call, round.tries), mine) == 1)
      && (SaidIn(call, round.tries) == [] ==> Count(SaidIn(call, round.tries), mine) == 0)
  {
    var mine := Delivery(a.host, FrameLine(call, FreshSn(a)));
    CountOne(mine, mine);
    hide SaidIn, FrameLine;
  }

  // ---------- it can happen whenever local is tried and there is a relay ----------

  /** An outside world that lets everything out and answers nothing: a connection held has been hung up, a new one
      takes the write, and so does the relay. Only the first reading of the clock moves it. */
  function SilentWorld(now: real, tick: Duration, held: bool, timeout: real, size: nat): Outside {
    Outside((if held then [Silent] else []) + [Good, Wrote(size)] + Unheard(timeout) + ToRelay(size),
            now, [tick], [], [])
  }

  /** One read that finds nothing, if there is time for one. */
  function Unheard(timeout: real): seq<Choice> {
    if timeout > 0.0 then [Silent] else []
  }

  function ToRelay(size: nat): seq<Choice> {
    [Good, Wrote(size), Wrote(size)]
  }

  /** As large as any packet this write may need, on either path, after at most one search. */
  function Room(d: Cloud.Endpoint, call: Call, n: int): nat
    requires ValidCall(call)
  {
    |Packet(Local.JobOf(call, n))| + |Cloud.Packet(RelayCodec.SubscribeFields(d.id, d.key))|
    + |Publication(d, call, NextSn(n, 0))| + |Publication(d, call, NextSn(NextSn(n, 0), 0))|
  }

  function Publication(d: Cloud.Endpoint, call: Call, n: int): Bytes
    requires ValidCall(call)
  {
    Cloud.Packet(RelayCodec.PublishFields(d.id, d.key, FrameOf(call, IntText(n))))
  }

  /** The world `w` has nothing left but these choices, at most one tick, and no dates and replies. */
  predicate OnlyLeft(w: Outside, choices: seq<Choice>, ticks: nat) {
    w.choices == choices && |w.ticks| <= ticks && w.wall == [] && w.replies == []
  }

  lemma SilentDecided(u: Wiring, b: Breaker.State, a: Snapshot)
    requires |a.ahead.ticks| <= 1 && a.ahead.wall == [] && a.ahead.replies == []
    ensures var d := Decide(u.breaker, b, a).at;
      d == a.(ahead := d.ahead) && OnlyLeft(d.ahead, a.ahead.choices, 1)
  {
  }

  /** Nothing is read, and one choice is spent if there is time. */
  lemma NothingRead(w: Outside, timeout: real, sn: string, more: seq<Choice>)
    requires OnlyLeft(w, Unheard(timeout) + more, 1)
    ensures var f := Local.Awaited([], w, timeout, sn);
      f.outcome.NoAnswer? && f.held.None? && OnlyLeft(f.left, more, 0)
  {
    var v := Tick(w);
    assert v.ticks == [] && Tick(v) == v;
    var deadline := v.now + timeout;
    assert !Turnout(v, deadline).Chunk? && Turnout(v, deadline).Silent?;
    NothingComing([], v, deadline);
    assert Turned(v, deadline).choices == more;
  }

  lemma SilentAnew(job: Job, w: Outside, timeout: real, size: nat, more: seq<Choice>)
    requires job.Exchange? && size >= |Packet(job)|
    requires OnlyLeft(w, [Good, Wrote(size)] + Unheard(timeout) + more, 1)
    ensures var f := Local.ExpectedAnew(job, w, timeout);
      f.outcome.NoAnswer? && f.held.None? && OnlyLeft(f.left, more, 0)
  {
    hide Local.Awaited, Packet;
    assert w.choices[1..] == [Wrote(size)] + Unheard(timeout) + more;
    assert Later(w).choices[1..] == Unheard(timeout) + more;
    NothingRead(Later(Later(w)), timeout, job.sn, more);
  }

  lemma SilentLocally(job: Job, held: Option<Bytes>, w: Outside, timeout: real, size: nat, more: seq<Choice>)
    requires job.Exchange? && size >= |Packet(job)|
    requires OnlyLeft(w, (if held.Some? then [Silent] else []) + [Good, Wrote(size)] + Unheard(timeout) + more, 1)
    ensures var f := Local.Expected(job, held, w, timeout);
      f.outcome.NoAnswer? && f.held.None? && OnlyLeft(f.left, more, 0)
  {
    hide Local.ExpectedAnew;
    var anew := [Good, Wrote(size)] + Unheard(timeout) + more;
    if held.Some? {
      assert w.choices == [Silent] + anew;
      assert Later(w).choices == anew;
      SilentAnew(job, Later(w), timeout, size, more);
    } else {
      assert w.choices == anew;
      SilentAnew(job, w, timeout, size, more);
    }
  }

  /** After a failed write in a silent world, one search has happened or none. */
  lemma SilentBetween(u: Wiring, b: Breaker.State, call: Call, a: Snapshot, more: seq<Choice>)
    requires ValidCall(call) && call.Control? && Decide(u.breaker, b, a).tries
    requires var f := FateOf(u.target, call, Decide(u.breaker, b, a).at);
      f.outcome.NoAnswer? && OnlyLeft(f.left, more, 0)
    ensures var m := Between(u, b, call, a);
      OnlyLeft(m.ahead, more, 0) && FreshSn(m) in {NextSn(FreshSn(Decide(u.breaker, b, a).at), 0),
                                               NextSn(NextSn(FreshSn(Decide(u.breaker, b, a).at), 0), 0)}
  {
    hide FateOf, Sought;
  }

  lemma SilentPublishes(d: Cloud.Endpoint, call: Call, n: int, w: Outside, size: nat)
    requires ValidCall(call) && OnlyLeft(w, ToRelay(size), 0)
    requires size >= |Cloud.Packet(RelayCodec.SubscribeFields(d.id, d.key))| && size >= |Publication(d, call, n)|
    ensures Cloud.Publishes(d, FrameOf(call, IntText(n)), Dated(w))
    ensures Cloud.Expected(d, FrameOf(call, IntText(n)), IntText(n), Dated(w)).reply.None?
  {
    hide Cloud.Packet;
    var v := Dated(w);
    assert Tick(v) == v && v.choices == ToRelay(size);
    assert Later(v).choices == [Wrote(size), Wrote(size)] && Later(Later(v)).choices == [Wrote(size)];
    var end := Later(Later(Later(v)));
    assert end.choices == [] && end.ticks == [];
    NothingComing([], end, v.now + d.timeout);
    assert Coming([], end, v.now + d.timeout) == [];
  }

  /** So a silent world has any write sent twice, whatever is held, if local is tried. */
  lemma SilentGoesTwice(u: Wiring, b: Breaker.State, call: Call, a: Snapshot, size: nat, tick: Duration)
    requires ValidCall(call) && call.Control? && u.relay.Some? && Decide(u.breaker, b, a).tries
    requires a.ahead == SilentWorld(a.ahead.now, tick, a.held.Some?, u.target.timeout, size)
    requires size >= Room(u.relay.value, call, FreshSn(a))
    ensures GoesTwice(u, b, call, a)
    ensures FateOf(u.target, call, Decide(u.breaker, b, a).at).outcome.NoAnswer?
    ensures RelayFate(u.relay.value, call, Between(u, b, call, a)).reply.None?
  {
    hide Between, Local.Expected, Packet, Cloud.Packet, Cloud.Expected, Cloud.Publishes, FrameOf;
    var d := Decide(u.breaker, b, a).at;
    SilentDecided(u, b, a);
    var head: seq<Choice> := if a.held.Some? then [Silent] else [];
    assert d.ahead.choices == head + [Good, Wrote(size)] + Unheard(u.target.timeout) + ToRelay(size);
    SilentLocally(Local.JobOf(call, FreshSn(d)), d.held, Dated(d.ahead), u.target.timeout, size, ToRelay(size));
    SilentBetween(u, b, call, a, ToRelay(size));
    var m := Between(u, b, call, a);
    SilentPublishes(u.relay.value, call, FreshSn(m), m.ahead, size);
  }

  // ---------- the guard ----------

  /** Some outside world, and some state before it, in which this write is sent twice, local being decided on at
      `check`. */
  ghost predicate MayGoTwice(u: Wiring, b: Breaker.State, call: Call, check: real) {
    exists x: Called :: TwiceAt(u, b, call, check, x)
  }

  ghost predicate TwiceAt(u: Wiring, b: Breaker.State, call: Call, check: real, x: Called) {
    && x.call == call && x.breaker == b && Happened(u, x) && x.round.request.check == check
    && HeardOnBoth(u.relay, call, x.before, x.after)
  }

  /** At most once end to end, in every outside world, is exactly what a client gets that has no relay, or that the
      breaker keeps off local at the time. */
  lemma OnceEndToEnd(u: Wiring, b: Breaker.State, payload: Payload, check: real)
    requires ValidPayload(payload) && PlainEndpoint(u.relay) && (u.breaker.hasCloud <==> u.relay.Some?)
    ensures !MayGoTwice(u, b, Call.Control(payload), check) <==>
      u.relay.None? || !Breaker.TriesLocal(u.breaker, b, check)
  {
    var call := Call.Control(payload);
    if u.relay.Some? && Breaker.TriesLocal(u.breaker, b, check) {
      var x := TwiceInSilence(u, b, payload, check);
      assert TwiceAt(u, b, call, check, x);
    }
    forall x: Called | TwiceAt(u, b, call, check, x)
      ensures u.relay.Some? && Breaker.TriesLocal(u.breaker, b, check)
    {
      WrittenTwice(u, b, call, x.round, x.reply, x.before, x.after);
      LocalInTime(u, b, call, x.before);
      hide Between, FateOf, UsedLocally, Relayed, Cloud.Publishes, HeardOnBoth;
    }
  }

  /** The call as it goes in a silent world. */
  lemma TwiceInSilence(u: Wiring, b: Breaker.State, payload: Payload, check: real) returns (x: Called)
    requires ValidPayload(payload) && PlainEndpoint(u.relay) && u.relay.Some? && u.breaker.hasCloud
    requires Breaker.TriesLocal(u.breaker, b, check)
    ensures TwiceAt(u, b, Call.Control(payload), check, x)
  {
    hide Between, FateOf, Room, Cloud.Publishes, Decide, Locally, FrameOf, Cloud.Script;
    var call := Call.Control(payload);
    var size := Room(u.relay.value, call, NextSn(0, 0));
    var a := Snapshot("", [], [], 0, 0, None, SilentWorld(check, 0.0, false, u.target.timeout, size));
    DecidedAt(u.breaker, b, a, check);
    SilentGoesTwice(u, b, call, a, size, 0.0);
    x := CallInSilence(u, b, call, a);
    WrittenTwice(u, b, call, x.round, x.reply, a, x.after);
    hide HeardOnBoth, Served;
  }

  lemma DecidedAt(s: Breaker.Settings, b: Breaker.State, a: Snapshot, check: real)
    requires a.ahead.now == check && (a.ahead.ticks == [] || a.ahead.ticks == [0.0]) && Breaker.TriesLocal(s, b, check)
    ensures Decide(s, b, a).tries && Decide(s, b, a).check == check
  {
  }

  /** A write that goes twice, from a state without connections: the connections it leaves, and what it says on them. */
  lemma CallInSilence(u: Wiring, b: Breaker.State, call: Call, a: Snapshot) returns (x: Called)
    requires ValidCall(call) && call.Control? && GoesTwice(u, b, call, a) && a.conns == []
    requires FateOf(u.target, call, Decide(u.breaker, b, a).at).outcome.NoAnswer?
    requires RelayFate(u.relay.value, call, Between(u, b, call, a)).reply.None?
    ensures x.call == call && x.breaker == b && x.before == a && Happened(u, x)
    ensures x.round.request.check == Decide(u.breaker, b, a).check
  {
    hide UsedLocally, Relayed, Between, FateOf, TryOf, RelayFate, LostConn, FreshSn, RequestOf, Decide, Cloud.Publishes;
    var m, t := Between(u, b, call, a), TryOf(u.target, call, Decide(u.breaker, b, a).at);
    var f := RelayFate(u.relay.value, call, m);
    var lost, conn := LostConn(call, t), Conn(u.relay.value.host, f.sent, [], false);
    var between := m.(conns := [lost]);
    var after := between.(conns := [lost] + [conn], lastSn := FreshSn(m), ahead := f.left);
    var round := Round(RequestOf(u, b, call, a), [t], None, between, Some(Cloud.Visit(Some(conn), None)));
    x := Called(call, round, None, b, a, after);
    LostLocally(u, b, call, a, round);
    Connects(u.relay.value, call, m);
    SilentRelayed(u, b, call, a, between, conn, after);
    CheckOf(u, b, call, a);
  }

  lemma Connects(d: Cloud.Endpoint, call: Call, m: Snapshot)
    requires ValidCall(call) && Cloud.Publishes(d, FrameOf(call, IntText(FreshSn(m))), Dated(m.ahead))
    ensures RelayFate(d, call, m).connects
  {
    hide FrameOf, Cloud.Expected;
    Cloud.PublishesAll(d, FrameOf(call, IntText(FreshSn(m))), IntText(FreshSn(m)), Dated(m.ahead));
  }

  lemma CheckOf(u: Wiring, b: Breaker.State, call: Call, a: Snapshot)
    requires ValidCall(call)
    ensures RequestOf(u, b, call, a).check == Decide(u.breaker, b, a).check
  {
    hide Between, LocalServes, RelayServes, Decide;
  }

  /** The connection of a write that got no answer. */
  function LostConn(call: Call, t: Try): Conn
    requires ValidCall(call)
  {
    Conn(t.host, Packet(Local.JobOf(call, t.n)), [], false)
  }

  lemma LostLocally(u: Wiring, b: Breaker.State, call: Call, a: Snapshot, round: Round)
    requires ValidCall(call) && call.Control? && Decide(u.breaker, b, a).tries && a.conns == []
    requires FateOf(u.target, call, Decide(u.breaker, b, a).at).outcome.NoAnswer?
    requires var t := TryOf(u.target, call, Decide(u.breaker, b, a).at);
      && round.tries == [t] && round.localReply == None
      && round.between == Between(u, b, call, a).(conns := [LostConn(call, t)])
    ensures UsedLocally(u, b, call, round, a)
  {
    hide FateOf, Adds, SaidIn, LostConn, Between, Locally;
    var t := TryOf(u.target, call, Decide(u.breaker, b, a).at);
    LostHeard(call, t, LostConn(call, t));
    OneTry(u, b, call, a);
  }

  lemma SilentRelayed(u: Wiring, b: Breaker.State, call: Call, a: Snapshot,
                     between: Snapshot, conn: Conn, after: Snapshot)
    requires ValidCall(call) && u.relay.Some?
    requires var m := Between(u, b, call, a);
      && between == m.(conns := between.conns)
      && var f := RelayFate(u.relay.value, call, m);
         && f.connects && f.reply.None? && conn == Conn(u.relay.value.host, f.sent, [], false)
         && after == between.(conns := between.conns + [conn], lastSn := FreshSn(m), ahead := f.left)
    ensures Relayed(u.relay, call, None, Some(Cloud.Visit(Some(conn), None)), None, between, after)
  {
    hide Between, Cloud.Expected, Cloud.Served, FrameOf;
    var m := Between(u, b, call, a);
    SilentVisit(u.relay.value, call, FreshSn(m), Dated(m.ahead), between.conns, conn,
                RelayFate(u.relay.value, call, m));
  }

  lemma OneTry(u: Wiring, b: Breaker.State, call: Call, a: Snapshot)
    requires ValidCall(call) && call.Control? && Decide(u.breaker, b, a).tries
    requires FateOf(u.target, call, Decide(u.breaker, b, a).at).outcome.NoAnswer?
    ensures Locally(u, b, call, a).tries == [TryOf(u.target, call, Decide(u.breaker, b, a).at)]
    ensures Locally(u, b, call, a).reply.None? && Between(u, b, call, a).conns == a.conns
  {
    hide FateOf, Sought;
  }

  lemma LostHeard(call: Call, t: Try, lost: Conn)
    requires ValidCall(call) && t.outcome.NoAnswer? && lost == LostConn(call, t)
    ensures Adds([], [lost], SaidIn(call, [t]))
  {
    var line := Local.JobOf(call, t.n).line;
    EncodedIsOneLine(FrameOf(call, IntText(t.n)));
    Cloud.AddsConnection([], lost);
    assert [] + [lost] == [lost];
    SaidOnce(call, t);
    assert Cloud.Deliver(t.host, [line]) == [Delivery(t.host, line)];
    hide Lines, FrameOf, Adds, SaidIn, Bare;
  }

  lemma SilentVisit(d: Cloud.Endpoint, call: Call, n: int, w: Outside, before: seq<Conn>, conn: Conn, f: Cloud.Fate)
    requires ValidCall(call) && f == Cloud.Expected(d, FrameOf(call, IntText(n)), IntText(n), w)
    requires f.connects && f.reply.None? && conn == Conn(d.host, f.sent, [], false)
    ensures Cloud.Served(d, call, n, w, before, Cloud.Visit(Some(conn), None), before + [conn], f.left)
  {
    hide Cloud.Script, FrameOf, Cloud.Expected;
    Cloud.PublishesAll(d, FrameOf(call, IntText(n)), IntText(n), w);
    Cloud.Unanswered(conn, d, FrameOf(call, IntText(n)), IntText(n));
  }

  // ---------- a client that sends a write twice ----------

  lemma SilentDecides(s: Breaker.Settings, b: Breaker.State, a: Snapshot, check: real)
    requires a.ahead.now <= check && a.ahead.ticks == [check - a.ahead.now] && Breaker.TriesLocal(s, b, check)
    ensures Decide(s, b, a).tries
  {
  }

  /** From here on the outside world is silent. */
  method MakeSilent(client: FallbackClient, tick: Duration, size: nat)
    requires client.Valid()
    modifies client.rt`choices, client.rt`ticks, client.rt`wall, client.rt`replies
    ensures client.Valid()
    ensures var before := old(client.local.Snap());
      client.local.Snap() ==
        before.(ahead := SilentWorld(before.ahead.now, tick, before.held.Some?, client.local.timeout, size))
  {
    hide Accounted, Spaced, AtRest;
    var rt := client.rt;
    ghost var before := client.local.Snap();
    var w := SilentWorld(rt.now, tick, client.local.transport.conn != null, client.local.timeout, size);
    rt.choices, rt.ticks, rt.wall, rt.replies := w.choices, w.ticks, w.wall, w.replies;
    AddsNothing(before.conns, before.conns);
    AccountedStill(client.Wired(), client.State(), client.birth, client.life, before, client.local.Snap());
  }

  /** A real client in any state it can reach, with a relay and with local to be tried at `check`: in a silent world its
      `control` makes the device hear the write once more and the relay too. */
  method WriteTwice(client: FallbackClient, payload: Payload, check: real)
      returns (r: Option<bool>, ghost n: int, ghost m: int)
    requires client.Valid() && client.cloud != null && PlainEndpoint(client.Relay()) && ValidPayload(payload)
    requires client.rt.now <= check && Breaker.TriesLocal(client.settings, client.State(), check)
    modifies client.Footprint(), client.rt
    ensures client.Valid()
    ensures var call, relay := Call.Control(payload), client.Relay().value;
      var mine := Delivery(old(client.local.host), FrameLine(call, n));
      var theirs := Delivery(relay.host, RelayLine(relay, call, m));
      && Heard(client.rt.conns, mine) > old(Heard(client.rt.conns, mine))
      && Heard(client.rt.conns, theirs) > old(Heard(client.rt.conns, theirs))
  {
    hide GoesTwice, Served, Heard, FrameLine, RelayLine, Room, SilentWorld, Accounted, Spaced, AtRest;
    var call, first := Call.Control(payload), NextSn(client.rt.lastSn, 0);
    var size := Room(client.cloud.device, call, first);
    MakeSilent(client, check - client.rt.now, size);
    ghost var a, b := client.local.Snap(), client.State();
    SilentStart(a, check, client.local.timeout, size);
    SilentDecides(client.settings, b, a, check);
    SilentGoesTwice(client.Wired(), b, call, a, size, check - client.rt.now);
    ghost var round;
    r, round := client.Control(payload);
    n, m := FreshSn(a), client.rt.lastSn;
    WrittenTwice(client.Wired(), b, call, round, AsVerdict(r), a, client.local.Snap());
  }

  lemma SilentStart(a: Snapshot, check: real, timeout: real, size: nat)
    requires a.ahead.now <= check
    requires a.ahead == SilentWorld(a.ahead.now, check - a.ahead.now, a.held.Some?, timeout, size)
    ensures a.ahead.ticks == [check - a.ahead.now] && FreshSn(a) == NextSn(a.lastSn, 0)
  {
  }
}
