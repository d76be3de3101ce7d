/** Local first, the cloud if need be: the whole client (api/fallback.py). */
module Fallback {
  import opened Prelude
  import opened Decimal
  import opened JsonText
  import opened Protocol
  import opened Environment
  import opened Framing
  import opened Deliveries
  import opened LocalSteps
  import opened Wire
  import opened Discovery
  import opened Rediscovering
  import Breaker
  import Cloud
  import Local
  import RelayCodec

  datatype Path = LocalPath | CloudPath

  /** How a client is put together: breaker settings, the device tracked, and the relay if there is one. */
  datatype Wiring = Wiring(breaker: Breaker.Settings, target: Target, relay: Option<Cloud.Endpoint>)

  // ---------- what the outside world makes of a call ----------

  /** Whether local is tried, the clock when that was decided and when a probe was stamped, and the state then. */
  datatype Decision = Decision(tries: bool, check: real, probe: real, at: Snapshot)

  /** The clock is read only with a relay to go to and the circuit open. */
  function Decide(s: Breaker.Settings, b: Breaker.State, a: Snapshot): Decision {
    if !s.hasCloud || b.openedAt.None? then Decision(true, a.ahead.now, a.ahead.now, a)
    else
      var w := Tick(a.ahead);
      if Breaker.TriesLocal(s, b, w.now) then Decision(true, w.now, Tick(w).now, a.(ahead := Tick(w)))
      else Decision(false, w.now, w.now, a.(ahead := w))
  }

  /** One more failure opens the circuit. */
  predicate Trips(s: Breaker.Settings, b: Breaker.State) {
    b.openedAt.None? && s.hasCloud && b.failures + 1 >= s.threshold
  }

  /** The state after a local reply or failure has been recorded; the clock is read if the circuit opens. */
  function Recorded(s: Breaker.Settings, b: Breaker.State, reply: Option<Reply>, m: Snapshot): Snapshot {
    if reply.None? && Trips(s, b) then m.(ahead := Tick(m.ahead)) else m
  }

  /** What is done locally. */
  function Locally(u: Wiring, b: Breaker.State, call: Call, a: Snapshot): Use
    requires ValidCall(call)
  {
    var d := Decide(u.breaker, b, a);
    if d.tries then UseOf(u.target, call, d.at) else Use([], None, d.at)
  }

  /** The state, up to the connections, once that is recorded. */
  function Between(u: Wiring, b: Breaker.State, call: Call, a: Snapshot): Snapshot
    requires ValidCall(call)
  {
    var use := Locally(u, b, call, a);
    if Decide(u.breaker, b, a).tries then Recorded(u.breaker, b, use.reply, use.end) else use.end
  }

  /** What a visit to the relay comes to from there. */
  function RelayFate(d: Cloud.Endpoint, call: Call, m: Snapshot): Cloud.Fate
    requires ValidCall(call)
  {
    Cloud.Expected(d, FrameOf(call, IntText(FreshSn(m))), IntText(FreshSn(m)), Dated(m.ahead))
  }

  /** Local, used now, would answer. */
  predicate LocalServes(v: Target, call: Call, a: Snapshot)
    requires ValidCall(call)
  {
    UseOf(v, call, a).reply.Some?
  }

  predicate RelayServes(relay: Option<Cloud.Endpoint>, call: Call, m: Snapshot)
    requires ValidCall(call)
  {
    relay.Some? && Cloud.ResultOf(call, RelayFate(relay.value, call, m).reply).Some?
  }

  /** The call as the breaker sees it: its clock readings, whether local served it, and whether the relay would.
      What local would have done had it been tried is not decided by what happens instead. */
  function RequestOf(u: Wiring, b: Breaker.State, call: Call, a: Snapshot): Breaker.Request
    requires ValidCall(call)
  {
    var d, m := Decide(u.breaker, b, a), Between(u, b, call, a);
    Breaker.Request(d.check, d.probe, m.ahead.now,
                    d.tries && LocalServes(u.target, call, d.at), RelayServes(u.relay, call, m))
  }

  /** A world that local is tried in, or that it might have been tried in if the breaker skipped it. */
  predicate MayFind(d: Decision, w: Outside) {
    d.tries ==> w == d.at.ahead
  }

  /** In that world local, used now, would answer. */
  predicate LocalWould(v: Target, call: Call, d: Decision, w: Outside)
    requires ValidCall(call)
  {
    LocalServes(v, call, d.at.(ahead := w))
  }

  /** What serving one call came to: the request as the breaker saw it, the local tries and their result,
      the state in between, and the visit to the relay. */
  datatype Round = Round(request: Breaker.Request, tries: seq<Try>, localReply: Option<Reply>,
                         between: Snapshot, visit: Option<Cloud.Visit>)

  /** The relay is asked exactly if there is one and local gave no answer, whether untried or failed. */
  ghost predicate Relayed(relay: Option<Cloud.Endpoint>, call: Call, localReply: Option<Reply>, v: Option<Cloud.Visit>,
                          r: Option<Reply>, m: Snapshot, after: Snapshot)
  {
    if relay.Some? && localReply.None?
    then && v.Some? && r == Cloud.ResultOf(call, v.value.reply)
         && after == m.(conns := after.conns, lastSn := FreshSn(m), ahead := after.ahead)
         && Cloud.Served(relay.value, call, FreshSn(m), Dated(m.ahead), m.conns, v.value, after.conns, after.ahead)
    else v.None? && r == localReply && after == m
  }

  /** What is done locally was done, and the tries made all that was heard. */
  ghost predicate UsedLocally(u: Wiring, b: Breaker.State, call: Call, round: Round, a: Snapshot) {
    && ValidCall(call)
    && round.tries == Locally(u, b, call, a).tries && round.localReply == Locally(u, b, call, a).reply
    && round.between.(conns := a.conns) == Between(u, b, call, a)
    && Grows(a.conns, round.between.conns) && Adds(a.conns, round.between.conns, SaidIn(call, round.tries))
  }

  /** A call is served exactly as the outside world decides: local is used if the breaker lets it, and then the
      relay as above. */
  ghost predicate Served(u: Wiring, b: Breaker.State, call: Call,
                         round: Round, r: Option<Reply>, before: Snapshot, after: Snapshot)
  {
    && UsedLocally(u, b, call, round, before)
    && round.request == RequestOf(u, b, call, before)
    && Relayed(u.relay, call, round.localReply, round.visit, r, round.between, after)
  }

  /** Connections do not decide anything. */
  lemma RelayFateIgnoresConns(d: Cloud.Endpoint, call: Call, m: Snapshot, conns: seq<Conn>)
    requires ValidCall(call)
    ensures RelayFate(d, call, m.(conns := conns)) == RelayFate(d, call, m)
  {
    hide Cloud.Expected, FrameOf;
  }

  /** A call is answered exactly if local is tried and would answer, or the relay, if there is one, would; so it does
      not matter what local would have done if it is skipped. */
  lemma AnsweredExactly(u: Wiring, b: Breaker.State, call: Call,
                        round: Round, r: Option<Reply>, before: Snapshot, after: Snapshot, w: Outside)
    requires Served(u, b, call, round, r, before, after) && (u.breaker.hasCloud <==> u.relay.Some?)
    requires MayFind(Decide(u.breaker, b, before), w)
    ensures var d, m := Decide(u.breaker, b, before), Between(u, b, call, before);
      && (r.Some? <==> (d.tries && LocalWould(u.target, call, d, w)) || RelayServes(u.relay, call, m))
      && (r.Some? <==> Breaker.Answered(u.breaker, b,
                                        round.request.(localWorks := LocalWould(u.target, call, d, w))))
  {
    AnsweredByTried(u, b, call, round, r, before, after);
    LocalInTime(u, b, call, before);
    hide UseOf, UsedLocally, Relayed, RelayServes, Between;
  }

  lemma AnsweredByTried(u: Wiring, b: Breaker.State, call: Call,
                        round: Round, r: Option<Reply>, before: Snapshot, after: Snapshot)
    requires Served(u, b, call, round, r, before, after) && (u.breaker.hasCloud <==> u.relay.Some?)
    ensures var d, m := Decide(u.breaker, b, before), Between(u, b, call, before);
      r.Some? <==> (d.tries && LocalServes(u.target, call, d.at)) || RelayServes(u.relay, call, m)
  {
    hide UseOf, Adds, Grows, SaidIn, Cloud.Expected, Cloud.ResultOf, FreshSn, FrameOf;
    if round.visit.Some? {
      VisitFate(u.relay.value, call, round.between, round.visit.value, after);
      RelayFateIgnoresConns(u.relay.value, call, round.between, before.conns);
    }
  }

  lemma VisitFate(d: Cloud.Endpoint, call: Call, m: Snapshot, v: Cloud.Visit, after: Snapshot)
    requires Cloud.Served(d, call, FreshSn(m), Dated(m.ahead), m.conns, v, after.conns, after.ahead)
    ensures v.reply == RelayFate(d, call, m).reply && after.ahead == RelayFate(d, call, m).left
  {
    hide Cloud.Expected, FrameOf, Cloud.Exchanged;
  }

  /** What is said of local uses in general, for the local part of a call. */
  lemma UsedByRules(u: Wiring, b: Breaker.State, call: Call, round: Round, a: Snapshot)
    requires UsedLocally(u, b, call, round, a)
    ensures a.lastSn <= round.between.lastSn
    ensures |a.searches| <= |round.between.searches| <= |a.searches| + if round.tries == [] then 0 else 1
    ensures round.tries != [] ==> Attempted(call, round.tries, a, round.between, round.localReply)
    ensures round.tries == [] <==> !Decide(u.breaker, b, a).tries
  {
    hide Adds, Grows, SaidIn, Attempted, UseOf;
    var d := Decide(u.breaker, b, a);
    if d.tries {
      var use := UseOf(u.target, call, d.at);
      var end := use.end.(conns := round.between.conns);
      assert Used(u.target, call, round.tries, round.localReply, d.at, end);
      UseFollowsRules(u.target, call, round.tries, round.localReply, d.at, end);
      AttemptedAnyway(call, round.tries, d.at, end, a, round.between, round.localReply);
    }
  }

  lemma AttemptedAnyway(call: Call, tries: seq<Try>, a: Snapshot, b: Snapshot, a': Snapshot, b': Snapshot,
                        r: Option<Reply>)
    requires Attempted(call, tries, a, b, r)
    requires a'.host == a.host && a'.lastSn == a.lastSn && b'.host == b.host && b'.lastSn == b.lastSn
    ensures Attempted(call, tries, a', b', r) && tries != [] && a'.lastSn < b'.lastSn
  {
    hide Local.ResultOf, Fitting;
  }

  /** One call served, the breaker standing at `breaker`. */
  datatype Called = Called(call: Call, round: Round, reply: Option<Reply>, breaker: Breaker.State,
                           before: Snapshot, after: Snapshot)

  ghost predicate Happened(u: Wiring, x: Called) {
    Served(u, x.breaker, x.call, x.round, x.reply, x.before, x.after)
  }

  /** The requests of a life, as the breaker sees them. */
  function Requests(life: seq<Called>): seq<Breaker.Request> {
    seq(|life|, i requires 0 <= i < |life| => life[i].round.request)
  }

  /** Between calls nothing is said and nothing searched; connections may be closed, clocks go on, other frames
      may draw numbers. */
  ghost predicate Quiet(a: Snapshot, b: Snapshot) {
    Adds(a.conns, b.conns, []) && a.lastSn <= b.lastSn && a.searches == b.searches && a.ahead.now <= b.ahead.now
  }

  function End(start: Snapshot, life: seq<Called>): Snapshot {
    if life == [] then start else life[|life| - 1].after
  }

  /** Calls served one after another from `start` on, the breaker standing where the calls before have brought it. */
  ghost predicate Life(u: Wiring, start: Snapshot, life: seq<Called>) {
    life == [] ||
    var n := |life| - 1;
    && Life(u, start, life[..n])
    && Quiet(End(start, life[..n]), life[n].before)
    && life[n].breaker == Breaker.After(u.breaker, Breaker.INITIAL, Requests(life[..n]))
    && Happened(u, life[n])
  }

  lemma LifeGrows(u: Wiring, start: Snapshot, life: seq<Called>, x: Called)
    requires Life(u, start, life) && Quiet(End(start, life), x.before) && Happened(u, x)
    requires x.breaker == Breaker.After(u.breaker, Breaker.INITIAL, Requests(life))
    ensures Life(u, start, life + [x])
    ensures Quiet(End(start, life + [x]), x.after)
  {
    hide Happened;
    assert (life + [x])[..|life|] == life;
    AddsNothing(x.after.conns, x.after.conns);
  }

  lemma QuietTrans(a: Snapshot, b: Snapshot, c: Snapshot)
    requires Quiet(a, b) && Quiet(b, c)
    ensures Quiet(a, c)
  {
    var nothing: seq<Delivery> := [];
    AddsTrans(a.conns, b.conns, c.conns, nothing, nothing);
    assert nothing + nothing == nothing;
  }

  // ---------- what the whole stack makes anybody hear ----------

  function RelayHeard(round: Round): seq<Delivery> {
    if round.visit.Some? then Cloud.SaidBy(round.visit.value) else []
  }

  ghost predicate PlainEndpoint(relay: Option<Cloud.Endpoint>) {
    relay.Some? ==> RelayCodec.Plain(relay.value.id) && RelayCodec.Plain(relay.value.key)
  }

  /** The subscription and publication a call sends to the relay. */
  function RelayScript(d: Cloud.Endpoint, call: Call, n: int): seq<Delivery>
    requires ValidCall(call)
  {
    [Delivery(d.host, Cloud.Subscription(d)), Delivery(d.host, Cloud.Publication(d, FrameOf(call, IntText(n))))]
  }

  /** Effect bound: serving a call makes the local listeners hear its frame at most once each, a write at most once
      in all, and the relay hear at most one subscription and then one publication of it; the relay hears nothing
      once local has answered, with a refusal too. Nobody hears anything else. */
  lemma EffectBound(u: Wiring, b: Breaker.State, call: Call,
                    round: Round, r: Option<Reply>, before: Snapshot, after: Snapshot)
    requires Served(u, b, call, round, r, before, after) && PlainEndpoint(u.relay)
    ensures var heard, relayed := SaidIn(call, round.tries), RelayHeard(round);
      && Adds(before.conns, after.conns, heard + relayed)
      && |heard| <= (if call.Control? then 1 else 2)
      && (forall i, j | 0 <= i < j < |heard| :: heard[i].host != heard[j].host)
      && (relayed != [] ==>
            u.relay.Some? && round.localReply.None? && relayed <= RelayScript(u.relay.value, call, after.lastSn))
      && (round.localReply.Some? ==> r == round.localReply && relayed == [])
  {
    hide Adds, SaidIn, Cloud.SaidBy, Cloud.Served, RelayScript, Attempted, Grows, Locally, Between, RequestOf;
    LocalPart(u, b, call, round, before);
    RelayPart(u.relay, call, round, r, after);
    AddsTrans(before.conns, round.between.conns, after.conns, SaidIn(call, round.tries), RelayHeard(round));
  }

  lemma LocalPart(u: Wiring, b: Breaker.State, call: Call, round: Round, before: Snapshot)
    requires UsedLocally(u, b, call, round, before)
    ensures Adds(before.conns, round.between.conns, SaidIn(call, round.tries))
    ensures |SaidIn(call, round.tries)| <= (if call.Control? then 1 else 2)
    ensures forall i, j | 0 <= i < j < |SaidIn(call, round.tries)| ::
      SaidIn(call, round.tries)[i].host != SaidIn(call, round.tries)[j].host
  {
    hide Adds, Grows, Locally, Between, SaidIn, Attempted, FrameOf;
    UsedByRules(u, b, call, round, before);
    if round.tries == [] {
      SaidNothing(call);
    } else {
      FramesHeard(call, round.tries, before, round.between, round.localReply);
      TriesBounded(call, round.tries, before, round.between, round.localReply);
    }
  }

  lemma TriesBounded(call: Call, tries: seq<Try>, a: Snapshot, b: Snapshot, r: Option<Reply>)
    requires Attempted(call, tries, a, b, r)
    ensures |tries| <= if call.Control? then 1 else 2
  {
    hide Local.ResultOf, Fitting;
  }

  lemma RelayPart(relay: Option<Cloud.Endpoint>, call: Call, round: Round, r: Option<Reply>, after: Snapshot)
    requires Relayed(relay, call, round.localReply, round.visit, r, round.between, after)
    requires ValidCall(call) && PlainEndpoint(relay)
    ensures Adds(round.between.conns, after.conns, RelayHeard(round))
    ensures RelayHeard(round) != [] ==>
      relay.Some? && round.localReply.None? && RelayHeard(round) <= RelayScript(relay.value, call, after.lastSn)
  {
    hide Adds, Cloud.SaidBy, Cloud.Served, Cloud.Subscription, Cloud.Publication, FrameOf, Cloud.ResultOf;
    if round.visit.Some? {
      Cloud.VisitHeard(relay.value, call, after.lastSn, Dated(round.between.ahead), round.between.conns,
                       round.visit.value, after.conns, after.ahead);
    } else {
      AddsNothing(after.conns, after.conns);
    }
  }

  lemma SaidNothing(call: Call)
    requires ValidCall(call)
    ensures SaidIn(call, []) == []
  {
  }

  /** The frame that answered a call: the relay's report if the relay was asked, and otherwise the device's reply. */
  function AnswerOf(round: Round): Option<Frame> {
    if round.visit.Some? then round.visit.value.reply else LastAnswer(round.tries)
  }

  /** What a call comes to is what that frame says: the values under `data` of its `msg` for a query, and for a write
      whether its `res` is 0. */
  lemma ServedSays(u: Wiring, b: Breaker.State, call: Call,
                   round: Round, r: Option<Reply>, before: Snapshot, after: Snapshot)
    requires Served(u, b, call, round, r, before, after)
    ensures var f := AnswerOf(round);
      match call
      case Control(_) =>
        r == if f.None? then None
             else Some(Acknowledged(Get(f.value, "res") == Some(Number(0)) || Get(f.value, "res") == Some(Bool(false))))
      case Query(_) =>
        && (r.Some? ==> r.value.Readings?)
        && forall data: Dict<string, Json> :: r == Some(Readings(data)) <==> f.Some? && HoldsData(f.value, data)
  {
    hide Adds, Grows, SaidIn, UseOf, HoldsData, Get, Understand, Decode, LastAnswer, RequestOf, Between, Cloud.Served;
    if round.visit.Some? {
      var reply := round.visit.value.reply;
      if reply.Some? {
        match call
        case Control(payload) => VerdictSays(payload, reply.value);
        case Query(attrs) => ReadingsSay(attrs, reply.value);
      }
    } else {
      LocallySays(u, b, call, round, before);
    }
  }

  lemma LocallySays(u: Wiring, b: Breaker.State, call: Call, round: Round, a: Snapshot)
    requires UsedLocally(u, b, call, round, a)
    ensures var r, f := round.localReply, LastAnswer(round.tries);
      match call
      case Control(_) =>
        r == if f.None? then None
             else Some(Acknowledged(Get(f.value, "res") == Some(Number(0)) || Get(f.value, "res") == Some(Bool(false))))
      case Query(_) =>
        && (r.Some? ==> r.value.Readings?)
        && forall data: Dict<string, Json> :: r == Some(Readings(data)) <==> f.Some? && HoldsData(f.value, data)
  {
    hide Adds, Grows, SaidIn, UseOf, HoldsData, Get, Decode;
    var d := Decide(u.breaker, b, a);
    if d.tries {
      var end := UseOf(u.target, call, d.at).end.(conns := round.between.conns);
      assert Used(u.target, call, round.tries, round.localReply, d.at, end);
      UseSays(u.target, call, round.tries, round.localReply, d.at, end);
    }
  }

  /** Answers are of the kind that was asked for: readings, one value per datapoint, for a query. */
  lemma QueriesGetReadings(attrs: seq<int>, round: Round, u: Wiring, b: Breaker.State,
                           r: Option<Reply>, before: Snapshot, after: Snapshot)
    requires Served(u, b, Call.Query(attrs), round, r, before, after)
    ensures r.Some? ==> r.value.Readings? && Distinct(r.value.data)
  {
    hide Adds, Grows, Cloud.Served, Decode, Understand, Matches, Locally, Between, RequestOf;
    if round.localReply.Some? {
      UsedByRules(u, b, Call.Query(attrs), round, before);
      assert round.tries != [] by { NoTryNoReply(u, b, Call.Query(attrs), round, before); }
      var t := round.tries[|round.tries| - 1];
      ReadingsDistinct(attrs, t.outcome.line);
    } else if r.Some? {
      Cloud.ReportsGiveReadings(u.relay.value, attrs, after.lastSn, Dated(round.between.ahead), round.between.conns,
                                round.visit.value, after.conns, after.ahead);
    }
  }

  lemma NoTryNoReply(u: Wiring, b: Breaker.State, call: Call, round: Round, a: Snapshot)
    requires UsedLocally(u, b, call, round, a) && round.localReply.Some?
    ensures round.tries != []
  {
    hide FateOf, Adds, Grows, SaidIn, AfterSearch;
  }

  lemma WritesGetVerdicts(payload: Payload, round: Round, u: Wiring, b: Breaker.State,
                          r: Option<Reply>, before: Snapshot, after: Snapshot)
    requires Served(u, b, Call.Control(payload), round, r, before, after)
    ensures r.Some? ==> r.value.Acknowledged?
  {
    hide Adds, Grows, Cloud.Served, Between, RequestOf, FateOf, AfterSearch;
  }

  // ---------- what a client remembers ----------

  /** The breaker is where the requests in `h` have brought it, and no search happened without an attempt it let
      through. */
  ghost predicate Remembers(s: Breaker.Settings, b: Breaker.State, h: seq<Breaker.Request>, searches: nat, now: real) {
    && b == Breaker.After(s, Breaker.INITIAL, h)
    && Breaker.Monotone(h) && (h != [] ==> h[|h| - 1].record <= now)
    && searches <= |Breaker.Attempts(s, Breaker.INITIAL, h)|
  }

  lemma RemembersMore(s: Breaker.Settings, b: Breaker.State, h: seq<Breaker.Request>, searches: nat, now: real,
                      q: Breaker.Request, searches': nat, now': real)
    requires Remembers(s, b, h, searches, now)
    requires now <= q.check <= q.probe <= q.record <= now'
    requires searches' <= searches + if Breaker.TriesLocal(s, b, q.check) then 1 else 0
    ensures Remembers(s, Breaker.Serve(s, b, q), h + [q], searches', now')
  {
    assert (h + [q])[..|h|] == h;
    forall i | 0 <= i < |h| ensures h[i].record <= q.check {
      if i < |h| - 1 { assert h[i].record <= h[|h| - 1].check; }
    }
    hide Breaker.Serve, Breaker.TriesLocal;
  }

  /** Breaker, searches and everything heard follow from the calls served so far. */
  ghost predicate Accounted(u: Wiring, b: Breaker.State, birth: Snapshot, life: seq<Called>, at: Snapshot) {
    && Remembers(u.breaker, b, Requests(life), |at.searches|, at.ahead.now)
    && Life(u, birth, life) && Quiet(End(birth, life), at)
  }

  /** The clock runs forward through a call, and at most one search is made, and only if local is tried. */
  lemma CallInTime(u: Wiring, x: Called)
    requires Happened(u, x)
    ensures var q := x.round.request;
      && x.before.ahead.now <= q.check <= q.probe <= q.record <= x.after.ahead.now
      && |x.before.searches| <= |x.after.searches|
      && |x.after.searches| <= |x.before.searches| + if Breaker.TriesLocal(u.breaker, x.breaker, q.check) then 1 else 0
  {
    hide Adds, Grows, SaidIn, UseOf, LocalServes, RelayServes, Attempted, Cloud.ResultOf;
    UsedByRules(u, x.breaker, x.call, x.round, x.before);
    LocalInTime(u, x.breaker, x.call, x.before);
    if x.round.visit.Some? {
      VisitInTime(u.relay.value, x.call, x.round.between, x.round.visit.value, x.after);
    }
  }

  lemma VisitInTime(d: Cloud.Endpoint, call: Call, m: Snapshot, v: Cloud.Visit, after: Snapshot)
    requires Cloud.Served(d, call, FreshSn(m), Dated(m.ahead), m.conns, v, after.conns, after.ahead)
    ensures m.ahead.now <= after.ahead.now
  {
    hide Cloud.Expected, FrameOf, Cloud.Exchanged;
  }

  lemma LocalInTime(u: Wiring, b: Breaker.State, call: Call, a: Snapshot)
    requires ValidCall(call)
    ensures var d := Decide(u.breaker, b, a);
      && a.ahead.now <= d.check <= d.probe == d.at.ahead.now <= Between(u, b, call, a).ahead.now
      && (d.tries <==> Breaker.TriesLocal(u.breaker, b, d.check))
  {
    var d := Decide(u.breaker, b, a);
    UseInTime(u.target, call, d.at);
    hide UseOf;
  }

  lemma UseInTime(v: Target, call: Call, a: Snapshot)
    requires ValidCall(call)
    ensures a.ahead.now <= UseOf(v, call, a).end.ahead.now
  {
    hide Local.Expected, Local.ResultOf, FrameOf, AfterSearch, Local.JobOf;
    SearchMoves(v, AfterTry(v, call, a));
  }

  lemma AccountedMore(u: Wiring, birth: Snapshot, life: seq<Called>, x: Called)
    requires Accounted(u, x.breaker, birth, life, x.before) && Happened(u, x)
    ensures Accounted(u, Breaker.Serve(u.breaker, x.breaker, x.round.request), birth, life + [x], x.after)
  {
    hide Happened;
    CallInTime(u, x);
    hide Life, Quiet, End, Happened, Breaker.Serve, Breaker.TriesLocal, Breaker.After, Breaker.Attempts,
         Breaker.Monotone;
    assert Requests(life + [x]) == Requests(life) + [x.round.request];
    RemembersMore(u.breaker, x.breaker, Requests(life), |x.before.searches|, x.before.ahead.now,
                  x.round.request, |x.after.searches|, x.after.ahead.now);
    LifeGrows(u, birth, life, x);
  }

  lemma AccountedStill(u: Wiring, b: Breaker.State,
                       birth: Snapshot, life: seq<Called>, at: Snapshot, later: Snapshot)
    requires Accounted(u, b, birth, life, at) && Quiet(at, later)
    ensures Accounted(u, b, birth, life, later)
  {
    hide Life, End;
    QuietTrans(End(birth, life), at, later);
  }

  /** What a local use was, is the local part of a call. */
  lemma UsedIsLocal(u: Wiring, b: Breaker.State, call: Call, a: Snapshot, tries: seq<Try>, reply: Option<Reply>,
                    end: Snapshot, round: Round)
    requires Decide(u.breaker, b, a).tries && Used(u.target, call, tries, reply, Decide(u.breaker, b, a).at, end)
    requires round.tries == tries && round.localReply == reply
    requires round.between == Recorded(u.breaker, b, reply, end)
    ensures UsedLocally(u, b, call, round, a)
    ensures reply.Some? <==> LocalServes(u.target, call, Decide(u.breaker, b, a).at)
    ensures Between(u, b, call, a).ahead.now == round.between.ahead.now
  {
    hide UseOf, Adds, Grows, SaidIn;
  }

  /** With local skipped nothing is done locally, and the breaker stays where it is. */
  lemma NothingDoneLocally(u: Wiring, b: Breaker.State, call: Call, a: Snapshot, round: Round)
    requires ValidCall(call) && !Decide(u.breaker, b, a).tries
    requires round.tries == [] && round.localReply.None? && round.between == Decide(u.breaker, b, a).at
    requires round.request == RequestOf(u, b, call, a)
    ensures UsedLocally(u, b, call, round, a) && Breaker.Serve(u.breaker, b, round.request) == b
  {
    hide LocalServes, RelayServes;
    SaidNothing(call);
    AddsNothing(a.conns, a.conns);
    hide Adds, SaidIn;
  }

  /** Stamping a probe does not change whether a failure opens the circuit. */
  lemma ProbeTripsNot(s: Breaker.Settings, b: Breaker.State, check: real, probe: real,
                      reply: Option<Reply>, m: Snapshot)
    ensures Recorded(s, Breaker.Decided(s, b, check, probe), reply, m) == Recorded(s, b, reply, m)
  {
  }

  lemma ServedByLocal(u: Wiring, b: Breaker.State, call: Call, a: Snapshot, reply: Option<Reply>, now: real)
    requires ValidCall(call) && Decide(u.breaker, b, a).tries && now == Between(u, b, call, a).ahead.now
    requires reply.Some? <==> LocalServes(u.target, call, Decide(u.breaker, b, a).at)
    ensures var d := Decide(u.breaker, b, a);
      var b' := Breaker.Decided(u.breaker, b, d.check, d.probe);
      Breaker.Serve(u.breaker, b, RequestOf(u, b, call, a)) ==
        if reply.Some? then Breaker.Succeeded(b') else Breaker.Failed(u.breaker, b', now)
  {
    hide Between, LocalServes, RelayServes;
  }

  /** `FallbackClient` over the transports the integration gives it. */
  class FallbackClient {
    const rt: Runtime
    const settings: Breaker.Settings
    const local: RediscoveringTransport
    const cloud: Cloud.CloudTransport?
    var failures: int
    var openedAt: Option<real>
    var activePath: Option<Path>
    ghost const birth: Snapshot
    ghost var life: seq<Called>

    ghost function Footprint(): set<object>
      reads this, local, local.transport
    {
      {this} + local.Footprint()
    }

    ghost function State(): Breaker.State
      reads this
    {
      Breaker.State(failures, openedAt)
    }

    ghost function Relay(): Option<Cloud.Endpoint> {
      if cloud == null then None else Some(cloud.device)
    }

    ghost function Wired(): Wiring {
      Wiring(settings, local.Tracked(), Relay())
    }

    ghost predicate Sound()
      reads local, rt, local.transport, local.transport.conn
    {
      && local.rt == rt && local.Valid()
      && (cloud != null ==> cloud.rt == rt)
      && (settings.hasCloud <==> cloud != null)
    }

    /** Breaker, searches and everything heard are accounted for by the calls served so far. */
    ghost predicate Valid()
      reads this, local, rt, local.transport, local.transport.conn
    {
      Sound() && Accounted(Wired(), State(), birth, life, local.Snap())
    }

    constructor (local: RediscoveringTransport, cloud: Cloud.CloudTransport?, threshold: int, interval: real)
      requires local.Valid() && local.searches == [] && (cloud != null ==> cloud.rt == local.rt)
      ensures this.local == local && this.cloud == cloud && rt == local.rt
      ensures settings == Breaker.Settings(cloud != null, threshold, interval)
      ensures Valid() && life == [] && birth == local.Snap() && activePath == None
    {
      this.rt, this.local, this.cloud := local.rt, local, cloud;
      settings := Breaker.Settings(cloud != null, threshold, interval);
      failures, openedAt, activePath := 0, None, None;
      birth, life := local.Snap(), [];
      new;
      AddsNothing(rt.conns, rt.conns);
    }

    /** `close`: no connection is left open. */
    method Close()
      requires Valid()
      modifies local.Footprint(), rt`conns
      ensures Valid() && fresh(Footprint() - old(Footprint()))
      ensures forall i | 0 <= i < |rt.conns| :: !rt.conns[i].open
      ensures Grows(old(rt.conns), rt.conns) && Adds(old(rt.conns), rt.conns, [])
      ensures State() == old(State()) && life == old(life)
    {
      hide Adds, Accounted;
      ghost var before := local.Snap();
      local.Close();
      AccountedStill(Wired(), State(), birth, life, before, local.Snap());
    }

    /** `_should_try_local` */
    method ShouldTryLocal() returns (yes: bool)
      requires Sound()
      modifies this`openedAt, rt`now, rt`ticks
      ensures Sound()
      ensures var d := Decide(settings, old(State()), old(local.Snap()));
        yes == d.tries && local.Snap() == d.at && State() == Breaker.Decided(settings, old(State()), d.check, d.probe)
      ensures yes <==> cloud == null || old(openedAt).None?
                       || Tick(old(rt.Ahead())).now - old(openedAt).value >= settings.interval
      ensures openedAt == if yes && cloud != null && old(openedAt).Some? then Some(Tick(Tick(old(rt.Ahead()))).now)
                          else old(openedAt)
    {
      if cloud == null || openedAt == None {
        return true;
      }
      var now := rt.Monotonic();
      if now - openedAt.value < settings.interval {
        return false;
      }
      var stamp := rt.Monotonic();
      openedAt := Some(stamp);
      return true;
    }

    /** `_record_local_failure` */
    method RecordLocalFailure()
      requires Sound()
      modifies this`failures, this`openedAt, rt`now, rt`ticks
      ensures Sound()
      ensures State() == Breaker.Failed(settings, old(State()), rt.now)
      ensures failures == old(failures) + 1
      ensures openedAt ==
        if old(openedAt).None? && cloud != null && failures >= settings.threshold then Some(Tick(old(rt.Ahead())).now)
        else old(openedAt)
      ensures local.Snap() == Recorded(settings, old(State()), None, old(local.Snap()))
    {
      failures := failures + 1;
      if openedAt == None && cloud != null && failures >= settings.threshold {
        var stamp := rt.Monotonic();
        openedAt := Some(stamp);
      }
    }

    /** `_record_local_success` */
    method RecordLocalSuccess()
      modifies this`failures, this`openedAt
      ensures State() == Breaker.Succeeded(old(State())) && failures == 0 && openedAt.None?
    {
      failures := 0;
      if openedAt != None {
        openedAt := None;
      }
    }

    /** `_note_path` */
    method NotePath(path: Path)
      modifies this`activePath
      ensures activePath == Some(path)
    {
      if activePath != Some(path) {
        activePath := Some(path);
      }
    }

    /** `call(self._local)` */
    method UseLocal(call: Call) returns (r: Option<Reply>, ghost tries: seq<Try>)
      requires Sound() && ValidCall(call)
      modifies local.Footprint(), rt`choices, rt`conns, rt`now, rt`ticks, rt`wall, rt`lastSn, rt`replies
      ensures Sound() && fresh(local.Footprint() - old(local.Footprint()))
      ensures Used(local.Tracked(), call, tries, r, old(local.Snap()), local.Snap())
    {
      match call
      case Query(attrs) =>
        var data;
        data, tries := local.Query(attrs);
        r := AsReadings(data);
      case Control(payload) =>
        var accepted;
        accepted, tries := local.Control(payload);
        r := AsVerdict(accepted);
    }

    /** `call(self._cloud)` */
    method UseCloud(call: Call) returns (r: Option<Reply>, ghost v: Cloud.Visit)
      requires cloud != null && cloud.rt == rt && ValidCall(call)
      modifies rt`choices, rt`conns, rt`now, rt`ticks, rt`wall, rt`lastSn
      ensures rt.lastSn == NextSn(old(rt.lastSn), Clock(old(rt.Ahead())))
      ensures Cloud.Served(cloud.device, call, rt.lastSn, Dated(old(rt.Ahead())), old(rt.conns),
                           v, rt.conns, rt.Ahead())
      ensures r == Cloud.ResultOf(call, v.reply)
    {
      hide Cloud.Visited, Understand;
      match call
      case Query(attrs) =>
        var data;
        data, v := cloud.Query(attrs);
        r := AsReadings(data);
      case Control(payload) =>
        var accepted;
        accepted, v := cloud.Control(payload);
        r := AsVerdict(accepted);
    }

    /** `_via_cloud` */
    method ViaCloud(call: Call) returns (r: Option<Reply>, ghost v: Cloud.Visit)
      requires Sound() && cloud != null && ValidCall(call)
      modifies this`activePath, rt`choices, rt`conns, rt`now, rt`ticks, rt`wall, rt`lastSn
      ensures Sound()
      ensures Relayed(Relay(), call, None, Some(v), r, old(local.Snap()), local.Snap())
      ensures activePath == if r.Some? then Some(CloudPath) else None
    {
      hide Cloud.Visited, Cloud.ResultOf, AtRest, Spaced, Cloud.Expected, FrameOf;
      ghost var w, m := local.transport.View(), local.Snap();
      r, v := UseCloud(call);
      VisitInTime(cloud.device, call, m, v, local.Snap());
      Cloud.LeavesNothingOpen(cloud.device, call, rt.lastSn, Dated(m.ahead), w.conns, v, rt.conns, rt.Ahead());
      AtRestBeside(local.host, w, rt.conns);
      if r.Some? {
        NotePath(CloudPath);
      } else {
        activePath := None;
      }
    }

    /** `_attempt` */
    method Attempt(call: Call) returns (r: Option<Reply>, ghost round: Round)
      requires Valid() && ValidCall(call)
      modifies Footprint(), rt`choices, rt`conns, rt`now, rt`ticks, rt`wall, rt`lastSn, rt`replies
      ensures Valid() && fresh(Footprint() - old(Footprint()))
      ensures life == old(life) + [Called(call, round, r, old(State()), old(local.Snap()), local.Snap())]
      ensures Served(Wired(), old(State()), call, round, r, old(local.Snap()), local.Snap())
      ensures State() == Breaker.Serve(settings, old(State()), round.request)
      ensures activePath ==
        if round.localReply.Some? then Some(LocalPath) else if r.Some? then Some(CloudPath) else None
    {
      hide Served, Accounted, Breaker.Serve, Decide;
      ghost var start, b := local.Snap(), State();
      r, round := Route(call);
      ghost var x := Called(call, round, r, b, start, local.Snap());
      AccountedMore(Wired(), birth, life, x);
      life := life + [x];
    }

    /** The choice of path. */
    method Route(call: Call) returns (r: Option<Reply>, ghost round: Round)
      requires Sound() && ValidCall(call)
      modifies Footprint(), rt`choices, rt`conns, rt`now, rt`ticks, rt`wall, rt`lastSn, rt`replies
      ensures Sound() && fresh(Footprint() - old(Footprint())) && life == old(life)
      ensures State() == Breaker.Serve(settings, old(State()), round.request)
      ensures Served(Wired(), old(State()), call, round, r, old(local.Snap()), local.Snap())
      ensures activePath ==
        if round.localReply.Some? then Some(LocalPath) else if r.Some? then Some(CloudPath) else None
    {
      hide Served, Breaker.Serve, Decide;
      ghost var start, b := local.Snap(), State();
      var trying := ShouldTryLocal();
      if trying {
        r, round := AttemptLocal(call, b, start);
      } else {
        r, round := AttemptCloud(call, b, start);
      }
    }

    /** With local known to be down, straight to the relay. */
    method AttemptCloud(call: Call, ghost b: Breaker.State, ghost start: Snapshot)
        returns (r: Option<Reply>, ghost round: Round)
      requires Sound() && ValidCall(call) && cloud != null
      requires var d := Decide(settings, b, start);
        !d.tries && local.Snap() == d.at && State() == Breaker.Decided(settings, b, d.check, d.probe)
      modifies this`activePath, rt`choices, rt`conns, rt`now, rt`ticks, rt`wall, rt`lastSn
      ensures Sound()
      ensures Served(Wired(), b, call, round, r, start, local.Snap())
      ensures State() == Breaker.Serve(settings, b, round.request)
      ensures activePath ==
        if round.localReply.Some? then Some(LocalPath) else if r.Some? then Some(CloudPath) else None
    {
      hide Relayed, RequestOf;
      ghost var m, v := local.Snap(), Cloud.Visit(None, None);
      r, v := ViaCloud(call);
      round := Round(RequestOf(Wired(), b, call, start), [], None, m, Some(v));
      NothingDoneLocally(Wired(), b, call, start, round);
    }

    /** With local to be tried first. */
    method AttemptLocal(call: Call, ghost b: Breaker.State, ghost start: Snapshot)
        returns (r: Option<Reply>, ghost round: Round)
      requires Sound() && ValidCall(call)
      requires var d := Decide(settings, b, start);
        d.tries && local.Snap() == d.at && State() == Breaker.Decided(settings, b, d.check, d.probe)
      modifies Footprint(), rt`choices, rt`conns, rt`now, rt`ticks, rt`wall, rt`lastSn, rt`replies
      ensures Sound() && fresh(Footprint() - old(Footprint())) && life == old(life)
      ensures Served(Wired(), b, call, round, r, start, local.Snap())
      ensures State() == Breaker.Serve(settings, b, round.request)
      ensures activePath ==
        if round.localReply.Some? then Some(LocalPath) else if r.Some? then Some(CloudPath) else None
    {
      hide Relayed, Used, UsedLocally, Spaced, AtRest, LocalServes, RelayServes, Between, RequestOf, Decide,
           Recorded, Breaker.Serve, Breaker.Failed, Breaker.Decided;
      var reply;
      ghost var tries, v, m;
      reply, tries := UseLocal(call);
      ghost var end := local.Snap();
      r, v, m := Settle(call, reply);
      ghost var d := Decide(settings, b, start);
      ProbeTripsNot(settings, b, d.check, d.probe, reply, end);
      round := Round(RequestOf(Wired(), b, call, start), tries, reply, m, v);
      UsedIsLocal(Wired(), b, call, start, tries, reply, end, round);
      ServedByLocal(Wired(), b, call, start, reply, m.ahead.now);
    }

    /** What follows the use of local: the outcome is recorded, and a failure passed on to the relay. */
    method Settle(call: Call, reply: Option<Reply>)
        returns (r: Option<Reply>, ghost v: Option<Cloud.Visit>, ghost m: Snapshot)
      requires Sound() && ValidCall(call)
      modifies this`failures, this`openedAt, this`activePath, rt`choices, rt`conns, rt`now, rt`ticks, rt`wall, rt`lastSn
      ensures Sound()
      ensures m == Recorded(settings, old(State()), reply, old(local.Snap()))
      ensures State() == if reply.Some? then Breaker.Succeeded(old(State()))
                         else Breaker.Failed(settings, old(State()), m.ahead.now)
      ensures Relayed(Relay(), call, reply, v, r, m, local.Snap())
      ensures activePath ==
        if reply.Some? then Some(LocalPath) else if r.Some? then Some(CloudPath) else None
    {
      hide Cloud.Served, Cloud.ResultOf;
      r, v := reply, None;
      if reply.Some? {
        RecordLocalSuccess();
        NotePath(LocalPath);
        m := local.Snap();
        return;
      }
      RecordLocalFailure();
      m := local.Snap();
      if cloud == null {
        activePath := None;
        return;
      }
      ghost var visit;
      r, visit := ViaCloud(call);
      v := Some(visit);
    }

    /** `query` */
    method Query(attrs: seq<int>) returns (r: Option<Dict<string, Json>>, ghost round: Round)
      requires Valid()
      modifies Footprint(), rt`choices, rt`conns, rt`now, rt`ticks, rt`wall, rt`lastSn, rt`replies
      ensures Valid() && fresh(Footprint() - old(Footprint()))
      ensures Served(Wired(), old(State()), Call.Query(attrs), round, AsReadings(r), old(local.Snap()), local.Snap())
      ensures r.Some? ==> Distinct(r.value)
      ensures forall data: Dict<string, Json> ::
        r == Some(data) <==> AnswerOf(round).Some? && HoldsData(AnswerOf(round).value, data)
    {
      hide Served, Accounted, AnswerOf, HoldsData;
      var reply;
      reply, round := Attempt(Call.Query(attrs));
      ServedSays(Wired(), old(State()), Call.Query(attrs), round, reply, old(local.Snap()), local.Snap());
      QueriesGetReadings(attrs, round, Wired(), old(State()), reply, old(local.Snap()), local.Snap());
      r := if reply.Some? then Some(reply.value.data) else None;
    }

    /** `control` */
    method Control(payload: Payload) returns (r: Option<bool>, ghost round: Round)
      requires Valid() && ValidPayload(payload)
      modifies Footprint(), rt`choices, rt`conns, rt`now, rt`ticks, rt`wall, rt`lastSn, rt`replies
      ensures Valid() && fresh(Footprint() - old(Footprint()))
      ensures Served(Wired(), old(State()), Call.Control(payload), round, AsVerdict(r), old(local.Snap()), local.Snap())
      ensures r == var f := AnswerOf(round);
        if f.None? then None
        else Some(Get(f.value, "res") == Some(Number(0)) || Get(f.value, "res") == Some(Bool(false)))
    {
      hide Served, Accounted, AnswerOf, Get;
      var reply;
      reply, round := Attempt(Call.Control(payload));
      ServedSays(Wired(), old(State()), Call.Control(payload), round, reply, old(local.Snap()), local.Snap());
      WritesGetVerdicts(payload, round, Wired(), old(State()), reply, old(local.Snap()), local.Snap());
      r := if reply.Some? then Some(reply.value.accepted) else None;
    }

    /** In every state a client can reach, counter and timestamp say what the past attempts say. */
    lemma BreakerExact()
      requires Valid()
      ensures var h := Breaker.Attempts(settings, Breaker.INITIAL, Requests(life));
        && State() == Breaker.Remembered(settings, h)
        && failures == Breaker.Trailing(h)
        && (openedAt.Some? <==> cloud != null && Breaker.Trailing(h) >= Breaker.Limit(settings))
    {
      Breaker.RefinesHistory(settings, Requests(life));
    }

    /** Searches are bounded by the time since the first, and by the attempts the breaker let through. */
    lemma SearchesBounded()
      requires Valid()
      ensures |local.searches| <= |Breaker.Attempts(settings, Breaker.INITIAL, Requests(life))|
      ensures local.searches != [] && local.minInterval > 0.0 ==>
        |local.searches| <= ((rt.now - local.searches[0]) / local.minInterval).Floor + 1
    {
      hide Life, Quiet, Breaker.After, Breaker.Attempts, Breaker.Monotone;
      local.SearchesCounted();
    }
  }
}
