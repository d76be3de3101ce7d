/** A local transport that follows a device to a new address (api/rediscovering.py). */
module Rediscovering {
  import opened Prelude
  import opened Framing
  import opened JsonText
  import opened Protocol
  import opened Environment
  import opened Deliveries
  import opened LocalSteps
  import opened Local
  import opened Discovery
  import Breaker
  import Decimal

  /** One use of a local transport: where, with which sequence number, and how it ended. */
  datatype Try = Try(host: Address, n: int, outcome: Outcome)

  function SaidIn(call: Call, tries: seq<Try>): seq<Delivery>
    requires ValidCall(call)
  {
    if tries == [] then []
    else Said(tries[0].host, JobOf(call, tries[0].n), Finished(tries[0].outcome)) + SaidIn(call, tries[1..])
  }

  lemma SaidOnce(call: Call, t: Try)
    requires ValidCall(call)
    ensures SaidIn(call, [t]) == Said(t.host, JobOf(call, t.n), Finished(t.outcome))
  {
    assert [t][1..] == [];
    hide Bare, FrameOf;
  }

  lemma SaidTwice(call: Call, t: Try, u: Try)
    requires ValidCall(call)
    ensures SaidIn(call, [t, u]) == SaidIn(call, [t]) + SaidIn(call, [u])
  {
    SaidOnce(call, t);
    assert [t, u][1..] == [u];
    hide Bare, FrameOf;
  }

  /** How many of these uses failed. */
  function Failures(call: Call, tries: seq<Try>): nat {
    if tries == [] then 0
    else (if ResultOf(call, tries[0].outcome).None? then 1 else 0) + Failures(call, tries[1..])
  }

  lemma FailsOnce(call: Call, t: Try)
    ensures Failures(call, [t]) == if ResultOf(call, t.outcome).None? then 1 else 0
  {
    assert [t][1..] == [];
    hide ResultOf;
  }

  /** Fresh sequence numbers, in order. */
  ghost predicate Numbered(tries: seq<Try>, last: int, now: int) {
    && (forall i | 0 <= i < |tries| :: last < tries[i].n <= now)
    && (forall i, j | 0 <= i < j < |tries| :: tries[i].n < tries[j].n)
  }

  /** A search may be made now. */
  predicate Due(searches: seq<real>, interval: real, now: real) {
    searches == [] || now - searches[|searches| - 1] >= interval
  }

  /** Searches at these times keep the minimum distance. */
  ghost predicate Spaced(searches: seq<real>, interval: real) {
    forall i | 0 < i < |searches| :: searches[i] - searches[i - 1] >= interval
  }

  lemma SpacedMore(searches: seq<real>, interval: real, now: real)
    requires Spaced(searches, interval) && Due(searches, interval, now)
    ensures Spaced(searches + [now], interval)
  {
  }

  /** So the k-th is at least k - 1 intervals after the first. */
  lemma {:induction false} SearchBound(searches: seq<real>, interval: real, k: nat)
    requires Spaced(searches, interval) && k < |searches|
    ensures searches[k] >= searches[0] + k as real * interval
  {
    if k > 0 {
      SearchBound(searches, interval, k - 1);
      assert (k - 1) as real * interval + interval == k as real * interval;
    }
  }

  /** Results of the two kinds of call, as replies. */
  function AsReadings(r: Option<Dict<string, Json>>): Option<Reply> {
    if r.Some? then Some(Readings(r.value)) else None
  }

  function AsVerdict(r: Option<bool>): Option<Reply> {
    if r.Some? then Some(Acknowledged(r.value)) else None
  }

  // ---------- what the methods below do, as a relation between states ----------

  /** So there are no more than one per interval, and one. */
  lemma SearchCount(searches: seq<real>, interval: real, now: real)
    requires interval > 0.0 && Spaced(searches, interval)
    requires searches != [] && searches[|searches| - 1] <= now
    ensures |searches| <= ((now - searches[0]) / interval).Floor + 1
  {
    SearchBound(searches, interval, |searches| - 1);
    Breaker.Quotient(|searches| - 1, interval, now - searches[0]);
  }

  /** The state that callers and the outside world can see; `held` is the buffer of the connection held, if any. */
  datatype Snapshot = Snapshot(host: Address, conns: seq<Conn>, searches: seq<real>, failures: nat, lastSn: int,
                               held: Option<Bytes>, ahead: Outside)

  /** What is tracked, how often it may be searched for, and how long to wait for its replies. */
  datatype Target = Target(deviceId: string, minInterval: real, timeout: real)

  function FreshSn(a: Snapshot): int {
    NextSn(a.lastSn, Clock(a.ahead))
  }

  /** How a use of the transport ends, the outside world deciding. */
  function FateOf(v: Target, call: Call, a: Snapshot): Fate
    requires ValidCall(call)
  {
    Expected(JobOf(call, FreshSn(a)), a.held, Dated(a.ahead), v.timeout)
  }

  function TryOf(v: Target, call: Call, a: Snapshot): Try
    requires ValidCall(call)
  {
    Try(a.host, FreshSn(a), FateOf(v, call, a).outcome)
  }

  /** The state after it, up to what went on over the connections. */
  function AfterTry(v: Target, call: Call, a: Snapshot): Snapshot
    requires ValidCall(call)
  {
    var f := FateOf(v, call, a);
    a.(lastSn := FreshSn(a), held := f.held, ahead := f.left,
       failures := a.failures + if ResultOf(call, f.outcome).None? then 1 else 0)
  }

  /** Where the device is believed to be after a search that brings in the next replies. */
  function Sought(v: Target, host: Address, w: Outside): Address {
    var found := Lookup(Listed(Arrived(w), {}), v.deviceId);
    if found.Some? && found.value != "" then found.value else host
  }

  /** The state after a search, if one is due: a new host is reached over no connection yet. */
  function AfterSearch(v: Target, a: Snapshot): Snapshot {
    var w := Tick(a.ahead);
    if !Due(a.searches, v.minInterval, w.now) then a.(ahead := w)
    else
      var to := Sought(v, a.host, w);
      a.(searches := a.searches + [w.now], lastSn := Probed(a.lastSn, w), ahead := AfterProbe(w),
         host := to, held := if to == a.host then a.held else None)
  }

  /** What serving a call locally comes to: the tries, the reply, and the state up to the connections. */
  datatype Use = Use(tries: seq<Try>, reply: Option<Reply>, end: Snapshot)

  /** A failed call is followed by a search; a query is tried again exactly if that finds the device elsewhere. */
  function UseOf(v: Target, call: Call, a: Snapshot): Use
    requires ValidCall(call)
  {
    var t := TryOf(v, call, a);
    var b := AfterTry(v, call, a);
    var r := ResultOf(call, t.outcome);
    if r.Some? then Use([t], r, b)
    else
      var c := AfterSearch(v, b);
      if call.Query? && c.host != a.host
      then Use([t, TryOf(v, call, c)], ResultOf(call, TryOf(v, call, c).outcome), AfterTry(v, call, c))
      else Use([t], None, c)
  }

  /** The call went as the outside world decided, and everything heard was said by the tries. */
  ghost predicate Used(v: Target, call: Call, tries: seq<Try>, r: Option<Reply>, a: Snapshot, b: Snapshot) {
    && ValidCall(call)
    && Use(tries, r, b.(conns := a.conns)) == UseOf(v, call, a)
    && Grows(a.conns, b.conns) && Adds(a.conns, b.conns, SaidIn(call, tries))
  }

  // ---------- what that means ----------

  /** A query is tried again only after the first try failed and only at a different address; a write is tried once,
      whatever happened to it. Numbers are fresh and in order. */
  ghost predicate Attempted(call: Call, tries: seq<Try>, a: Snapshot, b: Snapshot, r: Option<Reply>) {
    && ValidCall(call)
    && 1 <= |tries| <= 2
    && tries[0].host == a.host
    && (|tries| == 2 ==>
          && call.Query? && ResultOf(call, tries[0].outcome).None?
          && tries[1].host == b.host != a.host && tries[0].n < tries[1].n)
    && (|tries| == 1 && call.Query? ==> b.host == a.host)
    && (b.host != a.host ==> ResultOf(call, tries[0].outcome).None?)
    && (forall t <- tries :: a.lastSn < t.n <= b.lastSn && Fitting(t))
    && r == ResultOf(call, tries[|tries| - 1].outcome)
  }

  /** A reply carries the number of the frame it answers. */
  predicate Fitting(t: Try) {
    t.outcome.Replied? ==> Matches(t.outcome.line, Decimal.IntText(t.n))
  }

  lemma TryFits(v: Target, call: Call, a: Snapshot)
    requires ValidCall(call)
    ensures Fitting(TryOf(v, call, a)) && TryOf(v, call, a).n > a.lastSn
  {
    hide Matches, FrameOf, Bare;
  }

  lemma SearchMoves(v: Target, a: Snapshot)
    ensures var b := AfterSearch(v, a);
      && a.lastSn <= b.lastSn && a.failures == b.failures && a.ahead.now <= b.ahead.now
      && (b.searches == a.searches || b.searches == a.searches + [b.ahead.now])
      && (b.host != a.host ==> b.held.None? && |b.searches| == |a.searches| + 1)
  {
    hide Sought;
  }

  /** A search is made exactly if none has been made yet or the last was an interval ago or more. It moves the transport
      exactly to the address that the first usable reply of the device names, unless that is empty; the connection
      is kept exactly if the address stays. */
  lemma SearchSays(v: Target, a: Snapshot)
    ensures var b, w := AfterSearch(v, a), Tick(a.ahead);
      var due := a.searches == [] || w.now - a.searches[|a.searches| - 1] >= v.minInterval;
      && b.searches == (if due then a.searches + [w.now] else a.searches)
      && (!due ==> b == a.(ahead := w))
      && b.held == (if b.host == a.host then a.held else None)
      && (due ==>
            && (forall i: nat | AnswersFirst(Arrived(w), v.deviceId, i) ::
                  var ip := ParseReply(Arrived(w)[i]).value.ip;
                  b.host == if ip == "" then a.host else ip)
            && ((forall i: nat :: !AnswersFirst(Arrived(w), v.deviceId, i)) ==> b.host == a.host))
  {
    var w := Tick(a.ahead);
    LookupIsFirstAddress(Arrived(w), {}, v.deviceId);
    FirstAddressSays(Arrived(w), v.deviceId);
    hide ParseReply, Listed, Lookup, FirstAddress, AnswersFirst, Arrived;
  }

  /** What can be said of every local use of a call: the rules for tries and numbers, at most one search, and that
      only after a first try that failed; and every failed try is counted. */
  lemma UseFollowsRules(v: Target, call: Call, tries: seq<Try>, r: Option<Reply>, a: Snapshot, b: Snapshot)
    requires Used(v, call, tries, r, a, b)
    ensures Attempted(call, tries, a, b, r)
    ensures b.failures == a.failures + Failures(call, tries) && a.lastSn < b.lastSn
    ensures |a.searches| <= |b.searches| <= |a.searches| + 1
    ensures b.searches != a.searches ==> ResultOf(call, tries[0].outcome).None?
  {
    hide FateOf, ResultOf, AfterSearch, Fitting, Adds, SaidIn, Grows, Failures, FreshSn;
    var m := AfterTry(v, call, a);
    var c := AfterSearch(v, m);
    TryFits(v, call, a);
    SearchMoves(v, m);
    TryFits(v, call, c);
    FailsOnce(call, tries[0]);
    if |tries| == 2 {
      FailsOnce(call, tries[1]);
      FailsTwice(call, tries[0], tries[1]);
    }
  }

  lemma FailsTwice(call: Call, t: Try, u: Try)
    ensures Failures(call, [t, u]) == Failures(call, [t]) + Failures(call, [u])
  {
    FailsOnce(call, t);
    assert [t, u][1..] == [u];
    hide ResultOf;
  }

  /** The frame in which the last of these tries was answered. */
  function LastAnswer(tries: seq<Try>): Option<Frame> {
    if tries == [] || !tries[|tries| - 1].outcome.Replied? then None else Decode(tries[|tries| - 1].outcome.line)
  }

  /** What a use comes to is what that frame says: the values under `data` of its `msg` for a query, and for a write
      whether its `res` is 0; the number in it is that of the try. */
  lemma UseSays(v: Target, call: Call, tries: seq<Try>, r: Option<Reply>, a: Snapshot, b: Snapshot)
    requires Used(v, call, tries, r, a, b)
    ensures var f := LastAnswer(tries);
      && (f.Some? ==> Get(f.value, "sn") == Some(Text(Decimal.IntText(tries[|tries| - 1].n))))
      && (tries != [] && tries[|tries| - 1].outcome.Replied? ==> f.Some?)
      && match call
         case Control(_) =>
           r == if f.None? then None
                else Some(Acknowledged(Get(f.value, "res") == Some(Number(0))
                                       || Get(f.value, "res") == Some(Bool(false))))
         case Query(_) =>
           && (r.Some? ==> r.value.Readings?)
           && forall data: Dict<string, Json> :: r == Some(Readings(data)) <==> f.Some? && HoldsData(f.value, data)
  {
    UseFollowsRules(v, call, tries, r, a, b);
    var t := tries[|tries| - 1];
    assert t in tries && Fitting(t);
    var f := LastAnswer(tries);
    hide Used, Decode, Get, HoldsData, Understand, Matches;
    if t.outcome.Replied? {
      MatchesSays(t.outcome.line, Decimal.IntText(t.n));
      match call
      case Control(payload) => VerdictSays(payload, f.value);
      case Query(attrs) => ReadingsSay(attrs, f.value);
    }
  }

  /** At most one frame per address: so at most two for a query, and one for a write. */
  lemma FramesHeard(call: Call, tries: seq<Try>, a: Snapshot, b: Snapshot, r: Option<Reply>)
    requires Attempted(call, tries, a, b, r)
    ensures var said := SaidIn(call, tries);
      && |said| <= |tries|
      && (call.Control? ==> said == [] || said == [Delivery(a.host, Bare(FrameOf(call, Decimal.IntText(tries[0].n))))])
      && (forall i | 0 <= i < |said| :: exists t <- tries ::
            said[i] == Delivery(t.host, Bare(FrameOf(call, Decimal.IntText(t.n)))))
      && (forall i, j | 0 <= i < j < |said| :: said[i].host != said[j].host)
      && (r.Some? ==> said != [])
  {
    hide FrameOf, Bare, Understand, Decode, SaidIn, Fitting;
    var t := tries[0];
    assert t in tries;
    SaidOnce(call, t);
    if |tries| == 2 {
      var u := tries[1];
      assert tries == [t, u] && u in tries;
      SaidOnce(call, u);
      SaidTwice(call, t, u);
    } else {
      assert tries == [t];
    }
  }

  // ---------- from uses of the transport to calls ----------

  /** A use of the transport. */
  ghost predicate Tried(v: Target, call: Call, a: Snapshot, b: Snapshot) {
    && ValidCall(call) && b.(conns := a.conns) == AfterTry(v, call, a)
    && Grows(a.conns, b.conns) && Adds(a.conns, b.conns, SaidIn(call, [TryOf(v, call, a)]))
  }

  /** A search, if one was due; nobody with a connection hears it. */
  ghost predicate Searched(v: Target, a: Snapshot, b: Snapshot) {
    && b.(conns := a.conns) == AfterSearch(v, a)
    && Grows(a.conns, b.conns) && Adds(a.conns, b.conns, [])
  }

  lemma SearchQuiet(conns: seq<Conn>)
    ensures Grows(conns, conns) && Adds(conns, conns, [])
  {
    AddsNothing(conns, conns);
  }

  lemma NotSearched(v: Target, a: Snapshot)
    requires !Due(a.searches, v.minInterval, Tick(a.ahead).now)
    ensures Searched(v, a, a.(ahead := Tick(a.ahead)))
  {
    AddsNothing(a.conns, a.conns);
    hide Adds, Sought;
  }

  lemma SearchedNow(v: Target, a: Snapshot, b: Snapshot)
    requires Due(a.searches, v.minInterval, Tick(a.ahead).now)
    requires b.searches == a.searches + [Tick(a.ahead).now] && b.failures == a.failures
    requires b.lastSn == Probed(a.lastSn, Tick(a.ahead)) && b.ahead == AfterProbe(Tick(a.ahead))
    requires var found := Lookup(Listed(Arrived(Tick(a.ahead)), {}), v.deviceId);
      b.host == if found.Some? && found.value != "" then found.value else a.host
    requires b.held == if b.host == a.host then a.held else None
    requires Grows(a.conns, b.conns) && Adds(a.conns, b.conns, [])
    ensures Searched(v, a, b)
  {
    hide Adds, Grows, Lookup, Listed, Arrived;
  }

  lemma QuietAfter(a: seq<Conn>, b: seq<Conn>, c: seq<Conn>, said: seq<Delivery>)
    requires Grows(a, b) && Adds(a, b, said) && Grows(b, c) && Adds(b, c, [])
    ensures Grows(a, c) && Adds(a, c, said)
  {
    AddsTrans(a, b, c, said, []);
    assert said + [] == said;
    GrowsTrans(a, b, c);
  }

  lemma TriedOnce(v: Target, call: Call, a: Snapshot, b: Snapshot)
    requires Tried(v, call, a, b) && ResultOf(call, TryOf(v, call, a).outcome).Some?
    ensures Used(v, call, [TryOf(v, call, a)], ResultOf(call, TryOf(v, call, a).outcome), a, b)
  {
    hide ResultOf, SaidIn, Adds, Grows, FateOf;
  }

  /** Connections do not decide anything. */
  lemma SameButConns(v: Target, call: Call, a: Snapshot, conns: seq<Conn>)
    requires ValidCall(call)
    ensures AfterSearch(v, a.(conns := conns)) == AfterSearch(v, a).(conns := conns)
    ensures TryOf(v, call, a.(conns := conns)) == TryOf(v, call, a)
    ensures AfterTry(v, call, a.(conns := conns)) == AfterTry(v, call, a).(conns := conns)
  {
    hide ResultOf, Expected, Sought, FrameOf;
  }

  lemma TriedAndSearched(v: Target, call: Call, a: Snapshot, b: Snapshot, c: Snapshot)
    requires Tried(v, call, a, b) && Searched(v, b, c)
    requires ResultOf(call, TryOf(v, call, a).outcome).None? && (call.Query? ==> a.host == c.host)
    ensures Used(v, call, [TryOf(v, call, a)], None, a, c)
  {
    hide ResultOf, SaidIn, Adds, Grows, FateOf, AfterSearch, AfterTry;
    SameButConns(v, call, b, a.conns);
    SameButConns(v, call, c, a.conns);
    QuietAfter(a.conns, b.conns, c.conns, SaidIn(call, [TryOf(v, call, a)]));
  }

  lemma TriedTwice(v: Target, call: Call, a: Snapshot, b: Snapshot, c: Snapshot, d: Snapshot)
    requires Tried(v, call, a, b) && Searched(v, b, c) && Tried(v, call, c, d) && call.Query?
    requires ResultOf(call, TryOf(v, call, a).outcome).None? && a.host != c.host
    ensures Used(v, call, [TryOf(v, call, a), TryOf(v, call, c)], ResultOf(call, TryOf(v, call, c).outcome), a, d)
  {
    hide ResultOf, SaidIn, Adds, Grows, FateOf, AfterSearch, AfterTry, TryOf;
    SameButConns(v, call, b, a.conns);
    SameButConns(v, call, c, a.conns);
    BothTries(call, TryOf(v, call, a), TryOf(v, call, c), a, b, c, d);
  }

  lemma BothTries(call: Call, t: Try, u: Try, a: Snapshot, b: Snapshot, c: Snapshot, d: Snapshot)
    requires ValidCall(call)
    requires Grows(a.conns, b.conns) && Adds(a.conns, b.conns, SaidIn(call, [t]))
    requires Grows(b.conns, c.conns) && Adds(b.conns, c.conns, [])
    requires Grows(c.conns, d.conns) && Adds(c.conns, d.conns, SaidIn(call, [u]))
    ensures Grows(a.conns, d.conns) && Adds(a.conns, d.conns, SaidIn(call, [t, u]))
  {
    hide SaidIn, Adds, Grows;
    QuietAfter(a.conns, b.conns, c.conns, SaidIn(call, [t]));
    AddsTrans(a.conns, c.conns, d.conns, SaidIn(call, [t]), SaidIn(call, [u]));
    GrowsTrans(a.conns, c.conns, d.conns);
    SaidTwice(call, t, u);
  }

  /** What a transport did is a use of it. */
  lemma TracedIsTried(v: Target, call: Call, t: Trace, a: Snapshot, b: Snapshot)
    requires ValidCall(call)
    requires t.job == JobOf(call, b.lastSn) && b.lastSn == FreshSn(a)
    requires Fate(t.outcome, b.held, b.ahead) == Expected(t.job, a.held, Dated(a.ahead), v.timeout)
    requires Grows(a.conns, b.conns) && Adds(a.conns, b.conns, Said(a.host, t.job, Finished(t.outcome)))
    requires b.host == a.host && b.searches == a.searches
    requires b.failures == a.failures + if ResultOf(call, t.outcome).None? then 1 else 0
    ensures Tried(v, call, a, b) && TryOf(v, call, a).outcome == t.outcome
  {
    hide ResultOf, Expected, JobOf, Adds, Grows, SaidIn;
    SaidOnce(call, TryOf(v, call, a));
  }

  /** `RediscoveringLocalTransport` */
  class RediscoveringTransport {
    const rt: Runtime
    const deviceId: string
    const minInterval: real
    const timeout: real
    var host: Address
    var lastSearch: Option<real>
    var transport: LocalTransport
    ghost var searches: seq<real>
    ghost var failures: nat

    ghost function Footprint(): set<object>
      reads this, transport
    {
      {this} + transport.Footprint()
    }

    /** The wrapped transport is bound to `host` and holds the only open connection, if there is any: every
        earlier transport was closed. Searches are spaced, and there are no more of them than failed uses. */
    ghost predicate Valid()
      reads this, rt, transport, transport.conn
    {
      && transport.rt == rt && transport.host == host && transport.timeout == timeout && transport.Valid()
      && lastSearch == (if searches == [] then None else Some(searches[|searches| - 1]))
      && Spaced(searches, minInterval)
      && |searches| <= failures
      && (searches != [] ==> searches[|searches| - 1] <= rt.now)
    }

    ghost function Snap(): Snapshot
      reads this, rt, transport, transport.conn
    {
      Snapshot(host, rt.conns, searches, failures, rt.lastSn, transport.Held(), rt.Ahead())
    }

    ghost function Tracked(): Target {
      Target(deviceId, minInterval, timeout)
    }

    constructor (rt: Runtime, deviceId: string, host: Address, minInterval: real, timeout: real)
      requires forall i | 0 <= i < |rt.conns| :: !rt.conns[i].open
      ensures this.rt == rt && this.host == host && Tracked() == Target(deviceId, minInterval, timeout)
      ensures Valid() && fresh(Footprint()) && searches == [] && failures == 0
    {
      this.rt, this.deviceId, this.host, this.minInterval, this.timeout := rt, deviceId, host, minInterval, timeout;
      lastSearch, searches, failures := None, [], 0;
      transport := new LocalTransport(rt, host, timeout);
    }

    /** Local sockets opened minus closed: one while the wrapped transport holds a connection, otherwise none. */
    lemma ConnectionsConserved()
      requires Valid()
      ensures OpenCount(rt.conns) == if transport.conn != null then 1 else 0
      ensures transport.host == host
    {
      OpenIsHeld(host, transport.View());
    }

    /** No more searches than one per interval, and one. */
    lemma SearchesCounted()
      requires Valid()
      ensures searches != [] && minInterval > 0.0 ==>
        |searches| <= ((rt.now - searches[0]) / minInterval).Floor + 1
    {
      if searches != [] && minInterval > 0.0 {
        SearchCount(searches, minInterval, rt.now);
      }
    }

    /** `close` */
    method Close()
      requires Valid()
      modifies Footprint(), rt`conns
      ensures Valid() && transport == old(transport) && fresh(Footprint() - old(Footprint()))
      ensures host == old(host) && searches == old(searches) && failures == old(failures)
      ensures forall i | 0 <= i < |rt.conns| :: !rt.conns[i].open
      ensures Grows(old(rt.conns), rt.conns) && |rt.conns| == |old(rt.conns)| && Adds(old(rt.conns), rt.conns, [])
    {
      transport.Close();
    }

    /** A search that came back with this address: the socket to the old one is released before it is replaced. */
    method Replace(address: Address)
      requires Valid()
      modifies Footprint(), rt`conns
      ensures Valid() && fresh(Footprint() - old(Footprint()))
      ensures host == address && transport.Held() == None
      ensures lastSearch == old(lastSearch) && searches == old(searches) && failures == old(failures)
      ensures Grows(old(rt.conns), rt.conns) && Adds(old(rt.conns), rt.conns, [])
    {
      transport.Close();
      host := address;
      transport := new LocalTransport(rt, address, timeout);
    }

    /** `_relocate`: a search if one is due; a new transport if the device was found at a new address. */
    method Relocate() returns (moved: bool)
      requires Valid() && |searches| < failures
      modifies Footprint(), rt`conns, rt`now, rt`ticks, rt`wall, rt`lastSn, rt`replies
      ensures Valid() && fresh(Footprint() - old(Footprint()))
      ensures moved <==> host != old(host)
      ensures Searched(Tracked(), old(Snap()), Snap())
      ensures searches ==
        var now := Tick(old(rt.Ahead())).now;
        if old(searches) == [] || now - old(searches)[|old(searches)| - 1] >= minInterval then old(searches) + [now]
        else old(searches)
    {
      hide AtRest, Adds, Grows, Lookup, Listed, Arrived, Spaced, Searched, Sought, AfterProbe, Probed;
      ghost var a := Snap();
      SearchQuiet(rt.conns);
      var now := rt.Monotonic();
      if lastSearch.Some? && now - lastSearch.value < minInterval {
        NotSearched(Tracked(), a);
        return false;
      }
      SpacedMore(searches, minInterval, now);
      lastSearch, searches := Some(now), searches + [now];
      var found, _ := FindDeviceIp(rt, deviceId);
      moved := found.At? && found.ip != "" && found.ip != host;
      if moved {
        Replace(found.ip);
      }
      SearchedNow(Tracked(), a, Snap());
    }

    /** One use of the transport, for a query. */
    method TryQuery(attrs: seq<int>) returns (r: Option<Dict<string, Json>>)
      requires Valid()
      modifies Footprint(), rt`choices, rt`conns, rt`now, rt`ticks, rt`wall, rt`lastSn
      ensures Valid() && fresh(Footprint() - old(Footprint())) && host == old(host)
      ensures Tried(Tracked(), Call.Query(attrs), old(Snap()), Snap())
      ensures AsReadings(r) == ResultOf(Call.Query(attrs), TryOf(Tracked(), Call.Query(attrs), old(Snap())).outcome)
      ensures r.None? ==> |searches| < failures
    {
      hide AtRest, Adds, Grows, ResultOf, Spaced, JobOf, Expected, Run, Tried, TryOf, SetFrame, QueryFrame, Said,
           Start, Dated;
      ghost var a := Snap();
      ghost var t;
      r, t := transport.Query(attrs);
      failures := failures + if r.None? then 1 else 0;
      TracedIsTried(Tracked(), Call.Query(attrs), t, a, Snap());
    }

    /** One use of the transport, for a write. */
    method TryControl(payload: Payload) returns (r: Option<bool>)
      requires Valid() && ValidPayload(payload)
      modifies Footprint(), rt`choices, rt`conns, rt`now, rt`ticks, rt`wall, rt`lastSn
      ensures Valid() && fresh(Footprint() - old(Footprint())) && host == old(host)
      ensures Tried(Tracked(), Call.Control(payload), old(Snap()), Snap())
      ensures AsVerdict(r) ==
        ResultOf(Call.Control(payload), TryOf(Tracked(), Call.Control(payload), old(Snap())).outcome)
      ensures r.None? ==> |searches| < failures
    {
      hide AtRest, Adds, Grows, ResultOf, Spaced, JobOf, Expected, Run, Tried, TryOf, SetFrame, QueryFrame, Said,
           Start, Dated;
      ghost var a := Snap();
      ghost var t;
      r, t := transport.Control(payload);
      failures := failures + if r.None? then 1 else 0;
      TracedIsTried(Tracked(), Call.Control(payload), t, a, Snap());
    }

    /** `query` */
    method Query(attrs: seq<int>) returns (r: Option<Dict<string, Json>>, ghost tries: seq<Try>)
      requires Valid()
      modifies Footprint(), rt`choices, rt`conns, rt`now, rt`ticks, rt`wall, rt`lastSn, rt`replies
      ensures Valid() && fresh(Footprint() - old(Footprint()))
      ensures Used(Tracked(), Call.Query(attrs), tries, AsReadings(r), old(Snap()), Snap())
      ensures forall data: Dict<string, Json> ::
        r == Some(data) <==> LastAnswer(tries).Some? && HoldsData(LastAnswer(tries).value, data)
    {
      hide Valid, Tried, Searched, Used, TryOf, ResultOf, LastAnswer, HoldsData, Get;
      ghost var a, call := Snap(), Call.Query(attrs);
      r := TryQuery(attrs);
      tries := [TryOf(Tracked(), call, a)];
      ghost var b := Snap();
      if r.Some? {
        TriedOnce(Tracked(), call, a, b);
        UseSays(Tracked(), call, tries, AsReadings(r), a, b);
        return;
      }
      var moved := Relocate();
      ghost var c := Snap();
      if !moved {
        TriedAndSearched(Tracked(), call, a, b, c);
        UseSays(Tracked(), call, tries, None, a, c);
        return;
      }
      r := TryQuery(attrs);
      TriedTwice(Tracked(), call, a, b, c, Snap());
      tries := [TryOf(Tracked(), call, a), TryOf(Tracked(), call, c)];
      UseSays(Tracked(), call, tries, AsReadings(r), a, Snap());
    }

    /** `control` */
    method Control(payload: Payload) returns (r: Option<bool>, ghost tries: seq<Try>)
      requires Valid() && ValidPayload(payload)
      modifies Footprint(), rt`choices, rt`conns, rt`now, rt`ticks, rt`wall, rt`lastSn, rt`replies
      ensures Valid() && fresh(Footprint() - old(Footprint()))
      ensures Used(Tracked(), Call.Control(payload), tries, AsVerdict(r), old(Snap()), Snap())
      ensures r == var f := LastAnswer(tries);
        if f.None? then None
        else Some(Get(f.value, "res") == Some(Number(0)) || Get(f.value, "res") == Some(Bool(false)))
    {
      hide Valid, Tried, Searched, Used, TryOf, ResultOf, LastAnswer, HoldsData, Get;
      ghost var a, call := Snap(), Call.Control(payload);
      r := TryControl(payload);
      tries := [TryOf(Tracked(), call, a)];
      ghost var b := Snap();
      if r.Some? {
        TriedOnce(Tracked(), call, a, b);
        UseSays(Tracked(), call, tries, AsVerdict(r), a, b);
        return;
      }
      var moved := Relocate();
      TriedAndSearched(Tracked(), call, a, b, Snap());
      UseSays(Tracked(), call, tries, None, a, Snap());
    }
  }
}
