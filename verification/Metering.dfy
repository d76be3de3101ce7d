/** Polling, and the metering group that is probed once (coordinator.py, const.py). */
module Metering {
  import opened Prelude
  import opened Decimal
  import opened JsonText
  import opened Protocol
  import opened Environment
  import opened Framing
  import opened Deliveries
  import opened Rediscovering
  import opened Fallback
  import opened Lifetime
  import Cloud
  import RelayCodec

  const DPID_ENERGY := 26
  const DPID_CURRENT := 27
  const DPID_POWER := 28
  const DPID_VOLTAGE := 29

  const METERING_DPIDS: seq<int> := [DPID_ENERGY, DPID_CURRENT, DPID_POWER, DPID_VOLTAGE]

  type Data = Dict<string, Json>

  /** One poll: the wildcard reply, the explicit query made if any and its reply, and the outcome; `None` for a
      `TransportError`. */
  datatype Poll = Polled(wildcard: Option<Data>, asked: Option<seq<int>>, readings: Option<Data>, result: Option<Data>)

  /** The device turned out to have the metering group. */
  predicate Supported(readings: Option<Data>) {
    readings.Some? && readings.value != []
  }

  /** These readings hold a value for some datapoint. */
  ghost predicate HoldsReading(readings: Option<Data>) {
    readings.Some? && exists dpid: string :: Get(readings.value, dpid).Some?
  }

  lemma SupportedSays(readings: Option<Data>)
    ensures Supported(readings) <==> HoldsReading(readings)
  {
    if Supported(readings) {
      assert Get(readings.value, readings.value[0].key).Some?;
    }
  }

  /** What a poll is, metering standing at `m`. */
  ghost predicate Steps(m: Option<seq<int>>, p: Poll, m': Option<seq<int>>) {
    if p.wildcard.None? then p == Polled(None, None, None, None) && m' == m
    else match m
      case None =>
        && p.asked == Some(METERING_DPIDS)
        && p.result ==
             Some(if Supported(p.readings) then Update(p.wildcard.value, p.readings.value) else p.wildcard.value)
        && m' == Some(if Supported(p.readings) then METERING_DPIDS else [])
      case Some(dpids) =>
        && m' == m
        && if dpids == [] then p.asked.None? && p.readings.None? && p.result == p.wildcard
           else && p.asked == Some(dpids)
                && p.result ==
                     Some(if p.readings.Some? then Update(p.wildcard.value, p.readings.value) else p.wildcard.value)
  }

  ghost predicate Sensible(p: Poll) {
    && (p.wildcard.Some? ==> Distinct(p.wildcard.value))
    && (p.readings.Some? ==> Distinct(p.readings.value))
  }

  /** A run of polls, metering standing at `m` after it. */
  ghost predicate IsRun(polls: seq<Poll>, m: Option<seq<int>>) {
    if polls == [] then m == None
    else exists m0 {:trigger Steps(m0, polls[|polls| - 1], m)} ::
      IsRun(polls[..|polls| - 1], m0) && Steps(m0, polls[|polls| - 1], m) && Sensible(polls[|polls| - 1])
  }

  lemma NothingPolled(m: Option<seq<int>>)
    ensures Steps(m, Polled(None, None, None, None), m) && Sensible(Polled(None, None, None, None))
  {
  }

  lemma RunGrows(polls: seq<Poll>, m: Option<seq<int>>, p: Poll, m': Option<seq<int>>)
    requires IsRun(polls, m) && Steps(m, p, m') && Sensible(p)
    ensures IsRun(polls + [p], m')
  {
    assert (polls + [p])[..|polls|] == polls && (polls + [p])[|polls|] == p;
    assert Steps(m, (polls + [p])[|polls|], m');
  }

  /** The first poll whose wildcard query succeeded, or `|polls|`: the one that probes. */
  function Probe(polls: seq<Poll>): (i: nat)
    ensures i <= |polls|
    ensures i < |polls| ==> polls[i].wildcard.Some?
    ensures forall j | 0 <= j < i :: polls[j].wildcard.None?
  {
    if polls == [] || polls[0].wildcard.Some? then 0
    else
      var i := Probe(polls[1..]);
      assert forall j | 1 <= j < 1 + i :: polls[j] == polls[1..][j - 1];
      1 + i
  }

  lemma ProbeIs(polls: seq<Poll>, i: nat)
    requires i <= |polls| && (i < |polls| ==> polls[i].wildcard.Some?)
    requires forall j | 0 <= j < i :: polls[j].wildcard.None?
    ensures Probe(polls) == i
  {
  }

  /** Later polls do not move the probe. */
  lemma ProbeStays(polls: seq<Poll>, p: Poll)
    ensures Probe(polls + [p]) == if Probe(polls) < |polls| || p.wildcard.Some? then Probe(polls) else |polls| + 1
  {
    var i := Probe(polls);
    var more := polls + [p];
    assert forall j | 0 <= j < |polls| :: more[j] == polls[j];
    ProbeIs(more, if i < |polls| || p.wildcard.Some? then i else |polls| + 1);
  }

  /** What metering remembers of a run: nothing before the probe, and then what the probe found. */
  function Remembered(polls: seq<Poll>): Option<seq<int>> {
    var i := Probe(polls);
    if i == |polls| then None else Some(if Supported(polls[i].readings) then METERING_DPIDS else [])
  }

  lemma {:induction false} RunIs(polls: seq<Poll>, m: Option<seq<int>>)
    requires IsRun(polls, m)
    ensures m == Remembered(polls)
  {
    if polls != [] {
      var n := |polls| - 1;
      var m0 :| IsRun(polls[..n], m0) && Steps(m0, polls[n], m) && Sensible(polls[n]);
      RunIs(polls[..n], m0);
      assert polls[..n] + [polls[n]] == polls;
      ProbeStays(polls[..n], polls[n]);
    }
  }

  /** The coordinator knows nothing before a wildcard query has succeeded, and then what its first answer told: the
      datapoints 26 to 29 if that held a value for any datapoint, and none otherwise. */
  lemma RunRemembers(polls: seq<Poll>, m: Option<seq<int>>)
    requires IsRun(polls, m)
    ensures var first := Probe(polls);
      m == if first == |polls| then None
           else if HoldsReading(polls[first].readings) then Some([26, 27, 28, 29]) else Some([])
  {
    RunIs(polls, m);
    if Probe(polls) < |polls| { SupportedSays(polls[Probe(polls)].readings); }
    hide IsRun, HoldsReading, Supported;
  }

  lemma {:induction false} RunAt(polls: seq<Poll>, m: Option<seq<int>>, i: nat)
    requires IsRun(polls, m) && i < |polls|
    ensures exists m': Option<seq<int>> :: Steps(Remembered(polls[..i]), polls[i], m') && Sensible(polls[i])
    decreases |polls|
  {
    var n := |polls| - 1;
    var m0 :| IsRun(polls[..n], m0) && Steps(m0, polls[n], m) && Sensible(polls[n]);
    RunIs(polls[..n], m0);
    if i < n {
      RunAt(polls[..n], m0, i);
      assert polls[..n][..i] == polls[..i];
    }
  }

  lemma ProbeBefore(polls: seq<Poll>, i: nat)
    requires i < |polls|
    ensures Probe(polls[..i]) == if Probe(polls) < i then Probe(polls) else i
  {
    ProbeIs(polls[..i], if Probe(polls) < i then Probe(polls) else i);
  }

  /** The metering automaton, over any run of polls: the group is asked for by the first poll whose wildcard
      query succeeds, and by a later one exactly if that first answer brought readings; always the same group, and
      never of a device that lacks it. A poll fails exactly if its wildcard query fails. */
  lemma AskedExactly(polls: seq<Poll>, m: Option<seq<int>>, i: nat)
    requires IsRun(polls, m) && i < |polls|
    ensures var p, first := polls[i], Probe(polls);
      && (p.asked.Some? <==> p.wildcard.Some? && (i == first || HoldsReading(polls[first].readings)))
      && (p.asked.Some? ==> p.asked.value == [26, 27, 28, 29])
      && (p.result.Some? <==> p.wildcard.Some?)
  {
    RunAt(polls, m, i);
    ProbeBefore(polls, i);
    if Probe(polls) < i { assert polls[..i][Probe(polls)] == polls[Probe(polls)]; }
    if Probe(polls) < |polls| { SupportedSays(polls[Probe(polls)].readings); }
    hide IsRun, HoldsReading, Supported;
  }

  /** A successful poll shows the readings where there are any, and the wildcard reply everywhere else. */
  lemma Overlaid(polls: seq<Poll>, m: Option<seq<int>>, i: nat, dpid: string)
    requires IsRun(polls, m) && i < |polls| && polls[i].result.Some?
    ensures var p := polls[i];
      && p.wildcard.Some?
      && Get(p.result.value, dpid) ==
           if p.readings.Some? && Get(p.readings.value, dpid).Some? then Get(p.readings.value, dpid)
           else Get(p.wildcard.value, dpid)
  {
    RunAt(polls, m, i);
    var p := polls[i];
    if p.readings.Some? {
      UpdateGet(p.wildcard.value, p.readings.value, dpid);
    }
  }

  // ---------- what the device hears of it ----------

  /** How a poll went through the client: the wildcard query, then, if there was one, the explicit query. */
  datatype Trail = Trail(first: Called, second: Option<Called>)

  /** The client served a query for these attributes, with this outcome. */
  ghost predicate Queried(u: Wiring, x: Called, attrs: seq<int>, got: Option<Data>) {
    Happened(u, x) && x.call == Call.Query(attrs) && x.reply == AsReadings(got)
  }

  ghost predicate Went(u: Wiring, t: Trail, p: Poll) {
    && Queried(u, t.first, [], p.wildcard)
    && (t.second.Some? <==> p.asked.Some?)
    && (p.asked.Some? ==> Queried(u, t.second.value, p.asked.value, p.readings))
  }

  ghost predicate WentAll(u: Wiring, trails: seq<Trail>, polls: seq<Poll>) {
    |trails| == |polls| && forall i | 0 <= i < |polls| :: Went(u, trails[i], polls[i])
  }

  lemma WentGrows(u: Wiring, trails: seq<Trail>, polls: seq<Poll>, t: Trail, p: Poll)
    requires WentAll(u, trails, polls) && Queried(u, t.first, [], p.wildcard)
    requires t.second.Some? <==> p.asked.Some?
    requires p.asked.Some? ==> Queried(u, t.second.value, p.asked.value, p.readings)
    ensures WentAll(u, trails + [t], polls + [p])
  {
    hide Queried;
  }

  /** What a poll makes anybody hear. */
  ghost function SaidOn(t: Trail): seq<Delivery> {
    SaidByQuery(t.first) + if t.second.Some? then SaidByQuery(t.second.value) else []
  }

  ghost function SaidByQuery(x: Called): seq<Delivery> {
    if x.call.Query? then SaidBy(x) else []
  }

  ghost function SaidOnAll(trails: seq<Trail>): seq<Delivery> {
    if trails == [] then [] else SaidOnAll(trails[..|trails| - 1]) + SaidOn(trails[|trails| - 1])
  }

  /** A line that asks a device for the metering group. */
  ghost predicate AsksDevice(line: Bytes) {
    exists n: int :: line == FrameLine(Call.Query([26, 27, 28, 29]), n)
  }

  /** A line that has the relay pass such a question on. */
  ghost predicate AsksRelay(relay: Option<Cloud.Endpoint>, line: Bytes) {
    relay.Some? && exists n: int :: line == RelayLine(relay.value, Call.Query([26, 27, 28, 29]), n)
  }

  ghost function AskedOfDevice(said: seq<Delivery>): nat {
    if said == [] then 0 else (if AsksDevice(said[0].line) then 1 else 0) + AskedOfDevice(said[1..])
  }

  ghost function AskedOfRelay(relay: Option<Cloud.Endpoint>, said: seq<Delivery>): nat {
    if said == [] then 0 else (if AsksRelay(relay, said[0].line) then 1 else 0) + AskedOfRelay(relay, said[1..])
  }

  lemma {:induction false} AskedConcat(relay: Option<Cloud.Endpoint>, a: seq<Delivery>, b: seq<Delivery>)
    ensures AskedOfDevice(a + b) == AskedOfDevice(a) + AskedOfDevice(b)
    ensures AskedOfRelay(relay, a + b) == AskedOfRelay(relay, a) + AskedOfRelay(relay, b)
  {
    hide AsksDevice, AsksRelay;
    if a == [] {
      assert a + b == b;
    } else {
      AskedConcat(relay, a[1..], b);
      assert (a + b)[0] == a[0] && (a + b)[1..] == a[1..] + b;
    }
  }

  lemma {:induction false} AskedAtMost(relay: Option<Cloud.Endpoint>, said: seq<Delivery>)
    ensures AskedOfDevice(said) <= |said| && AskedOfRelay(relay, said) <= |said|
  {
    hide AsksDevice, AsksRelay;
    if said != [] { AskedAtMost(relay, said[1..]); }
  }

  lemma {:induction false} DeviceNotAsked(said: seq<Delivery>)
    requires forall d <- said :: !AsksDevice(d.line)
    ensures AskedOfDevice(said) == 0
  {
    hide AsksDevice;
    if said != [] {
      assert said[0] in said;
      DeviceNotAsked(said[1..]);
    }
  }

  lemma {:induction false} RelayNotAsked(relay: Option<Cloud.Endpoint>, said: seq<Delivery>)
    requires forall d <- said :: !AsksRelay(relay, d.line)
    ensures AskedOfRelay(relay, said) == 0
  {
    hide AsksRelay;
    if said != [] {
      assert said[0] in said;
      RelayNotAsked(relay, said[1..]);
    }
  }

  lemma WildcardFramesDiffer(m: int, n: int)
    ensures FrameOf(Call.Query([]), IntText(m)) != FrameOf(Call.Query(METERING_DPIDS), IntText(n))
  {
    hide IntText;
    var f, g := FrameOf(Call.Query([]), IntText(m)), FrameOf(Call.Query(METERING_DPIDS), IntText(n));
    assert f[3].val.fields[0].val.items == Numbers([ATTR_ALL]);
    assert g[3].val.fields[0].val.items == Numbers(METERING_DPIDS);
    assert |Numbers([ATTR_ALL])| == 1 && |Numbers(METERING_DPIDS)| == 4;
  }

  lemma WildcardLinesDiffer(m: int)
    ensures !AsksDevice(FrameLine(Call.Query([]), m))
  {
    hide IntText, Bare, FrameOf;
    if AsksDevice(FrameLine(Call.Query([]), m)) {
      var n: int :| FrameLine(Call.Query([]), m) == FrameLine(Call.Query(METERING_DPIDS), n);
      FrameOfWellFormed(Call.Query([]), IntText(m));
      FrameOfWellFormed(Call.Query(METERING_DPIDS), IntText(n));
      BareInjective(FrameOf(Call.Query([]), IntText(m)), FrameOf(Call.Query(METERING_DPIDS), IntText(n)));
      WildcardFramesDiffer(m, n);
    }
  }

  /** A line said locally is a frame of the call it was said for, and none the relay would pass on. */
  lemma LocalLineOf(relay: Option<Cloud.Endpoint>, call: Call, tries: seq<Try>, d: Delivery)
    requires ValidCall(call) && |tries| <= 2 && (|tries| == 2 ==> tries[0].n != tries[1].n)
    requires d in SaidIn(call, tries)
    ensures !AsksRelay(relay, d.line) && exists n: int :: d.line == FrameLine(call, n)
  {
    hide FrameLine, RelayLine, SaidIn;
    CountMember(LinesOf(SaidIn(call, tries)), d.line);
    InLines(SaidIn(call, tries), d);
    LocalLines(call, tries, d.line);
    var t :| t in tries && FrameLine(call, t.n) == d.line;
    if AsksRelay(relay, d.line) {
      var n: int :| d.line == RelayLine(relay.value, Call.Query(METERING_DPIDS), n);
      RelayLineLocally(relay.value, call, tries, Call.Query(METERING_DPIDS), n);
    }
  }

  lemma InLines(said: seq<Delivery>, d: Delivery)
    requires d in said
    ensures d.line in LinesOf(said)
  {
    var i :| 0 <= i < |said| && said[i] == d;
    assert LinesOf(said)[i] == d.line;
  }

  /** What a query makes the device hear is that query, and so much of it. */
  lemma QueryHeardLocally(u: Wiring, x: Called)
    requires Happened(u, x) && PlainEndpoint(u.relay) && x.call.Query?
    ensures AskedOfDevice(SaidIn(x.call, x.round.tries)) <= (if x.call.attrs == [] then 0 else 2)
    ensures AskedOfRelay(u.relay, SaidIn(x.call, x.round.tries)) == 0
  {
    hide SaidIn, AsksDevice, AsksRelay, UsedLocally, Relayed, FrameLine;
    NumbersUsed(u, x);
    LocalPart(u, x.breaker, x.call, x.round, x.before);
    var said := SaidIn(x.call, x.round.tries);
    AskedAtMost(u.relay, said);
    forall d <- said ensures !AsksRelay(u.relay, d.line) && (x.call.attrs == [] ==> !AsksDevice(d.line)) {
      LocalLineOf(u.relay, x.call, x.round.tries, d);
      var n: int :| d.line == FrameLine(x.call, n);
      if x.call.attrs == [] { WildcardLinesDiffer(n); }
    }
    RelayNotAsked(u.relay, said);
    if x.call.attrs == [] { DeviceNotAsked(said); }
  }

  lemma RelayLinesAsk(d: Cloud.Endpoint, attrs: seq<int>, n: int)
    requires RelayCodec.Plain(d.id) && RelayCodec.Plain(d.key)
    ensures !AsksDevice(Cloud.Subscription(d)) && !AsksRelay(Some(d), Cloud.Subscription(d))
    ensures !AsksDevice(RelayLine(d, Call.Query(attrs), n))
    ensures attrs == [] ==> !AsksRelay(Some(d), RelayLine(d, Call.Query(attrs), n))
  {
    hide FrameOf, Bare, Cloud.Subscription, Cloud.Publication, IntText, RelayCodec.Plain;
    var call, metering := Call.Query(attrs), Call.Query(METERING_DPIDS);
    Cloud.RelayLinesStart(d, FrameOf(call, IntText(n)));
    forall k: int
      ensures FrameLine(metering, k) != Cloud.Subscription(d) && FrameLine(metering, k) != RelayLine(d, call, n)
      ensures RelayLine(d, metering, k) != Cloud.Subscription(d)
      ensures attrs == [] ==> RelayLine(d, metering, k) != RelayLine(d, call, n)
    {
      BareStarts(FrameOf(metering, IntText(k)));
      Cloud.RelayLinesStart(d, FrameOf(metering, IntText(k)));
      if attrs == [] && RelayLine(d, metering, k) == RelayLine(d, call, n) {
        PublicationsAlike(d, metering, k, call, n);
        WildcardFramesDiffer(n, k);
      }
    }
  }

  lemma QueryHeardByRelay(u: Wiring, x: Called)
    requires Happened(u, x) && PlainEndpoint(u.relay) && x.call.Query?
    ensures AskedOfDevice(RelayHeard(x.round)) == 0
    ensures AskedOfRelay(u.relay, RelayHeard(x.round)) <= (if x.call.attrs == [] then 0 else 1)
  {
    hide Happened, RelayHeard, RelayLine, Cloud.Subscription, AsksDevice, AsksRelay, RelayCodec.Plain, AskedOfDevice;
    var said := RelayHeard(x.round);
    if said != [] {
      RelayPartOf(u, x);
      RelayLinesAsk(u.relay.value, x.call.attrs, x.after.lastSn);
      assert said[0].line == Cloud.Subscription(u.relay.value);
      assert |said| == 2 ==> said[1].line == RelayLine(u.relay.value, x.call, x.after.lastSn);
      DeviceNotAsked(said);
      RelayNotAsked(u.relay, said[..1]);
      AskedAtMost(u.relay, said[1..]);
      if x.call.attrs == [] { RelayNotAsked(u.relay, said[1..]); }
      AskedConcat(u.relay, said[..1], said[1..]);
      assert said[..1] + said[1..] == said;
    } else {
      DeviceNotAsked(said);
    }
  }

  /** A wildcard query asks nobody for the group; an explicit one asks listeners twice at most and the relay once. */
  lemma QueryAsks(u: Wiring, x: Called)
    requires Happened(u, x) && PlainEndpoint(u.relay) && x.call.Query?
    ensures AskedOfDevice(SaidByQuery(x)) <= (if x.call.attrs == [] then 0 else 2)
    ensures AskedOfRelay(u.relay, SaidByQuery(x)) <= (if x.call.attrs == [] then 0 else 1)
  {
    hide Happened, SaidIn, RelayHeard, AskedOfDevice, AskedOfRelay;
    QueryHeardLocally(u, x);
    QueryHeardByRelay(u, x);
    AskedConcat(u.relay, SaidIn(x.call, x.round.tries), RelayHeard(x.round));
  }

  lemma PollAsks(u: Wiring, t: Trail, p: Poll)
    requires Went(u, t, p) && PlainEndpoint(u.relay)
    ensures AskedOfDevice(SaidOn(t)) <= (if p.asked.None? then 0 else 2)
    ensures AskedOfRelay(u.relay, SaidOn(t)) <= (if p.asked.None? then 0 else 1)
  {
    hide Happened, SaidByQuery;
    QueryAsks(u, t.first);
    if t.second.Some? { QueryAsks(u, t.second.value); }
    AskedConcat(u.relay, SaidByQuery(t.first), if t.second.Some? then SaidByQuery(t.second.value) else []);
  }

  /** The probe brought no reading, or there has been none. */
  ghost predicate NotFound(polls: seq<Poll>) {
    Probe(polls) < |polls| ==> !HoldsReading(polls[Probe(polls)].readings)
  }

  lemma {:induction false} AsksUpTo(u: Wiring, polls: seq<Poll>, m: Option<seq<int>>, trails: seq<Trail>, k: nat)
    requires IsRun(polls, m) && WentAll(u, trails, polls) && PlainEndpoint(u.relay) && NotFound(polls) && k <= |polls|
    ensures AskedOfDevice(SaidOnAll(trails[..k])) <= (if Probe(polls) < k then 2 else 0)
    ensures AskedOfRelay(u.relay, SaidOnAll(trails[..k])) <= (if Probe(polls) < k then 1 else 0)
  {
    hide Went, SaidOn, IsRun, HoldsReading;
    if k > 0 {
      AsksUpTo(u, polls, m, trails, k - 1);
      AskedExactly(polls, m, k - 1);
      PollAsks(u, trails[k - 1], polls[k - 1]);
      assert trails[..k][..k - 1] == trails[..k - 1];
      AskedConcat(u.relay, SaidOnAll(trails[..k - 1]), SaidOn(trails[k - 1]));
    }
  }

  /** Probed once: over any run of polls whose probe finds nothing, all polls together make local listeners hear a
      question for the metering group twice at most, and the relay once. */
  lemma ProbedOnce(u: Wiring, polls: seq<Poll>, m: Option<seq<int>>, trails: seq<Trail>)
    requires IsRun(polls, m) && WentAll(u, trails, polls) && PlainEndpoint(u.relay) && NotFound(polls)
    ensures AskedOfDevice(SaidOnAll(trails)) <= 2
    ensures AskedOfRelay(u.relay, SaidOnAll(trails)) <= 1
  {
    hide Went, IsRun, SaidOnAll, NotFound;
    AsksUpTo(u, polls, m, trails, |polls|);
    assert trails[..|polls|] == trails;
  }

  lemma QueriedAs(u: Wiring, x: Called, attrs: seq<int>, got: Option<Data>)
    requires Served(u, x.breaker, Call.Query(attrs), x.round, AsReadings(got), x.before, x.after)
    requires x.call == Call.Query(attrs) && x.reply == AsReadings(got)
    ensures Queried(u, x, attrs, got)
  {
    hide Served;
  }

  /** `CozyLifeCoordinator` */
  class Coordinator {
    const client: FallbackClient
    var metering: Option<seq<int>>
    ghost var polls: seq<Poll>
    ghost var trails: seq<Trail>

    ghost function Footprint(): set<object>
      reads this, client, client.local, client.local.transport
    {
      {this} + client.Footprint()
    }

    ghost predicate Valid()
      reads this, client, client.local, client.rt, client.local.transport, client.local.transport.conn
    {
      client.Valid() && IsRun(polls, metering) && WentAll(client.Wired(), trails, polls)
    }

    constructor (client: FallbackClient)
      requires client.Valid()
      ensures this.client == client && Valid() && polls == []
    {
      this.client, metering, polls, trails := client, None, [], [];
    }

    /** In every state a coordinator can reach: unless it has found the group, its polls have asked listeners for it
        twice at most, and the relay once. */
    lemma ProbesOnce()
      requires Valid() && PlainEndpoint(client.Relay()) && metering != Some([26, 27, 28, 29])
      ensures AskedOfDevice(SaidOnAll(trails)) <= 2
      ensures AskedOfRelay(client.Relay(), SaidOnAll(trails)) <= 1
    {
      hide WentAll, IsRun, SaidOnAll, FallbackClient.Valid;
      RunRemembers(polls, metering);
      ProbedOnce(client.Wired(), polls, metering, trails);
    }

    /** `self.client.query` */
    method Ask(attrs: seq<int>) returns (data: Option<Data>, ghost x: Called)
      requires client.Valid()
      modifies client.Footprint(), client.rt`choices, client.rt`conns, client.rt`now, client.rt`ticks, client.rt`wall,
               client.rt`lastSn, client.rt`replies
      ensures client.Valid() && fresh(client.Footprint() - old(client.Footprint()))
      ensures Queried(client.Wired(), x, attrs, data) && (data.Some? ==> Distinct(data.value))
      ensures x.breaker == old(client.State()) && x.before == old(client.local.Snap()) && x.after == client.local.Snap()
    {
      hide Served, Queried, AnswerOf, HoldsData, FallbackClient.Valid;
      ghost var b, before := client.State(), client.local.Snap();
      ghost var round;
      data, round := client.Query(attrs);
      x := Called(Call.Query(attrs), round, AsReadings(data), b, before, client.local.Snap());
      QueriedAs(client.Wired(), x, attrs, data);
    }

    /** `_poll` */
    method Poll() returns (r: Option<Data>, ghost t: Trail)
      requires Valid()
      modifies Footprint(), client.rt`choices, client.rt`conns, client.rt`now, client.rt`ticks, client.rt`wall,
               client.rt`lastSn, client.rt`replies
      ensures Valid() && fresh(Footprint() - old(Footprint()))
      ensures |polls| == |old(polls)| + 1 && polls[..|old(polls)|] == old(polls) && trails == old(trails) + [t]
      ensures polls[|old(polls)|].result == r
      ensures t.first.breaker == old(client.State()) && t.first.before == old(client.local.Snap())
      ensures t.second.Some? ==> t.second.value.before == t.first.after
      ensures client.local.Snap() == if t.second.Some? then t.second.value.after else t.first.after
    {
      hide IsRun, Steps, Sensible, Queried, WentAll, FallbackClient.Valid;
      ghost var first, second, p;
      ghost var m := metering;
      var data;
      data, first := Ask([]);
      if data.Some? {
        var merged;
        merged, p, second := Merge(data.value);
        r := Some(merged);
      } else {
        NothingPolled(m);
        r, p, second := None, Polled(None, None, None, None), None;
      }
      t := Trail(first, second);
      WentGrows(client.Wired(), trails, polls, t, p);
      RunGrows(polls, m, p, metering);
      polls, trails := polls + [p], trails + [t];
    }

    /** The second half of `_poll`: the metering readings, if they are wanted. */
    method Merge(wildcard: Data) returns (data: Data, ghost p: Poll, ghost second: Option<Called>)
      requires client.Valid() && Distinct(wildcard)
      modifies this`metering, client.Footprint(), client.rt`choices, client.rt`conns, client.rt`now,
               client.rt`ticks, client.rt`wall,
               client.rt`lastSn, client.rt`replies
      ensures client.Valid() && fresh(client.Footprint() - old(client.Footprint()))
      ensures polls == old(polls) && trails == old(trails)
      ensures p.wildcard == Some(wildcard) && p.result == Some(data)
      ensures Steps(old(metering), p, metering) && Sensible(p)
      ensures (second.Some? <==> p.asked.Some?)
      ensures second.Some? ==> Queried(client.Wired(), second.value, p.asked.value, p.readings)
      ensures second.Some? ==> second.value.before == old(client.local.Snap())
      ensures client.local.Snap() == if second.Some? then second.value.after else old(client.local.Snap())
    {
      hide Happened, Served, Queried, Accounted, FallbackClient.Sound, FallbackClient.Valid, Distinct;
      ghost var readings, asked := None, None;
      data, second := wildcard, None;
      if metering == None {
        var supported;
        ghost var x;
        supported, data, readings, x := ProbeMetering(wildcard);
        asked, second := Some(METERING_DPIDS), Some(x);
        metering := Some(if supported then METERING_DPIDS else []);
      } else if metering.value != [] {
        var more;
        ghost var x;
        more, x := Ask(metering.value);
        asked, readings, second := metering, more, Some(x);
        if more.Some? {
          data := Update(data, more.value);
        }
      }
      p := Polled(Some(wildcard), asked, readings, Some(data));
    }

    /** `_probe_metering`: whether the device has the group, and the data with its readings merged in. */
    method ProbeMetering(data: Data)
        returns (supported: bool, merged: Data, ghost readings: Option<Data>, ghost x: Called)
      requires client.Valid()
      modifies client.Footprint(), client.rt`choices, client.rt`conns, client.rt`now, client.rt`ticks, client.rt`wall,
               client.rt`lastSn, client.rt`replies
      ensures client.Valid() && fresh(client.Footprint() - old(client.Footprint()))
      ensures supported == Supported(readings) && (readings.Some? ==> Distinct(readings.value))
      ensures supported <==> HoldsReading(readings)
      ensures merged == if supported then Update(data, readings.value) else data
      ensures Queried(client.Wired(), x, METERING_DPIDS, readings)
      ensures x.before == old(client.local.Snap()) && x.after == client.local.Snap()
    {
      hide Queried, FallbackClient.Valid;
      var got;
      got, x := Ask(METERING_DPIDS);
      readings, supported, merged := got, false, data;
      if got.Some? && got.value != [] {
        supported, merged := true, Update(data, got.value);
      }
      SupportedSays(readings);
    }
  }
}
