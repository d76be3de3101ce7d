/** The life of a client: any number of calls, one after another. No frame is ever heard twice on the same path. */
module Lifetime {
  import opened Prelude
  import opened Framing
  import opened Decimal
  import opened JsonText
  import opened Protocol
  import opened Environment
  import opened Deliveries
  import opened LocalSteps
  import opened Rediscovering
  import opened Fallback
  import Breaker
  import Cloud
  import Local
  import RelayCodec

  function LinesOf(said: seq<Delivery>): seq<Bytes> {
    seq(|said|, i requires 0 <= i < |said| => said[i].line)
  }

  lemma {:induction false} LinesConcat(a: seq<Delivery>, b: seq<Delivery>)
    ensures LinesOf(a + b) == LinesOf(a) + LinesOf(b)
  {
  }

  /** Deliveries of one line to two hosts are different deliveries. */
  lemma {:induction false} HostsShare(said: seq<Delivery>, line: Bytes, h: Address, k: Address)
    ensures Count(said, Delivery(h, line)) <= Count(LinesOf(said), line)
    ensures h != k ==> Count(said, Delivery(h, line)) + Count(said, Delivery(k, line)) <= Count(LinesOf(said), line)
  {
    if said != [] {
      HostsShare(said[1..], line, h, k);
      assert LinesOf(said)[1..] == LinesOf(said[1..]);
    }
  }

  // ---------- frames, numbers and lines determine one another ----------

  /** The line of a call under number `n`. */
  function FrameLine(call: Call, n: int): Bytes
    requires ValidCall(call)
  {
    Bare(FrameOf(call, IntText(n)))
  }

  lemma FramesDiffer(c: Call, m: int, call: Call, n: int)
    requires ValidCall(c) && ValidCall(call) && FrameOf(c, IntText(m)) == FrameOf(call, IntText(n))
    ensures m == n
  {
    FrameOfWellFormed(c, IntText(m));
    FrameOfWellFormed(call, IntText(n));
    IntTextInjective(m, n);
    hide FrameOf, IntText;
  }

  lemma LinesDiffer(c: Call, m: int, call: Call, n: int)
    requires ValidCall(c) && ValidCall(call) && FrameLine(c, m) == FrameLine(call, n)
    ensures m == n
  {
    FrameOfWellFormed(c, IntText(m));
    FrameOfWellFormed(call, IntText(n));
    BareInjective(FrameOf(c, IntText(m)), FrameOf(call, IntText(n)));
    FramesDiffer(c, m, call, n);
    hide FrameOf, Bare;
  }

  /** A frame of `call` under number `n`, as the relay is sent it. */
  function RelayLine(d: Cloud.Endpoint, call: Call, n: int): Bytes
    requires ValidCall(call)
  {
    Cloud.Publication(d, FrameOf(call, IntText(n)))
  }

  lemma PublicationsAlike(d: Cloud.Endpoint, c: Call, m: int, call: Call, n: int)
    requires RelayCodec.Plain(d.id) && RelayCodec.Plain(d.key) && ValidCall(c) && ValidCall(call)
    requires RelayLine(d, c, m) == RelayLine(d, call, n)
    ensures FrameOf(c, IntText(m)) == FrameOf(call, IntText(n))
  {
    var f, g := FrameOf(c, IntText(m)), FrameOf(call, IntText(n));
    FrameOfWellFormed(c, IntText(m));
    FrameOfWellFormed(call, IntText(n));
    RelayCodec.PublishCarries(d.id, d.key, f);
    RelayCodec.PublishCarries(d.id, d.key, g);
    hide FrameOf, RelayCodec.PublishFields, RelayCodec.Carries, RelayCodec.FieldsOf, RelayCodec.MessageOf;
    RelayCodec.UnwrapCarried(RelayCodec.PublishFields(d.id, d.key, f), f);
    RelayCodec.UnwrapCarried(RelayCodec.PublishFields(d.id, d.key, g), g);
  }

  lemma PublicationsDiffer(d: Cloud.Endpoint, c: Call, m: int, call: Call, n: int)
    requires RelayCodec.Plain(d.id) && RelayCodec.Plain(d.key) && ValidCall(c) && ValidCall(call)
    requires RelayLine(d, c, m) == RelayLine(d, call, n)
    ensures m == n
  {
    hide RelayLine, FrameOf, RelayCodec.Plain;
    PublicationsAlike(d, c, m, call, n);
    FramesDiffer(c, m, call, n);
  }

  /** Device lines start with a brace, relay lines with their command, so none is taken for another. */
  lemma BareStarts(frame: Frame)
    ensures Bare(frame)[0] == 123
  {
    PrependParts('{', PrintFields(frame, []));
    assert Print(Object(frame))[0] == '{';
  }

  // ---------- one call ----------

  lemma OneLine(said: seq<Delivery>, d: Delivery, line: Bytes)
    requires said == [] || said == [d]
    ensures Count(LinesOf(said), line) == if said != [] && d.line == line then 1 else 0
  {
    if said == [d] {
      assert LinesOf(said) == [d.line];
      CountOne(d.line, line);
    }
  }

  lemma TryLine(call: Call, t: Try, line: Bytes)
    requires ValidCall(call)
    ensures Count(LinesOf(SaidIn(call, [t])), line) <= if FrameLine(call, t.n) == line then 1 else 0
  {
    SaidOnce(call, t);
    OneLine(SaidIn(call, [t]), Delivery(t.host, FrameLine(call, t.n)), line);
  }

  /** The local tries of one call: a line appears only if it is the frame of a try, and then once. */
  lemma LocalLines(call: Call, tries: seq<Try>, line: Bytes)
    requires ValidCall(call) && |tries| <= 2 && (|tries| == 2 ==> tries[0].n != tries[1].n)
    ensures Count(LinesOf(SaidIn(call, tries)), line) <= 1
    ensures Count(LinesOf(SaidIn(call, tries)), line) > 0 ==> exists t <- tries :: FrameLine(call, t.n) == line
  {
    hide FrameLine, SaidIn;
    if |tries| == 0 {
      SaidNothing(call);
      assert tries == [];
    } else {
      TryLine(call, tries[0], line);
      assert tries[0] in tries;
      if |tries| == 1 {
        assert tries == [tries[0]];
      } else {
        assert tries == [tries[0], tries[1]] && tries[1] in tries;
        TryLine(call, tries[1], line);
        SaidTwice(call, tries[0], tries[1]);
        LinesConcat(SaidIn(call, [tries[0]]), SaidIn(call, [tries[1]]));
        CountConcat(LinesOf(SaidIn(call, [tries[0]])), LinesOf(SaidIn(call, [tries[1]])), line);
        if FrameLine(call, tries[0].n) == FrameLine(call, tries[1].n) {
          LinesDiffer(call, tries[0].n, call, tries[1].n);
        }
      }
    }
  }

  /** The lines of a visit to the relay: the publication at most once, a device line never. */
  lemma RelayLines(said: seq<Delivery>, d: Cloud.Endpoint, frame: Frame, line: Bytes)
    requires said <= [Delivery(d.host, Cloud.Subscription(d)), Delivery(d.host, Cloud.Publication(d, frame))]
    requires line != Cloud.Subscription(d)
    ensures Count(LinesOf(said), line) <= if line == Cloud.Publication(d, frame) then 1 else 0
  {
    hide Cloud.Subscription, Cloud.Publication;
    var sub, pub := Delivery(d.host, Cloud.Subscription(d)), Delivery(d.host, Cloud.Publication(d, frame));
    if |said| == 2 {
      assert said == [sub] + [pub];
      LinesConcat([sub], [pub]);
      CountConcat(LinesOf([sub]), LinesOf([pub]), line);
      OneLine([sub], sub, line);
      OneLine([pub], pub, line);
    } else {
      OneLine(said, sub, line);
    }
  }

  function SaidBy(x: Called): seq<Delivery>
    requires ValidCall(x.call)
  {
    SaidIn(x.call, x.round.tries) + RelayHeard(x.round)
  }

  /** A line that stands for call `c` under number `n`, on whichever path. */
  ghost predicate Marks(relay: Option<Cloud.Endpoint>, line: Bytes, c: Call, n: int) {
    ValidCall(c) && (line == FrameLine(c, n) || (relay.Some? && line == RelayLine(relay.value, c, n)))
  }

  /** Numbers used in a call are new, and used once. */
  lemma NumbersUsed(u: Wiring, x: Called)
    requires Happened(u, x)
    ensures ValidCall(x.call) && |x.round.tries| <= 2
    ensures |x.round.tries| == 2 ==> x.round.tries[0].n != x.round.tries[1].n
    ensures forall t <- x.round.tries :: x.before.lastSn < t.n <= x.round.between.lastSn
    ensures x.before.lastSn <= x.round.between.lastSn <= x.after.lastSn
    ensures x.round.visit.Some? ==> x.round.between.lastSn < x.after.lastSn
  {
    hide Adds, Grows, Cloud.Served, Local.ResultOf, Cloud.ResultOf, Locally, Between, RequestOf, Fitting, SaidIn;
    UsedByRules(u, x.breaker, x.call, x.round, x.before);
  }

  lemma CallLines(u: Wiring, x: Called, line: Bytes, c: Call, n: int)
    requires Happened(u, x) && PlainEndpoint(u.relay) && Marks(u.relay, line, c, n)
    ensures Count(LinesOf(SaidBy(x)), line) <= 1
    ensures Count(LinesOf(SaidBy(x)), line) > 0 ==> x.before.lastSn < n <= x.after.lastSn
  {
    NumbersUsed(u, x);
    var tries, relayed := x.round.tries, RelayHeard(x.round);
    LocalLines(x.call, tries, line);
    LinesConcat(SaidIn(x.call, tries), relayed);
    CountConcat(LinesOf(SaidIn(x.call, tries)), LinesOf(relayed), line);
    if line == FrameLine(c, n) {
      DeviceLineLocally(x.call, tries, c, n, x.before.lastSn, x.round.between.lastSn);
      DeviceLineAtRelay(u, x, c, n);
    } else {
      RelayLineLocally(u.relay.value, x.call, tries, c, n);
      RelayLineAtRelay(u, x, c, n);
    }
    hide *;
  }

  lemma DeviceLineLocally(call: Call, tries: seq<Try>, c: Call, n: int, last: int, now: int)
    requires ValidCall(call) && ValidCall(c) && |tries| <= 2 && (|tries| == 2 ==> tries[0].n != tries[1].n)
    requires forall t <- tries :: last < t.n <= now
    ensures Count(LinesOf(SaidIn(call, tries)), FrameLine(c, n)) > 0 ==> last < n <= now
  {
    LocalLines(call, tries, FrameLine(c, n));
    hide FrameLine, SaidIn;
    if Count(LinesOf(SaidIn(call, tries)), FrameLine(c, n)) > 0 {
      var t :| t in tries && FrameLine(call, t.n) == FrameLine(c, n);
      LinesDiffer(call, t.n, c, n);
    }
  }

  lemma RelayLineLocally(d: Cloud.Endpoint, call: Call, tries: seq<Try>, c: Call, n: int)
    requires ValidCall(call) && ValidCall(c) && |tries| <= 2 && (|tries| == 2 ==> tries[0].n != tries[1].n)
    ensures Count(LinesOf(SaidIn(call, tries)), RelayLine(d, c, n)) == 0
  {
    var line := RelayLine(d, c, n);
    LocalLines(call, tries, line);
    Cloud.RelayLinesStart(d, FrameOf(c, IntText(n)));
    hide SaidIn, FrameOf, Cloud.Publication;
    if Count(LinesOf(SaidIn(call, tries)), line) > 0 {
      var t :| t in tries && FrameLine(call, t.n) == line;
      BareStarts(FrameOf(call, IntText(t.n)));
      assert false;
    }
  }

  lemma RelayPartOf(u: Wiring, x: Called)
    requires Happened(u, x) && PlainEndpoint(u.relay) && RelayHeard(x.round) != []
    ensures ValidCall(x.call) && u.relay.Some? && x.round.visit.Some?
    ensures RelayHeard(x.round) <= [Delivery(u.relay.value.host, Cloud.Subscription(u.relay.value)),
                                    Delivery(u.relay.value.host, RelayLine(u.relay.value, x.call, x.after.lastSn))]
  {
    hide Cloud.Served, Cloud.Subscription, Cloud.Publication, Locally, Between, RequestOf;
    RelayPart(u.relay, x.call, x.round, x.reply, x.after);
  }

  lemma DeviceLineAtRelay(u: Wiring, x: Called, c: Call, n: int)
    requires Happened(u, x) && PlainEndpoint(u.relay) && ValidCall(c)
    ensures Count(LinesOf(RelayHeard(x.round)), FrameLine(c, n)) == 0
  {
    hide Happened, RelayHeard, FrameOf, Cloud.Subscription, Cloud.Publication;
    if RelayHeard(x.round) != [] {
      RelayPartOf(u, x);
      var frame := FrameOf(x.call, IntText(x.after.lastSn));
      BareStarts(FrameOf(c, IntText(n)));
      Cloud.RelayLinesStart(u.relay.value, frame);
      RelayLines(RelayHeard(x.round), u.relay.value, frame, FrameLine(c, n));
    }
  }

  lemma RelayLineAtRelay(u: Wiring, x: Called, c: Call, n: int)
    requires Happened(u, x) && PlainEndpoint(u.relay) && ValidCall(c) && u.relay.Some?
    ensures Count(LinesOf(RelayHeard(x.round)), RelayLine(u.relay.value, c, n)) <= 1
    ensures Count(LinesOf(RelayHeard(x.round)), RelayLine(u.relay.value, c, n)) > 0 ==>
      x.round.between.lastSn < n == x.after.lastSn
  {
    NumbersUsed(u, x);
    hide Happened, RelayHeard, FrameOf, Cloud.Subscription, Cloud.Publication;
    if RelayHeard(x.round) != [] {
      RelayPartOf(u, x);
      var frame, line := FrameOf(x.call, IntText(x.after.lastSn)), RelayLine(u.relay.value, c, n);
      Cloud.RelayLinesStart(u.relay.value, frame);
      Cloud.RelayLinesStart(u.relay.value, FrameOf(c, IntText(n)));
      RelayLines(RelayHeard(x.round), u.relay.value, frame, line);
      if line == RelayLine(u.relay.value, x.call, x.after.lastSn) {
        PublicationsDiffer(u.relay.value, x.call, x.after.lastSn, c, n);
      }
    }
  }

  // ---------- a life ----------

  ghost function SaidAll(life: seq<Called>): seq<Delivery>
    requires forall x <- life :: ValidCall(x.call)
  {
    if life == [] then [] else SaidAll(life[..|life| - 1]) + SaidBy(life[|life| - 1])
  }

  lemma {:induction false} LifeCalls(u: Wiring, start: Snapshot, life: seq<Called>)
    requires Life(u, start, life)
    ensures forall x <- life :: ValidCall(x.call)
  {
    hide Happened;
    if life != [] {
      var n := |life| - 1;
      LifeCalls(u, start, life[..n]);
      NumbersUsed(u, life[n]);
      assert life == life[..n] + [life[n]];
    }
  }

  /** Everything heard during a life is what its calls said. */
  lemma {:induction false} LifeAdds(u: Wiring, start: Snapshot, life: seq<Called>)
    requires Life(u, start, life) && PlainEndpoint(u.relay) && forall x <- life :: ValidCall(x.call)
    ensures Adds(start.conns, End(start, life).conns, SaidAll(life))
  {
    if life == [] {
      AddsNothing(start.conns, start.conns);
    } else {
      var n := |life| - 1;
      var x, before := life[n], End(start, life[..n]);
      LifeAdds(u, start, life[..n]);
      EffectBound(u, x.breaker, x.call, x.round, x.reply, x.before, x.after);
      AddsTrans(start.conns, before.conns, x.before.conns, SaidAll(life[..n]), []);
      assert SaidAll(life[..n]) + [] == SaidAll(life[..n]);
      AddsTrans(start.conns, x.before.conns, x.after.conns, SaidAll(life[..n]), SaidBy(x));
    }
    hide Adds, Served, SaidIn, RelayHeard;
  }

  lemma {:induction false} LifeLines(u: Wiring, start: Snapshot, life: seq<Called>,
                                     line: Bytes, c: Call, n: int)
    requires Life(u, start, life) && PlainEndpoint(u.relay) && Marks(u.relay, line, c, n)
    requires forall x <- life :: ValidCall(x.call)
    ensures Count(LinesOf(SaidAll(life)), line) <= 1
    ensures Count(LinesOf(SaidAll(life)), line) > 0 ==> n <= End(start, life).lastSn
  {
    hide Happened, Marks, SaidBy, Adds;
    if life != [] {
      var k := |life| - 1;
      LifeLines(u, start, life[..k], line, c, n);
      CallLines(u, life[k], line, c, n);
      NumbersUsed(u, life[k]);
      LinesConcat(SaidAll(life[..k]), SaidBy(life[k]));
      CountConcat(LinesOf(SaidAll(life[..k])), LinesOf(SaidBy(life[k])), line);
    }
  }

  /** Safety over the whole life of a client, whatever peers, clocks and network do: no frame ever reaches
      local listeners twice, not even different ones, and none is ever published to the relay twice. */
  lemma NeverTwice(u: Wiring, start: Snapshot, life: seq<Called>,
                   c: Call, n: int, h: Address, k: Address)
    requires Life(u, start, life) && PlainEndpoint(u.relay) && ValidCall(c) && start.conns == []
    ensures var conns := End(start, life).conns;
      && Heard(conns, Delivery(h, FrameLine(c, n))) <= 1
      && (h != k ==> Heard(conns, Delivery(h, FrameLine(c, n))) + Heard(conns, Delivery(k, FrameLine(c, n))) <= 1)
      && (u.relay.Some? ==> Heard(conns, Delivery(h, RelayLine(u.relay.value, c, n))) <= 1)
  {
    hide Life, SaidAll, FrameLine, RelayLine, Lines, LinesOf;
    LifeCalls(u, start, life);
    LifeAdds(u, start, life);
    LifeLines(u, start, life, FrameLine(c, n), c, n);
    HostsShare(SaidAll(life), FrameLine(c, n), h, k);
    if u.relay.Some? {
      LifeLines(u, start, life, RelayLine(u.relay.value, c, n), c, n);
      HostsShare(SaidAll(life), RelayLine(u.relay.value, c, n), h, k);
    }
  }

  /** The same of any state that a client, created before anything was said, can reach. */
  lemma ClientNeverTwice(client: FallbackClient, c: Call, n: int, h: Address, k: Address)
    requires client.Valid() && client.birth.conns == [] && PlainEndpoint(client.Relay()) && ValidCall(c)
    ensures var conns, relay := client.rt.conns, client.Relay();
      && Heard(conns, Delivery(h, FrameLine(c, n))) <= 1
      && (h != k ==> Heard(conns, Delivery(h, FrameLine(c, n))) + Heard(conns, Delivery(k, FrameLine(c, n))) <= 1)
      && (relay.Some? ==> Heard(conns, Delivery(h, RelayLine(relay.value, c, n))) <= 1)
  {
    NeverTwice(client.Wired(), client.birth, client.life, c, n, h, k);
    hide Life, End, Remembers, FrameLine, RelayLine, Heard, RediscoveringTransport.Valid;
  }
}
