/** The breaker's bounds, for every client in a state it can reach (api/fallback.py, api/rediscovering.py). */
module History {
  import opened Prelude
  import opened Protocol
  import opened Environment
  import opened Deliveries
  import opened LocalSteps
  import opened Rediscovering
  import opened Fallback
  import Breaker

  // ---------- a life, part by part ----------

  lemma {:induction false} AfterConcat(s: Breaker.Settings, b: Breaker.State,
                                       p: seq<Breaker.Request>, q: seq<Breaker.Request>)
    ensures Breaker.After(s, b, p + q) == Breaker.After(s, Breaker.After(s, b, p), q)
  {
    hide Breaker.Serve;
    if q == [] {
      assert p + q == p;
    } else {
      var n := |q| - 1;
      assert (p + q)[..|p + q| - 1] == p + q[..n];
      AfterConcat(s, b, p, q[..n]);
    }
  }

  lemma {:induction false} LifeAt(u: Wiring, start: Snapshot, life: seq<Called>, i: nat)
    requires Life(u, start, life) && i < |life|
    ensures Happened(u, life[i]) && Life(u, start, life[..i])
    ensures life[i].breaker == Breaker.After(u.breaker, Breaker.INITIAL, Requests(life[..i]))
    decreases |life|
  {
    hide Happened;
    var n := |life| - 1;
    if i < n {
      LifeAt(u, start, life[..n], i);
      assert life[..n][..i] == life[..i];
    }
  }

  // ---------- coverage ----------

  /** When the last attempt made the circuit wait: its failure made up the limit, or it was a probe. */
  function WaitingSince(s: Breaker.Settings, h: seq<Breaker.Attempt>): real
    requires h != []
  {
    if Breaker.Trailing(h) == Breaker.Limit(s) then h[|h| - 1].record else h[|h| - 1].probe
  }

  lemma CoveredAt(u: Wiring, b: Breaker.State, birth: Snapshot, life: seq<Called>, at: Snapshot, i: nat, w: Outside)
    requires Accounted(u, b, birth, life, at) && i < |life| && (u.breaker.hasCloud <==> u.relay.Some?)
    requires MayFind(Decide(u.breaker, life[i].breaker, life[i].before), w)
    ensures var x, h := life[i], Breaker.Attempts(u.breaker, Breaker.INITIAL, Requests(life[..i]));
      var q := x.round.request;
      && ValidCall(x.call) && q == RequestOf(u, x.breaker, x.call, x.before)
      && (LocalWould(u.target, x.call, Decide(u.breaker, x.breaker, x.before), w) || q.cloudWorks ==>
            (x.reply.None? <==> u.relay.Some? && !q.cloudWorks && Breaker.Trailing(h) >= Breaker.Limit(u.breaker)
                                && q.check < WaitingSince(u.breaker, h) + u.breaker.interval))
  {
    hide UsedLocally, Relayed, RequestOf, Breaker.After, Breaker.Attempts, Remembers, Quiet, Life, LocalWould,
         Breaker.Answered, WaitingSince, MayFind, Decide, Between, RelayServes;
    var x := life[i];
    LifeAt(u, birth, life, i);
    AnsweredExactly(u, x.breaker, x.call, x.round, x.reply, x.before, x.after, w);
    NoCloudNoService(u, x);
    var works := LocalWould(u.target, x.call, Decide(u.breaker, x.breaker, x.before), w);
    if works || x.round.request.cloudWorks {
      WaitingExactly(u.breaker, Requests(life[..i]), x.round.request.(localWorks := works));
    }
  }

  lemma WaitingExactly(s: Breaker.Settings, qs: seq<Breaker.Request>, q: Breaker.Request)
    requires q.localWorks || (s.hasCloud && q.cloudWorks)
    ensures var h := Breaker.Attempts(s, Breaker.INITIAL, qs);
      Breaker.Answered(s, Breaker.After(s, Breaker.INITIAL, qs), q) <==>
        !(s.hasCloud && !q.cloudWorks && Breaker.Trailing(h) >= Breaker.Limit(s)
          && q.check < WaitingSince(s, h) + s.interval)
  {
    hide Breaker.After, Breaker.Attempts;
    Breaker.CoverageExact(s, qs, q);
  }

  lemma NoCloudNoService(u: Wiring, x: Called)
    requires Happened(u, x)
    ensures ValidCall(x.call) && (x.round.request.cloudWorks ==> u.relay.Some?)
  {
    hide Between, LocalServes, Decide, Adds, Grows, Relayed;
  }

  /** A call of a client fails although local, used now, or the relay would have answered, in exactly one case: the
      relay would not, and the last local attempts failed, as many as the limit, and less than an interval ago.
      If local is skipped, what it would have done is taken from any world whatever. */
  lemma ClientCovered(client: FallbackClient, i: nat, w: Outside)
    requires client.Valid() && i < |client.life|
    requires MayFind(Decide(client.settings, client.life[i].breaker, client.life[i].before), w)
    ensures var x, s, u := client.life[i], client.settings, client.Wired();
      && ValidCall(x.call)
      && var d, m := Decide(s, x.breaker, x.before), Between(u, x.breaker, x.call, x.before);
         var h := Breaker.Attempts(s, Breaker.INITIAL, Requests(client.life[..i]));
         var local, relayed := LocalWould(u.target, x.call, d, w), RelayServes(u.relay, x.call, m);
         local || relayed ==>
           (x.reply.None? <==> u.relay.Some? && !relayed && Breaker.Trailing(h) >= Breaker.Limit(s)
                               && d.check < WaitingSince(s, h) + s.interval)
  {
    hide Breaker.After, Breaker.Attempts, Accounted, LocalWould, RelayServes, Between, Decide, WaitingSince,
         RediscoveringTransport.Valid, MayFind, LocalServes;
    CoveredAt(client.Wired(), client.State(), client.birth, client.life, client.local.Snap(), i, w);
  }

  // ---------- recovery ----------

  lemma RecoveredAt(u: Wiring, b: Breaker.State, birth: Snapshot, life: seq<Called>, at: Snapshot, r: real, j: nat)
    requires Accounted(u, b, birth, life, at) && j < |life|
    requires Breaker.HealthyFrom(u.breaker, Breaker.INITIAL, Requests(life), r)
    requires life[j].round.request.check >= r && life[j].round.request.check >= r + u.breaker.interval
    ensures life[j].round.localReply.Some? && life[j].reply == life[j].round.localReply
    ensures Breaker.After(u.breaker, Breaker.INITIAL, Requests(life[..j + 1])) == Breaker.INITIAL
  {
    hide Happened, Life, Quiet, Breaker.After, Breaker.Attempts, Breaker.HealthyFrom, Breaker.Monotone;
    LifeAt(u, birth, life, j);
    Breaker.Recovers(u.breaker, Requests(life), r, j);
    assert Requests(life)[..j] == Requests(life[..j]) && Requests(life)[..j + 1] == Requests(life[..j + 1]);
    TriedReplies(u, life[j]);
  }

  /** If no local failure is recorded from `r` on, every call decided an interval later is answered by local, and leaves
      the circuit closed. */
  lemma ClientRecovers(client: FallbackClient, r: real, j: nat)
    requires client.Valid() && j < |client.life|
    requires Breaker.HealthyFrom(client.settings, Breaker.INITIAL, Requests(client.life), r)
    requires client.life[j].round.request.check >= r
    requires client.life[j].round.request.check >= r + client.settings.interval
    ensures client.life[j].round.localReply.Some? && client.life[j].reply == client.life[j].round.localReply
    ensures Breaker.After(client.settings, Breaker.INITIAL, Requests(client.life[..j + 1])) == Breaker.INITIAL
  {
    hide Breaker.After, Breaker.Attempts, Accounted, Breaker.HealthyFrom, RediscoveringTransport.Valid;
    RecoveredAt(client.Wired(), client.State(), client.birth, client.life, client.local.Snap(), r, j);
  }

  /** Local, if tried, is what answers, if it would. */
  lemma TriedReplies(u: Wiring, x: Called)
    requires Happened(u, x)
    ensures Breaker.TriesLocal(u.breaker, x.breaker, x.round.request.check) ==>
      (x.round.localReply.Some? <==> x.round.request.localWorks)
    ensures x.round.localReply.Some? ==> x.reply == x.round.localReply
  {
    LocalInTime(u, x.breaker, x.call, x.before);
    hide UseOf, RelayServes;
  }

  // ---------- probes and searches while the circuit is open ----------

  lemma {:induction false} StampsPast(s: Breaker.Settings, qs: seq<Breaker.Request>, now: real)
    requires Breaker.Monotone(qs) && forall q <- qs :: q.record <= now
    ensures Breaker.After(s, Breaker.INITIAL, qs).openedAt.Some? ==>
      Breaker.After(s, Breaker.INITIAL, qs).openedAt.value <= now
  {
    if qs != [] {
      StampsPast(s, qs[..|qs| - 1], now);
      assert qs[|qs| - 1] in qs;
    }
  }

  lemma {:induction false} ProbesPast(s: Breaker.Settings, b: Breaker.State, qs: seq<Breaker.Request>, now: real)
    requires Breaker.Monotone(qs) && forall q <- qs :: q.record <= now
    ensures forall a <- Breaker.Attempts(s, b, qs) :: a.probe <= now
  {
    hide Breaker.After;
    if qs != [] {
      ProbesPast(s, b, qs[..|qs| - 1], now);
      assert qs[|qs| - 1] in qs;
    }
  }

  lemma RecordsPast(qs: seq<Breaker.Request>, now: real)
    requires Breaker.Monotone(qs) && (qs != [] ==> qs[|qs| - 1].record <= now)
    ensures forall q <- qs :: q.record <= now
  {
    forall i | 0 <= i < |qs| ensures qs[i].record <= now {
      if i < |qs| - 1 { assert qs[i].record <= qs[|qs| - 1].check; }
    }
  }

  /** Every search since call `n` was let through by the breaker. */
  lemma {:induction false} SearchesSince(u: Wiring, start: Snapshot, life: seq<Called>, n: nat)
    requires Life(u, start, life) && n <= |life|
    ensures var b := Breaker.After(u.breaker, Breaker.INITIAL, Requests(life[..n]));
      |End(start, life).searches| <=
        |End(start, life[..n]).searches| + |Breaker.Attempts(u.breaker, b, Requests(life[n..]))|
    decreases |life|
  {
    hide Happened, Breaker.After, Breaker.Serve, Breaker.TriesLocal;
    var k := |life| - 1;
    if n == |life| {
      assert life[..n] == life;
    } else {
      var b := Breaker.After(u.breaker, Breaker.INITIAL, Requests(life[..n]));
      var some, all := Requests(life[n..k]), Requests(life[n..]);
      SearchesSince(u, start, life[..k], n);
      assert life[..k][..n] == life[..n] && life[..k][n..] == life[n..k];
      CallInTime(u, life[k]);
      AfterConcat(u.breaker, Breaker.INITIAL, Requests(life[..n]), some);
      assert Requests(life[..k]) == Requests(life[..n]) + some;
      assert all[..|all| - 1] == some && all[|all| - 1] == life[k].round.request;
    }
  }

  /** Attempts since the circuit opened are no more than the intervals since. */
  lemma AttemptsSince(s: Breaker.Settings, qs: seq<Breaker.Request>, n: nat, now: real)
    requires Breaker.Monotone(qs) && (qs != [] ==> qs[|qs| - 1].record <= now)
    requires n <= |qs| && s.interval > 0.0 && s.hasCloud
    requires var b := Breaker.After(s, Breaker.INITIAL, qs[..n]);
      b.openedAt.Some? && forall a <- Breaker.Attempts(s, b, qs[n..]) :: !a.worked
    ensures var b := Breaker.After(s, Breaker.INITIAL, qs[..n]);
      |Breaker.Attempts(s, b, qs[n..])| <= ((now - b.openedAt.value) / s.interval).Floor
  {
    hide Breaker.After, Breaker.Attempts;
    RecordsPast(qs, now);
    assert forall q <- qs[..n] :: q in qs;
    assert forall q <- qs[n..] :: q in qs;
    StampsPast(s, qs[..n], now);
    var b := Breaker.After(s, Breaker.INITIAL, qs[..n]);
    ProbesPast(s, b, qs[n..], now);
    Breaker.ProbeCount(s, b, qs[n..], now);
  }

  lemma OpenSince(u: Wiring, b: Breaker.State, birth: Snapshot, life: seq<Called>, at: Snapshot, n: nat)
    requires Accounted(u, b, birth, life, at) && n <= |life| && u.breaker.interval > 0.0 && u.breaker.hasCloud
    requires var b := Breaker.After(u.breaker, Breaker.INITIAL, Requests(life[..n]));
      b.openedAt.Some? && forall a <- Breaker.Attempts(u.breaker, b, Requests(life[n..])) :: !a.worked
    ensures var b := Breaker.After(u.breaker, Breaker.INITIAL, Requests(life[..n]));
      var most := ((at.ahead.now - b.openedAt.value) / u.breaker.interval).Floor;
      && |Breaker.Attempts(u.breaker, b, Requests(life[n..]))| <= most
      && |at.searches| - |End(birth, life[..n]).searches| <= most
  {
    hide Breaker.After, Breaker.Attempts, Life, Breaker.Monotone, End;
    var qs := Requests(life);
    assert Requests(life[..n]) == qs[..n] && Requests(life[n..]) == qs[n..];
    AttemptsSince(u.breaker, qs, n, at.ahead.now);
    SearchesSince(u, birth, life, n);
  }

  /** With the circuit open since `t0` after the first `n` calls, and no success since, local has been used at most once
      per interval since `t0`, and searched for no more often, however many calls came. */
  lemma ClientProbes(client: FallbackClient, n: nat)
    requires client.Valid() && n <= |client.life| && client.settings.interval > 0.0 && client.cloud != null
    requires var b := Breaker.After(client.settings, Breaker.INITIAL, Requests(client.life[..n]));
      b.openedAt.Some? && forall a <- Breaker.Attempts(client.settings, b, Requests(client.life[n..])) :: !a.worked
    ensures var b := Breaker.After(client.settings, Breaker.INITIAL, Requests(client.life[..n]));
      var most := ((client.rt.now - b.openedAt.value) / client.settings.interval).Floor;
      && |Breaker.Attempts(client.settings, b, Requests(client.life[n..]))| <= most
      && |client.local.searches| - |End(client.birth, client.life[..n]).searches| <= most
  {
    hide Breaker.After, Breaker.Attempts, Accounted, End, RediscoveringTransport.Valid;
    OpenSince(client.Wired(), client.State(), client.birth, client.life, client.local.Snap(), n);
  }
}
