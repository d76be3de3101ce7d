/** The circuit breaker by itself: what a failure counter and one timestamp remember of the past (api/fallback.py). */
module Breaker {
  import opened Prelude

  datatype Settings = Settings(hasCloud: bool, threshold: int, interval: real)

  /** `_consecutive_failures` and `_circuit_opened_at` */
  datatype State = State(failures: int, openedAt: Option<real>)

  const INITIAL := State(0, None)

  /** `_should_try_local`, its two clock readings given. */
  predicate TriesLocal(s: Settings, b: State, check: real) {
    !s.hasCloud || b.openedAt.None? || check - b.openedAt.value >= s.interval
  }

  function Decided(s: Settings, b: State, check: real, probe: real): State {
    if s.hasCloud && b.openedAt.Some? && TriesLocal(s, b, check) then b.(openedAt := Some(probe)) else b
  }

  /** `_record_local_failure` */
  function Failed(s: Settings, b: State, now: real): State {
    var n := b.failures + 1;
    State(n, if b.openedAt.None? && s.hasCloud && n >= s.threshold then Some(now) else b.openedAt)
  }

  /** `_record_local_success` */
  function Succeeded(b: State): State {
    INITIAL
  }

  /** One request: the clock when it is decided, when a probe is stamped, and when a failure is recorded,
      and which paths would serve it. */
  datatype Request = Request(check: real, probe: real, record: real, localWorks: bool, cloudWorks: bool)

  /** `_attempt`, as far as the breaker is concerned. */
  function Serve(s: Settings, b: State, q: Request): State {
    if !TriesLocal(s, b, q.check) then b
    else
      var d := Decided(s, b, q.check, q.probe);
      if q.localWorks then Succeeded(d) else Failed(s, d, q.record)
  }

  function After(s: Settings, b: State, qs: seq<Request>): State {
    if qs == [] then b else Serve(s, After(s, b, qs[..|qs| - 1]), qs[|qs| - 1])
  }

  /** The clock runs forward through every request and from each to the next. */
  ghost predicate Monotone(qs: seq<Request>) {
    && (forall i | 0 <= i < |qs| :: qs[i].check <= qs[i].probe <= qs[i].record)
    && (forall i, j | 0 <= i < j < |qs| :: qs[i].record <= qs[j].check)
  }

  // ---------- the history the breaker stands for ----------

  /** One use of the local transport. */
  datatype Attempt = Attempt(probe: real, record: real, worked: bool)

  /** The length of the run of failures at the end. */
  function Trailing(h: seq<Attempt>): nat
    ensures Trailing(h) <= |h|
  {
    if h == [] || h[|h| - 1].worked then 0 else Trailing(h[..|h| - 1]) + 1
  }

  /** How many failures in a row cut local out: one at least. */
  function Limit(s: Settings): int {
    if s.threshold < 1 then 1 else s.threshold
  }

  /** When the circuit counts as opened: when the failure that made up the limit was recorded, or
      when the last probe since was started. */
  function OpenedAt(s: Settings, h: seq<Attempt>): Option<real> {
    if !s.hasCloud || Trailing(h) < Limit(s) then None
    else if Trailing(h) == Limit(s) then Some(h[|h| - 1].record)
    else Some(h[|h| - 1].probe)
  }

  /** The breaker as a function of the past attempts. */
  function Remembered(s: Settings, h: seq<Attempt>): State {
    State(Trailing(h), OpenedAt(s, h))
  }

  function AttemptOf(q: Request): Attempt {
    Attempt(q.probe, q.record, q.localWorks)
  }

  /** The attempts made while serving these requests. */
  function Attempts(s: Settings, b: State, qs: seq<Request>): seq<Attempt> {
    if qs == [] then []
    else
      var q := qs[|qs| - 1];
      Attempts(s, b, qs[..|qs| - 1])
      + if TriesLocal(s, After(s, b, qs[..|qs| - 1]), q.check) then [AttemptOf(q)] else []
  }

  /** What one attempt does to the memory of the attempts before. */
  lemma AttemptRemembered(s: Settings, h: seq<Attempt>, check: real, a: Attempt)
    requires TriesLocal(s, Remembered(s, h), check)
    ensures var d := Decided(s, Remembered(s, h), check, a.probe);
      (if a.worked then Succeeded(d) else Failed(s, d, a.record)) == Remembered(s, h + [a])
  {
    assert (h + [a])[..|h|] == h;
  }

  /** Refinement: after any requests whatever, counter and timestamp are exactly what the attempts made say.
      So intermittent failures never add up, and without a cloud path the circuit never opens. */
  lemma {:induction false} RefinesHistory(s: Settings, qs: seq<Request>)
    ensures After(s, INITIAL, qs) == Remembered(s, Attempts(s, INITIAL, qs))
  {
    if qs != [] {
      var before, q := qs[..|qs| - 1], qs[|qs| - 1];
      RefinesHistory(s, before);
      var h := Attempts(s, INITIAL, before);
      if TriesLocal(s, Remembered(s, h), q.check) {
        AttemptRemembered(s, h, q.check, AttemptOf(q));
      } else {
        assert h + [] == h;
      }
    }
  }

  /** The circuit is open exactly when there is a cloud path and the last attempts failed, as many as the threshold
      says, and one at least. */
  lemma OpenExactly(s: Settings, qs: seq<Request>)
    ensures var h := Attempts(s, INITIAL, qs);
      && After(s, INITIAL, qs).failures == Trailing(h)
      && (After(s, INITIAL, qs).openedAt.Some? <==> s.hasCloud && Trailing(h) >= s.threshold && Trailing(h) >= 1)
  {
    RefinesHistory(s, qs);
  }

  // ---------- how often a dead listener is probed ----------

  /** The earliest stamp of the k-th attempt after the circuit opened at `t0`. */
  function Due(s: Settings, t0: real, k: nat): real {
    t0 + k as real * s.interval
  }

  lemma DueNext(s: Settings, t0: real, k: nat)
    ensures Due(s, t0, k) + s.interval == Due(s, t0, k + 1)
  {
  }

  /** A failed probe. */
  lemma ProbeStep(s: Settings, t0: real, t: State, q: Request, k: nat)
    requires s.hasCloud && t.openedAt.Some? && t.openedAt.value >= Due(s, t0, k) && q.check <= q.probe
    requires TriesLocal(s, t, q.check) && !q.localWorks
    ensures Serve(s, t, q).openedAt == Some(q.probe) && q.probe >= Due(s, t0, k + 1)
  {
    DueNext(s, t0, k);
    hide Due;
  }

  /** Probe rate: with the circuit open since `t0` and no success since, the k-th attempt is stamped `t0 + k * interval`
      or later, however many requests come in; and the circuit stays open. */
  lemma {:induction false} ProbeRate(s: Settings, b: State, qs: seq<Request>)
    requires Monotone(qs) && s.hasCloud && b.openedAt.Some?
    requires forall a <- Attempts(s, b, qs) :: !a.worked
    ensures var t0, h := b.openedAt.value, Attempts(s, b, qs);
      && After(s, b, qs).openedAt.Some? && After(s, b, qs).openedAt.value >= Due(s, t0, |h|)
      && forall k: nat | k < |h| :: h[k].probe >= Due(s, t0, k + 1)
  {
    hide Due;
    if qs != [] {
      var before, q := qs[..|qs| - 1], qs[|qs| - 1];
      var h, t := Attempts(s, b, before), After(s, b, before);
      assert forall a <- h :: a in Attempts(s, b, qs);
      ProbeRate(s, b, before);
      if TriesLocal(s, t, q.check) {
        assert AttemptOf(q) in Attempts(s, b, qs);
        ProbeStep(s, b.openedAt.value, t, q, |h|);
      }
    } else {
      DueAtFirst(s, b.openedAt.value);
    }
  }

  lemma DueAtFirst(s: Settings, t0: real)
    ensures Due(s, t0, 0) == t0
  {
  }

  /** So up to time `t` there are at most floor((t - t0) / interval) attempts. */
  lemma ProbeCount(s: Settings, b: State, qs: seq<Request>, t: real)
    requires Monotone(qs) && s.hasCloud && s.interval > 0.0 && b.openedAt.Some?
    requires forall a <- Attempts(s, b, qs) :: !a.worked && a.probe <= t
    requires b.openedAt.value <= t
    ensures |Attempts(s, b, qs)| <= ((t - b.openedAt.value) / s.interval).Floor
  {
    hide Due;
    ProbeRate(s, b, qs);
    var h, t0 := Attempts(s, b, qs), b.openedAt.value;
    DueAtFirst(s, t0);
    if h != [] {
      assert h[|h| - 1] in h;
      assert h[|h| - 1].probe >= Due(s, t0, |h| - 1 + 1);
    }
    DueBy(s, t0, |h|, t);
  }

  lemma DueBy(s: Settings, t0: real, n: nat, t: real)
    requires s.interval > 0.0 && Due(s, t0, n) <= t
    ensures n <= ((t - t0) / s.interval).Floor
  {
    Quotient(n, s.interval, t - t0);
  }

  lemma Quotient(n: nat, interval: real, elapsed: real)
    requires interval > 0.0 && n as real * interval <= elapsed
    ensures n <= (elapsed / interval).Floor
  {
    var q := elapsed / interval;
    assert q * interval == elapsed;
    Factor(q - n as real, interval);
  }

  lemma Factor(x: real, y: real)
    requires y > 0.0 && x * y >= 0.0
    ensures x >= 0.0
  {
  }

  // ---------- recovery ----------

  /** From `r` on no local failure is recorded. */
  ghost predicate HealthyFrom(s: Settings, b: State, qs: seq<Request>, r: real) {
    forall a <- Attempts(s, b, qs) :: a.record >= r ==> a.worked
  }

  lemma AttemptsPrefix(s: Settings, b: State, qs: seq<Request>, n: nat)
    requires n <= |qs|
    ensures Attempts(s, b, qs[..n]) <= Attempts(s, b, qs)
    decreases |qs| - n
  {
    if n < |qs| {
      AttemptsPrefix(s, b, qs, n + 1);
      assert qs[..n + 1][..n] == qs[..n];
    } else {
      assert qs[..n] == qs;
    }
  }

  /** An open circuit was opened before `r`. */
  lemma OpenedBefore(s: Settings, qs: seq<Request>, r: real)
    requires Monotone(qs) && HealthyFrom(s, INITIAL, qs, r)
    ensures After(s, INITIAL, qs).openedAt.Some? ==> After(s, INITIAL, qs).openedAt.value < r
  {
    RefinesHistory(s, qs);
    AttemptsOrdered(s, INITIAL, qs);
    var h := Attempts(s, INITIAL, qs);
    if OpenedAt(s, h).Some? {
      assert h[|h| - 1] in h;
    }
  }

  lemma {:induction false} AttemptsOrdered(s: Settings, b: State, qs: seq<Request>)
    requires Monotone(qs)
    ensures forall a <- Attempts(s, b, qs) :: a.probe <= a.record
  {
    if qs != [] {
      AttemptsOrdered(s, b, qs[..|qs| - 1]);
    }
  }

  /** Bounded recovery: if local never fails from `r` on, then every request decided an interval later is
      served by local, and leaves the circuit closed. */
  lemma Recovers(s: Settings, qs: seq<Request>, r: real, j: nat)
    requires Monotone(qs) && HealthyFrom(s, INITIAL, qs, r)
    requires j < |qs| && qs[j].check >= r && qs[j].check >= r + s.interval
    ensures TriesLocal(s, After(s, INITIAL, qs[..j]), qs[j].check) && qs[j].localWorks
    ensures After(s, INITIAL, qs[..j + 1]) == INITIAL
  {
    var before := qs[..j];
    AttemptsPrefix(s, INITIAL, qs, j);
    AttemptsPrefix(s, INITIAL, qs, j + 1);
    OpenedBefore(s, before, r);
    assert qs[..j + 1][..j] == before && qs[..j + 1][j] == qs[j];
    assert TriesLocal(s, After(s, INITIAL, before), qs[j].check);
    var h := Attempts(s, INITIAL, qs[..j + 1]);
    assert h[|h| - 1] == AttemptOf(qs[j]);
    assert h[|h| - 1] in Attempts(s, INITIAL, qs);
  }

  // ---------- coverage ----------

  /** Whether a request gets an answer: from local if it is tried and works, or else from the cloud. */
  predicate Answered(s: Settings, b: State, q: Request) {
    (TriesLocal(s, b, q.check) && q.localWorks) || (s.hasCloud && q.cloudWorks)
  }

  /** A request fails although some path works in exactly one situation: local has recovered and the cloud is down,
      but the last attempts failed, as many as the limit, and less than an interval ago. */
  lemma CoverageExact(s: Settings, qs: seq<Request>, q: Request)
    requires q.localWorks || (s.hasCloud && q.cloudWorks)
    ensures var h := Attempts(s, INITIAL, qs);
      Answered(s, After(s, INITIAL, qs), q) <==>
        !(s.hasCloud && !q.cloudWorks && Trailing(h) >= Limit(s)
          && q.check < (if Trailing(h) == Limit(s) then h[|h| - 1].record else h[|h| - 1].probe) + s.interval)
  {
    RefinesHistory(s, qs);
  }

  /** So it is not true that one working path is always enough (README.md:68). With the default settings, three failures
      in a row, and local is not asked again a second later, when it works and the cloud does not. */
  lemma OnePathIsNotEnough()
    ensures var down := Request(0.0, 0.0, 0.0, false, true);
      var q := Request(1.0, 1.0, 1.0, true, false);
      var s := Settings(true, 3, 600.0);
      !Answered(s, After(s, INITIAL, [down, down, down]), q)
  {
    var down, s := Request(0.0, 0.0, 0.0, false, true), Settings(true, 3, 600.0);
    assert [down, down, down][..2] == [down, down] && [down, down][..1] == [down] && [down][..0] == [];
    assert After(s, INITIAL, []) == INITIAL;
    assert After(s, INITIAL, [down]) == State(1, None);
    assert After(s, INITIAL, [down, down]) == State(2, None);
    assert After(s, INITIAL, [down, down, down]) == State(3, Some(0.0));
  }
}
