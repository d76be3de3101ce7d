/** `LocalTransport._exchange` and `close` step by step, one interaction with the outside at a time
    (api/local.py). The transport class is proved to run these steps; concurrent callers take them
    one by one. */
module LocalSteps {
  import opened Prelude
  import opened Framing
  import opened Protocol
  import opened Environment
  import opened Deliveries
  import opened Wire

  /** The connection held between calls, its read buffer, and the lines already cut off it. */
  datatype Held = Held(id: nat, buffer: Bytes, popped: seq<Bytes>)

  datatype World = World(conns: seq<Conn>, held: Option<Held>)

  /** Exchange a frame, whose encoding is `line` and a terminator, or close the transport. */
  datatype Job = Exchange(line: Bytes, sn: string) | Release

  datatype Outcome =
    | Replied(line: Bytes)
    | Unreachable // no connection, or the write failed on a new one
    | NoAnswer    // deadline or end of stream
    | ReadFailed  // `OSError` while waiting
    | Released

  datatype Pc =
    | Checking
    | Connecting
    | Writing(reused: bool, done: nat)
    | Waiting
    | Releasing
    | Finished(outcome: Outcome)

  datatype Config = Config(world: World, pc: Pc)

  function Packet(job: Job): Bytes
    requires job.Exchange?
  {
    job.line + TERMINATOR
  }

  predicate Sane(w: World) {
    w.held.Some? ==> w.held.value.id < |w.conns|
  }

  /** `_disconnect` */
  function Disconnect(w: World): (r: World)
    requires Sane(w)
    ensures Sane(r) && r.held.None?
  {
    if w.held.None? then w else World(Closed(w.conns, w.held.value.id), None)
  }

  function Start(job: Job): Pc {
    if job.Release? then Releasing else Checking
  }

  /** The next step of `job` against `host`, the outside world deciding `c`. */
  function Step(host: Address, job: Job, s: Config, c: Choice): (r: Config)
    requires Sane(s.world)
    ensures Sane(r.world)
  {
    var w := s.world;
    match s.pc
    case Finished(_) => s
    case Releasing => Config(Disconnect(w), Finished(Released))
    case Checking =>
      if w.held.None? then Config(w, Connecting)
      else if w.held.value.buffer != [] || c.Good? then Config(w, Writing(true, 0))
      else Config(Disconnect(w), Connecting)
    case Connecting =>
      if c.Good?
      then Config(World(w.conns + [Conn(host, [], [], true)], Some(Held(|w.conns|, [], []))), Writing(false, 0))
      else Config(w, Finished(Unreachable))
    case Writing(reused, done) =>
      if job.Exchange? && w.held.Some? && done < |Packet(job)| && c.Wrote? && 0 < c.n <= |Packet(job)| - done then
        var conns := Sent(w.conns, w.held.value.id, Packet(job)[done..done + c.n]);
        Config(w.(conns := conns), if done + c.n == |Packet(job)| then Waiting else Writing(reused, done + c.n))
      else Config(Disconnect(w), if reused then Connecting else Finished(Unreachable))
    case Waiting =>
      if w.held.None? || job.Release? then Config(w, Finished(NoAnswer)) else StepWaiting(job, w, c)
  }

  function Intake(w: World, r: Reader): (w': World)
    requires Sane(w) && w.held.Some?
    ensures Sane(w') && w'.held.Some?
  {
    var held := w.held.value;
    World(Received(w.conns, held.id, r.arrived), Some(Held(held.id, r.buffer, held.popped + r.popped)))
  }

  /** One turn of the reading loop. Only the deadline and the end of the stream drop the connection. */
  function StepWaiting(job: Job, w: World, c: Choice): (r: Config)
    requires Sane(w) && w.held.Some? && job.Exchange?
    ensures Sane(r.world)
  {
    var held := w.held.value;
    var r := Pull(Reader(held.buffer, [], [], Going), c);
    Conclude(job, Intake(w, r), r.status)
  }

  function Conclude(job: Job, w: World, status: Status): (r: Config)
    requires Sane(w) && job.Exchange?
    ensures Sane(r.world)
  {
    match status
    case Going => Config(w, Waiting)
    case Yielded(line) => Config(w, if Matches(line, job.sn) then Finished(Replied(line)) else Waiting)
    case Exhausted => Config(Disconnect(w), Finished(NoAnswer))
    case Raised => Config(w, Finished(ReadFailed))
  }

  function Run(host: Address, job: Job, s: Config, choices: seq<Choice>): (r: Config)
    requires Sane(s.world)
    ensures Sane(r.world)
  {
    if choices == [] then s
    else Step(host, job, Run(host, job, s, choices[..|choices| - 1]), choices[|choices| - 1])
  }

  lemma RunStep(host: Address, job: Job, s: Config, choices: seq<Choice>, c: Choice)
    requires Sane(s.world)
    ensures Run(host, job, s, choices + [c]) == Step(host, job, Run(host, job, s, choices), c)
  {
    assert (choices + [c])[..|choices|] == choices;
  }

  // ---------- what a job keeps ----------

  /** Exactly the held connection is open, it goes to `host`, and all its input is accounted for. */
  ghost predicate Sound(host: Address, w: World) {
    && Sane(w)
    && (forall i | 0 <= i < |w.conns| :: w.conns[i].open <==> w.held.Some? && w.held.value.id == i)
    && (w.held.Some? ==>
          var h := w.held.value;
          w.conns[h.id].host == host && w.conns[h.id].got == Join(h.popped) + h.buffer && AllBare(h.popped))
  }

  /** Only whole packets have gone out on the held connection. */
  predicate WholeLines(w: World)
    requires Sane(w)
  {
    w.held.Some? ==> Rest(w.conns[w.held.value.id].sent) == []
  }

  /** How things stand between jobs. */
  ghost predicate AtRest(host: Address, w: World) {
    Sound(host, w) && WholeLines(w)
  }

  function OpenCount(conns: seq<Conn>): nat {
    if conns == [] then 0 else (if conns[0].open then 1 else 0) + OpenCount(conns[1..])
  }

  lemma {:induction false} OnlyOpen(conns: seq<Conn>, at: int)
    requires forall i | 0 <= i < |conns| :: conns[i].open <==> i == at
    ensures OpenCount(conns) == if 0 <= at < |conns| then 1 else 0
  {
    if conns != [] {
      OnlyOpen(conns[1..], at - 1);
    }
  }

  /** Connections opened minus connections closed: one if one is held, otherwise none. */
  lemma OpenIsHeld(host: Address, w: World)
    requires Sound(host, w)
    ensures OpenCount(w.conns) == if w.held.Some? then 1 else 0
  {
    OnlyOpen(w.conns, if w.held.Some? then w.held.value.id else -1);
  }

  /** A connection opened and closed by somebody else does not matter. */
  lemma AtRestBeside(host: Address, w: World, conns: seq<Conn>)
    requires AtRest(host, w) && w.conns <= conns
    requires forall i | |w.conns| <= i < |conns| :: !conns[i].open
    ensures AtRest(host, World(conns, w.held))
  {
    hide Rest, Join, AllBare;
  }

  /** Connections are only added and extended. */
  ghost predicate Grows(a: seq<Conn>, b: seq<Conn>) {
    |a| <= |b| && forall i | 0 <= i < |a| :: a[i].host == b[i].host && a[i].sent <= b[i].sent && a[i].got <= b[i].got
  }

  /** An unfinished packet: a strict prefix. */
  predicate Partial(bytes: Bytes, job: Job) {
    job.Exchange? && bytes < Packet(job)
  }

  /** The whole packet is out: the write did not fail. */
  predicate Out(pc: Pc) {
    pc.Waiting? || (pc.Finished? && (pc.outcome.Replied? || pc.outcome.NoAnswer? || pc.outcome.ReadFailed?))
  }

  /** No connection has been opened yet by this job. */
  predicate Early(pc: Pc) {
    pc.Checking? || pc.Connecting? || pc.Releasing? || (pc.Writing? && pc.reused)
  }

  /** The job's frame has been heard on the held connection. */
  predicate Asked(job: Job, w: World)
    requires Sane(w)
  {
    job.Exchange? && w.held.Some? && WholeLines(w) && job.line in Lines(w.conns[w.held.value.id].sent)
  }

  /** Where the held connection stands at each point of the code. */
  ghost predicate Placed(job: Job, s: Config)
    requires Sane(s.world)
  {
    var held := s.world.held;
    match s.pc
    case Checking => job.Exchange? && WholeLines(s.world)
    case Connecting => job.Exchange? && held.None?
    case Writing(_, done) =>
      job.Exchange? && held.Some? && done < |Packet(job)|
      && Rest(s.world.conns[held.value.id].sent) == Packet(job)[..done]
    case Waiting => Asked(job, s.world)
    case Releasing => job.Release? && WholeLines(s.world)
    case Finished(Replied(line)) => Asked(job, s.world) && line in held.value.popped && Matches(line, job.sn)
    case Finished(ReadFailed) => Asked(job, s.world)
    case Finished(Released) => job.Release? && held.None?
    case Finished(_) => job.Exchange? && held.None?
  }

  /** What the job has made the peers hear so far. */
  function Said(host: Address, job: Job, pc: Pc): seq<Delivery> {
    if job.Exchange? && Out(pc) then [Delivery(host, job.line)] else []
  }

  /** Unfinished lines were there before or are strict prefixes of this job's packet. */
  ghost predicate Tails(job: Job, a: seq<Conn>, b: seq<Conn>) {
    forall i | 0 <= i < |b| ::
      (i < |a| && Rest(b[i].sent) == Rest(a[i].sent)) || Partial(Rest(b[i].sent), job) || Rest(b[i].sent) == []
  }

  /** Everything a job guarantees at any point of its run from `w0`. */
  ghost predicate Keeps(host: Address, job: Job, w0: World, s: Config) {
    && Sound(host, s.world)
    && Placed(job, s)
    && Grows(w0.conns, s.world.conns)
    && |s.world.conns| <= |w0.conns| + (if Early(s.pc) then 0 else 1)
    && Adds(w0.conns, s.world.conns, Said(host, job, s.pc))
    && Tails(job, w0.conns, s.world.conns)
  }

  lemma GrowsTrans(a: seq<Conn>, b: seq<Conn>, c: seq<Conn>)
    requires Grows(a, b) && Grows(b, c)
    ensures Grows(a, c)
  {
  }

  lemma OpeningKeeps(host: Address, job: Job, w0: World, s: Config)
    requires Keeps(host, job, w0, s) && s.pc.Connecting?
    ensures Keeps(host, job, w0, Step(host, job, s, Good))
  {
    var conns := s.world.conns;
    var after := conns + [Conn(host, [], [], true)];
    AddsOpened(conns, Conn(host, [], [], true));
    AddsTrans(w0.conns, conns, after, [], []);
    assert Packet(job)[..0] == [];
    GrowsTrans(w0.conns, conns, after);
  }

  /** Dropping the connection changes nothing that anybody said or heard. */
  lemma DroppingKeeps(host: Address, job: Job, w0: World, s: Config, pc: Pc)
    requires Keeps(host, job, w0, s)
    requires Placed(job, Config(Disconnect(s.world), pc))
    requires Out(pc) == Out(s.pc) && (Early(pc) ==> Early(s.pc))
    ensures Keeps(host, job, w0, Config(Disconnect(s.world), pc))
  {
    var conns, after := s.world.conns, Disconnect(s.world).conns;
    AddsNothing(conns, after);
    AddsTrans(w0.conns, conns, after, Said(host, job, s.pc), []);
    assert Said(host, job, s.pc) + [] == Said(host, job, s.pc);
    GrowsTrans(w0.conns, conns, after);
  }

  /** What sending the part of the packet from `done` to `end` does to connections where the part before is out. */
  lemma SendingPart(host: Address, job: Job, a: seq<Conn>, conns: seq<Conn>, id: nat, done: nat, end: nat)
    requires job.Exchange? && !Terminated(job.line) && done < end <= |Packet(job)|
    requires id < |conns| && conns[id].host == host && Rest(conns[id].sent) == Packet(job)[..done]
    requires Adds(a, conns, []) && Grows(a, conns) && Tails(job, a, conns)
    ensures var after := Sent(conns, id, Packet(job)[done..end]);
      && Grows(a, after) && Tails(job, a, after)
      && Adds(a, after, if end == |Packet(job)| then [Delivery(host, job.line)] else [])
      && Rest(after[id].sent) == (if end == |Packet(job)| then [] else Packet(job)[..end])
      && (end == |Packet(job)| ==> job.line in Lines(after[id].sent))
  {
    var bytes := Packet(job)[done..end];
    var after := Sent(conns, id, bytes);
    assert Packet(job)[..done] + bytes == Packet(job)[..end];
    if end == |Packet(job)| {
      assert Packet(job)[..end] == Packet(job);
      AddsLine(conns, id, bytes, job.line);
      AddsTrans(a, conns, after, [], [Delivery(host, job.line)]);
      assert [] + [Delivery(host, job.line)] == [Delivery(host, job.line)];
    } else {
      PartialIsOpen(job, end);
      AddsFragment(conns, id, bytes);
      AddsTrans(a, conns, after, [], []);
    }
    hide Adds, Lines, Rest, Find;
  }

  lemma SendingKeeps(host: Address, job: Job, w0: World, w: World, reused: bool, done: nat, end: nat)
    requires Keeps(host, job, w0, Config(w, Writing(reused, done)))
    requires !Terminated(job.line) && done < end <= |Packet(job)|
    ensures var after := w.(conns := Sent(w.conns, w.held.value.id, Packet(job)[done..end]));
      Keeps(host, job, w0, Config(after, if end == |Packet(job)| then Waiting else Writing(reused, end)))
  {
    SendingPart(host, job, w0.conns, w.conns, w.held.value.id, done, end);
    SendingSound(host, w, Packet(job)[done..end]);
  }

  lemma WritingKeeps(host: Address, job: Job, w0: World, w: World, reused: bool, done: nat, n: nat)
    requires Keeps(host, job, w0, Config(w, Writing(reused, done)))
    requires !Terminated(job.line) && 0 < n <= |Packet(job)| - done
    ensures Keeps(host, job, w0, Step(host, job, Config(w, Writing(reused, done)), Wrote(n)))
  {
    hide Keeps, Step, Sent;
    WritingPlaced(host, job, w0, w, reused, done);
    StepWrote(host, job, w, reused, done, n);
    SendingKeeps(host, job, w0, w, reused, done, done + n);
  }

  lemma WritingPlaced(host: Address, job: Job, w0: World, w: World, reused: bool, done: nat)
    requires Keeps(host, job, w0, Config(w, Writing(reused, done)))
    ensures Sane(w) && w.held.Some? && job.Exchange? && done < |Packet(job)|
  {
    hide Adds, Tails, Grows, Rest, Join, AllBare;
  }

  lemma StepWrote(host: Address, job: Job, w: World, reused: bool, done: nat, n: nat)
    requires Sane(w) && w.held.Some? && job.Exchange? && 0 < n <= |Packet(job)| - done
    ensures var end := done + n;
      Step(host, job, Config(w, Writing(reused, done)), Wrote(n)) ==
        Config(w.(conns := Sent(w.conns, w.held.value.id, Packet(job)[done..end])),
               if end == |Packet(job)| then Waiting else Writing(reused, end))
  {
  }

  lemma SendingSound(host: Address, w: World, bytes: Bytes)
    requires Sound(host, w) && w.held.Some?
    ensures Sound(host, w.(conns := Sent(w.conns, w.held.value.id, bytes)))
  {
    hide Join, AllBare;
  }

  /** A strict prefix of a packet completes no line. */
  lemma PartialIsOpen(job: Job, n: nat)
    requires job.Exchange? && !Terminated(job.line) && n < |Packet(job)|
    ensures !Terminated(Packet(job)[..n])
  {
    var part := Packet(job)[..n];
    forall j | 0 <= j < |part| ensures !TerminatorAt(part, j) {
      if TerminatorAt(part, j) && j + 1 < |job.line| {
        assert TerminatorAt(job.line, j);
      }
    }
    NotTerminated(part);
  }

  /** Taking in bytes and cutting off lines. */
  lemma IntakeKeeps(host: Address, job: Job, w0: World, w: World, r: Reader)
    requires Keeps(host, job, w0, Config(w, Waiting)) && Accounts(w.held.value.buffer, r)
    ensures Keeps(host, job, w0, Config(Intake(w, r), Waiting))
  {
    var w' := Intake(w, r);
    AddsNothing(w.conns, w'.conns);
    AddsTrans(w0.conns, w.conns, w'.conns, Said(host, job, Waiting), []);
    assert Said(host, job, Waiting) + [] == Said(host, job, Waiting);
    GrowsTrans(w0.conns, w.conns, w'.conns);
    HeldAccounts(w, r);
    hide Adds, Rest, Lines, Find, AllBare, Join;
  }

  lemma ConcludingKeeps(host: Address, job: Job, w0: World, w: World, r: Reader)
    requires Sane(w) && w.held.Some?
    requires Keeps(host, job, w0, Config(Intake(w, r), Waiting))
    requires Accounts(w.held.value.buffer, r)
    ensures Keeps(host, job, w0, Conclude(job, Intake(w, r), r.status))
  {
    if r.status.Exhausted? {
      DroppingKeeps(host, job, w0, Config(Intake(w, r), Waiting), Finished(NoAnswer));
    } else if r.status.Yielded? {
      NonBlankMember(r.popped, r.status.line);
    }
    hide Adds, Rest, Lines, Find, AllBare, Join;
  }

  lemma ReadingKeeps(host: Address, job: Job, w0: World, w: World, c: Choice)
    requires Keeps(host, job, w0, Config(w, Waiting))
    ensures Keeps(host, job, w0, Step(host, job, Config(w, Waiting), c))
  {
    var start := Reader(w.held.value.buffer, [], [], Going);
    assert start.buffer + [] == Join([]) + start.buffer;
    PullAccounts(start.buffer, start, c);
    IntakeKeeps(host, job, w0, w, Pull(start, c));
    ConcludingKeeps(host, job, w0, w, Pull(start, c));
    hide Keeps, Pull, Conclude, Accounts;
  }

  lemma HeldAccounts(w: World, r: Reader)
    requires Sane(w) && w.held.Some?
    requires var h := w.held.value; w.conns[h.id].got == Join(h.popped) + h.buffer && AllBare(h.popped)
    requires Accounts(w.held.value.buffer, r)
    ensures var h := w.held.value;
      && Received(w.conns, h.id, r.arrived)[h.id].got == Join(h.popped + r.popped) + r.buffer
      && AllBare(h.popped + r.popped)
  {
    var h := w.held.value;
    JoinConcat(h.popped, r.popped);
    BareConcat(h.popped, r.popped);
    Regroup(w.conns[h.id].got, Join(h.popped), h.buffer, Join(r.popped), r.buffer, r.arrived);
  }

  lemma StepKeeps(host: Address, job: Job, w0: World, s: Config, c: Choice)
    requires Keeps(host, job, w0, s) && (job.Exchange? ==> !Terminated(job.line))
    ensures Keeps(host, job, w0, Step(host, job, s, c))
  {
    hide Adds, Tails, Grows, Rest, Join, AllBare, Lines, Pull, Conclude;
    var next := Step(host, job, s, c);
    match s.pc
    case Finished(_) =>
    case Waiting => ReadingKeeps(host, job, w0, s.world, c);
    case Writing(_, done) =>
      if c.Wrote? && 0 < c.n <= |Packet(job)| - done {
        WritingKeeps(host, job, w0, s.world, s.pc.reused, done, c.n);
      } else {
        DroppingKeeps(host, job, w0, s, next.pc);
      }
    case Connecting => if c.Good? { OpeningKeeps(host, job, w0, s); }
    case Releasing => DroppingKeeps(host, job, w0, s, next.pc);
    case Checking =>
      if next.pc.Connecting? && s.world.held.Some? {
        DroppingKeeps(host, job, w0, s, next.pc);
      } else {
        assert next.pc.Writing? ==> Packet(job)[..0] == [];
      }
  }

  /** From rest, every run of a job keeps all of `Keeps`, at every step. */
  lemma {:induction false} RunKeeps(host: Address, job: Job, w0: World, choices: seq<Choice>)
    requires AtRest(host, w0) && (job.Exchange? ==> !Terminated(job.line))
    ensures Keeps(host, job, w0, Run(host, job, Config(w0, Start(job)), choices))
  {
    if choices == [] {
      AddsNothing(w0.conns, w0.conns);
    } else {
      RunKeeps(host, job, w0, choices[..|choices| - 1]);
      var s := Run(host, job, Config(w0, Start(job)), choices[..|choices| - 1]);
      StepKeeps(host, job, w0, s, choices[|choices| - 1]);
    }
  }

  /** A finished job leaves the transport at rest. The peer at `host` has heard its frame exactly
      once if the write succeeded and not at all otherwise; nobody heard anything else. */
  lemma JobEffect(host: Address, job: Job, w0: World, choices: seq<Choice>)
    requires AtRest(host, w0) && (job.Exchange? ==> !Terminated(job.line))
    requires Run(host, job, Config(w0, Start(job)), choices).pc.Finished?
    ensures var s := Run(host, job, Config(w0, Start(job)), choices);
      && AtRest(host, s.world)
      && Grows(w0.conns, s.world.conns) && |s.world.conns| <= |w0.conns| + 1
      && Adds(w0.conns, s.world.conns, Said(host, job, s.pc))
      && (s.pc.outcome.Replied? ==> job.Exchange? && Matches(s.pc.outcome.line, job.sn))
      && (s.world.held.Some? <==> s.pc.outcome.Replied? || s.pc.outcome.ReadFailed?)
  {
    RunKeeps(host, job, w0, choices);
  }
}
