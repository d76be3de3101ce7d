/** Any number of callers sharing one local transport, interleaved step by step, against a device that
    answers when and as often as it likes (api/local.py). Only entering the critical section looks at the lock. */
module LocalRuns {
  import opened Prelude
  import opened Framing
  import opened Decimal
  import opened JsonText
  import opened Protocol
  import opened Environment
  import opened Deliveries
  import opened Wire
  import opened LocalSteps
  import Local

  /** Why the device sent a line: to answer the k-th call, or of its own accord. */
  datatype Origin = Answer(k: nat) | Unsolicited

  datatype Utterance = Utterance(text: Bytes, origin: Origin)

  /** A call waiting for the lock, or inside the critical section. */
  datatype Caller = Idle | Blocked(k: nat) | Inside(k: nat, pc: Pc)

  /** The k-th call made, and what it returned. */
  datatype Entry = Entry(job: Job, outcome: Option<Outcome>)

  /** The k-th call's turn in the critical section: what the outside world chose during it. */
  datatype Turn = Turn(k: nat, job: Job, choices: seq<Choice>)

  datatype System = System(
    world: World,
    lock: Option<nat>,
    callers: seq<Caller>,
    log: seq<Entry>,
    turns: seq<Turn>,                // history: turns in the order the lock was taken
    device: seq<seq<Utterance>>,     // everything the device said, per connection
    lastSn: int)                     // the sequence number issued last, to whomever

  datatype Label =
    | Invoke(t: nat, call: Option<Call>, clock: int) // no call: `close`
    | Issue(clock: int)                              // a number drawn for a frame of another transport
    | Enter(t: nat)
    | Act(t: nat, c: Choice)
    | Leave(t: nat)
    | Speak(i: nat, u: Utterance)

  function Init(callers: nat): System {
    System(World([], None), None, seq(callers, _ => Idle), [], [], [], 0)
  }

  /** A frame as the builders make it: well-formed and carrying its own sequence number. */
  ghost predicate Proper(job: Job) {
    job.Exchange? ==> exists frame: Frame ::
      WellFormed(Object(frame)) && Get(frame, "sn") == Some(Text(job.sn)) && job.line == Bare(frame)
  }

  /** What a call has the transport do, under the number `n` drawn for its frame. */
  function JobFor(call: Option<Call>, n: int): Job
    requires call.Some? ==> ValidCall(call.value)
  {
    if call.Some? then Local.JobOf(call.value, n) else Release
  }

  /** A number that has been drawn. */
  ghost predicate Issued(sn: string, last: int) {
    exists n: int :: n <= last && sn == IntText(n)
  }

  /** The device may send `u` on connection `i`: the answer to a frame it heard there, with that frame's
      number, or a report under a foreign number. */
  ghost predicate MaySpeak(s: System, foreign: iset<string>, i: nat, u: Utterance) {
    && i < |s.device| && i < |s.world.conns| && !Terminated(u.text)
    && match u.origin
       case Unsolicited =>
         var frame := Decode(u.text);
         frame.Some? ==>
           var sn := Get(frame.value, "sn");
           sn.Some? && sn.value.Text? ==> sn.value.s in foreign
       case Answer(k) =>
         && k < |s.log| && s.log[k].job.Exchange? && s.log[k].job.line in Lines(s.world.conns[i].sent)
         && var frame := Decode(u.text);
            frame.Some? ==>
              var sn := Get(frame.value, "sn");
              sn.Some? && sn.value.Text? ==> sn.value.s == s.log[k].job.sn
  }

  function Texts(us: seq<Utterance>): seq<Bytes> {
    seq(|us|, j requires 0 <= j < |us| => us[j].text)
  }

  /** Only bytes the device sent come in. */
  ghost predicate Audible(conns: seq<Conn>, device: seq<seq<Utterance>>) {
    |device| == |conns| && forall i | 0 <= i < |conns| :: conns[i].got <= Join(Texts(device[i]))
  }

  function Extend(turns: seq<Turn>, c: Choice): seq<Turn> {
    if turns == [] then []
    else var n := |turns| - 1; turns[..n] + [turns[n].(choices := turns[n].choices + [c])]
  }

  ghost predicate Next(host: Address, foreign: iset<string>, s: System, l: Label, s': System) {
    match l
    case Invoke(t, call, clock) =>
      && t < |s.callers| && s.callers[t].Idle? && (call.Some? ==> ValidCall(call.value))
      && var n := if call.Some? then NextSn(s.lastSn, clock) else s.lastSn;
         s' == s.(callers := s.callers[t := Blocked(|s.log|)], log := s.log + [Entry(JobFor(call, n), None)],
                  lastSn := n)
    case Issue(clock) =>
      s' == s.(lastSn := NextSn(s.lastSn, clock))
    case Enter(t) =>
      && t < |s.callers| && s.callers[t].Blocked? && s.lock.None? && s.callers[t].k < |s.log|
      && var k := s.callers[t].k;
         s' == s.(lock := Some(t), callers := s.callers[t := Inside(k, Start(s.log[k].job))],
                  turns := s.turns + [Turn(k, s.log[k].job, [])])
    case Act(t, c) =>
      && t < |s.callers| && s.callers[t].Inside? && !s.callers[t].pc.Finished?
      && s.callers[t].k < |s.log| && Sane(s.world)
      && var next := Step(host, s.log[s.callers[t].k].job, Config(s.world, s.callers[t].pc), c);
         && Audible(next.world.conns, s'.device)
         && s' == s.(world := next.world, callers := s.callers[t := Inside(s.callers[t].k, next.pc)],
                     turns := Extend(s.turns, c),
                     device := if |next.world.conns| == |s.world.conns| then s.device else s.device + [[]])
    case Leave(t) =>
      && t < |s.callers| && s.callers[t].Inside? && s.callers[t].pc.Finished? && s.callers[t].k < |s.log|
      && var k := s.callers[t].k;
         s' == s.(lock := None, callers := s.callers[t := Idle],
                  log := s.log[k := s.log[k].(outcome := Some(s.callers[t].pc.outcome))])
    case Speak(i, u) =>
      && MaySpeak(s, foreign, i, u)
      && s' == s.(device := s.device[i := s.device[i] + [u]])
  }

  /** A run: states linked by labelled steps from an initial one. */
  ghost predicate IsRun(host: Address, foreign: iset<string>, states: seq<System>, labels: seq<Label>) {
    && |states| == |labels| + 1
    && states[0] == Init(|states[0].callers|)
    && forall i | 0 <= i < |labels| :: Next(host, foreign, states[i], labels[i], states[i + 1])
  }

  // ---------- serial execution ----------

  /** Whole turns one after another, from nothing. */
  function Serially(host: Address, turns: seq<Turn>): (r: Config)
    ensures Sane(r.world)
  {
    if turns == [] then Config(World([], None), Finished(Released))
    else
      var n := |turns| - 1;
      Run(host, turns[n].job, Config(Serially(host, turns[..n]).world, Start(turns[n].job)), turns[n].choices)
  }

  /** Every turn but perhaps the last ran to its end. */
  ghost predicate Serial(host: Address, turns: seq<Turn>) {
    && (forall i | 0 <= i < |turns| :: Serially(host, turns[..i]).pc.Finished?)
    && (forall i | 0 <= i < |turns| :: turns[i].job.Exchange? ==> !Terminated(turns[i].job.line))
  }

  /** The turns that are over and left. */
  function Over(s: System): seq<Turn> {
    if s.lock.None? || s.turns == [] then s.turns else s.turns[..|s.turns| - 1]
  }

  /** The shared state is what the turns, executed serially in lock order, have made of it; whoever holds
      the lock, and nobody else, is inside, exactly as far as the last turn has got. */
  ghost predicate Locked(host: Address, s: System) {
    && Serial(host, s.turns)
    && s.world == Serially(host, s.turns).world
    && (forall t | 0 <= t < |s.callers| :: s.callers[t].Inside? <==> s.lock == Some(t))
    && (s.lock.None? ==> Serially(host, s.turns).pc.Finished?)
    && (s.lock.Some? ==>
          && s.lock.value < |s.callers| && s.turns != []
          && s.callers[s.lock.value] == Inside(s.turns[|s.turns| - 1].k, Serially(host, s.turns).pc))
  }

  /** Turns belong to distinct calls; blocked calls have had none. */
  ghost predicate Booked(s: System) {
    && (forall i | 0 <= i < |s.turns| :: s.turns[i].k < |s.log| && s.turns[i].job == s.log[s.turns[i].k].job)
    && (forall i, j | 0 <= i < j < |s.turns| :: s.turns[i].k != s.turns[j].k)
    && (forall t | 0 <= t < |s.callers| && s.callers[t].Blocked? ::
          s.callers[t].k < |s.log| && forall i | 0 <= i < |s.turns| :: s.turns[i].k != s.callers[t].k)
    && (forall t, u | 0 <= t < u < |s.callers| && s.callers[t].Blocked? && s.callers[u].Blocked? ::
          s.callers[t].k != s.callers[u].k)
  }

  ghost predicate HasTurn(turns: seq<Turn>, k: nat) {
    exists i | 0 <= i < |turns| :: turns[i].k == k
  }

  /** The call of the i-th turn over has returned what that turn came to. */
  ghost predicate Returned(host: Address, over: seq<Turn>, log: seq<Entry>, i: nat)
    requires i < |over|
  {
    && over[i].k < |log| && Serially(host, over[..i + 1]).pc.Finished?
    && log[over[i].k].outcome == Some(Serially(host, over[..i + 1]).pc.outcome)
  }

  /** A call has returned exactly if its turn is over, and what it returned is what its turn came to. */
  ghost predicate Reported(host: Address, over: seq<Turn>, log: seq<Entry>) {
    && (forall i | 0 <= i < |over| :: Returned(host, over, log, i))
    && (forall k | 0 <= k < |log| && log[k].outcome.Some? :: HasTurn(over, k))
  }

  /** Every call sends a proper frame under a number of its own, drawn by now. */
  ghost predicate Numbered(log: seq<Entry>, last: int) {
    && (forall k | 0 <= k < |log| :: Proper(log[k].job) && (log[k].job.Exchange? ==> Issued(log[k].job.sn, last)))
    && (forall j, k | 0 <= j < k < |log| && log[j].job.Exchange? && log[k].job.Exchange? ::
          log[j].job.sn != log[k].job.sn)
  }

  ghost predicate Honest(foreign: iset<string>, s: System) {
    && Audible(s.world.conns, s.device)
    && forall i, j | 0 <= i < |s.device| && 0 <= j < |s.device[i]| :: MaySpeak(s, foreign, i, s.device[i][j])
  }

  ghost predicate Inv(host: Address, foreign: iset<string>, s: System) {
    Locked(host, s) && Booked(s) && Reported(host, Over(s), s.log) && Numbered(s.log, s.lastSn) && Honest(foreign, s)
  }

  lemma ProperIsBare(job: Job)
    requires Proper(job) && job.Exchange?
    ensures !Terminated(job.line)
    ensures Decode(job.line).Some? && Get(Decode(job.line).value, "sn") == Some(Text(job.sn))
  {
    var frame: Frame :| WellFormed(Object(frame)) && Get(frame, "sn") == Some(Text(job.sn)) && job.line == Bare(frame);
    DecodeBare(frame);
  }

  // ---------- every step keeps the invariant ----------

  lemma InitInv(host: Address, foreign: iset<string>, n: nat)
    ensures Inv(host, foreign, Init(n))
  {
    hide Step, Run, Lines, Join;
  }

  lemma InvokeInv(host: Address, foreign: iset<string>, s: System, t: nat, call: Option<Call>, clock: int, s': System)
    requires Inv(host, foreign, s) && Next(host, foreign, s, Invoke(t, call, clock), s')
    ensures Inv(host, foreign, s')
  {
    hide Locked, Booked, Reported, Numbered, Honest, JobFor;
    var e := s'.log[|s.log|];
    assert Over(s') == Over(s);
    InvokeLocked(host, s, t, s');
    InvokeBooked(s, t, e, s');
    InvokeReported(host, Over(s), s.log, e);
    InvokeNumbered(s.log, s.lastSn, call, clock);
    InvokeHonest(foreign, s, e, s');
  }

  /** A number drawn now is none of those drawn before. */
  lemma DrawnIsNew(sn: string, last: int, n: int)
    requires Issued(sn, last) && last < n
    ensures sn != IntText(n) && Issued(sn, n)
  {
    var m :| m <= last && sn == IntText(m);
    if sn == IntText(n) { IntTextInjective(m, n); }
    hide IntText;
  }

  /** Drawing a number takes none from the calls made. */
  lemma IssueNumbered(log: seq<Entry>, last: int, n: int)
    requires Numbered(log, last) && last < n
    ensures Numbered(log, n)
    ensures forall k | 0 <= k < |log| && log[k].job.Exchange? :: log[k].job.sn != IntText(n)
  {
    hide Proper, Issued, IntText;
    forall k | 0 <= k < |log| && log[k].job.Exchange? ensures log[k].job.sn != IntText(n) && Issued(log[k].job.sn, n) {
      DrawnIsNew(log[k].job.sn, last, n);
    }
  }

  lemma IssueInv(host: Address, foreign: iset<string>, s: System, clock: int, s': System)
    requires Inv(host, foreign, s) && Next(host, foreign, s, Issue(clock), s')
    ensures Inv(host, foreign, s')
  {
    hide Run, Serially, Serial, Matches, Decode, Get, Terminated, Lines, Join, Texts, Numbered, Reported;
    IssueNumbered(s.log, s.lastSn, s'.lastSn);
    assert Over(s') == Over(s);
    forall i, j | 0 <= i < |s'.device| && 0 <= j < |s'.device[i]| ensures MaySpeak(s', foreign, i, s'.device[i][j]) {
      assert MaySpeak(s, foreign, i, s.device[i][j]);
    }
  }

  lemma InvokeLocked(host: Address, s: System, t: nat, s': System)
    requires Locked(host, s) && t < |s.callers| && !s.callers[t].Inside?
    requires s'.lock == s.lock && s'.turns == s.turns && s'.world == s.world
    requires s'.callers == s.callers[t := Blocked(|s.log|)]
    ensures Locked(host, s')
  {
    hide Run, Serially, Terminated;
  }

  /** What the builders make under the next number is proper, and its number new. */
  lemma InvokeNumbered(log: seq<Entry>, last: int, call: Option<Call>, clock: int)
    requires Numbered(log, last) && (call.Some? ==> ValidCall(call.value))
    ensures var n := if call.Some? then NextSn(last, clock) else last;
      Numbered(log + [Entry(JobFor(call, n), None)], n)
  {
    hide Proper, Issued, IntText, FrameOf, Bare;
    if call.Some? {
      var n := NextSn(last, clock);
      IssueNumbered(log, last, n);
      JobIsProper(call.value, n);
    } else {
      ReleaseIsProper();
    }
  }

  lemma JobIsProper(call: Call, n: int)
    requires ValidCall(call)
    ensures Proper(Local.JobOf(call, n)) && Issued(Local.JobOf(call, n).sn, n)
  {
    FrameOfWellFormed(call, IntText(n));
    hide WellFormed, Get, FrameOf, Bare, IntText;
    assert Local.JobOf(call, n).line == Bare(FrameOf(call, IntText(n)));
  }

  lemma ReleaseIsProper()
    ensures Proper(Release)
  {
  }

  lemma InvokeReported(host: Address, over: seq<Turn>, log: seq<Entry>, e: Entry)
    requires Reported(host, over, log) && e.outcome.None?
    ensures Reported(host, over, log + [e])
  {
    hide Serially, HasTurn;
    assert forall k | 0 <= k < |log| :: (log + [e])[k] == log[k];
    forall i | 0 <= i < |over| ensures Returned(host, over, log + [e], i) {
      assert Returned(host, over, log, i);
    }
    forall k | 0 <= k < |log + [e]| && (log + [e])[k].outcome.Some? ensures HasTurn(over, k) {
      assert k < |log| && log[k].outcome.Some?;
    }
  }

  lemma InvokeHonest(foreign: iset<string>, s: System, e: Entry, s': System)
    requires Honest(foreign, s) && s'.log == s.log + [e] && s'.world == s.world && s'.device == s.device
    ensures Honest(foreign, s')
  {
    hide Matches, Decode, Get, Terminated, Lines, Join, Texts;
    forall i, j | 0 <= i < |s'.device| && 0 <= j < |s'.device[i]| ensures MaySpeak(s', foreign, i, s'.device[i][j]) {
      assert MaySpeak(s, foreign, i, s.device[i][j]);
    }
  }

  lemma InvokeBooked(s: System, t: nat, e: Entry, s': System)
    requires Booked(s) && t < |s.callers|
    requires s'.turns == s.turns && s'.log == s.log + [e] && s'.callers == s.callers[t := Blocked(|s.log|)]
    ensures Booked(s')
  {
  }

  lemma SamePrefixes(a: seq<Turn>, b: seq<Turn>, n: nat)
    requires n <= |a| && n <= |b| && a[..n] == b[..n]
    ensures forall i {:trigger a[..i]} {:trigger b[..i]} | 0 <= i <= n :: a[..i] == b[..i]
    ensures forall i {:trigger a[i]} {:trigger b[i]} | 0 <= i < n :: a[i] == b[i]
  {
    assert forall i | 0 <= i <= n :: a[..n][..i] == a[..i] && b[..n][..i] == b[..i];
    assert forall i | 0 <= i < n :: a[..n][i] == a[i] && b[..n][i] == b[i];
  }

  lemma EnterLocked(host: Address, s: System, t: nat, k: nat, job: Job, s': System)
    requires Locked(host, s) && s.lock.None? && t < |s.callers| && !s.callers[t].Inside?
    requires job.Exchange? ==> !Terminated(job.line)
    requires s'.world == s.world && s'.lock == Some(t) && s'.callers == s.callers[t := Inside(k, Start(job))]
    requires s'.turns == s.turns + [Turn(k, job, [])]
    ensures Locked(host, s')
  {
    hide Step, Terminated;
    var n := |s.turns|;
    assert s'.turns[..n] == s.turns && s.turns[..n] == s.turns;
    SamePrefixes(s.turns, s'.turns, n);
    assert Serially(host, s'.turns) == Config(s.world, Start(job));
    forall i | 0 <= i < |s'.turns| ensures Serially(host, s'.turns[..i]).pc.Finished? {
      if i < n { assert Serially(host, s.turns[..i]).pc.Finished?; }
    }
  }

  lemma EnterInv(host: Address, foreign: iset<string>, s: System, t: nat, s': System)
    requires Inv(host, foreign, s) && Next(host, foreign, s, Enter(t), s')
    ensures Inv(host, foreign, s')
  {
    hide Step, Run, Serially, Serial, Proper, Matches, Decode, Get, Terminated, Lines, Join, Texts;
    var k := s.callers[t].k;
    if s.log[k].job.Exchange? { ProperIsBare(s.log[k].job); }
    EnterLocked(host, s, t, k, s.log[k].job, s');
    assert s'.turns[..|s.turns|] == s.turns && s.turns[..|s.turns|] == s.turns;
    SamePrefixes(s.turns, s'.turns, |s.turns|);
    assert Over(s') == s.turns == Over(s);
  }

  lemma ExtendSerially(host: Address, turns: seq<Turn>, c: Choice)
    requires turns != []
    ensures var n := |turns| - 1;
      && |Extend(turns, c)| == |turns| && Extend(turns, c)[..n] == turns[..n]
      && Extend(turns, c)[n] == turns[n].(choices := turns[n].choices + [c])
      && Serially(host, Extend(turns, c)) == Step(host, turns[n].job, Serially(host, turns), c)
  {
    var n := |turns| - 1;
    RunStep(host, turns[n].job, Config(Serially(host, turns[..n]).world, Start(turns[n].job)), turns[n].choices, c);
  }

  lemma ActLocked(host: Address, s: System, t: nat, c: Choice, s': System)
    requires Locked(host, s) && t < |s.callers| && s.callers[t].Inside? && Sane(s.world)
    requires s'.lock == s.lock && s'.turns == Extend(s.turns, c)
    requires var next := Step(host, s.turns[|s.turns| - 1].job, Config(s.world, s.callers[t].pc), c);
      s'.world == next.world && s'.callers == s.callers[t := Inside(s.callers[t].k, next.pc)]
    ensures Locked(host, s')
  {
    hide Step, Terminated, Run;
    var n := |s.turns| - 1;
    ExtendSerially(host, s.turns, c);
    SamePrefixes(s.turns, s'.turns, n);
    forall i | 0 <= i < |s'.turns| ensures Serially(host, s'.turns[..i]).pc.Finished? {
      assert Serially(host, s.turns[..i]).pc.Finished?;
    }
    hide Serially;
  }

  lemma ActBooked(s: System, t: nat, c: Choice, s': System, pc: Pc)
    requires Booked(s) && t < |s.callers| && s.callers[t].Inside? && s.turns != []
    requires s'.turns == Extend(s.turns, c) && s'.log == s.log
    requires s'.callers == s.callers[t := Inside(s.callers[t].k, pc)]
    ensures Booked(s')
  {
    var n := |s.turns| - 1;
    assert s'.turns[..n] == s.turns[..n];
    SamePrefixes(s.turns, s'.turns, n);
    assert s'.turns[n].k == s.turns[n].k && s'.turns[n].job == s.turns[n].job;
  }

  lemma ActInv(host: Address, foreign: iset<string>, s: System, t: nat, c: Choice, s': System)
    requires Inv(host, foreign, s) && Next(host, foreign, s, Act(t, c), s')
    ensures Inv(host, foreign, s')
  {
    hide Step, Run, Serially, Serial, Proper, Matches, Decode, Get, Terminated, Lines, Join, Texts, Extend;
    ActLocked(host, s, t, c, s');
    ActBooked(s, t, c, s', s'.callers[t].pc);
    ExtendOver(s.turns, c);
    assert Over(s') == Over(s);
    StepGrows(host, s.log[s.callers[t].k].job, Config(s.world, s.callers[t].pc), c);
    SpeechStays(foreign, s, s');
  }

  lemma ExtendOver(turns: seq<Turn>, c: Choice)
    requires turns != []
    ensures Extend(turns, c) != [] && |Extend(turns, c)| == |turns|
    ensures Extend(turns, c)[..|turns| - 1] == turns[..|turns| - 1]
  {
  }

  /** A step never takes back anything said or received. */
  lemma StepGrows(host: Address, job: Job, s: Config, c: Choice)
    requires Sane(s.world)
    ensures Grows(s.world.conns, Step(host, job, s, c).world.conns)
  {
    hide Pull, Matches, Decode, Get;
    if s.pc.Waiting? && s.world.held.Some? && job.Exchange? {
      hide Step, Start;
      WaitingGrows(host, job, s.world, c);
    }
  }

  lemma WaitingGrows(host: Address, job: Job, w: World, c: Choice)
    requires Sane(w) && w.held.Some? && job.Exchange?
    ensures Grows(w.conns, Step(host, job, Config(w, Waiting), c).world.conns)
  {
    hide Pull, Matches, Decode, Get;
    var r := Pull(Reader(w.held.value.buffer, [], [], Going), c);
    GrowsTrans(w.conns, Intake(w, r).conns, Conclude(job, Intake(w, r), r.status).world.conns);
  }

  lemma SpeechStays(foreign: iset<string>, s: System, s': System)
    requires Honest(foreign, s) && s.log == s'.log && Grows(s.world.conns, s'.world.conns)
    requires Audible(s'.world.conns, s'.device)
    requires s'.device == s.device || s'.device == s.device + [[]]
    ensures Honest(foreign, s')
  {
    hide Matches, Decode, Get, Terminated, Lines, Join, Texts;
    forall i, j | 0 <= i < |s'.device| && 0 <= j < |s'.device[i]| ensures MaySpeak(s', foreign, i, s'.device[i][j]) {
      assert MaySpeak(s, foreign, i, s.device[i][j]);
      LinesOfPrefix(s.world.conns[i].sent, s'.world.conns[i].sent);
    }
  }

  lemma LeaveInv(host: Address, foreign: iset<string>, s: System, t: nat, s': System)
    requires Inv(host, foreign, s) && Next(host, foreign, s, Leave(t), s')
    ensures Inv(host, foreign, s')
  {
    hide Step, Run, Serially, Serial, Proper, Matches, Decode, Get, Terminated, Lines, Join, Texts;
    LeaveLocked(host, s, t, s');
    LeaveReported(host, s, t, s');
    forall i, j | 0 <= i < |s'.device| && 0 <= j < |s'.device[i]| ensures MaySpeak(s', foreign, i, s'.device[i][j]) {
      assert MaySpeak(s, foreign, i, s.device[i][j]);
    }
  }

  lemma LeaveLocked(host: Address, s: System, t: nat, s': System)
    requires Locked(host, s) && t < |s.callers| && s.callers[t].Inside? && s.callers[t].pc.Finished?
    requires s'.lock == None && s'.turns == s.turns && s'.world == s.world && s'.callers == s.callers[t := Idle]
    ensures Locked(host, s')
  {
    hide Step, Run, Serially, Terminated;
  }

  lemma LeaveReported(host: Address, s: System, t: nat, s': System)
    requires Locked(host, s) && Booked(s) && Reported(host, Over(s), s.log)
    requires t < |s.callers| && s.callers[t].Inside? && s.callers[t].pc.Finished?
    requires s'.lock == None && s'.turns == s.turns && s'.callers == s.callers[t := Idle] && s.callers[t].k < |s.log|
    requires var k := s.callers[t].k; s'.log == s.log[k := s.log[k].(outcome := Some(s.callers[t].pc.outcome))]
    ensures Reported(host, Over(s'), s'.log) && Booked(s')
  {
    hide Step, Run, Serially, Serial, Terminated;
    var n := |s.turns| - 1;
    var over := s.turns[..n];
    assert Over(s) == over && Over(s') == s.turns && s.turns[..n + 1] == s.turns;
    assert s.turns[n].k == s.callers[t].k;
    forall i | 0 <= i < |s.turns| ensures Returned(host, s.turns, s'.log, i) {
      if i < n {
        assert over[..i + 1] == s.turns[..i + 1] && over[i] == s.turns[i];
        assert Returned(host, over, s.log, i);
      }
    }
    forall k | 0 <= k < |s'.log| && s'.log[k].outcome.Some? ensures HasTurn(s.turns, k) {
      if k == s.turns[n].k {
        assert s.turns[n].k == k;
      } else {
        assert HasTurn(over, k);
        var i :| 0 <= i < |over| && over[i].k == k;
        assert s.turns[i].k == k;
      }
    }
  }

  lemma SpeakInv(host: Address, foreign: iset<string>, s: System, i: nat, u: Utterance, s': System)
    requires Inv(host, foreign, s) && Next(host, foreign, s, Speak(i, u), s')
    ensures Inv(host, foreign, s')
  {
    hide Step, Run, Serially, Serial, Proper, Matches, Decode, Get, Terminated, Lines, Join, Texts;
    SpeakAudible(s.world.conns, s.device, i, u);
    assert Over(s') == Over(s) && Booked(s') && Locked(host, s');
    forall a, b | 0 <= a < |s'.device| && 0 <= b < |s'.device[a]| ensures MaySpeak(s', foreign, a, s'.device[a][b]) {
      if a == i && b == |s.device[i]| {
        assert MaySpeak(s, foreign, i, u);
      } else {
        assert MaySpeak(s, foreign, a, s.device[a][b]);
      }
    }
  }

  lemma SpeakAudible(conns: seq<Conn>, device: seq<seq<Utterance>>, i: nat, u: Utterance)
    requires Audible(conns, device) && i < |device|
    ensures Audible(conns, device[i := device[i] + [u]])
  {
    JoinConcat(Texts(device[i]), [u.text]);
    assert Texts(device[i] + [u]) == Texts(device[i]) + [u.text];
    hide Join;
  }

  lemma NextInv(host: Address, foreign: iset<string>, s: System, l: Label, s': System)
    requires Inv(host, foreign, s) && Next(host, foreign, s, l, s')
    ensures Inv(host, foreign, s')
  {
    match l
    case Invoke(t, call, clock) => InvokeInv(host, foreign, s, t, call, clock, s');
    case Issue(clock) => IssueInv(host, foreign, s, clock, s');
    case Enter(t) => EnterInv(host, foreign, s, t, s');
    case Act(t, c) => ActInv(host, foreign, s, t, c, s');
    case Leave(t) => LeaveInv(host, foreign, s, t, s');
    case Speak(i, u) => SpeakInv(host, foreign, s, i, u, s');
    hide *;
  }

  lemma {:induction false} RunInv(host: Address, foreign: iset<string>, states: seq<System>, labels: seq<Label>, i: nat)
    requires IsRun(host, foreign, states, labels) && i < |states|
    ensures Inv(host, foreign, states[i])
  {
    hide Inv, Next;
    if i == 0 {
      InitInv(host, foreign, |states[0].callers|);
    } else {
      RunInv(host, foreign, states, labels, i - 1);
      NextInv(host, foreign, states[i - 1], labels[i - 1], states[i]);
    }
  }

  // ---------- what serial execution guarantees ----------

  lemma {:induction false} SerialAtRest(host: Address, turns: seq<Turn>)
    requires Serial(host, turns) && Serially(host, turns).pc.Finished?
    ensures AtRest(host, Serially(host, turns).world)
  {
    if turns != [] {
      var n := |turns| - 1;
      SerialFront(host, turns, n);
      SerialAtRest(host, turns[..n]);
      JobEffect(host, turns[n].job, Serially(host, turns[..n]).world, turns[n].choices);
      hide AtRest, Keeps, Run;
    }
  }

  lemma SerialFront(host: Address, turns: seq<Turn>, n: nat)
    requires Serial(host, turns) && n < |turns|
    ensures Serial(host, turns[..n]) && Serially(host, turns[..n]).pc.Finished?
  {
    hide Serially, Terminated;
    assert forall i | 0 <= i < n :: turns[..n][..i] == turns[..i];
  }

  /** The last turn, from where the others left off. */
  lemma SerialLast(host: Address, turns: seq<Turn>)
    requires Serial(host, turns) && turns != []
    ensures var n := |turns| - 1;
      Keeps(host, turns[n].job, Serially(host, turns[..n]).world, Serially(host, turns))
  {
    var n := |turns| - 1;
    SerialFront(host, turns, n);
    SerialAtRest(host, turns[..n]);
    RunKeeps(host, turns[n].job, Serially(host, turns[..n]).world, turns[n].choices);
    hide AtRest, Keeps, Run;
  }

  /** What the turns have made the device hear, in order. */
  function Sayings(host: Address, turns: seq<Turn>): seq<Delivery> {
    if turns == [] then []
    else
      var n := |turns| - 1;
      Sayings(host, turns[..n]) + Said(host, turns[n].job, Serially(host, turns).pc)
  }

  lemma {:induction false} SerialHeard(host: Address, turns: seq<Turn>)
    requires Serial(host, turns)
    ensures Adds([], Serially(host, turns).world.conns, Sayings(host, turns))
  {
    if turns == [] {
      AddsNothing([], []);
    } else {
      var n := |turns| - 1;
      SerialFront(host, turns, n);
      SerialHeard(host, turns[..n]);
      SerialLast(host, turns);
      hide Adds, Serially, Sound, Placed, Grows, Tails, Serial;
      AddsTrans([], Serially(host, turns[..n]).world.conns, Serially(host, turns).world.conns,
                Sayings(host, turns[..n]), Said(host, turns[n].job, Serially(host, turns).pc));
    }
  }

  /** A line nobody's turn is about is never said. */
  lemma {:induction false} NeverSaid(host: Address, turns: seq<Turn>, d: Delivery)
    requires forall i | 0 <= i < |turns| && turns[i].job.Exchange? :: turns[i].job.line != d.line
    ensures Count(Sayings(host, turns), d) == 0
  {
    hide Serially;
    if turns != [] {
      var n := |turns| - 1;
      NeverSaid(host, turns[..n], d);
      CountConcat(Sayings(host, turns[..n]), Said(host, turns[n].job, Serially(host, turns).pc), d);
      if turns[n].job.Exchange? { CountOne(Delivery(host, turns[n].job.line), d); }
    }
  }

  /** A line only one turn is about is said once if that turn's write succeeded, and otherwise never. */
  lemma {:induction false} SaidOnce(host: Address, turns: seq<Turn>, i: nat, d: Delivery)
    requires i < |turns| && turns[i].job.Exchange? && d == Delivery(host, turns[i].job.line)
    requires forall j | 0 <= j < |turns| && j != i && turns[j].job.Exchange? :: turns[j].job.line != d.line
    ensures Count(Sayings(host, turns), d) == if Out(Serially(host, turns[..i + 1]).pc) then 1 else 0
  {
    hide Serially;
    var n := |turns| - 1;
    CountConcat(Sayings(host, turns[..n]), Said(host, turns[n].job, Serially(host, turns).pc), d);
    if turns[n].job.Exchange? { CountOne(Delivery(host, turns[n].job.line), d); }
    if i == n {
      assert turns[..i + 1] == turns;
      NeverSaid(host, turns[..n], d);
    } else {
      assert turns[..n][..i + 1] == turns[..i + 1];
      SaidOnce(host, turns[..n], i, d);
    }
  }

  lemma NumberOfLine(a: Job, b: Job)
    requires Proper(a) && Proper(b) && a.Exchange? && b.Exchange? && a.line == b.line
    ensures a.sn == b.sn
  {
    ProperIsBare(a);
    ProperIsBare(b);
  }

  // ---------- theorems about every run ----------

  /** At most once, whatever happens: in every reachable state the device has heard the frame of the k-th
      call at most once, over all connections. Once the call has returned, it has heard it exactly once
      if the write succeeded (an answer, a timeout or a read error followed) and not at all otherwise. */
  lemma AtMostOnce(host: Address, foreign: iset<string>, states: seq<System>, labels: seq<Label>, i: nat, k: nat)
    requires IsRun(host, foreign, states, labels) && i < |states|
    requires k < |states[i].log| && states[i].log[k].job.Exchange?
    ensures var s := states[i];
      var times := Heard(s.world.conns, Delivery(host, s.log[k].job.line));
      && times <= 1
      && (s.log[k].outcome.Some? ==> times == if s.log[k].outcome.value.Unreachable? then 0 else 1)
  {
    RunInv(host, foreign, states, labels, i);
    hide IsRun, Locked, Booked, Reported, Numbered, Honest, Heard;
    OnceIn(host, states[i], k);
  }

  lemma OnceIn(host: Address, s: System, k: nat)
    requires Locked(host, s) && Booked(s) && Reported(host, Over(s), s.log) && Numbered(s.log, s.lastSn)
    requires k < |s.log| && s.log[k].job.Exchange?
    ensures var times := Heard(s.world.conns, Delivery(host, s.log[k].job.line));
      && times <= 1
      && (s.log[k].outcome.Some? ==> times == if s.log[k].outcome.value.Unreachable? then 0 else 1)
  {
    hide Proper, Serially, Serial, Issued;
    var d := Delivery(host, s.log[k].job.line);
    SerialHeard(host, s.turns);
    assert Heard([], d) == 0;
    OverHasTurn(s, k);
    forall j | 0 <= j < |s.turns| && s.turns[j].k != k && s.turns[j].job.Exchange?
      ensures s.turns[j].job.line != d.line
    {
      if s.turns[j].job.line == d.line { NumberOfLine(s.log[s.turns[j].k].job, s.log[k].job); }
    }
    if HasTurn(s.turns, k) {
      var j :| 0 <= j < |s.turns| && s.turns[j].k == k;
      SaidOnce(host, s.turns, j, d);
      if s.log[k].outcome.Some? {
        OverTurn(host, s, k, j);
        SerialOutcome(host, s.turns, j);
      }
    } else {
      NeverSaid(host, s.turns, d);
    }
  }

  lemma OverHasTurn(s: System, k: nat)
    ensures HasTurn(Over(s), k) ==> HasTurn(s.turns, k)
  {
    if HasTurn(Over(s), k) {
      var i :| 0 <= i < |Over(s)| && Over(s)[i].k == k;
      assert s.turns[i].k == k;
    }
  }

  /** The outcome reported for a call is that of its one turn. */
  lemma OverTurn(host: Address, s: System, k: nat, j: nat)
    requires Booked(s) && Reported(host, Over(s), s.log)
    requires j < |s.turns| && s.turns[j].k == k && k < |s.log| && s.log[k].outcome.Some?
    ensures Serially(host, s.turns[..j + 1]).pc == Finished(s.log[k].outcome.value)
  {
    hide Serially;
    assert HasTurn(Over(s), k);
    var i :| 0 <= i < |Over(s)| && Over(s)[i].k == k;
    assert s.turns[i].k == k && i == j;
    assert Returned(host, Over(s), s.log, i);
    assert Over(s)[..j + 1] == s.turns[..j + 1];
  }

  /** An exchange never ends like a release. */
  lemma SerialOutcome(host: Address, turns: seq<Turn>, j: nat)
    requires Serial(host, turns) && j < |turns| && turns[j].job.Exchange?
    requires Serially(host, turns[..j + 1]).pc.Finished?
    ensures !Serially(host, turns[..j + 1]).pc.outcome.Released?
  {
    SerialPart(host, turns, j + 1);
    SerialLast(host, turns[..j + 1]);
    assert turns[..j + 1][j] == turns[j];
    hide Serially, Serial;
  }

  lemma SerialPart(host: Address, turns: seq<Turn>, n: nat)
    requires Serial(host, turns) && n <= |turns|
    ensures Serial(host, turns[..n])
  {
    if n < |turns| { SerialFront(host, turns, n); } else { assert turns[..n] == turns; }
    hide Serially;
  }

  /** Every interleaving is equivalent to a serial order: the connections and the read buffer are what whole
      turns, taken one after another in lock order, make of them, only the last of which may be under way;
      every call has at most one turn, and has returned exactly what its own turn came to. */
  lemma Serialisable(host: Address, foreign: iset<string>, states: seq<System>, labels: seq<Label>, i: nat)
    requires IsRun(host, foreign, states, labels) && i < |states|
    ensures var s := states[i];
      && s.world == Serially(host, s.turns).world
      && (forall n | 0 <= n < |s.turns| :: Serially(host, s.turns[..n]).pc.Finished?)
      && (forall m, n | 0 <= m < n < |s.turns| :: s.turns[m].k != s.turns[n].k)
      && (forall n | 0 <= n < |s.turns| :: s.turns[n].k < |s.log| && s.turns[n].job == s.log[s.turns[n].k].job)
      && (forall k | 0 <= k < |s.log| && s.log[k].outcome.Some? ::
            exists n | 0 <= n < |s.turns| ::
              s.turns[n].k == k && Serially(host, s.turns[..n + 1]).pc == Finished(s.log[k].outcome.value))
  {
    RunInv(host, foreign, states, labels, i);
    hide IsRun, Serially, Honest, Numbered;
    var s := states[i];
    forall k | 0 <= k < |s.log| && s.log[k].outcome.Some?
      ensures exists n | 0 <= n < |s.turns| ::
        s.turns[n].k == k && Serially(host, s.turns[..n + 1]).pc == Finished(s.log[k].outcome.value)
    {
      OverHasTurn(s, k);
      var n :| 0 <= n < |s.turns| && s.turns[n].k == k;
      OverTurn(host, s, k, n);
    }
  }

  function Order(turns: seq<Turn>): seq<nat> {
    seq(|turns|, i requires 0 <= i < |turns| => turns[i].k)
  }

  lemma NextOrder(host: Address, foreign: iset<string>, s: System, l: Label, s': System)
    requires Next(host, foreign, s, l, s')
    ensures Order(s.turns) <= Order(s'.turns) && |s.log| <= |s'.log|
  {
    hide Step, Serially, Matches, Decode, Get, Lines, Join, JobFor;
  }

  lemma {:induction false} RunOrder(host: Address, foreign: iset<string>, states: seq<System>, labels: seq<Label>,
                                    i: nat, j: nat)
    requires IsRun(host, foreign, states, labels) && i <= j < |states|
    ensures Order(states[i].turns) <= Order(states[j].turns)
  {
    hide Next, Order;
    if i < j {
      RunOrder(host, foreign, states, labels, i, j - 1);
      NextOrder(host, foreign, states[j - 1], labels[j - 1], states[j]);
    }
  }

  /** The serial order respects real time: a call that had returned before another was made has the earlier turn. */
  lemma RealTime(host: Address, foreign: iset<string>, states: seq<System>, labels: seq<Label>,
                 i: nat, j: nat, m: nat, n: nat)
    requires IsRun(host, foreign, states, labels) && i <= j < |states|
    requires m < |states[j].turns| && n < |states[j].turns|
    requires states[j].turns[m].k < |states[i].log| && states[i].log[states[j].turns[m].k].outcome.Some?
    requires |states[i].log| <= states[j].turns[n].k
    ensures m < n
  {
    RunInv(host, foreign, states, labels, i);
    RunInv(host, foreign, states, labels, j);
    RunOrder(host, foreign, states, labels, i, j);
    hide IsRun, Serially, Serial, Honest, Numbered, Order;
    var s, s' := states[i], states[j];
    var k := s'.turns[m].k;
    OverHasTurn(s, k);
    var p :| 0 <= p < |s.turns| && s.turns[p].k == k;
    SameTurn(s.turns, s'.turns, p);
    if n < |s.turns| { SameTurn(s.turns, s'.turns, n); }
  }

  lemma SameTurn(a: seq<Turn>, b: seq<Turn>, n: nat)
    requires Order(a) <= Order(b) && n < |a|
    ensures n < |b| && b[n].k == a[n].k
  {
    assert Order(b)[n] == Order(a)[n];
  }

  /** Packets never interleave: what went out on any connection is whole packets of the calls made,
      followed by at most a strict prefix of one more. */
  lemma WholePackets(host: Address, foreign: iset<string>, states: seq<System>, labels: seq<Label>, i: nat, c: nat)
    requires IsRun(host, foreign, states, labels) && i < |states| && c < |states[i].world.conns|
    ensures var s := states[i];
      var sent := s.world.conns[c].sent;
      && sent == Join(Lines(sent)) + Rest(sent)
      && (forall l | l in Lines(sent) ::
            exists k | 0 <= k < |s.log| :: s.log[k].job.Exchange? && s.log[k].job.line == l)
      && (Rest(sent) == [] || exists k | 0 <= k < |s.log| :: Partial(Rest(sent), s.log[k].job))
  {
    RunInv(host, foreign, states, labels, i);
    hide IsRun, Proper, Matches, Decode, Get, Serially, Serial, Honest;
    var s := states[i];
    var sent := s.world.conns[c].sent;
    Reassemble(sent);
    SerialTails(host, s.turns, c);
    forall l | l in Lines(sent)
      ensures exists k | 0 <= k < |s.log| :: s.log[k].job.Exchange? && s.log[k].job.line == l
    {
      SerialLine(host, s.turns, c, l);
      var n :| 0 <= n < |s.turns| && s.turns[n].job.Exchange? && s.turns[n].job.line == l;
      assert s.log[s.turns[n].k].job == s.turns[n].job;
    }
    if Rest(sent) != [] {
      var n :| 0 <= n < |s.turns| && Partial(Rest(sent), s.turns[n].job);
      assert s.log[s.turns[n].k].job == s.turns[n].job;
    }
  }

  lemma {:induction false} SerialTails(host: Address, turns: seq<Turn>, c: nat)
    requires Serial(host, turns) && c < |Serially(host, turns).world.conns|
    ensures var rest := Rest(Serially(host, turns).world.conns[c].sent);
      rest == [] || exists n | 0 <= n < |turns| :: Partial(rest, turns[n].job)
  {
    if turns != [] {
      var n := |turns| - 1;
      SerialLast(host, turns);
      SerialFront(host, turns, n);
      hide Serially, Serial, Rest, Partial, Adds, Placed;
      var rest := Rest(Serially(host, turns).world.conns[c].sent);
      if c < |Serially(host, turns[..n]).world.conns| && rest == Rest(Serially(host, turns[..n]).world.conns[c].sent) {
        SerialTails(host, turns[..n], c);
        if rest != [] {
          var m :| 0 <= m < n && Partial(rest, turns[..n][m].job);
          assert Partial(rest, turns[m].job);
        }
      }
    }
  }

  lemma SerialLine(host: Address, turns: seq<Turn>, c: nat, l: Bytes)
    requires Serial(host, turns) && c < |Serially(host, turns).world.conns|
    requires l in Lines(Serially(host, turns).world.conns[c].sent)
    ensures exists n | 0 <= n < |turns| :: turns[n].job.Exchange? && turns[n].job.line == l
  {
    var conns := Serially(host, turns).world.conns;
    var d := Delivery(conns[c].host, l);
    HeardMember(conns, d);
    SerialHeard(host, turns);
    assert Heard([], d) == 0;
    if forall n | 0 <= n < |turns| && turns[n].job.Exchange? :: turns[n].job.line != l {
      NeverSaid(host, turns, d);
    }
    hide Serially, Serial;
  }

  /** In every reachable state at most one connection is open, the one held; with the lock free, no part
      of a frame is outstanding on it. */
  lemma OneConnection(host: Address, foreign: iset<string>, states: seq<System>, labels: seq<Label>, i: nat)
    requires IsRun(host, foreign, states, labels) && i < |states|
    ensures var s := states[i];
      && Sound(host, s.world)
      && OpenCount(s.world.conns) == (if s.world.held.Some? then 1 else 0)
      && (s.lock.None? ==> AtRest(host, s.world))
  {
    RunInv(host, foreign, states, labels, i);
    var s := states[i];
    if s.turns != [] { SerialLast(host, s.turns); }
    if s.lock.None? { SerialAtRest(host, s.turns); }
    OpenIsHeld(host, s.world);
    hide IsRun, Serial, Booked, Reported, Honest, Numbered, Run;
  }

  /** What a turn that got a reply leaves behind for good: on one connection, the frame that asked and the line
      that answered. */
  lemma {:induction false} SerialReply(host: Address, turns: seq<Turn>, n: nat)
    requires Serial(host, turns) && n < |turns|
    requires var pc := Serially(host, turns[..n + 1]).pc; pc.Finished? && pc.outcome.Replied?
    ensures var line := Serially(host, turns[..n + 1]).pc.outcome.line;
      var conns := Serially(host, turns).world.conns;
      turns[n].job.Exchange? && Matches(line, turns[n].job.sn)
      && exists c | 0 <= c < |conns| :: turns[n].job.line in Lines(conns[c].sent) && line in Lines(conns[c].got)
  {
    SerialLast(host, turns);
    hide Serially, Matches, Decode, Get, Lines, Serial;
    var line := Serially(host, turns[..n + 1]).pc.outcome.line;
    var m := |turns| - 1;
    var w := Serially(host, turns).world;
    if n == m {
      assert turns[..n + 1] == turns;
      var h := w.held.value;
      SplitJoin(h.popped, h.buffer);
      assert turns[n].job.line in Lines(w.conns[h.id].sent) && line in Lines(w.conns[h.id].got);
    } else {
      assert turns[..m][..n + 1] == turns[..n + 1];
      SerialFront(host, turns, m);
      SerialReply(host, turns[..m], n);
      var before := Serially(host, turns[..m]).world.conns;
      var c :| 0 <= c < |before| && turns[n].job.line in Lines(before[c].sent) && line in Lines(before[c].got);
      LinesOfPrefix(before[c].sent, w.conns[c].sent);
      LinesOfPrefix(before[c].got, w.conns[c].got);
      assert turns[n].job.line in Lines(w.conns[c].sent) && line in Lines(w.conns[c].got);
    }
  }

  /** Reply correlation: a line returned to the k-th call was sent by the device, on a connection where it had
      heard that call's frame, and in answer to that very frame; every line of the device there that reads the
      same is an answer to it. So it is never a late answer to another frame, nor an unsolicited report, unless
      those reports use the number of this very call. */
  lemma ReplyCorrelation(host: Address, foreign: iset<string>, states: seq<System>, labels: seq<Label>, i: nat, k: nat)
    requires IsRun(host, foreign, states, labels) && i < |states| && k < |states[i].log|
    requires states[i].log[k].outcome.Some? && states[i].log[k].outcome.value.Replied?
    requires states[i].log[k].job.Exchange? ==> states[i].log[k].job.sn !in foreign
    ensures var s := states[i];
      var line := s.log[k].outcome.value.line;
      && s.log[k].job.Exchange?
      && Decode(line).Some? && Get(Decode(line).value, "sn") == Some(Text(s.log[k].job.sn))
      && exists c | 0 <= c < |s.device| && c < |s.world.conns| ::
        && s.log[k].job.line in Lines(s.world.conns[c].sent)
        && line in Texts(s.device[c])
        && forall u | u in s.device[c] && u.text == line :: u.origin == Answer(k)
  {
    RunInv(host, foreign, states, labels, i);
    hide IsRun, Locked, Booked, Reported, Numbered, Honest, Matches, Decode, Get, Lines, Texts;
    ReplyIn(host, foreign, states[i], k);
  }

  lemma ReplyIn(host: Address, foreign: iset<string>, s: System, k: nat)
    requires Inv(host, foreign, s) && k < |s.log|
    requires s.log[k].outcome.Some? && s.log[k].outcome.value.Replied?
    requires s.log[k].job.Exchange? ==> s.log[k].job.sn !in foreign
    ensures var line := s.log[k].outcome.value.line;
      && s.log[k].job.Exchange?
      && Decode(line).Some? && Get(Decode(line).value, "sn") == Some(Text(s.log[k].job.sn))
      && exists c | 0 <= c < |s.device| && c < |s.world.conns| ::
        && s.log[k].job.line in Lines(s.world.conns[c].sent)
        && line in Texts(s.device[c])
        && forall u | u in s.device[c] && u.text == line :: u.origin == Answer(k)
  {
    hide Serially, Matches, Decode, Get, Lines, Join, Numbered, MaySpeak, Texts;
    var line := s.log[k].outcome.value.line;
    OverHasTurn(s, k);
    var n :| 0 <= n < |s.turns| && s.turns[n].k == k;
    OverTurn(host, s, k, n);
    SerialReply(host, s.turns, n);
    MatchesSays(line, s.log[k].job.sn);
    var c :|
      && 0 <= c < |s.world.conns|
      && s.turns[n].job.line in Lines(s.world.conns[c].sent) && line in Lines(s.world.conns[c].got);
    AnswersOnly(foreign, s, c, k, line);
    HeardFromDevice(s.world.conns[c].got, s.device[c], line);
  }

  /** Whatever an honest device sends under the k-th call's number answers the k-th call. */
  lemma AnswersOnly(foreign: iset<string>, s: System, c: nat, k: nat, line: Bytes)
    requires Honest(foreign, s) && Numbered(s.log, s.lastSn) && c < |s.device|
    requires k < |s.log| && s.log[k].job.Exchange? && s.log[k].job.sn !in foreign
    requires Decode(line).Some? && Get(Decode(line).value, "sn") == Some(Text(s.log[k].job.sn))
    ensures forall j | 0 <= j < |s.device[c]| :: !Terminated(s.device[c][j].text)
    ensures forall u | u in s.device[c] && u.text == line :: u.origin == Answer(k)
  {
    hide Matches, Decode, Get, Proper, Lines, Join, Terminated, Texts;
    forall j | 0 <= j < |s.device[c]|
      ensures !Terminated(s.device[c][j].text)
      ensures s.device[c][j].text == line ==> s.device[c][j].origin == Answer(k)
    {
      assert MaySpeak(s, foreign, c, s.device[c][j]);
    }
  }

  /** A complete line received is one the device sent. */
  lemma HeardFromDevice(got: Bytes, us: seq<Utterance>, line: Bytes)
    requires got <= Join(Texts(us)) && line in Lines(got)
    requires forall j | 0 <= j < |us| :: !Terminated(us[j].text)
    ensures line in Texts(us)
  {
    LinesOfPrefix(got, Join(Texts(us)));
    TextsBare(us);
    SplitJoin(Texts(us), []);
    assert Join(Texts(us)) + [] == Join(Texts(us)) && Texts(us) + Lines([]) == Texts(us);
  }

  lemma {:induction false} TextsBare(us: seq<Utterance>)
    requires forall j | 0 <= j < |us| :: !Terminated(us[j].text)
    ensures AllBare(Texts(us))
  {
    if us != [] {
      TextsBare(us[1..]);
      assert Texts(us)[1..] == Texts(us[1..]);
    }
    hide Terminated;
  }
}
