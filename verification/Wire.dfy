/** Incremental CRLF reading with a buffer that outlives the call (api/wire.py). */
module Wire {
  import opened Prelude
  import opened Framing
  import opened Environment

  /** Where one resumption of the `lines` generator stands. */
  datatype Status = Going | Yielded(line: Bytes) | Exhausted | Raised

  /** A reader that took `arrived` off the socket, cut `popped` off its buffer (blank lines too), and keeps `buffer`. */
  datatype Reader = Reader(buffer: Bytes, arrived: Bytes, popped: seq<Bytes>, status: Status)

  /** One turn of the loop: cut a line if there is one, otherwise receive. */
  function Pull(r: Reader, c: Choice): Reader {
    if !r.status.Going? then r
    else if Terminated(r.buffer) then
      var line := r.buffer[..Find(r.buffer)];
      r.(buffer := r.buffer[|line| + 2..], popped := r.popped + [line],
         status := if line == [] then Going else Yielded(line))
    else
      match c
      case Chunk(bytes) =>
        if bytes == [] then r.(status := Exhausted)
        else r.(buffer := r.buffer + bytes, arrived := r.arrived + bytes)
      case Broken => r.(status := Raised)
      case _ => r.(status := Exhausted)
  }

  /** One resumption, the outside world choosing `choices`. */
  function Read(buffer: Bytes, choices: seq<Choice>): Reader {
    if choices == [] then Reader(buffer, [], [], Going)
    else Pull(Read(buffer, choices[..|choices| - 1]), choices[|choices| - 1])
  }

  lemma ReadStep(buffer: Bytes, choices: seq<Choice>, c: Choice)
    ensures Read(buffer, choices + [c]) == Pull(Read(buffer, choices), c)
  {
    assert (choices + [c])[..|choices|] == choices;
  }

  /** A turn depends on what was already taken in only through the buffer. */
  lemma PullMore(r: Reader, c: Choice)
    requires r.status.Going?
    ensures var x := Pull(Reader(r.buffer, [], [], Going), c);
      Pull(r, c) == Reader(x.buffer, r.arrived + x.arrived, r.popped + x.popped, x.status)
  {
    assert r.arrived + [] == r.arrived && r.popped + [] == r.popped;
  }

  /** Nothing is lost, reordered or invented, and what is cut off is whole lines. */
  ghost predicate Accounts(buffer: Bytes, r: Reader) {
    && buffer + r.arrived == Join(r.popped) + r.buffer
    && AllBare(r.popped)
    && NonBlank(r.popped) == (if r.status.Yielded? then [r.status.line] else [])
    && (r.status.Exhausted? || r.status.Raised? ==> !Terminated(r.buffer))
  }

  lemma PullAccounts(buffer: Bytes, r: Reader, c: Choice)
    requires Accounts(buffer, r)
    ensures Accounts(buffer, Pull(r, c))
  {
    if r.status.Going? {
      if Terminated(r.buffer) {
        CutAccounts(buffer, r);
      } else {
        TakeAccounts(buffer, r, if c.Chunk? then c.bytes else []);
      }
    }
    hide Join, AllBare, NonBlank, Find;
  }

  lemma CutAccounts(buffer: Bytes, r: Reader)
    requires Accounts(buffer, r) && r.status.Going? && Terminated(r.buffer)
    ensures Accounts(buffer, Pull(r, Silent))
  {
    CutLine(r.popped, r.buffer);
    hide Join, AllBare, NonBlank, Find;
  }

  lemma TakeAccounts(buffer: Bytes, r: Reader, bytes: Bytes)
    requires Accounts(buffer, r) && r.status.Going?
    ensures Accounts(buffer, r.(buffer := r.buffer + bytes, arrived := r.arrived + bytes))
  {
    assert buffer + (r.arrived + bytes) == buffer + r.arrived + bytes;
    assert Join(r.popped) + (r.buffer + bytes) == Join(r.popped) + r.buffer + bytes;
    hide Join, AllBare, NonBlank, Find;
  }

  lemma {:induction false} ReadAccounts(buffer: Bytes, choices: seq<Choice>)
    ensures Accounts(buffer, Read(buffer, choices))
  {
    if choices == [] {
      assert buffer + [] == Join([]) + buffer;
    } else {
      ReadAccounts(buffer, choices[..|choices| - 1]);
      PullAccounts(buffer, Read(buffer, choices[..|choices| - 1]), choices[|choices| - 1]);
    }
  }

  lemma ReadResult(popped: seq<Bytes>, buffer: Bytes, choices: seq<Choice>)
    ensures var r := Read(buffer, choices);
      && NonBlank(popped + r.popped) == NonBlank(popped) + (if r.status.Yielded? then [r.status.line] else [])
      && (r.status.Exhausted? || r.status.Raised? ==> !Terminated(r.buffer))
  {
    ReadAccounts(buffer, choices);
    NonBlankConcat(popped, Read(buffer, choices).popped);
  }

  /** Any number of resumptions, each abandoned after whatever it yielded. */
  datatype Session = Session(buffer: Bytes, arrived: Bytes, popped: seq<Bytes>, yielded: seq<Bytes>)

  function Resume(calls: seq<seq<Choice>>): Session {
    if calls == [] then Session([], [], [], [])
    else
      var before := Resume(calls[..|calls| - 1]);
      var r := Read(before.buffer, calls[|calls| - 1]);
      Session(r.buffer, before.arrived + r.arrived, before.popped + r.popped,
              before.yielded + if r.status.Yielded? then [r.status.line] else [])
  }

  lemma {:induction false} ResumeAccounts(calls: seq<seq<Choice>>)
    ensures var s := Resume(calls);
      s.arrived == Join(s.popped) + s.buffer && AllBare(s.popped) && s.yielded == NonBlank(s.popped)
  {
    if calls != [] {
      var before := Resume(calls[..|calls| - 1]);
      var r := Read(before.buffer, calls[|calls| - 1]);
      ResumeAccounts(calls[..|calls| - 1]);
      ReadAccounts(before.buffer, calls[|calls| - 1]);
      JoinConcat(before.popped, r.popped);
      BareConcat(before.popped, r.popped);
      NonBlankConcat(before.popped, r.popped);
      Regroup(before.arrived, Join(before.popped), before.buffer, Join(r.popped), r.buffer, r.arrived);
    }
  }

  /** Framing refinement: however the bytes were chunked and however often reading was abandoned and
      resumed, the lines yielded followed by those still in the buffer are the non-empty lines of
      the whole stream; the stream is what was cut off and then the buffer; and the unfinished line
      in the buffer is the unfinished line of the stream. */
  lemma FramingRefinement(calls: seq<seq<Choice>>)
    ensures var s := Resume(calls);
      && s.arrived == Join(s.popped) + s.buffer
      && s.yielded + NonBlank(Lines(s.buffer)) == NonBlank(Lines(s.arrived))
      && Rest(s.buffer) == Rest(s.arrived)
  {
    var s := Resume(calls);
    ResumeAccounts(calls);
    SplitJoin(s.popped, s.buffer);
    NonBlankConcat(s.popped, Lines(s.buffer));
  }

  // ---------- everything there is to read ----------

  /** What a turn that reads comes to, the clock having been read as `w` shows: nothing once the deadline has passed. */
  function Turnout(w: Outside, deadline: real): (c: Choice)
    ensures (c.Chunk? && c.bytes != []) || c.Broken? || c.Silent?
    ensures c.Chunk? ==> c == Next(w) && w.choices != []
  {
    if deadline - w.now <= 0.0 then Silent else Incoming(Next(w))
  }

  /** And what is left to decide after it: a passed deadline leaves the socket alone. */
  function Turned(w: Outside, deadline: real): (r: Outside)
    ensures r.now == w.now
    ensures |r.choices| <= |w.choices|
    ensures Turnout(w, deadline).Chunk? ==> |r.choices| < |w.choices|
  {
    if deadline - w.now <= 0.0 then w else Later(w)
  }

  /** All bytes that arrive before reading stops. */
  function Arriving(w: Outside, deadline: real): Bytes
    decreases |w.choices|
  {
    var c := Turnout(Tick(w), deadline);
    if c.Chunk? then c.bytes + Arriving(Turned(Tick(w), deadline), deadline) else []
  }

  /** Why it stops then: an `OSError`, or no more comes in time. */
  function Ending(w: Outside, deadline: real): Choice
    decreases |w.choices|
  {
    var c := Turnout(Tick(w), deadline);
    if c.Chunk? then Ending(Turned(Tick(w), deadline), deadline) else c
  }

  /** All lines that can be read before reading stops. */
  function Coming(buffer: Bytes, w: Outside, deadline: real): seq<Bytes> {
    NonBlank(Lines(buffer + Arriving(w, deadline)))
  }

  /** What the clock shows after being read `n` times. */
  function ClockAfter(w: Outside, n: nat): real
    decreases n
  {
    if n == 0 || w.ticks == [] then w.now
    else ClockAfter(w.(now := w.now + w.ticks[0], ticks := w.ticks[1..]), n - 1)
  }

  /** The `i`-th read from here would start before the deadline and bring in a chunk. */
  predicate Delivers(w: Outside, deadline: real, i: nat) {
    && i < |w.choices| && w.choices[i].Chunk? && w.choices[i].bytes != []
    && ClockAfter(w, i + 1) < deadline
  }

  function Delivered(choices: seq<Choice>): Bytes {
    if choices == [] then []
    else (if choices[0].Chunk? then choices[0].bytes else []) + Delivered(choices[1..])
  }

  lemma ClockShifts(w: Outside, n: nat)
    ensures ClockAfter(w, n + 1) == ClockAfter(Tick(w), n)
  {
  }

  lemma {:induction false} ClockKeeps(w: Outside, v: Outside, n: nat)
    requires w.now == v.now && w.ticks == v.ticks
    ensures ClockAfter(w, n) == ClockAfter(v, n)
    decreases n
  {
    if n > 0 && w.ticks != [] {
      ClockKeeps(w.(now := w.now + w.ticks[0], ticks := w.ticks[1..]),
                 v.(now := v.now + v.ticks[0], ticks := v.ticks[1..]), n - 1);
    }
  }

  /** After a first read that delivers, the `i`-th is what was the one after it. */
  lemma DeliversNext(w: Outside, deadline: real, i: nat)
    requires w.choices != []
    ensures var next := Later(Tick(w));
      Delivers(next, deadline, i) == Delivers(w, deadline, i + 1)
      && ClockAfter(next, i + 1) == ClockAfter(w, i + 2) && next.choices == w.choices[1..]
  {
    ClockShifts(w, i + 1);
    ClockKeeps(Later(Tick(w)), Tick(w), i + 1);
    hide ClockAfter;
  }

  /** Everything there is to read, in closed form: the chunks before the first read that is too late or brings in
      none. Reading then ends with an error if that read is in time and raises one. */
  lemma {:induction false} ReadsExactly(w: Outside, deadline: real, k: nat)
    requires k <= |w.choices| && (forall i | 0 <= i < k :: Delivers(w, deadline, i)) && !Delivers(w, deadline, k)
    ensures Arriving(w, deadline) == Delivered(w.choices[..k])
    ensures Ending(w, deadline).Broken? <==>
      k < |w.choices| && w.choices[k].Broken? && ClockAfter(w, k + 1) < deadline
    decreases k
  {
    FirstRead(w, deadline);
    if k > 0 {
      hide ClockAfter, Turnout, Turned;
      assert Delivers(w, deadline, 0);
      var next := Later(Tick(w));
      forall i: nat ensures Delivers(next, deadline, i) == Delivers(w, deadline, i + 1) {
        DeliversNext(w, deadline, i);
      }
      DeliversNext(w, deadline, k - 1);
      hide Delivers;
      ReadsExactly(next, deadline, k - 1);
      assert w.choices[..k][1..] == next.choices[..k - 1];
      assert w.choices[..k][0] == w.choices[0];
    }
  }

  /** The first read. */
  lemma FirstRead(w: Outside, deadline: real)
    ensures var c, next := Turnout(Tick(w), deadline), Later(Tick(w));
      && (Delivers(w, deadline, 0) <==> c.Chunk?)
      && (c.Chunk? ==> c == w.choices[0] && Turned(Tick(w), deadline) == next)
      && (c.Broken? <==> w.choices != [] && w.choices[0].Broken? && ClockAfter(w, 1) < deadline)
  {
    ClockShifts(w, 0);
  }

  datatype Scene = Scene(buffer: Bytes, ahead: Outside)

  /** What is left in the buffer and outside once `k` lines have been read, or reading has stopped before. */
  function LeftAfter(buffer: Bytes, w: Outside, deadline: real, k: nat): (r: Scene)
    ensures w.now <= r.ahead.now
    decreases |w.choices|, |buffer|
  {
    if k == 0 then Scene(buffer, w)
    else if Terminated(buffer) then
      LeftAfter(buffer[Find(buffer) + 2..], w, deadline, if Find(buffer) == 0 then k else k - 1)
    else
      var c, w' := Turnout(Tick(w), deadline), Turned(Tick(w), deadline);
      if c.Chunk? then LeftAfter(buffer + c.bytes, w', deadline, k) else Scene(buffer, w')
  }

  lemma LeftAtOnce(b: Scene, deadline: real)
    ensures LeftAfter(b.buffer, b.ahead, deadline, 0) == b
  {
  }

  /** Cutting off the first line. */
  lemma ComingCut(buffer: Bytes, w: Outside, deadline: real)
    requires Terminated(buffer)
    ensures var line, rest := buffer[..Find(buffer)], buffer[Find(buffer) + 2..];
      Coming(buffer, w, deadline) == (if line == [] then [] else [line]) + Coming(rest, w, deadline)
  {
    var i, more := Find(buffer), Arriving(w, deadline);
    FindAppend(buffer, more);
    assert (buffer + more)[..i] == buffer[..i];
    assert (buffer + more)[i + 2..] == buffer[i + 2..] + more;
  }

  /** Receiving only moves bytes from what arrives to the buffer. */
  lemma ComingReceived(buffer: Bytes, w: Outside, deadline: real)
    requires Turnout(Tick(w), deadline).Chunk?
    ensures var c, w' := Turnout(Tick(w), deadline), Turned(Tick(w), deadline);
      && Coming(buffer, w, deadline) == Coming(buffer + c.bytes, w', deadline)
      && Ending(w, deadline) == Ending(w', deadline)
  {
    var c, w' := Turnout(Tick(w), deadline), Turned(Tick(w), deadline);
    assert buffer + Arriving(w, deadline) == buffer + c.bytes + Arriving(w', deadline);
  }

  /** Nothing is left once reading has stopped without a line in the buffer. */
  lemma NothingComing(buffer: Bytes, w: Outside, deadline: real)
    requires !Turnout(Tick(w), deadline).Chunk? && !Terminated(buffer)
    ensures Coming(buffer, w, deadline) == [] && Ending(w, deadline) == Turnout(Tick(w), deadline)
  {
    assert buffer + Arriving(w, deadline) == buffer;
  }

  /** Reading `k` lines from `a` on leaves what the rest of them leave from `b` on. */
  predicate Leaves(a: Scene, deadline: real, status: Status, b: Scene, k: nat)
    requires k > 0
  {
    LeftAfter(a.buffer, a.ahead, deadline, k) ==
      match status
      case Going => LeftAfter(b.buffer, b.ahead, deadline, k)
      case Yielded(_) => LeftAfter(b.buffer, b.ahead, deadline, k - 1)
      case _ => b
  }

  /** Reading on from `a` until `deadline` came to `status` and left `b`: a line is yielded exactly if there is
      one to come, and it is the first. */
  ghost predicate Pulled(a: Scene, deadline: real, status: Status, b: Scene) {
    var here, there := Coming(a.buffer, a.ahead, deadline), Coming(b.buffer, b.ahead, deadline);
    var ending := Ending(a.ahead, deadline);
    && (status.Going? || status.Yielded? ==> ending == Ending(b.ahead, deadline))
    && (forall k: nat | k > 0 :: Leaves(a, deadline, status, b, k))
    && match status
       case Going => here == there
       case Yielded(line) => here == [line] + there
       case Exhausted => here == [] && ending.Silent?
       case Raised => here == [] && ending.Broken?
  }

  lemma PulledOn(a: Scene, deadline: real, b: Scene, status: Status, c: Scene)
    requires Pulled(a, deadline, Going, b) && Pulled(b, deadline, status, c)
    ensures Pulled(a, deadline, status, c)
  {
    forall k: nat | k > 0 ensures Leaves(a, deadline, status, c, k) {
      assert Leaves(a, deadline, Going, b, k) && Leaves(b, deadline, status, c, k);
    }
    hide Coming, Ending, LeftAfter;
  }

  /** A reader with what surrounds it: lines cut off so far, connections, what the outside world decides next. */
  datatype Glance = Glance(buffer: Bytes, popped: seq<Bytes>, conns: seq<Conn>, ahead: Outside)

  /** Turns of the loop on connection `id` until `deadline`, decided by `choices`, lead from `a` to `b`. */
  ghost predicate Resumed(id: nat, deadline: real, a: Glance, choices: seq<Choice>, status: Status, b: Glance) {
    var r := Read(a.buffer, choices);
    && r.status == status && r.buffer == b.buffer && b.popped == a.popped + r.popped
    && id < |a.conns| && b.conns == Received(a.conns, id, r.arrived)
    && Pulled(Scene(a.buffer, a.ahead), deadline, status, Scene(b.buffer, b.ahead))
  }

  lemma ResumedNot(id: nat, deadline: real, a: Glance)
    requires id < |a.conns|
    ensures Resumed(id, deadline, a, [], Going, a)
  {
    ReceivedMore(a.conns, id, [], []);
    assert a.popped + [] == a.popped;
  }

  lemma ResumedOn(id: nat, deadline: real, a: Glance, choices: seq<Choice>, b: Glance, c: Choice,
                  status: Status, d: Glance)
    requires Resumed(id, deadline, a, choices, Going, b) && Resumed(id, deadline, b, [c], status, d)
    ensures Resumed(id, deadline, a, choices + [c], status, d)
  {
    hide Pull, Read, Pulled;
    var r, x := Read(a.buffer, choices), Read(b.buffer, [c]);
    ReadOne(b.buffer, c);
    ReadStep(a.buffer, choices, c);
    PullMore(r, c);
    ReceivedMore(a.conns, id, r.arrived, x.arrived);
    assert a.popped + r.popped + x.popped == a.popped + (r.popped + x.popped);
    PulledOn(Scene(a.buffer, a.ahead), deadline, Scene(b.buffer, b.ahead), status, Scene(d.buffer, d.ahead));
  }

  lemma ReadOne(buffer: Bytes, c: Choice)
    ensures Read(buffer, [c]) == Pull(Reader(buffer, [], [], Going), c)
  {
    assert [c][..0] == [];
  }

  lemma ResumedStatus(id: nat, deadline: real, a: Glance, choices: seq<Choice>, status: Status, b: Glance)
    requires Resumed(id, deadline, a, choices, status, b)
    ensures Read(a.buffer, choices).status == status
  {
  }

  lemma ResumedResult(id: nat, deadline: real, a: Glance, choices: seq<Choice>, status: Status, b: Glance)
    requires Resumed(id, deadline, a, choices, status, b) && !status.Going?
    ensures NonBlank(b.popped) == NonBlank(a.popped) + if status.Yielded? then [status.line] else []
    ensures !status.Yielded? ==> !Terminated(b.buffer)
  {
    ReadResult(a.popped, a.buffer, choices);
    hide Read, Pulled, NonBlank, Terminated, Received;
  }

  lemma LeavesCut(a: Scene, deadline: real, status: Status, b: Scene)
    requires Terminated(a.buffer) && b == Scene(a.buffer[Find(a.buffer) + 2..], a.ahead)
    requires status == if Find(a.buffer) == 0 then Going else Yielded(a.buffer[..Find(a.buffer)])
    ensures forall k: nat | k > 0 :: Leaves(a, deadline, status, b, k)
  {
    hide Find, Tick, Turnout;
  }

  lemma LeavesRead(a: Scene, deadline: real, status: Status, b: Scene)
    requires !Terminated(a.buffer)
    requires var c, w := Turnout(Tick(a.ahead), deadline), Turned(Tick(a.ahead), deadline);
      && b == Scene(if c.Chunk? then a.buffer + c.bytes else a.buffer, w)
      && status == if c.Chunk? then Going else if c.Broken? then Raised else Exhausted
    ensures forall k: nat | k > 0 :: Leaves(a, deadline, status, b, k)
  {
    hide Find, Tick, Turnout, Turned;
  }

  /** A turn that cuts off a line. */
  lemma CutTurns(id: nat, deadline: real, a: Glance, b: Glance)
    requires Terminated(a.buffer) && id < |a.conns|
    requires var line := a.buffer[..Find(a.buffer)];
      b == Glance(a.buffer[|line| + 2..], a.popped + [line], a.conns, a.ahead)
    ensures var line := a.buffer[..Find(a.buffer)];
      Resumed(id, deadline, a, [Silent], if line == [] then Going else Yielded(line), b)
  {
    hide Read, Coming, Ending, LeftAfter, Leaves, Arriving;
    var line := a.buffer[..Find(a.buffer)];
    var status := if line == [] then Going else Yielded(line);
    LeavesCut(Scene(a.buffer, a.ahead), deadline, status, Scene(b.buffer, b.ahead));
    ReadOne(a.buffer, Silent);
    ComingCut(a.buffer, a.ahead, deadline);
    ReceivedMore(a.conns, id, [], []);
  }

  /** A turn that reads. */
  lemma ReadTurns(id: nat, deadline: real, a: Glance, b: Glance)
    requires !Terminated(a.buffer) && id < |a.conns|
    requires var c := Turnout(Tick(a.ahead), deadline);
      b == Glance(if c.Chunk? then a.buffer + c.bytes else a.buffer, a.popped,
                  if c.Chunk? then Received(a.conns, id, c.bytes) else a.conns, Turned(Tick(a.ahead), deadline))
    ensures var c := Turnout(Tick(a.ahead), deadline);
      Resumed(id, deadline, a, [c], if c.Chunk? then Going else if c.Broken? then Raised else Exhausted, b)
  {
    hide Read, Coming, Ending, Terminated, Received, LeftAfter, Leaves, Arriving, Turnout, Turned, Tick;
    var c := Turnout(Tick(a.ahead), deadline);
    var status := if c.Chunk? then Going else if c.Broken? then Raised else Exhausted;
    LeavesRead(Scene(a.buffer, a.ahead), deadline, status, Scene(b.buffer, b.ahead));
    ReadOne(a.buffer, c);
    ReceivedMore(a.conns, id, [], []);
    assert a.popped + [] == a.popped;
    if c.Chunk? {
      assert [] + c.bytes == c.bytes;
      ComingReceived(a.buffer, a.ahead, deadline);
    } else {
      NothingComing(a.buffer, a.ahead, deadline);
    }
  }

  /** `LineSocket` */
  class LineSocket {
    const rt: Runtime
    const id: nat
    var buffer: Bytes
    ghost var popped: seq<Bytes>

    /** All that was received is the lines cut off so far and the buffer. */
    ghost predicate Valid()
      reads this, rt
    {
      && id < |rt.conns|
      && rt.conns[id].got == Join(popped) + buffer
      && AllBare(popped)
    }

    constructor (rt: Runtime, id: nat)
      requires id < |rt.conns| && rt.conns[id].got == []
      ensures this.rt == rt && this.id == id && buffer == [] && popped == []
      ensures Valid()
    {
      this.rt, this.id, this.buffer, this.popped := rt, id, [], [];
    }

    /** `send_line` */
    method SendLine(raw: Bytes) returns (ok: bool, ghost n: nat)
      requires Valid() && raw != []
      modifies rt`choices, rt`conns
      ensures Valid()
      ensures rt.Ahead() == Later(old(rt.Ahead())) && n == Taken(Next(old(rt.Ahead())), |raw|)
      ensures ok <==> n == |raw|
      ensures rt.conns == Sent(old(rt.conns), id, raw[..n])
    {
      ok, n := rt.SendAll(id, raw);
    }

    ghost function Sight(): Glance
      reads this, rt
    {
      Glance(buffer, popped, rt.conns, rt.Ahead())
    }

    /** Resume `lines`: the next non-empty line, or why there is none. After a yield the generator is
        where a fresh one with the same deadline starts. */
    method NextLine(deadline: real) returns (status: Status, ghost choices: seq<Choice>)
      requires Valid()
      modifies this`buffer, this`popped, rt`choices, rt`conns, rt`now, rt`ticks
      ensures Valid()
      ensures !status.Going? && Resumed(id, deadline, old(Sight()), choices, status, Sight())
      ensures choices != [] && Read(old(buffer), choices[..|choices| - 1]).status.Going?
      ensures NonBlank(popped) == NonBlank(old(popped)) + if status.Yielded? then [status.line] else []
      ensures !status.Yielded? ==> !Terminated(buffer)
      ensures |rt.choices| < |old(rt.choices)|
           || (|rt.choices| == |old(rt.choices)| && (status.Yielded? ==> |buffer| < |old(buffer)|))
    {
      hide Resumed, Received;
      ghost var start := Sight();
      choices, status := [], Going;
      ResumedNot(id, deadline, start);
      while status.Going?
        invariant Valid() && Resumed(id, deadline, start, choices, status, Sight())
        invariant status.Going? || (choices != [] && Read(start.buffer, choices[..|choices| - 1]).status.Going?)
        invariant |rt.choices| < |start.ahead.choices|
          || (|rt.choices| == |start.ahead.choices| && |buffer| <= |start.buffer|
              && (status.Yielded? ==> |buffer| < |start.buffer|))
        decreases status.Going?, |rt.choices|, |buffer|
      {
        ghost var c, before := Silent, Sight();
        ResumedStatus(id, deadline, start, choices, status, before);
        status, c := Turn(deadline);
        ResumedOn(id, deadline, start, choices, before, c, status, Sight());
        assert (choices + [c])[..|choices|] == choices;
        choices := choices + [c];
      }
      ResumedResult(id, deadline, start, choices, status, Sight());
    }

    /** One turn of the loop. */
    method Turn(deadline: real) returns (status: Status, ghost c: Choice)
      requires Valid()
      modifies this`buffer, this`popped, rt`choices, rt`conns, rt`now, rt`ticks
      ensures Valid()
      ensures Resumed(id, deadline, old(Sight()), [c], status, Sight())
      ensures |rt.choices| < |old(rt.choices)|
        || (|rt.choices| == |old(rt.choices)|
            && (status.Going? || status.Yielded? ==> |buffer| < |old(buffer)|) && |buffer| <= |old(buffer)|)
    {
      hide Resumed, Join, AllBare;
      ghost var before := Sight();
      if Terminated(buffer) {
        var line := PopLine();
        CutTurns(id, deadline, before, Sight());
        return if line == [] then Going else Yielded(line), Silent;
      }
      var now := rt.Monotonic();
      if deadline - now <= 0.0 {
        ReadTurns(id, deadline, before, Sight());
        return Exhausted, Silent;
      }
      var got := Receive();
      ReadTurns(id, deadline, before, Sight());
      return if got.Chunk? then Going else if got.Broken? then Raised else Exhausted, got;
    }

    /** `self._buffer.partition(TERMINATOR)` */
    method PopLine() returns (line: Bytes)
      requires Valid() && Terminated(buffer)
      modifies this`buffer, this`popped
      ensures Valid()
      ensures line == old(buffer)[..Find(old(buffer))] && buffer == old(buffer)[|line| + 2..]
      ensures popped == old(popped) + [line]
    {
      CutLine(popped, buffer);
      line := buffer[..Find(buffer)];
      buffer, popped := buffer[|line| + 2..], popped + [line];
    }

    /** A `recv`, which happens only when the buffer holds no complete line. */
    method Receive() returns (c: Choice)
      requires Valid() && !Terminated(buffer)
      modifies this`buffer, rt`choices, rt`conns
      ensures Valid()
      ensures c == Incoming(Next(old(rt.Ahead()))) && rt.Ahead() == Later(old(rt.Ahead()))
      ensures buffer == if c.Chunk? then old(buffer) + c.bytes else old(buffer)
      ensures rt.conns == if c.Chunk? then Received(old(rt.conns), id, c.bytes) else old(rt.conns)
    {
      c := rt.Recv(id);
      if c.Chunk? {
        buffer := buffer + c.bytes;
      }
    }

    /** `peer_has_closed`: never once something is buffered, otherwise what a peek shows. */
    method PeerHasClosed() returns (closed: bool)
      requires Valid()
      modifies rt`choices
      ensures closed <==> buffer == [] && !Next(old(rt.Ahead())).Good?
      ensures rt.Ahead() == if buffer == [] then Later(old(rt.Ahead())) else old(rt.Ahead())
    {
      if buffer != [] {
        return false;
      }
      var alive := rt.PeerAlive();
      closed := !alive;
    }

    method Close()
      requires Valid()
      modifies rt`conns
      ensures Valid()
      ensures rt.conns == Closed(old(rt.conns), id)
    {
      rt.Close(id);
    }
  }
}
