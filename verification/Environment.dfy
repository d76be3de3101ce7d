/** Everything outside the transports: the connections a process has opened, what the peers
    do with them, the clocks, and the module-wide sequence counter. Whatever the outside world
    may decide is read from fields of arbitrary content. */
module Environment {
  import opened Prelude
  import opened Framing
  import opened Decimal
  import opened Protocol

  type Address = string

  /** A TCP connection: bytes handed to the network, bytes received, and whether it is open on our side. */
  datatype Conn = Conn(host: Address, sent: Bytes, got: Bytes, open: bool)

  /** What the outside world decides at one interaction: the operation works, a write gets so many
      bytes out, a read delivers a chunk, a read raises `OSError`, or nothing happens: a refused
      connection, a failed write, a timeout, a passed deadline, an end of stream. */
  datatype Choice = Good | Wrote(n: nat) | Chunk(bytes: Bytes) | Broken | Silent

  /** The connections after `bytes` went out on, came in on, or closing of, connection `id`. */
  function Sent(conns: seq<Conn>, id: nat, bytes: Bytes): (r: seq<Conn>)
    requires id < |conns|
    ensures |r| == |conns|
  {
    conns[id := conns[id].(sent := conns[id].sent + bytes)]
  }

  function Received(conns: seq<Conn>, id: nat, bytes: Bytes): (r: seq<Conn>)
    requires id < |conns|
    ensures |r| == |conns|
  {
    conns[id := conns[id].(got := conns[id].got + bytes)]
  }

  function Closed(conns: seq<Conn>, id: nat): (r: seq<Conn>)
    requires id < |conns|
    ensures |r| == |conns|
  {
    conns[id := conns[id].(open := false)]
  }

  lemma ReceivedMore(conns: seq<Conn>, id: nat, a: Bytes, b: Bytes)
    requires id < |conns|
    ensures Received(Received(conns, id, a), id, b) == Received(conns, id, a + b)
    ensures Received(conns, id, []) == conns
  {
    assert conns[id].got + a + b == conns[id].got + (a + b);
    assert conns[id].got + [] == conns[id].got;
  }

  lemma SentMore(conns: seq<Conn>, id: nat, a: Bytes, b: Bytes)
    requires id < |conns|
    ensures Sent(Sent(conns, id, a), id, b) == Sent(conns, id, a + b)
    ensures Sent(conns, id, []) == conns
  {
    assert conns[id].sent + a + b == conns[id].sent + (a + b);
    assert conns[id].sent + [] == conns[id].sent;
  }

  /** A discovery reply and the address it came from. */
  datatype Datagram = Datagram(data: Bytes, sender: Address)

  type Duration = r: real | 0.0 <= r

  /** Everything the outside world will decide from here on, and the clock. */
  datatype Outside = Outside(choices: seq<Choice>, now: real, ticks: seq<Duration>, wall: seq<int>,
                             replies: seq<Option<seq<Datagram>>>)

  /** What it decides next, and after that; silence once everything is said. */
  function Next(w: Outside): Choice {
    if w.choices == [] then Silent else w.choices[0]
  }

  function Later(w: Outside): (r: Outside)
    ensures r.now == w.now
    ensures w.choices != [] ==> |r.choices| < |w.choices|
  {
    if w.choices == [] then w else w.(choices := w.choices[1..])
  }

  /** After reading the monotonic clock, which then shows `Tick(w).now`. */
  function Tick(w: Outside): (r: Outside)
    ensures w.now <= r.now && r.choices == w.choices
  {
    if w.ticks == [] then w else w.(now := w.now + w.ticks[0], ticks := w.ticks[1..])
  }

  /** What the wall clock shows next, and after that reading. */
  function Clock(w: Outside): int {
    if w.wall == [] then 0 else w.wall[0]
  }

  function Dated(w: Outside): (r: Outside)
    ensures r.now == w.now && r.choices == w.choices
  {
    if w.wall == [] then w else w.(wall := w.wall[1..])
  }

  /** A write of this many bytes gets out whole. */
  predicate Lets(w: Outside, size: nat) {
    w.choices != [] && w.choices[0].Wrote? && w.choices[0].n >= size
  }

  /** A connection attempt succeeds, or a peek shows the peer there. */
  predicate Welcomes(w: Outside) {
    w.choices != [] && w.choices[0].Good?
  }

  /** How much of a write gets out. */
  function Taken(c: Choice, size: nat): (n: nat)
    ensures n <= size
  {
    if !c.Wrote? then 0 else if c.n < size then c.n else size
  }

  /** What a read comes to. */
  function Incoming(c: Choice): (r: Choice)
    ensures (r.Chunk? && r.bytes != []) || r.Broken? || r.Silent?
  {
    if c.Broken? || (c.Chunk? && c.bytes != []) then c else Silent
  }

  /** The next broadcast raises `OSError`. */
  predicate Refused(w: Outside) {
    w.replies != [] && w.replies[0].None?
  }

  /** The datagrams that the next broadcast brings in; none if it raises. */
  function Arrived(w: Outside): seq<Datagram> {
    if w.replies == [] || w.replies[0].None? then [] else w.replies[0].value
  }

  function Swept(w: Outside): (r: Outside)
    ensures r.now == w.now && r.choices == w.choices
  {
    if w.replies == [] then w else w.(replies := w.replies[1..])
  }

  class Runtime {
    var conns: seq<Conn>
    var choices: seq<Choice>
    var now: real
    var ticks: seq<Duration>
    var wall: seq<int>
    var lastSn: int
    var replies: seq<Option<seq<Datagram>>>

    constructor (choices: seq<Choice>, now: real, ticks: seq<Duration>, wall: seq<int>,
                 replies: seq<Option<seq<Datagram>>>)
      ensures this.conns == [] && this.lastSn == 0 && this.now == now && this.choices == choices
    {
      this.conns, this.choices, this.now, this.ticks := [], choices, now, ticks;
      this.wall, this.lastSn, this.replies := wall, 0, replies;
    }

    /** Everything to come. */
    ghost function Ahead(): Outside
      reads this
    {
      Outside(choices, now, ticks, wall, replies)
    }

    method Draw() returns (c: Choice)
      modifies this`choices
      ensures c == Next(old(Ahead())) && Ahead() == Later(old(Ahead()))
    {
      if choices == [] {
        c := Silent;
      } else {
        c, choices := choices[0], choices[1..];
      }
    }

    /** `socket.create_connection` */
    method Connect(host: Address) returns (id: Option<nat>)
      modifies this`choices, this`conns
      ensures Ahead() == Later(old(Ahead())) && (id.Some? <==> Next(old(Ahead())).Good?)
      ensures id.None? ==> conns == old(conns)
      ensures id.Some? ==> id.value == |old(conns)| && conns == old(conns) + [Conn(host, [], [], true)]
    {
      var c := Draw();
      if c.Good? {
        id := Some(|conns|);
        conns := conns + [Conn(host, [], [], true)];
      } else {
        id := None;
      }
    }

    /** `sendall`: all of it, or an error after some strict prefix. */
    method SendAll(id: nat, packet: Bytes) returns (ok: bool, n: nat)
      requires id < |conns| && packet != []
      modifies this`choices, this`conns
      ensures Ahead() == Later(old(Ahead())) && n == Taken(Next(old(Ahead())), |packet|)
      ensures ok <==> n == |packet|
      ensures conns == Sent(old(conns), id, packet[..n])
    {
      var c := Draw();
      n := Taken(c, |packet|);
      ok := n == |packet|;
      conns := Sent(conns, id, packet[..n]);
    }

    /** `recv`: a non-empty chunk, `Broken` for `OSError`, `Silent` when no more comes. */
    method Recv(id: nat) returns (c: Choice)
      requires id < |conns|
      modifies this`choices, this`conns
      ensures c == Incoming(Next(old(Ahead()))) && Ahead() == Later(old(Ahead()))
      ensures conns == if c.Chunk? then Received(old(conns), id, c.bytes) else old(conns)
    {
      c := Draw();
      c := Incoming(c);
      if c.Chunk? {
        conns := Received(conns, id, c.bytes);
      }
    }

    /** A non-blocking peek: whether the peer still holds its end. */
    method PeerAlive() returns (alive: bool)
      modifies this`choices
      ensures alive == Next(old(Ahead())).Good? && Ahead() == Later(old(Ahead()))
    {
      var c := Draw();
      alive := c.Good?;
    }

    method Close(id: nat)
      requires id < |conns|
      modifies this`conns
      ensures conns == Closed(old(conns), id)
    {
      conns := Closed(conns, id);
    }

    /** `time.monotonic()` */
    method Monotonic() returns (t: real)
      modifies this`now, this`ticks
      ensures t == now && Ahead() == Tick(old(Ahead()))
    {
      if ticks != [] {
        now, ticks := now + ticks[0], ticks[1..];
      }
      t := now;
    }

    /** `protocol.new_sn()`, the wall clock going wherever it likes. */
    method NewSn() returns (sn: string)
      modifies this`wall, this`lastSn
      ensures lastSn == NextSn(old(lastSn), Clock(old(Ahead()))) && Ahead() == Dated(old(Ahead()))
      ensures sn == IntText(lastSn)
    {
      var candidate := 0;
      if wall != [] {
        candidate, wall := wall[0], wall[1..];
      }
      if candidate <= lastSn {
        candidate := lastSn + 1;
      }
      lastSn := candidate;
      sn := IntText(candidate);
    }

    /** The datagrams one broadcast brings in, or `None` for an `OSError`. */
    method Broadcast() returns (r: Option<seq<Datagram>>)
      modifies this`replies
      ensures (if r.Some? then r.value else []) == Arrived(old(Ahead())) && (r.None? <==> Refused(old(Ahead())))
      ensures Ahead() == Swept(old(Ahead()))
    {
      if replies == [] {
        r := Some([]);
      } else {
        r, replies := replies[0], replies[1..];
      }
    }
  }
}
