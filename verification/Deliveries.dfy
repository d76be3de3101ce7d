/** What the peers have heard: the complete lines on every connection, as a receiver splitting at CRLF sees them. */
module Deliveries {
  import opened Prelude
  import opened Framing
  import opened Environment

  datatype Delivery = Delivery(host: Address, line: Bytes)

  function Count<T(==)>(s: seq<T>, x: T): nat {
    if s == [] then 0 else (if s[0] == x then 1 else 0) + Count(s[1..], x)
  }

  /** How often one connection delivered `d`. */
  function HeardOn(c: Conn, d: Delivery): nat {
    if c.host == d.host then Count(Lines(c.sent), d.line) else 0
  }

  /** How often the peer at `d.host` heard the complete line `d.line`, over all connections ever opened. */
  function Heard(conns: seq<Conn>, d: Delivery): nat {
    if conns == [] then 0 else HeardOn(conns[0], d) + Heard(conns[1..], d)
  }

  /** From `a` to `b` the peers heard exactly `said`, each as often as it is listed. */
  ghost predicate Adds(a: seq<Conn>, b: seq<Conn>, said: seq<Delivery>) {
    forall d: Delivery :: Heard(b, d) == Heard(a, d) + Count(said, d)
  }

  lemma {:induction false} CountConcat<T>(a: seq<T>, b: seq<T>, x: T)
    ensures Count(a + b, x) == Count(a, x) + Count(b, x)
  {
    if a == [] {
      assert a + b == b;
    } else {
      CountConcat(a[1..], b, x);
      assert (a + b)[0] == a[0] && (a + b)[1..] == a[1..] + b;
    }
  }

  lemma {:induction false} CountMember<T>(s: seq<T>, x: T)
    ensures Count(s, x) > 0 <==> x in s
  {
    if s != [] {
      CountMember(s[1..], x);
    }
  }

  lemma CountOne<T>(x: T, y: T)
    ensures Count([x], y) == if x == y then 1 else 0
  {
    assert [x][1..] == [];
  }

  lemma AddsTrans(a: seq<Conn>, b: seq<Conn>, c: seq<Conn>, said: seq<Delivery>, more: seq<Delivery>)
    requires Adds(a, b, said) && Adds(b, c, more)
    ensures Adds(a, c, said + more)
  {
    forall d: Delivery ensures Heard(c, d) == Heard(a, d) + Count(said + more, d) {
      CountConcat(said, more, d);
    }
  }

  /** Connections compared only by what was said on them. */
  ghost predicate SameSpeech(a: seq<Conn>, b: seq<Conn>) {
    |a| == |b| && forall i | 0 <= i < |a| :: a[i].host == b[i].host && a[i].sent == b[i].sent
  }

  lemma {:induction false} HeardSame(a: seq<Conn>, b: seq<Conn>, d: Delivery)
    requires SameSpeech(a, b)
    ensures Heard(a, d) == Heard(b, d)
  {
    if a != [] {
      HeardSame(a[1..], b[1..], d);
    }
  }

  lemma AddsNothing(a: seq<Conn>, b: seq<Conn>)
    requires SameSpeech(a, b)
    ensures Adds(a, b, [])
  {
    forall d: Delivery ensures Heard(b, d) == Heard(a, d) { HeardSame(a, b, d); }
  }

  lemma {:induction false} HeardUpdate(conns: seq<Conn>, id: nat, c: Conn, d: Delivery)
    requires id < |conns|
    ensures Heard(conns[id := c], d) == Heard(conns, d) - HeardOn(conns[id], d) + HeardOn(c, d)
  {
    var after := conns[id := c];
    if id == 0 {
      assert after[1..] == conns[1..];
    } else {
      HeardUpdate(conns[1..], id - 1, c, d);
      assert after[0] == conns[0] && after[1..] == conns[1..][id - 1 := c];
    }
  }

  /** Bytes without effect on complete lines: nothing new is heard. */
  lemma AddsFragment(conns: seq<Conn>, id: nat, bytes: Bytes)
    requires id < |conns| && !Terminated(Rest(conns[id].sent) + bytes)
    ensures Adds(conns, Sent(conns, id, bytes), [])
    ensures Rest(Sent(conns, id, bytes)[id].sent) == Rest(conns[id].sent) + bytes
  {
    SplitAppend(conns[id].sent, bytes);
    assert Lines(conns[id].sent + bytes) == Lines(conns[id].sent);
    forall d: Delivery ensures Heard(Sent(conns, id, bytes), d) == Heard(conns, d) + Count([], d) {
      HeardUpdate(conns, id, Sent(conns, id, bytes)[id], d);
    }
  }

  /** Bytes that complete one line: the peer hears that line, once. */
  lemma AddsLine(conns: seq<Conn>, id: nat, bytes: Bytes, line: Bytes)
    requires id < |conns| && !Terminated(line) && Rest(conns[id].sent) + bytes == line + TERMINATOR
    ensures Adds(conns, Sent(conns, id, bytes), [Delivery(conns[id].host, line)])
    ensures Rest(Sent(conns, id, bytes)[id].sent) == []
    ensures Lines(Sent(conns, id, bytes)[id].sent) == Lines(conns[id].sent) + [line]
  {
    SplitAppend(conns[id].sent, bytes);
    SplitLine(line, []);
    assert line + TERMINATOR + [] == line + TERMINATOR;
    assert Lines(conns[id].sent + bytes) == Lines(conns[id].sent) + [line];
    forall d: Delivery
      ensures Heard(Sent(conns, id, bytes), d) == Heard(conns, d) + Count([Delivery(conns[id].host, line)], d)
    {
      HeardUpdate(conns, id, Sent(conns, id, bytes)[id], d);
      CountConcat(Lines(conns[id].sent), [line], d.line);
      CountOne(line, d.line);
      CountOne(Delivery(conns[id].host, line), d);
    }
  }

  lemma {:induction false} HeardOpened(conns: seq<Conn>, c: Conn, d: Delivery)
    requires c.sent == []
    ensures Heard(conns + [c], d) == Heard(conns, d)
  {
    var after := conns + [c];
    if conns == [] {
      assert after[1..] == [];
    } else {
      HeardOpened(conns[1..], c, d);
      assert after[0] == conns[0] && after[1..] == conns[1..] + [c];
    }
  }

  lemma AddsOpened(conns: seq<Conn>, c: Conn)
    requires c.sent == []
    ensures Adds(conns, conns + [c], [])
  {
    forall d: Delivery ensures Heard(conns + [c], d) == Heard(conns, d) { HeardOpened(conns, c, d); }
  }

  /** A line has been heard exactly if it is among the complete lines of some connection to that host. */
  lemma {:induction false} HeardMember(conns: seq<Conn>, d: Delivery)
    ensures Heard(conns, d) > 0 <==>
      exists i | 0 <= i < |conns| :: conns[i].host == d.host && d.line in Lines(conns[i].sent)
  {
    if conns != [] {
      HeardMember(conns[1..], d);
      CountMember(Lines(conns[0].sent), d.line);
      if Heard(conns[1..], d) > 0 {
        var i :| 0 <= i < |conns[1..]| && conns[1..][i].host == d.host && d.line in Lines(conns[1..][i].sent);
        assert conns[i + 1].host == d.host && d.line in Lines(conns[i + 1].sent);
      }
      if exists i | 0 < i < |conns| :: conns[i].host == d.host && d.line in Lines(conns[i].sent) {
        var i :| 0 < i < |conns| && conns[i].host == d.host && d.line in Lines(conns[i].sent);
        assert conns[1..][i - 1].host == d.host && d.line in Lines(conns[1..][i - 1].sent);
      }
    }
  }
}
