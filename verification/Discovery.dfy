/** UDP discovery: a stream of deduplicated replies, drained or left early (api/discovery.py). */
module Discovery {
  import opened Prelude
  import opened Decimal
  import opened JsonText
  import opened Protocol
  import opened Environment

  /** `DiscoveredDevice` */
  datatype Device = Device(id: string, ip: string, mac: Option<Json>, productId: Option<Json>,
                           softwareVersion: Option<Json>, hardwareVersion: Option<Json>)

  /** Python truth of a value that may be absent. */
  predicate Truthy(v: Option<Json>) {
    v.Some? &&
    match v.value
    case Null => false
    case Bool(b) => b
    case Number(n) => n != 0
    case Text(s) => s != ""
    case Array(items) => items != []
    case Object(fields) => fields != []
  }

  /** `v or None` */
  function OrNone(v: Option<Json>): Option<Json> {
    if Truthy(v) then v else None
  }

  /** `str(v)`, for the values that do not nest. */
  function PyStr(v: Json): string {
    match v
    case Null => "None"
    case Bool(b) => if b then "True" else "False"
    case Number(n) => IntText(n)
    case Text(s) => s
    case _ => Print(v)
  }

  /** `_parse` */
  function ParseReply(packet: Datagram): Option<Device> {
    var frame :- Decode(packet.data);
    var msg :- Get(frame, "msg");
    if !msg.Object? then None
    else
      var message := msg.fields;
      var did, ip := Get(message, "did"), Get(message, "ip");
      if !Truthy(did) then None
      else Some(Device(PyStr(did.value),
                       if Truthy(ip) then PyStr(ip.value) else packet.sender,
                       OrNone(Get(message, "mac")), OrNone(Get(message, "pid")),
                       OrNone(Get(message, "sv")), OrNone(Get(message, "hv"))))
  }

  // ---------- the same in the words of the protocol ----------

  /** Absent, or a value that Python takes for false. */
  ghost predicate Falsy(v: Option<Json>) {
    v in {None, Some(Null), Some(Bool(false)), Some(Number(0)), Some(Text("")), Some(Array([])), Some(Object([]))}
  }

  /** `s == str(v)`, for the values that devices send. */
  ghost predicate ReadsAs(v: Option<Json>, s: string) {
    v.Some? &&
    match v.value
    case Text(t) => s == t
    case Number(n) => s == IntText(n)
    case Bool(b) => s == if b then "True" else "False"
    case _ => true
  }

  /** A reply that holds this `msg`. */
  ghost predicate Carries(packet: Datagram, message: Dict<string, Json>) {
    Decode(packet.data).Some? && Get(Decode(packet.data).value, "msg") == Some(Object(message))
  }

  lemma TruthySays(v: Option<Json>)
    ensures Truthy(v) <==> !Falsy(v)
  {
  }

  /** A packet names a device exactly if it is a frame whose `msg` has a `did`. Its id is that; its address is the `ip`
      there, or where the packet came from if there is none; what else it tells is kept as it is. */
  lemma ReplySays(packet: Datagram)
    ensures var d := ParseReply(packet);
      && (d.Some? <==> exists m: Dict<string, Json> :: Carries(packet, m) && !Falsy(Get(m, "did")))
      && forall m: Dict<string, Json> | d.Some? && Carries(packet, m) ::
           && ReadsAs(Get(m, "did"), d.value.id)
           && (if Falsy(Get(m, "ip")) then d.value.ip == packet.sender else ReadsAs(Get(m, "ip"), d.value.ip))
           && d.value.mac == (if Falsy(Get(m, "mac")) then None else Get(m, "mac"))
           && d.value.productId == (if Falsy(Get(m, "pid")) then None else Get(m, "pid"))
           && d.value.softwareVersion == (if Falsy(Get(m, "sv")) then None else Get(m, "sv"))
           && d.value.hardwareVersion == (if Falsy(Get(m, "hv")) then None else Get(m, "hv"))
  {
    var frame := Decode(packet.data);
    if frame.Some? && Get(frame.value, "msg").Some? && Get(frame.value, "msg").value.Object? {
      var m := Get(frame.value, "msg").value.fields;
      assert Carries(packet, m);
      TruthySays(Get(m, "did"));
      TruthySays(Get(m, "ip"));
      TruthySays(Get(m, "mac"));
      TruthySays(Get(m, "pid"));
      TruthySays(Get(m, "sv"));
      TruthySays(Get(m, "hv"));
    }
    hide Decode, Get, Truthy, Falsy;
  }

  /** What `_listen` yields from here on. */
  function Listed(packets: seq<Datagram>, seen: set<string>): seq<Device> {
    if packets == [] then []
    else
      var d := ParseReply(packets[0]);
      if d.Some? && d.value.id !in seen
      then [d.value] + Listed(packets[1..], seen + {d.value.id})
      else Listed(packets[1..], seen)
  }

  /** The first of these devices with this id, as an address. */
  function Lookup(devices: seq<Device>, id: string): Option<string> {
    if devices == [] then None
    else if devices[0].id == id then Some(devices[0].ip)
    else Lookup(devices[1..], id)
  }

  /** `_listen` */
  class Listener {
    var packets: seq<Datagram>
    var seen: set<string>

    constructor (packets: seq<Datagram>)
      ensures this.packets == packets && seen == {}
    {
      this.packets, seen := packets, {};
    }

    /** Resume the generator. */
    method Next() returns (d: Option<Device>)
      modifies this
      ensures d.Some? ==> Listed(old(packets), old(seen)) == [d.value] + Listed(packets, seen)
      ensures d.None? ==> Listed(old(packets), old(seen)) == [] && packets == []
      ensures d.Some? ==> |packets| < |old(packets)|
    {
      while packets != []
        invariant |packets| <= |old(packets)|
        invariant Listed(packets, seen) == Listed(old(packets), old(seen))
        decreases |packets|
      {
        d := ParseReply(packets[0]);
        packets := packets[1..];
        if d.Some? && d.value.id !in seen {
          seen := seen + {d.value.id};
          return;
        }
      }
      d := None;
    }
  }

  /** The sequence counter and the outside world after a broadcast: the probe carries a number, if there is a
      socket for it. */
  function Probed(last: int, w: Outside): int {
    if Refused(w) then last else NextSn(last, Clock(Swept(w)))
  }

  function AfterProbe(w: Outside): Outside {
    if Refused(w) then Swept(w) else Dated(Swept(w))
  }

  /** A probe sent out; its replies, or `None` if there is no socket to be had. */
  method Listen(rt: Runtime) returns (replies: Option<Listener>, ghost packets: seq<Datagram>)
    modifies rt`wall, rt`lastSn, rt`replies
    ensures replies.Some? ==> fresh(replies.value) && replies.value.packets == packets && replies.value.seen == {}
    ensures packets == Arrived(old(rt.Ahead())) && (replies.None? <==> Refused(old(rt.Ahead())))
    ensures rt.lastSn == Probed(old(rt.lastSn), old(rt.Ahead())) && rt.Ahead() == AfterProbe(old(rt.Ahead()))
  {
    var arriving := rt.Broadcast();
    if arriving.None? {
      return None, [];
    }
    var _ := rt.NewSn();
    var l := new Listener(arriving.value);
    return Some(l), arriving.value;
  }

  /** `discover`: drains the whole window. */
  method Discover(rt: Runtime) returns (devices: Option<seq<Device>>, ghost packets: seq<Datagram>)
    modifies rt`wall, rt`lastSn, rt`replies
    ensures packets == Arrived(old(rt.Ahead())) && (devices.None? <==> Refused(old(rt.Ahead())))
    ensures devices.Some? ==> devices.value == Listed(packets, {})
  {
    hide ParseReply;
    var l;
    l, packets := Listen(rt);
    if l.None? {
      return None, packets;
    }
    var listener, found := l.value, [];
    while true
      invariant found + Listed(listener.packets, listener.seen) == Listed(packets, {})
      decreases |listener.packets|
    {
      var d := listener.Next();
      if d.None? {
        return Some(found), packets;
      }
      found := found + [d.value];
    }
  }

  /** An address, silence, or an `OSError`. */
  datatype Found = At(ip: string) | Nowhere | NoSocket

  /** `find_device_ip`: leaves at the first match, and agrees with the full enumeration. */
  method FindDeviceIp(rt: Runtime, id: string) returns (found: Found, ghost packets: seq<Datagram>)
    modifies rt`wall, rt`lastSn, rt`replies
    ensures packets == Arrived(old(rt.Ahead())) && (found.NoSocket? <==> Refused(old(rt.Ahead())))
    ensures rt.lastSn == Probed(old(rt.lastSn), old(rt.Ahead())) && rt.Ahead() == AfterProbe(old(rt.Ahead()))
    ensures (if found.At? then Some(found.ip) else None) == Lookup(Listed(packets, {}), id)
  {
    hide ParseReply;
    var l;
    l, packets := Listen(rt);
    if l.None? {
      return NoSocket, packets;
    }
    var listener := l.value;
    while true
      invariant rt.lastSn == Probed(old(rt.lastSn), old(rt.Ahead())) && rt.Ahead() == AfterProbe(old(rt.Ahead()))
      invariant Lookup(Listed(listener.packets, listener.seen), id) == Lookup(Listed(packets, {}), id)
      decreases |listener.packets|
    {
      var d := listener.Next();
      if d.None? {
        return Nowhere, packets;
      }
      if d.value.id == id {
        return At(d.value.ip), packets;
      }
    }
  }

  // ---------- what the enumeration is ----------

  /** Packet `i` is the first usable reply of its device. */
  ghost predicate FirstReply(packets: seq<Datagram>, i: nat)
    requires i < |packets|
  {
    && ParseReply(packets[i]).Some?
    && forall j | 0 <= j < i ::
      ParseReply(packets[j]).Some? ==> ParseReply(packets[j]).value.id != ParseReply(packets[i]).value.id
  }

  /** The devices of the first `n` packets, each as its first usable reply describes it, in that order. */
  ghost function FirstReplies(packets: seq<Datagram>, n: nat): seq<Device>
    requires n <= |packets|
  {
    if n == 0 then []
    else FirstReplies(packets, n - 1) + if FirstReply(packets, n - 1) then [ParseReply(packets[n - 1]).value] else []
  }

  /** Exactly the ids of the usable ones among the first `n` packets. */
  ghost predicate SeenBy(packets: seq<Datagram>, n: nat, seen: set<string>)
    requires n <= |packets|
  {
    forall id :: id in seen <==>
      exists j | 0 <= j < n :: ParseReply(packets[j]).Some? && ParseReply(packets[j]).value.id == id
  }

  lemma SeenStep(packets: seq<Datagram>, n: nat, seen: set<string>)
    requires n < |packets| && SeenBy(packets, n, seen)
    ensures var d := ParseReply(packets[n]);
      && (FirstReply(packets, n) <==> d.Some? && d.value.id !in seen)
      && SeenBy(packets, n + 1, if d.Some? then seen + {d.value.id} else seen)
  {
    hide ParseReply;
    var d := ParseReply(packets[n]);
    var seen' := if d.Some? then seen + {d.value.id} else seen;
    forall id ensures id in seen' <==>
      exists j | 0 <= j < n + 1 :: ParseReply(packets[j]).Some? && ParseReply(packets[j]).value.id == id
    {
      if d.Some? && d.value.id == id { assert ParseReply(packets[n]).value.id == id; }
    }
  }

  lemma {:induction false} ListedFrom(packets: seq<Datagram>, n: nat, seen: set<string>)
    requires n <= |packets| && SeenBy(packets, n, seen)
    ensures FirstReplies(packets, n) + Listed(packets[n..], seen) == FirstReplies(packets, |packets|)
    decreases |packets| - n
  {
    hide ParseReply;
    if n < |packets| {
      var d := ParseReply(packets[n]);
      SeenStep(packets, n, seen);
      assert packets[n..][0] == packets[n] && packets[n..][1..] == packets[n + 1..];
      if d.Some? && d.value.id in seen { assert seen + {d.value.id} == seen; }
      ListedFrom(packets, n + 1, if d.Some? then seen + {d.value.id} else seen);
    }
  }

  /** The enumeration is the list of first usable replies, in the order they arrived. */
  lemma ListsFirstReplies(packets: seq<Datagram>)
    ensures Listed(packets, {}) == FirstReplies(packets, |packets|)
  {
    hide ParseReply, Listed;
    assert SeenBy(packets, 0, {});
    ListedFrom(packets, 0, {});
    assert packets[0..] == packets;
  }

  /** These devices are none of `seen`, and all different. */
  ghost predicate AllNew(devices: seq<Device>, seen: set<string>) {
    && (forall i | 0 <= i < |devices| :: devices[i].id !in seen)
    && (forall i, j | 0 <= i < j < |devices| :: devices[i].id != devices[j].id)
  }

  lemma {:induction false} ListedAreNew(packets: seq<Datagram>, seen: set<string>)
    ensures AllNew(Listed(packets, seen), seen)
  {
    hide ParseReply;
    if packets != [] {
      var d := ParseReply(packets[0]);
      if d.Some? && d.value.id !in seen {
        ListedAreNew(packets[1..], seen + {d.value.id});
        AllNewMore(d.value, Listed(packets[1..], seen + {d.value.id}), seen);
      } else {
        ListedAreNew(packets[1..], seen);
      }
    }
  }

  lemma AllNewMore(d: Device, rest: seq<Device>, seen: set<string>)
    requires d.id !in seen && AllNew(rest, seen + {d.id})
    ensures AllNew([d] + rest, seen)
  {
    forall i | 0 <= i < |rest| ensures rest[i].id !in seen && rest[i].id != d.id {
      assert rest[i].id !in seen + {d.id};
    }
  }

  /** No device is listed twice. */
  lemma ListedOnce(packets: seq<Datagram>)
    ensures forall i, j | 0 <= i < j < |Listed(packets, {})| :: Listed(packets, {})[i].id != Listed(packets, {})[j].id
  {
    ListedAreNew(packets, {});
  }

  /** A packet that is no usable reply changes nothing, wherever it arrives. */
  lemma {:induction false} MalformedIgnored(before: seq<Datagram>, junk: Datagram, after: seq<Datagram>,
                                            seen: set<string>)
    requires ParseReply(junk).None?
    ensures Listed(before + [junk] + after, seen) == Listed(before + after, seen)
  {
    hide ParseReply;
    if before == [] {
      assert (before + [junk] + after)[1..] == before + after;
    } else {
      var d := ParseReply(before[0]);
      assert (before + [junk] + after)[0] == before[0] == (before + after)[0];
      assert (before + [junk] + after)[1..] == before[1..] + [junk] + after;
      assert (before + after)[1..] == before[1..] + after;
      MalformedIgnored(before[1..], junk, after, seen);
      if d.Some? { MalformedIgnored(before[1..], junk, after, seen + {d.value.id}); }
    }
  }

  /** The address in the first usable reply with this id. */
  function FirstAddress(packets: seq<Datagram>, id: string): Option<string> {
    if packets == [] then None
    else
      var d := ParseReply(packets[0]);
      if d.Some? && d.value.id == id then Some(d.value.ip) else FirstAddress(packets[1..], id)
  }

  /** Packet `i` is the first usable reply of this device. */
  ghost predicate AnswersFirst(packets: seq<Datagram>, id: string, i: nat) {
    && i < |packets| && ParseReply(packets[i]).Some? && ParseReply(packets[i]).value.id == id
    && forall j | 0 <= j < i :: ParseReply(packets[j]).Some? ==> ParseReply(packets[j]).value.id != id
  }

  lemma {:induction false} FirstAddressSays(packets: seq<Datagram>, id: string)
    ensures forall i: nat | AnswersFirst(packets, id, i) ::
      FirstAddress(packets, id) == Some(ParseReply(packets[i]).value.ip)
    ensures (forall i: nat :: !AnswersFirst(packets, id, i)) ==> FirstAddress(packets, id).None?
  {
    hide ParseReply;
    if packets != [] {
      FirstAddressSays(packets[1..], id);
      var d := ParseReply(packets[0]);
      if d.Some? && d.value.id == id {
        assert AnswersFirst(packets, id, 0);
      } else {
        forall i: nat ensures AnswersFirst(packets, id, i + 1) <==> AnswersFirst(packets[1..], id, i) {
          assert forall j | 0 <= j < |packets| - 1 :: packets[1..][j] == packets[j + 1];
          if AnswersFirst(packets[1..], id, i) {
            forall j | 0 <= j < i + 1 ensures ParseReply(packets[j]).Some? ==> ParseReply(packets[j]).value.id != id {
              if j > 0 { assert packets[1..][j - 1] == packets[j]; }
            }
          }
        }
        forall i: nat | AnswersFirst(packets, id, i)
          ensures FirstAddress(packets, id) == Some(ParseReply(packets[i]).value.ip)
        {
          assert i > 0;
          assert AnswersFirst(packets[1..], id, i - 1);
        }
      }
    }
  }

  /** Looking a device up finds the address it first answered with. */
  lemma {:induction false} LookupIsFirstAddress(packets: seq<Datagram>, seen: set<string>, id: string)
    requires id !in seen
    ensures Lookup(Listed(packets, seen), id) == FirstAddress(packets, id)
  {
    hide ParseReply;
    if packets != [] {
      var d := ParseReply(packets[0]);
      if d.Some? && d.value.id !in seen {
        if d.value.id != id {
          LookupIsFirstAddress(packets[1..], seen + {d.value.id}, id);
        }
      } else {
        LookupIsFirstAddress(packets[1..], seen, id);
      }
    }
  }
}
