/** One manager with both ends of a connection reads from its packet fifo what it has sent itself, among what others
    write there: that the ends are given each other's segments only is then no assumption. */
module ClosedLoop {
  import opened Common
  import opened Packets
  import opened SocketModel
  import opened Protocol
  import opened Invariant
  import opened Safety
  import opened IpWire
  import opened Framing
  import opened SocketTable
  import opened NetworkManager
  import opened ManagerModel
  import opened Delivery
  import opened Coupling
  import opened Transport
  import opened Surroundings

  // ---------------------------------------------------------------- the relation

  /** A segment with the ports of the connection, in the direction of a side's own. */
  predicate Between(sys: Sys, side: Side, p: Packet) {
    p.srcPort == sys.IdOf(side).srcPort && p.dstPort == sys.IdOf(side).dstPort
  }

  predicate Elsewhere(sys: Sys, p: Packet) {
    !Between(sys, Client, p) && !Between(sys, Server, p)
  }

  /** With the ports of an end, it is a segment that end has sent. */
  predicate Genuine(sys: Sys, p: Packet) {
    (Between(sys, Client, p) ==> p in sys.toServer) && (Between(sys, Server, p) ==> p in sys.toClient)
  }

  /** An own frame with the connection's ports is a segment of one of the ends; the numbers of other sockets' segments
      fit their columns. Others' frames bear their writer's ip. */
  predicate FrameOk(sys: Sys, f: Frame, ip: string) {
    match f
    case Own(p) => Genuine(sys, p) && (Elsewhere(sys, p) ==> Sendable(p))
    case Foreign(packet) => packet.srcIp != ip && WellFormed(packet)
  }

  /** The two ends stay within the arithmetic bound. */
  predicate Small(sys: Sys) {
    && 1 <= sys.id.srcPort <= 99999 && 1 <= sys.id.dstPort <= 99999
    && SmallEnough(sys.client, sys.server)
  }

  predicate Joined(sys: Sys, n: Node) {
    && Coupled(sys, n.table, n.ip) && IsAddress(n.ip) && (n.running ==> Sole(n))
    && forall f :: f in n.inbox ==> FrameOk(sys, f, n.ip)
  }

  /** What the theorem still asks of the environment, beside EventOk. The two users close once at most, write no NUL,
      and the client's connects once, from a freshly bound socket; nobody connects in the place of an end or makes an
      end listen. There is one incarnation: no second connection of the same two ports is spawned, and the first by a
      packet from this ip. An end that has been closed before it was answered stands under its bare address, where any
      segment for its port can reach it: only its peer's do. The two ends stay within the arithmetic bound, and the
      numbers in what other sockets send fit their columns. */
  predicate EventFits(sys: Sys, n: Node, e: Event, wild: int -> int)
    requires Keyed(n.table)
  {
    && Small(sys) && (forall p :: p in Looped(n, e, wild) && Elsewhere(sys, p) ==> Sendable(p))
    && match e
       case Listen(key, _, _, _) => EndAt(sys, key).None?
       case Connect(key, dstIp, dstPort, isn) => CallOk(sys, n.table, n.ip, ConnectCall(key, dstIp, dstPort, isn), wild)
       case Visit(key, v) => EndAt(sys, key).Some? ==> Enabled(sys, Protocol.Visit(EndAt(sys, key).value, v))
       case Turn(env, osOk, replySent) =>
         n.inbox != [] ==>
           var packet := Unframed(n.inbox[0], n.ip);
           var p := Admitted(packet, n.ip, wild);
           p.Some? ==> ArrivalFits(sys, n.table, n.ip, packet.srcIp, p.value,
                                  WorldOf(n, packet, env, osOk, replySent, wild))
       case Bind(_, _, _, _) => true
       case Arrives(_) => true
       case DropEnds(_) => true
       case DropReadEnd(_) => true
  }

  predicate ArrivalFits(sys: Sys, m: Sockets, ip: string, srcIp: string, p: Packet, w: World)
    requires Keyed(m)
  {
    var key := Lookup(m, ip, srcIp, p);
    && (key.Some? && key.value == Address(key.value) && EndAt(sys, key.value).Some? ==>
          srcIp == ip && p in sys.From(EndAt(sys, key.value).value.Other()))
    && (SpawnsAt(m, ip, srcIp, p, w) == Some(sys.IdOf(Server)) ==>
          srcIp == ip && sys.server.phase.Idle? && 0 <= w.env.isn)
    && SpawnsAt(m, ip, srcIp, p, w) != Some(sys.id)
  }

  // ---------------------------------------------------------------- what is read

  lemma OwnSendable(sys: Sys, p: Packet, ip: string)
    requires Inv(sys) && Small(sys) && FrameOk(sys, Own(p), ip)
    ensures Sendable(p)
  {
    hide Inv, SmallEnough, Sendable;
    if !Elsewhere(sys, p) {
      var side := if Between(sys, Client, p) then Client else Server;
      assert SmallEnough(sys.At(side), sys.At(side.Other())) by { SmallBothWays(sys.client, sys.server); }
      PacketSendable(sys, side, p);
    }
  }

  lemma SmallBothWays(x: Endpoint, y: Endpoint)
    ensures SmallEnough(x, y) <==> SmallEnough(y, x)
  {
  }

  /** What is admitted of an own frame is the segment that was sent. */
  lemma OwnRead(sys: Sys, f: Frame, ip: string, wild: int -> int)
    requires Inv(sys) && Small(sys) && FrameOk(sys, f, ip)
    ensures var packet := Unframed(f, ip); var p := Admitted(packet, ip, wild);
            p.Some? && packet.srcIp == ip ==> Genuine(sys, p.value)
  {
    match f
    case Own(q) =>
      OwnSendable(sys, q, ip);
      EnvelopeArrives(q, ip, ip, wild);
      hide Admitted, Sendable, LostOnWire;
    case Foreign(packet) =>
  }

  lemma PacketIsOk(sys: Sys, m: Sockets, ip: string, srcIp: string, p: Packet, w: World)
    requires Coupled(sys, m, ip) && ArrivalFits(sys, m, ip, srcIp, p, w)
    requires srcIp == ip ==> Genuine(sys, p)
    ensures PacketOkFor(sys, m, ip, srcIp, p, w)
  {
    var key := Lookup(m, ip, srcIp, p);
    KeysApart(sys, Client);
    KeysApart(sys, Server);
    assert key.Some? ==> key.value.srcPort == p.dstPort && key.value.srcIp == ip &&
                         (key.value.dstIp == EMPTY_IP || key.value == PacketKey(ip, srcIp, p));
    assert IsEmptyIp(EMPTY_IP);
    hide Inv, Lookup, ResponseIn;
    if key.Some? && EndAt(sys, key.value).Some? {
      var to := EndAt(sys, key.value).value;
      assert key.value == sys.IdOf(to) ==> Between(sys, to.Other(), p);
    }
    if SpawnsAt(m, ip, srcIp, p, w) == Some(sys.IdOf(Server)) {
      assert Between(sys, Client, p);
    }
  }

  lemma FrameIsCall(sys: Sys, m: Sockets, ip: string, f: Frame, w: World, wild: int -> int)
    requires Coupled(sys, m, ip) && Small(sys) && FrameOk(sys, f, ip)
    requires var packet := Unframed(f, ip); var p := Admitted(packet, ip, wild);
             p.Some? ==> ArrivalFits(sys, m, ip, packet.srcIp, p.value, w)
    ensures CallOk(sys, m, ip, ReceiveCall(Unframed(f, ip), w), wild)
  {
    var packet := Unframed(f, ip);
    var p := Admitted(packet, ip, wild);
    OwnRead(sys, f, ip, wild);
    hide Admitted, Unframed, FrameOk, Coupled, ArrivalFits, PacketOkFor, Between;
    if p.Some? {
      PacketIsOk(sys, m, ip, packet.srcIp, p.value, w);
    }
  }

  /** So every event is a call that the coupling theorem allows. */
  lemma EventIsCall(sys: Sys, n: Node, e: Event, wild: int -> int)
    requires Joined(sys, n) && EventOk(n, e) && EventFits(sys, n, e, wild)
    ensures var call := CallOf(n, e, wild); call.Some? ==> CallOk(sys, n.table, n.ip, call.value, wild)
  {
    hide Sole, Coupled, ClashIn, WorldOf, ArrivalFits, PacketOkFor, Looped, Unframed, FrameOk;
    if e.Visit? && e.key in n.table {
      NoClash(n, e.key, e.visit);
    } else if e.Turn? && n.inbox != [] {
      var packet := Unframed(n.inbox[0], n.ip);
      FrameIsCall(sys, n.table, n.ip, n.inbox[0], WorldOf(n, packet, e.env, e.osOk, e.replySent, wild), wild);
    }
  }

  // ---------------------------------------------------------------- what is written

  lemma VisitSent(s: Sock, v: VisitEnv)
    requires s.Shaped()
    ensures forall p :: p in VisitSock(s, v).2 ==> p.srcPort == s.id.srcPort && p.dstPort == s.id.dstPort
  {
    if s.state.SynSent? && v.close {
      ClosedUnheard(s, v);
    }
  }

  lemma ReplySent(s: Sock, p: Packet, ip: string, env: Env)
    requires s.Shaped()
    ensures var o := HandlePacket(s, p, ip, env);
            o.reply.Some? ==> o.reply.value.srcPort == s.id.srcPort && o.reply.value.dstPort == p.srcPort
  {
  }

  /** A segment of the connection that a visit sends is its end's. */
  lemma VisitedEnd(sys: Sys, n: Node, key: Id, v: VisitEnv, wild: int -> int, side: Side, p: Packet)
    requires Joined(sys, n) && n.running && p in Looped(n, Event.Visit(key, v), wild) && Between(sys, side, p)
    ensures ActsAt(sys, n.table, n.ip, VisitCall(key, v), wild, side)
    ensures p in EffectOf(n.table, n.ip, VisitCall(key, v), wild).sent
  {
    VisitSent(n.table[key], v);
    assert Placed(n.table[key], n.ip);
    KeysApart(sys, side);
    hide Inv, VisitSock, Sole, FrameOk;
    assert key == sys.IdOf(side);
    assert Holds(sys, side, n.table);
    EndFound(sys, side);
  }

  /** What is sent while a packet is handled is the reply of the socket under the packet's own key. */
  lemma RepliesFrom(m: Sockets, ip: string, q: Packet, w: World, p: Packet)
    requires Keyed(m) && p in DispatchIn(m, ip, ip, q, w).sent
    ensures Lookup(m, ip, ip, q) == Some(PacketKey(ip, ip, q)) && PacketKey(ip, ip, q) in m
    ensures p.srcPort == q.dstPort && p.dstPort == q.srcPort
  {
    var key := Lookup(m, ip, ip, q).value;
    var env := w.env.(spawnOk := w.fifosOk && |m| < TABLE_SIZE && SpawnKey(m[key].id, ip, q) !in m);
    ReplySent(m[key], q, ip, env);
    hide HandlePacket;
  }

  lemma RepliedEnd(sys: Sys, m: Sockets, ip: string, q: Packet, w: World, side: Side, p: Packet)
    requires Coupled(sys, m, ip) && p in DispatchIn(m, ip, ip, q, w).sent && Between(sys, side, p)
    ensures IsOf(PacketSteps(sys, m, ip, ip, q, w), side)
  {
    RepliesFrom(m, ip, q, w, p);
    KeysApart(sys, side);
    hide Inv, DispatchIn, Lookup, SpawnsAt;
    assert PacketKey(ip, ip, q) == sys.IdOf(side);
    assert Holds(sys, side, m);
    EndFound(sys, side);
  }

  /** So is one that a reply sends. */
  lemma TurnedEnd(sys: Sys, n: Node, env: Env, osOk: bool, replySent: bool, wild: int -> int, side: Side, p: Packet)
    requires Joined(sys, n) && p in Looped(n, Turn(env, osOk, replySent), wild) && Between(sys, side, p)
    ensures n.inbox != []
    ensures var packet := Unframed(n.inbox[0], n.ip);
            var call := ReceiveCall(packet, WorldOf(n, packet, env, osOk, replySent, wild));
            ActsAt(sys, n.table, n.ip, call, wild, side) && p in EffectOf(n.table, n.ip, call, wild).sent
  {
    var packet := Unframed(n.inbox[0], n.ip);
    var w := WorldOf(n, packet, env, osOk, replySent, wild);
    hide Admitted, Unframed, WorldOf, Sole, FrameOk, Coupled, DispatchIn, PacketSteps;
    RepliedEnd(sys, n.table, n.ip, Admitted(packet, n.ip, wild).value, w, side, p);
  }

  lemma LoopedIsEnd(sys: Sys, n: Node, e: Event, wild: int -> int, side: Side, p: Packet)
    requires Joined(sys, n) && n.running && p in Looped(n, e, wild) && Between(sys, side, p)
    ensures var call := CallOf(n, e, wild);
            && call.Some? && ActsAt(sys, n.table, n.ip, call.value, wild, side)
            && p in EffectOf(n.table, n.ip, call.value, wild).sent
  {
    match e
    case Visit(key, v) => VisitedEnd(sys, n, key, v, wild, side, p);
    case Turn(env, osOk, replySent) => TurnedEnd(sys, n, env, osOk, replySent, wild, side, p);
    case Bind(_, _, _, _) =>
    case Listen(_, _, _, _) =>
    case Connect(_, _, _, _) =>
    case Arrives(_) =>
    case DropEnds(_) =>
    case DropReadEnd(_) =>
  }

  // ---------------------------------------------------------------- every event is a step of the protocol

  /** The protocol step an event amounts to. */
  function StepsIn(sys: Sys, n: Node, e: Event, wild: int -> int): seq<Step>
    requires Keyed(n.table)
  {
    var call := CallOf(n, e, wild);
    if call.None? then [] else StepsOf(sys, n.table, n.ip, call.value, wild)
  }

  /** The protocol takes the same step, and its network gains what the call sends for an end. */
  lemma CallGains(sys: Sys, n: Node, e: Event, wild: int -> int, side: Side)
    requires Joined(sys, n) && EventOk(n, e) && EventFits(sys, n, e, wild)
    ensures var steps, call := StepsIn(sys, n, e, wild), CallOf(n, e, wild);
            && ValidRun(sys, steps) && Coupled(Exec(sys, steps), NodeAfter(n, e, wild).table, n.ip)
            && Exec(sys, steps).id == sys.id
            && Exec(sys, steps).From(side) == sys.From(side) +
               if call.Some? && ActsAt(sys, n.table, n.ip, call.value, wild, side)
               then set p | p in EffectOf(n.table, n.ip, call.value, wild).sent else {}
  {
    EventIsCall(sys, n, e, wild);
    var call := CallOf(n, e, wild);
    hide Coupled, CallOk, EventFits, FrameOk, Sole, StepsOf, EffectOf, ActsAt, CallOf, DiskAfter, GrantedAfter;
    hide InboxAfter, RunsOn, EventOk;
    if call.Some? {
      CallRefines(sys, n.table, n.ip, call.value, wild);
      CallSends(sys, n.table, n.ip, call.value, wild, side);
      IdStays(sys, StepsOf(sys, n.table, n.ip, call.value, wild));
    }
  }

  /** The protocol's network has gained what the manager has written into its own fifo for an end. */
  lemma NetworkGains(sys: Sys, n: Node, e: Event, wild: int -> int, side: Side)
    requires Joined(sys, n) && EventOk(n, e) && EventFits(sys, n, e, wild)
    ensures var steps := StepsIn(sys, n, e, wild);
            && ValidRun(sys, steps) && Coupled(Exec(sys, steps), NodeAfter(n, e, wild).table, n.ip)
            && Exec(sys, steps).id == sys.id && sys.From(side) <= Exec(sys, steps).From(side)
            && forall p :: p in Looped(n, e, wild) && Between(sys, side, p) ==> p in Exec(sys, steps).From(side)
  {
    CallGains(sys, n, e, wild, side);
    hide Coupled, EventFits, FrameOk, Sole, StepsIn, EffectOf, ActsAt, Between, CallOf, Looped, NodeAfter;
    forall p | p in Looped(n, e, wild) && Between(sys, side, p)
      ensures p in Exec(sys, StepsIn(sys, n, e, wild)).From(side)
    {
      LoopedIsEnd(sys, n, e, wild, side, p);
    }
  }

  lemma FrameStays(sys: Sys, sys': Sys, f: Frame, ip: string)
    requires FrameOk(sys, f, ip) && sys'.id == sys.id
    requires sys.From(Client) <= sys'.From(Client) && sys.From(Server) <= sys'.From(Server)
    ensures FrameOk(sys', f, ip)
  {
    hide Sendable, WellFormed;
  }

  lemma FramesAfter(n: Node, e: Event, wild: int -> int, f: Frame)
    requires Keyed(n.table) && f in InboxAfter(n, e, wild)
    ensures f in n.inbox || (e.Arrives? && f == Foreign(e.packet)) || (f.Own? && f.segment in Looped(n, e, wild))
  {
    hide EffectAt;
  }

  lemma FramesStayOk(sys: Sys, sys': Sys, n: Node, e: Event, wild: int -> int, f: Frame)
    requires Joined(sys, n) && EventOk(n, e) && EventFits(sys, n, e, wild)
    requires sys'.id == sys.id && f in InboxAfter(n, e, wild)
    requires sys.From(Client) <= sys'.From(Client) && sys.From(Server) <= sys'.From(Server)
    requires forall p :: p in Looped(n, e, wild) && Between(sys, Client, p) ==> p in sys'.From(Client)
    requires forall p :: p in Looped(n, e, wild) && Between(sys, Server, p) ==> p in sys'.From(Server)
    ensures FrameOk(sys', f, n.ip)
  {
    FramesAfter(n, e, wild, f);
    hide Coupled, Sole, InboxAfter, Looped, Sendable, WellFormed;
    if f in n.inbox {
      FrameStays(sys, sys', f, n.ip);
    }
  }

  /** Every event keeps the relation: it is one step of the protocol or none, and what stands in the packet fifo for the
      ends is what the protocol's network holds. */
  lemma EventRefines(sys: Sys, n: Node, e: Event, wild: int -> int)
    requires Joined(sys, n) && EventOk(n, e) && EventFits(sys, n, e, wild)
    ensures ValidRun(sys, StepsIn(sys, n, e, wild))
    ensures Joined(Exec(sys, StepsIn(sys, n, e, wild)), NodeAfter(n, e, wild))
  {
    NetworkGains(sys, n, e, wild, Client);
    NetworkGains(sys, n, e, wild, Server);
    var sys', n' := Exec(sys, StepsIn(sys, n, e, wild)), NodeAfter(n, e, wild);
    assert n'.inbox == InboxAfter(n, e, wild);
    hide Coupled, Sole, FrameOk, Between, StepsIn, EventFits, InboxAfter, Looped, EventOk;
    if n'.running {
      StepSole(n, e, wild);
    }
    forall f | f in n'.inbox ensures FrameOk(sys', f, n.ip) {
      FramesStayOk(sys, sys', n, e, wild, f);
    }
  }

  // ---------------------------------------------------------------- the bytes of the fifo

  function Frames(fs: seq<Frame>, ip: string): (ps: seq<IpPacket>)
    ensures |ps| == |fs| && forall i :: 0 <= i < |fs| ==> ps[i] == Unframed(fs[i], ip)
  {
    seq(|fs|, i requires 0 <= i < |fs| => Unframed(fs[i], ip))
  }

  predicate AllFramesOk(sys: Sys, fs: seq<Frame>, ip: string) {
    Inv(sys) && Small(sys) && IsAddress(ip) && forall f :: f in fs ==> FrameOk(sys, f, ip)
  }

  lemma FramesWellFormed(sys: Sys, fs: seq<Frame>, ip: string)
    requires AllFramesOk(sys, fs, ip)
    ensures AllWellFormed(Frames(fs, ip))
  {
    var ps := Frames(fs, ip);
    hide WellFormed, Envelope;
    forall i | 0 <= i < |ps| ensures WellFormed(ps[i]) {
      assert fs[i] in fs && FrameOk(sys, fs[i], ip);
      if fs[i].Own? {
        OwnSendable(sys, fs[i].segment, ip);
        EnvelopeWellFormed(fs[i].segment, ip, ip);
      }
    }
  }

  lemma {:induction false} StreamsJoin(a: seq<IpPacket>, b: seq<IpPacket>)
    requires AllWellFormed(a) && AllWellFormed(b)
    ensures AllWellFormed(a + b) && Stream(a + b) == Stream(a) + Stream(b)
    decreases |a|
  {
    hide WellFormed;
    if a == [] {
      assert a + b == b;
    } else {
      assert (a + b)[1..] == a[1..] + b && (a + b)[0] == a[0];
      StreamsJoin(a[1..], b);
    }
  }

  /** The packets that an event appends to the fifo. */
  function Appended(n: Node, e: Event, wild: int -> int): seq<IpPacket>
    requires Keyed(n.table)
  {
    if e.Arrives? then [e.packet] else Envelopes(Looped(n, e, wild), n.ip, n.ip)
  }

  /** The frames are the bytes of the fifo: what a turn reads is what the byte reader makes of them, and everything that
      is sent or arrives appends its printed frame. */
  lemma FifoBytes(sys: Sys, n: Node, e: Event, wild: int -> int)
    requires Joined(sys, n) && EventOk(n, e) && EventFits(sys, n, e, wild)
    requires ValidRun(sys, StepsIn(sys, n, e, wild)) && Small(Exec(sys, StepsIn(sys, n, e, wild)))
    ensures var before, after := Frames(n.inbox, n.ip), Frames(NodeAfter(n, e, wild).inbox, n.ip);
            && AllWellFormed(before) && AllWellFormed(after) && AllWellFormed(Appended(n, e, wild))
            && var (read, rest) := NextPacket(Stream(before), wild);
            && read == (if n.inbox == [] then Nothing else Got(Unframed(n.inbox[0], n.ip)))
            && Stream(after) == (if e.Turn? then rest else Stream(before)) + Stream(Appended(n, e, wild))
  {
    EventRefines(sys, n, e, wild);
    var before, after := Frames(n.inbox, n.ip), Frames(NodeAfter(n, e, wild).inbox, n.ip);
    FramesWellFormed(sys, n.inbox, n.ip);
    FramesWellFormed(Exec(sys, StepsIn(sys, n, e, wild)), NodeAfter(n, e, wild).inbox, n.ip);
    FirstFrame(before, wild);
    hide NextPacket, WellFormed, Looped, Unframed, Coupled, Sole, FrameOk, EventFits, StepsIn, Stream;
    var kept := if e.Turn? && n.inbox != [] then before[1..] else before;
    assert after == kept + Appended(n, e, wild) by { hide AllWellFormed; FramesAppended(n, e, wild); }
    assert AllWellFormed(kept) && AllWellFormed(Appended(n, e, wild));
    StreamsJoin(kept, Appended(n, e, wild));
  }

  lemma FramesJoin(a: seq<Frame>, b: seq<Frame>, ip: string)
    ensures Frames(a + b, ip) == Frames(a, ip) + Frames(b, ip)
    ensures a != [] ==> Frames(a[1..], ip) == Frames(a, ip)[1..]
  {
    hide Unframed;
  }

  lemma FramesOwned(ps: seq<Packet>, ip: string)
    ensures Frames(Owned(ps), ip) == Envelopes(ps, ip, ip)
  {
    hide Envelope;
  }

  lemma FramesAppended(n: Node, e: Event, wild: int -> int)
    requires Keyed(n.table)
    ensures var before := Frames(n.inbox, n.ip);
            Frames(NodeAfter(n, e, wild).inbox, n.ip) ==
            (if e.Turn? && n.inbox != [] then before[1..] else before) + Appended(n, e, wild)
  {
    var kept := if e.Turn? && n.inbox != [] then n.inbox[1..] else n.inbox;
    var fs := if e.Arrives? then [Foreign(e.packet)] else Owned(Looped(n, e, wild));
    FramesOwned(Looped(n, e, wild), n.ip);
    FramesJoin(n.inbox, [], n.ip);
    FramesJoin(kept, fs, n.ip);
    assert e.Arrives? ==> Frames(fs, n.ip) == [e.packet];
    hide Looped, EffectAt, DiskAfter, GrantedAfter, Frames, Owned, Envelopes, Keyed, RunsOn;
  }

  // ---------------------------------------------------------------- whole runs

  predicate EventsFit(sys: Sys, n: Node, events: seq<Event>, wild: int -> int)
    requires Joined(sys, n)
    decreases |events|
  {
    events == [] ||
    (EventOk(n, events[0]) && EventFits(sys, n, events[0], wild) &&
     (EventRefines(sys, n, events[0], wild);
      EventsFit(Exec(sys, StepsIn(sys, n, events[0], wild)), NodeAfter(n, events[0], wild), events[1..], wild)))
  }

  /** The call of an event in front of others that may be made. */
  lemma FirstFits(sys: Sys, n: Node, e: Event, rest: seq<Call>, wild: int -> int)
    requires Joined(sys, n) && EventOk(n, e) && EventFits(sys, n, e, wild)
    requires ValidRun(sys, StepsIn(sys, n, e, wild))
    requires Coupled(Exec(sys, StepsIn(sys, n, e, wild)), NodeAfter(n, e, wild).table, n.ip)
    requires CallsOk(Exec(sys, StepsIn(sys, n, e, wild)), NodeAfter(n, e, wild).table, n.ip, rest, wild)
    ensures var call := CallOf(n, e, wild); var calls := (if call.None? then [] else [call.value]) + rest;
            && CallsOk(sys, n.table, n.ip, calls, wild)
            && RunOf(sys, n.table, n.ip, calls, wild) ==
               StepsIn(sys, n, e, wild) +
               RunOf(Exec(sys, StepsIn(sys, n, e, wild)), NodeAfter(n, e, wild).table, n.ip, rest, wild)
  {
    var call := CallOf(n, e, wild);
    EventIsCall(sys, n, e, wild);
    hide Coupled, CallOk, CallOf, StepsOf, EffectOf, Sole, FrameOk, EventFits;
    if call.Some? {
      var calls := [call.value] + rest;
      assert calls[1..] == rest && calls[0] == call.value;
    } else {
      assert [] + rest == rest;
    }
  }

  lemma JoinedIs(sys: Sys, n: Node)
    requires Joined(sys, n)
    ensures Coupled(sys, n.table, n.ip) && Keyed(n.table)
  {
  }

  /** Every run of events is a run of calls that the coupling theorem allows. */
  lemma {:induction false} RunIsCalls(sys: Sys, n: Node, events: seq<Event>, wild: int -> int)
    requires Joined(sys, n) && EventsFit(sys, n, events, wild)
    ensures EventsOk(n, events, wild) && CallsOk(sys, n.table, n.ip, CallsOf(n, events, wild), wild)
    decreases |events|
  {
    JoinedIs(sys, n);
    hide Joined, Coupled, EventFits, EventOk, StepsIn, NodeAfter, CallOf, CallOk, StepsOf, EffectOf, Keyed;
    if events != [] {
      EventRefines(sys, n, events[0], wild);
      var sys', n' := Exec(sys, StepsIn(sys, n, events[0], wild)), NodeAfter(n, events[0], wild);
      JoinedIs(sys', n');
      RunIsCalls(sys', n', events[1..], wild);
      FirstFits(sys, n, events[0], CallsOf(n', events[1..], wild), wild);
    }
  }

  /** And so a run of the protocol: at its end the manager and its fifo hold what the protocol's ends and network do. */
  lemma {:induction false} RunRefines(sys: Sys, n: Node, events: seq<Event>, wild: int -> int)
    requires Joined(sys, n) && EventsFit(sys, n, events, wild)
    ensures CallsOk(sys, n.table, n.ip, CallsOf(n, events, wild), wild)
    ensures var steps := RunOf(sys, n.table, n.ip, CallsOf(n, events, wild), wild);
            ValidRun(sys, steps) && Joined(Exec(sys, steps), AfterAll(n, events, wild))
    decreases |events|
  {
    RunIsCalls(sys, n, events, wild);
    JoinedIs(sys, n);
    hide Joined, Coupled, EventFits, EventOk, StepsIn, NodeAfter, CallOf, CallOk, StepsOf, EffectOf, Keyed, CallsOk;
    if events == [] {
      assert RunOf(sys, n.table, n.ip, CallsOf(n, events, wild), wild) == [];
    } else {
      EventRefines(sys, n, events[0], wild);
      var sys', n' := Exec(sys, StepsIn(sys, n, events[0], wild)), NodeAfter(n, events[0], wild);
      JoinedIs(sys', n');
      RunRefines(sys', n', events[1..], wild);
      FirstFits(sys, n, events[0], CallsOf(n', events[1..], wild), wild);
      var rest := RunOf(sys', n'.table, n.ip, CallsOf(n', events[1..], wild), wild);
      RunsJoin(sys, StepsIn(sys, n, events[0], wild), rest);
    }
  }

  /** A manager that has just been made, whatever fifos are on disk. */
  lemma Opens(init: Sys, disk: set<File>)
    requires Init(init) && IsAddress(init.id.srcIp)
    ensures Joined(init, Fresh(init.id.srcIp, disk))
  {
    Starts(init, map[]);
    FreshIsSole(init.id.srcIp, disk);
    hide Coupled, Sole;
  }

  lemma FreshShows(mgr: Manager, m: Sockets)
    requires Shows(mgr, m) && mgr.sockets.members == {}
    ensures m == map[]
  {
    hide HashMap.Contents, HashMap.Slots, UniqueIds, Separate;
    assert Views(mgr) == map[];
  }

  /** The protocol run of calls on a manager that has just been made. */
  predicate Accounts(init: Sys, ip: string, calls: seq<Call>, wild: int -> int, sys: Sys) {
    && Coupled(init, map[], ip) && CallsOk(init, map[], ip, calls, wild)
    && var steps := RunOf(init, map[], ip, calls, wild);
    && ValidRun(init, steps) && sys == Exec(init, steps)
  }

  /** Runs of events from a manager that has just been made. */
  predicate Served(init: Sys, disk: set<File>, events: seq<Event>, wild: int -> int) {
    && Init(init) && IsAddress(init.id.srcIp)
    && (Opens(init, disk);
        EventsFit(init, Fresh(init.id.srcIp, disk), events, wild))
  }

  /** Reliable delivery by one manager from its making on: users bind, listen, connect, write and close; the manager
      reads the frames it has written to itself among those of others; the disk decides whether fifos can be made. What
      it writes to the reader of either end is a prefix of what it accepted from the other's writer. */
  method Serve(ip: string, calls: seq<Call>, wild: int -> int, ghost init: Sys, ghost disk: set<File>,
               ghost events: seq<Event>)
    returns (mgr: Manager, sent: seq<seq<Packet>>, log: seq<Line>, ghost sys: Sys)
    requires Served(init, disk, events, wild) && ip == init.id.srcIp
    requires calls == CallsOf(Fresh(ip, disk), events, wild)
    ensures mgr.ip == ip && Shows(mgr, AfterAll(Fresh(ip, disk), events, wild).table)
    ensures Keyed(map[]) && SentBy(map[], ip, calls, wild, sent) && log == LogOf(map[], ip, calls, wild)
    ensures Accounts(init, ip, calls, wild, sys) && Joined(sys, AfterAll(Fresh(ip, disk), events, wild))
    ensures forall side: Side :: BytesFor(log, init.IdOf(side)) <= sys.At(side.Other()).accepted
  {
    mgr := new Manager(ip);
    ghost var n := Fresh(ip, disk);
    Opens(init, disk);
    RunIsCalls(init, n, events, wild);
    RunRefines(init, n, events, wild);
    NeverClashes(n, events, wild);
    hide Joined, EventsFit, CallsOf, AfterAll, NodeAfter, Init, Exec, ValidRun, RunOf, Coupled, CallsOk, Manager.Valid;
    forall m | Shows(mgr, m) ensures Admissible(init, m, ip, calls, wild) {
      FreshShows(mgr, m);
    }
    hide Shows, Admissible, BytesFor, LogOf, TableAfter, SentBy;
    ghost var m, steps;
    sent, log, m, steps := PlayDelivers(mgr, calls, wild, init);
    assert m == map[];
    sys := Exec(init, steps);
  }
}
