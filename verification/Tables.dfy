/** What the manager's calls make of single entries of its table: who is admitted and heard, what each request
    grants, and when a socket leaves. */
module Tables {
  import opened Common
  import opened Packets
  import opened Decimal
  import opened Formatted
  import opened SocketModel
  import opened IpWire
  import opened TcpWire
  import opened NetworkManager
  import opened ManagerModel
  import opened Listening

  /** An address without a destination: what bind grants, and what listen and connect ask for. */
  predicate Bare(key: Id) {
    && key.srcIp != "" && key.srcIp[0] != 'e' && key.srcPort != 0
    && key.dstIp != "" && key.dstIp[0] == 'e' && key.dstPort == 0
  }

  /** An id is that of a connection if all four are given, and of a bound socket if the source alone is. */
  lemma KindMeans(key: Id)
    requires key.srcIp != "" && key.dstIp != ""
    ensures Kind(key).BoundOnlySocket? <==> Bare(key)
    ensures Kind(key).ConnectedSocket? <==>
              key.srcIp[0] != 'e' && key.srcPort != 0 && key.dstIp[0] != 'e' && key.dstPort != 0
    ensures Kind(key).EmptySocket? <==>
              key.srcIp[0] == 'e' && key.srcPort == 0 && key.dstIp[0] == 'e' && key.dstPort == 0
  {
  }

  // ---------------------------------------------------------------- requests

  /** A listen request is heard by a socket that stands under a bare address and does not listen; it keeps the
      limit asked for, and listens if accept fifo and reply can be made, or else is closed. Nothing but state and
      limit changes, and nobody else's. */
  lemma ListenGrants(m: Sockets, key: Id, limit: int, acceptFifoOk: bool, replyOk: bool)
    requires Keyed(m) && key.srcIp != "" && key.dstIp != ""
    ensures var t := ListenIn(m, key, limit, acceptFifoOk, replyOk).table;
            && t.Keys == m.Keys && (forall k :: k in m && k != key ==> t[k] == m[k])
            && (key in m && !(Bare(key) && !m[key].state.Listen?) ==> t[key] == m[key])
            && (key in m && Bare(key) && !m[key].state.Listen? ==>
                  && t[key].maxConnections == limit
                  && t[key] == m[key].(state := t[key].state, maxConnections := limit)
                  && (t[key].state.Listen? <==> acceptFifoOk && replyOk)
                  && (t[key].state.Closed? <==> !(acceptFifoOk && replyOk)))
  {
    KindMeans(key);
    hide Kind;
  }

  /** So a listening period serves what was asked for: after any packets the listener has spawned as many
      connections as SYNs were welcome, up to the limit of the request, and has the rest left. */
  lemma LimitServed(m: Sockets, key: Id, limit: int, ip: string, events: seq<Listening.Event>)
    requires Keyed(m) && key in m && Kind(key).BoundOnlySocket? && !m[key].state.Listen?
    ensures var s := ListenIn(m, key, limit, true, true).table[key];
            && s.Shaped()
            && var (t, n) := ListenRun(s, ip, events);
            && t.state.Listen? && t.maxConnections == limit - n
            && n == if limit < 0 then WelcomeCount(events) else Min(limit, WelcomeCount(events))
  {
    QuotaConserved(ListenIn(m, key, limit, true, true).table[key], ip, events);
  }

  /** A connect request is granted to a closed socket under a bare address, if nobody has the connection's key.
      Then it stands under that key alone, sends a SYN with the number drawn, and has heard nothing yet. */
  lemma ConnectGrants(m: Sockets, key: Id, dstIp: string, dstPort: int, isn: int)
    requires Keyed(m) && key.srcIp != "" && key.dstIp != ""
    ensures var t, key' := ConnectIn(m, key, dstIp, dstPort, isn).table, Id(key.srcIp, key.srcPort, dstIp, dstPort);
            var granted := key in m && Bare(key) && m[key].state.Closed? && key' !in m;
            && (!granted ==> t == m)
            && (granted ==>
                  && t.Keys == m.Keys - {key} + {key'} && (forall k :: k in m && k != key ==> t[k] == m[k])
                  && t[key'] == m[key].(id := key', state := SynSent, sndBase := isn,
                                        recv := m[key].recv.(base := 0)))
  {
    KindMeans(key);
    hide Kind;
  }

  /** A bind request that is granted makes a closed socket with nothing queued and nothing received, whose ten seconds
      start now. */
  lemma BindGrants(m: Sockets, ip: string, port: int, now: int, fifosOk: bool, replyOk: bool)
    requires Keyed(m)
    ensures var t, a := BindIn(m, ip, port, now, fifosOk, replyOk).table, Id(ip, port, EMPTY_IP, 0);
            var granted := a !in m && |m| < 100 && fifosOk && replyOk;
            && (!granted ==> t == m)
            && (granted ==>
                  && t.Keys == m.Keys + {a} && (forall k :: k in m ==> t[k] == m[k])
                  && t[a].id == a && t[a].state.Closed? && t[a].sendQ == "" && t[a].created == t[a].lastSend == now
                  && t[a].Shaped() && t[a].recv.base == 0
                  && forall i :: 0 <= i < WINDOW_SIZE ==> !t[a].recv.valid[i])
  {
  }

  // ---------------------------------------------------------------- packets

  /** A packet is admitted exactly if it is for this ip, both checksums are right, and it holds a segment;
      otherwise nothing happens at all, and it is an error only if the segment is what is missing. */
  lemma AdmittedExactly(m: Sockets, ip: string, packet: IpPacket, wild: int -> int, w: World)
    requires Keyed(m)
    ensures var read := ParseTcp(packet.data, wild);
            var right := packet.headerChecksum == 5 && packet.dstIp == ip && read.Some? &&
                         var p := read.value.packet;
                         p.checksum == p.srcPort + p.dstPort + p.seqNum + p.ackNum + read.value.code;
            && (right ==> Admitted(packet, ip, wild) == Some(read.value.packet))
            && (!right ==> Admitted(packet, ip, wild).None? && ReceiveIn(m, ip, packet, wild, w) == Effect(m, [], ""))
            && (IsError(packet, ip, wild) <==> packet.headerChecksum == 5 && packet.dstIp == ip && read.None?)
  {
    hide ParseTcp, DispatchIn;
  }

  /** Whom a segment concerns: the connection of exactly these four, or else the socket under its bare destination, or
      nobody. */
  predicate Concerns(m: Sockets, ip: string, srcIp: string, p: Packet, key: Id) {
    && key in m && key.srcIp == ip && key.srcPort == p.dstPort
    && (if Id(ip, p.dstPort, srcIp, p.srcPort) in m then key.dstIp == srcIp && key.dstPort == p.srcPort
        else key.dstIp == EMPTY_IP && key.dstPort == 0)
  }

  /** A segment changes no socket but the one it concerns, adds at most the connection a listener makes, under the
      manager's own ip, and takes none away. What that socket makes of it is what its handler does; its answer
      leaves only if it stands under all four and the sender has an address. */
  lemma DispatchMeans(m: Sockets, ip: string, srcIp: string, p: Packet, w: World)
    requires Keyed(m)
    ensures var e := DispatchIn(m, ip, srcIp, p, w);
            && m.Keys <= e.table.Keys && (forall k :: k in m && !Concerns(m, ip, srcIp, p, k) ==> e.table[k] == m[k])
            && (forall k :: k in e.table && k !in m ==>
                  k == Id(ip, p.dstPort, ip, p.srcPort) && e.table[k].state.SynReceived?)
            && ((forall k :: !Concerns(m, ip, srcIp, p, k)) ==> e == Effect(m, [], ""))
            && (e.sent != [] ==> w.replySent && Id(ip, p.dstPort, srcIp, p.srcPort) in m && |e.sent| == 1)
  {
    var key := Lookup(m, ip, srcIp, p);
    if key.Some? {
      assert Concerns(m, ip, srcIp, p, key.value);
      ResponseKeyed(m, key.value, p, ip, srcIp, w);
      SpawnedState(m[key.value], p, ip,
                   w.env.(spawnOk := w.fifosOk && |m| < 100 && SpawnKey(m[key.value].id, ip, p) !in m));
    }
    hide HandlePacket;
  }

  lemma SpawnedState(s: Sock, p: Packet, ip: string, env: Env)
    requires s.Shaped()
    ensures var o := HandlePacket(s, p, ip, env);
            o.spawned.Some? ==> o.spawned.value.state.SynReceived? && s.state.Listen?
    ensures var s' := HandlePacket(s, p, ip, env).sock;
            s'.created == s.created && (s'.state.SynSent? ==> s.state.SynSent?)
  {
  }

  // ---------------------------------------------------------------- leaving the table

  /** The visit of a socket that is removed. */
  predicate Removes(s: Sock, v: VisitEnv) {
    s.state.Closed? && !v.close && v.now - s.created > 10_000_000
  }

  /** A visit takes a socket out of the table exactly after its ten seconds, CLOSED. It changes no other, and keeps
      the socket under its key unless that is a connecting socket's and its user closes. */
  lemma VisitMeans(m: Sockets, key: Id, v: VisitEnv)
    requires Keyed(m) && key in m && !ClashIn(m, key, v)
    ensures var t := VisitIn(m, key, v).table;
            var key' := if v.close && m[key].state.SynSent? then BoundId(key.srcIp, key.srcPort) else key;
            && (forall k :: k in m && k != key ==> k in t && t[k] == m[k])
            && t.Keys == m.Keys - {key} + (if Removes(m[key], v) then {} else {key'})
            && (!Removes(m[key], v) ==> t[key'].created == m[key].created)
            && (!Removes(m[key], v) && t[key'].state.SynSent? ==> m[key].state.SynSent?)
            && VisitIn(m, key, v).written == ""
  {
    VisitShaped(m[key], v);
    VisitKeeps(m[key], v);
    hide VisitSock;
  }

  lemma VisitKeeps(s: Sock, v: VisitEnv)
    requires s.Shaped()
    ensures VisitSock(s, v).1 <==> Removes(s, v)
    ensures VisitSock(s, v).0.created == s.created
    ensures VisitSock(s, v).0.state.SynSent? ==> s.state.SynSent?
  {
  }

  /** Nothing else takes a socket out: only its own removal after ten seconds, and the two ways its key changes. */
  lemma LeavesOnly(m: Sockets, ip: string, call: Call, wild: int -> int, key: Id)
    requires Keyed(m) && KeepsMap(m, call) && key in m && key !in EffectOf(m, ip, call, wild).table
    ensures (call.VisitCall? && call.key == key && (Removes(m[key], call.visit) ||
                                                    (call.visit.close && m[key].state.SynSent?)))
            || (call.ConnectCall? && call.key == key && m[key].state.Closed?)
  {
    match call
    case BindCall(port, now, fifosOk, replyOk) =>
    case ListenCall(k, limit, acceptFifoOk, replyOk) =>
    case ConnectCall(k, dstIp, dstPort, isn) =>
    case VisitCall(k, v) => if k in m { VisitMeans(m, k, v); }
    case ReceiveCall(packet, w) =>
      var p := Admitted(packet, ip, wild);
      hide Admitted, DispatchIn;
      if p.Some? {
        DispatchMeans(m, ip, packet.srcIp, p.value, w);
      }
  }

  /** The entry of a bound socket after a call that is no connect request for it and no visit after its ten
      seconds. */
  lemma BoundStaysOnce(m: Sockets, ip: string, call: Call, wild: int -> int, a: Id, until: int)
    requires Keyed(m) && KeepsMap(m, call) && a in m && !m[a].state.SynSent?
    requires call.VisitCall? && call.key == a ==> call.visit.now <= until
    requires !(call.ConnectCall? && call.key == a) && until <= m[a].created + 10_000_000
    ensures var t := EffectOf(m, ip, call, wild).table;
            a in t && t[a].created == m[a].created && !t[a].state.SynSent?
  {
    match call
    case BindCall(port, now, fifosOk, replyOk) =>
    case ListenCall(k, limit, acceptFifoOk, replyOk) =>
    case ConnectCall(k, dstIp, dstPort, isn) =>
    case VisitCall(k, v) => if k in m { VisitMeans(m, k, v); }
    case ReceiveCall(packet, w) =>
      var p := Admitted(packet, ip, wild);
      hide Admitted;
      if p.Some? {
        DispatchKeeps(m, ip, packet.srcIp, p.value, w, a);
      }
  }

  lemma DispatchKeeps(m: Sockets, ip: string, srcIp: string, p: Packet, w: World, a: Id)
    requires Keyed(m) && a in m
    ensures var t := DispatchIn(m, ip, srcIp, p, w).table;
            a in t && t[a].created == m[a].created && (t[a].state.SynSent? ==> m[a].state.SynSent?)
  {
    DispatchMeans(m, ip, srcIp, p, w);
    var key := Lookup(m, ip, srcIp, p);
    if key.Some? {
      ResponseKeyed(m, key.value, p, ip, srcIp, w);
      SpawnedState(m[key.value], p, ip,
                   w.env.(spawnOk := w.fifosOk && |m| < 100 && SpawnKey(m[key.value].id, ip, p) !in m));
    }
    hide HandlePacket, Concerns;
  }

  /** Over any run of calls, then, a socket that has been bound is there for its user to listen or connect for ten
      seconds, whoever sends to it and whatever else the manager does. */
  lemma {:induction false} BoundStays(m: Sockets, ip: string, calls: seq<Call>, wild: int -> int, a: Id, until: int)
    requires Keyed(m) && KeepMap(m, ip, calls, wild) && a in m && !m[a].state.SynSent?
    requires forall c :: c in calls && c.VisitCall? && c.key == a ==> c.visit.now <= until
    requires forall c :: c in calls && c.ConnectCall? ==> c.key != a
    requires until <= m[a].created + 10_000_000
    ensures a in TableAfter(m, ip, calls, wild) && TableAfter(m, ip, calls, wild)[a].created == m[a].created
    decreases |calls|
  {
    hide EffectOf, KeepsMap, Keyed;
    if calls != [] {
      assert calls[0] in calls;
      BoundStaysOnce(m, ip, calls[0], wild, a, until);
      assert forall c :: c in calls[1..] ==> c in calls;
      BoundStays(EffectOf(m, ip, calls[0], wild).table, ip, calls[1..], wild, a, until);
    }
  }

  // ---------------------------------------------------------------- errors

  /** A packet for this ip that does not start like a number is an error, which ends the epoch in which it is read. */
  lemma NoSegmentIsError(ip: string, srcIp: string, data: string, wild: int -> int)
    requires data == "" || (data[0] != '-' && data[0] != '+' && !IsSpace(data[0]) && !IsDigit(data[0]))
    ensures IsError(IpPacket(HEADER + |data|, srcIp, ip, 5, data), ip, wild)
  {
  }
}
