/** A listening period: how many connections a listener gives away, and who reaches them. */
module Listening {
  import opened Common
  import opened Packets
  import opened SocketModel
  import opened SocketObject
  import opened NetworkManager

  /** One packet with what the outside world does while it is handled. */
  datatype Event = Event(p: Packet, env: Env)

  /** The listener after a run of packets of any kind, and how many connections it spawned. */
  function ListenRun(s: Sock, ip: string, events: seq<Event>): (Sock, nat)
    requires s.Shaped()
    decreases |events|
  {
    if events == [] then (s, 0)
    else
      var (t, n) := ListenRun(s, ip, events[..|events| - 1]);
      if !t.Shaped() then (t, n)
      else
        var last := events[|events| - 1];
        var o := HandlePacket(t, last.p, ip, last.env);
        (o.sock, n + if o.spawned.Some? then 1 else 0)
  }

  /** A SYN for which the new socket can be made and filed. */
  predicate Welcome(e: Event) {
    e.p.flags.syn && e.env.spawnOk
  }

  function WelcomeCount(events: seq<Event>): nat {
    if events == [] then 0
    else WelcomeCount(events[..|events| - 1]) + if Welcome(events[|events| - 1]) then 1 else 0
  }

  /** Conservation: whatever arrives, the listener keeps listening, and what it gives away it no longer has. A limit
      that is not negative is never overdrawn: the listener serves the welcome connections up to its limit, and no
      more. A negative one never runs out: it serves them all. */
  lemma {:induction false} QuotaConserved(s: Sock, ip: string, events: seq<Event>)
    requires s.Shaped() && s.state.Listen?
    ensures var (t, n) := ListenRun(s, ip, events);
            && t == s.(maxConnections := s.maxConnections - n)
            && n == if s.maxConnections < 0 then WelcomeCount(events) else Min(s.maxConnections, WelcomeCount(events))
  {
    if events != [] {
      QuotaConserved(s, ip, events[..|events| - 1]);
    }
  }

  /** Once a listener has spawned a connection for a peer, that peer's later packets reach the connection exactly when
      the peer has the manager's own ip; otherwise they keep going to the listener. */
  lemma SpawnReachable(m: map<Id, Socket>, ip: string, srcIp: string, p: Packet, conn: Socket, q: Packet)
    requires BoundId(ip, p.dstPort) in m && PacketKey(ip, srcIp, p) !in m
    requires conn != m[BoundId(ip, p.dstPort)] && q.srcPort == p.srcPort && q.dstPort == p.dstPort
    requires p.srcPort != EMPTY_PORT
    ensures var m' := m[SpawnKey(BoundId(ip, p.dstPort), ip, p) := conn];
            && (Target(m', ip, srcIp, q) == conn <==> srcIp == ip)
            && (srcIp != ip ==> Target(m', ip, srcIp, q) == m[BoundId(ip, p.dstPort)])
  {
  }
}
