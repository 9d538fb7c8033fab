/** Two connected endpoints and the network between them, as a transition system. The network keeps every packet
    ever sent and may deliver any of them at any time, any number of times, or never: it drops, duplicates and
    reorders. A run is one incarnation of one 4-tuple. */
module Protocol {
  import opened Common
  import opened Packets
  import opened SocketModel

  datatype Phase = Idle | Live | Gone

  /** A socket with its history: its initial send number, the bytes accepted from its writer, the bytes handed to
      its reader, the closes its user may still issue, whether it has been ESTABLISHED, whether it has been in
      CLOSE_WAIT, and the numbers of the FINs it has processed. */
  datatype Endpoint = Endpoint(
    phase: Phase, sock: Sock, isn: int, accepted: string, delivered: string,
    closesLeft: nat, everEstablished: bool, viaCloseWait: bool, finsSeen: set<int>)

  datatype Side = Client | Server {
    function Other(): Side { if this.Client? then Server else Client }
  }

  function Mirror(id: Id): Id {
    Id(id.dstIp, id.dstPort, id.srcIp, id.srcPort)
  }

  /** The client's id; the two ends swap source and destination. */
  datatype Sys = Sys(id: Id, client: Endpoint, server: Endpoint, toServer: set<Packet>, toClient: set<Packet>) {
    function At(side: Side): Endpoint { if side.Client? then client else server }

    /** All packets ever sent by the given side. */
    function From(side: Side): set<Packet> { if side.Client? then toServer else toClient }

    function IdOf(side: Side): Id { if side.Client? then id else Mirror(id) }

    /** The side's new endpoint, and the packets it sent on the way. */
    function Put(side: Side, e: Endpoint, sent: seq<Packet>): Sys {
      var out := From(side) + (set p | p in sent);
      if side.Client? then this.(client := e, toServer := out) else this.(server := e, toClient := out)
    }
  }

  /** Both ends share one ip: handle_packet is given the manager's own ip as the peer's. */
  predicate GoodId(id: Id) {
    Kind(id) == ConnectedSocket && id.srcIp == id.dstIp && id.srcPort != id.dstPort
  }

  function IdleEndpoint(id: Id): Endpoint {
    Endpoint(Idle, NewSock(id, Closed, 0), 0, "", "", 1, false, false, {})
  }

  predicate Init(sys: Sys) {
    && GoodId(sys.id)
    && sys.client == IdleEndpoint(sys.id) && sys.server == IdleEndpoint(sys.IdOf(Server))
    && sys.toServer == {} && sys.toClient == {}
  }

  // ---------------------------------------------------------------- what one endpoint does

  function Track(e: Endpoint, s: Sock): Endpoint {
    e.(sock := s, everEstablished := e.everEstablished || s.state.Established?,
       viaCloseWait := e.viaCloseWait || s.state.CloseWait?)
  }

  /** The states in which a FIN is acted upon. */
  predicate ProcessesFin(s: Sock, p: Packet) {
    && p.flags.fin && !p.flags.rst && p.srcPort == s.id.dstPort
    && ((s.state.Established? && !p.flags.syn) || s.state.FinWait1? || s.state.FinWait2?)
  }

  function DeliverTo(e: Endpoint, p: Packet, env: Env, replySent: bool): (r: (Endpoint, seq<Packet>))
    requires e.sock.Shaped()
  {
    var o := HandlePacket(e.sock, p, e.sock.id.srcIp, env);
    (Track(e, AfterReply(o, replySent, env.now)).(
      delivered := e.delivered + o.written,
      finsSeen := if ProcessesFin(e.sock, p) then e.finsSeen + {p.seqNum} else e.finsSeen),
     if o.reply.Some? && replySent then [o.reply.value] else [])
  }

  function CloseBy(e: Endpoint, now: int): Endpoint
    requires e.closesLeft > 0
  {
    Track(e, CloseCommand(e.sock, now)).(closesLeft := e.closesLeft - 1)
  }

  function Reap(e: Endpoint, now: int): Endpoint {
    if ReapDue(e.sock, now) then e.(phase := Gone) else e
  }

  function Transmit(e: Endpoint, env: VisitEnv): (Endpoint, seq<Packet>) {
    var a := SendWindow(e.sock, env);
    (Track(e, a.sock), a.sent)
  }

  function Report(e: Endpoint, env: VisitEnv): (Endpoint, seq<Packet>)
    requires e.sock.Shaped()
  {
    var a := StatusMessages(e.sock, env);
    (Track(e, a.sock).(accepted := if e.sock.state.Established? then e.accepted + Taken(e.sock, env.offered)
                                   else e.accepted),
     a.sent)
  }

  /** handle_socket_in_network: close command, removal, retransmission, status message. A removed socket ends the
      visit. */
  function VisitOf(e: Endpoint, env: VisitEnv): (Endpoint, seq<Packet>)
    requires e.sock.Shaped() && (env.close ==> e.closesLeft > 0)
  {
    var e1 := if env.close then CloseBy(e, env.now) else e;
    var e2 := Reap(e1, env.now);
    if e2.phase.Gone? then (e2, [])
    else
      var (e3, sent3) := Transmit(e2, env);
      var (e4, sent4) := Report(e3, env);
      (e4, sent3 + sent4)
  }

  /** The visit of an endpoint is the visit of its socket. */
  lemma VisitOfSock(e: Endpoint, env: VisitEnv)
    requires e.phase.Live? && e.sock.Shaped() && (env.close ==> e.closesLeft > 0)
    ensures var (s, removed, sent) := VisitSock(e.sock, env);
            var (e', sent') := VisitOf(e, env);
            e'.sock == s && sent' == sent && (e'.phase.Gone? <==> removed)
  {
  }

  // ---------------------------------------------------------------- steps and runs

  datatype Step =
    | Connect(isn: int, now: int)
    | Spawn(p: Packet, env: Env)
    | Visit(side: Side, visit: VisitEnv)
    | Deliver(to: Side, p: Packet, env: Env, replySent: bool)

  predicate Enabled(sys: Sys, step: Step) {
    match step
    case Connect(isn, now) => sys.client.phase.Idle? && 1 <= isn <= 2000
    case Spawn(p, env) => sys.server.phase.Idle? && p in sys.toServer && p.flags.syn && 0 <= env.isn
    case Visit(side, v) =>
      && sys.At(side).phase.Live? && sys.At(side).sock.Shaped()
      && (v.close ==> sys.At(side).closesLeft > 0) && NoNul(v.offered)
    case Deliver(to, p, env, replySent) =>
      sys.At(to).phase.Live? && sys.At(to).sock.Shaped() && p in sys.From(to.Other())
  }

  function Next(sys: Sys, step: Step): Sys
    requires Enabled(sys, step)
  {
    match step
    case Connect(isn, now) =>
      var s := ConnectCommand(NewSock(BoundId(sys.id.srcIp, sys.id.srcPort), Closed, now),
                              sys.id.dstIp, sys.id.dstPort, isn);
      sys.Put(Client, sys.client.(phase := Live, isn := isn, sock := s), [])
    case Spawn(p, env) =>
      var s := SpawnedSock(BoundId(sys.id.dstIp, sys.id.dstPort), p, sys.id.dstIp, env);
      sys.Put(Server, sys.server.(phase := Live, isn := env.isn, sock := s), [])
    case Visit(side, v) =>
      var (e, sent) := VisitOf(sys.At(side), v);
      sys.Put(side, e, sent)
    case Deliver(to, p, env, replySent) =>
      var (e, sent) := DeliverTo(sys.At(to), p, env, replySent);
      sys.Put(to, e, sent)
  }

  /** What a step does to one side. */
  lemma NextAt(sys: Sys, step: Step, side: Side)
    requires Enabled(sys, step)
    ensures step.Visit? && step.side == side ==> Next(sys, step).At(side) == VisitOf(sys.At(side), step.visit).0
    ensures step.Deliver? && step.to == side ==>
              Next(sys, step).At(side) == DeliverTo(sys.At(side), step.p, step.env, step.replySent).0
    ensures (step.Visit? && step.side != side) || (step.Deliver? && step.to != side) ==>
              Next(sys, step).At(side) == sys.At(side)
    ensures step.Connect? || step.Spawn? ==>
              Next(sys, step).At(side) == sys.At(side) ||
              (sys.At(side).phase.Idle? && Next(sys, step).At(side).phase.Live? &&
               Next(sys, step).At(side).sock.state == if side.Client? then SynSent else SynReceived)
  {
  }

  /** Every step can be taken where it stands. */
  predicate ValidRun(sys: Sys, steps: seq<Step>)
    decreases |steps|
  {
    steps == [] || (Enabled(sys, steps[0]) && ValidRun(Next(sys, steps[0]), steps[1..]))
  }

  function Exec(sys: Sys, steps: seq<Step>): Sys
    requires ValidRun(sys, steps)
    decreases |steps|
  {
    if steps == [] then sys else Exec(Next(sys, steps[0]), steps[1..])
  }
}
