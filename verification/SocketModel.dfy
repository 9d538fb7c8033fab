/** One TCP socket as a value, and what each handler of packet_handlers.c and each periodic check of
    network_manager.c makes of it. The classes in SocketObject.dfy are proved to compute these functions; the protocol
    theorems are about them. */
module SocketModel {
  import opened Common
  import opened Packets
  import opened ReceiveWindow

  datatype TcpState =
    | Closed | Listen | SynSent | SynReceived | Established | CloseWait
    | LastAck | FinWait1 | FinWait2 | Closing | TimeWait

  // ---------------------------------------------------------------- socket ids (socket_utils.c)

  datatype Id = Id(srcIp: string, srcPort: int, dstIp: string, dstPort: int)

  const EMPTY_IP: string := "eeeeeeeeeeeeeeee"

  datatype IdKind = ConnectedSocket | BoundOnlySocket | EmptySocket | InvalidSocket

  predicate IsEmptyIp(ip: string) {
    ip != "" && ip[0] == 'e'
  }

  /** get_socket_state */
  function Kind(id: Id): IdKind {
    if !IsEmptyIp(id.dstIp) && id.dstPort != EMPTY_PORT && !IsEmptyIp(id.srcIp) && id.srcPort != EMPTY_PORT
    then ConnectedSocket
    else if IsEmptyIp(id.dstIp) && id.dstPort == EMPTY_PORT && !IsEmptyIp(id.srcIp) && id.srcPort != EMPTY_PORT
    then BoundOnlySocket
    else if IsEmptyIp(id.dstIp) && id.dstPort == EMPTY_PORT && IsEmptyIp(id.srcIp) && id.srcPort == EMPTY_PORT
    then EmptySocket
    else InvalidSocket
  }

  function BoundId(srcIp: string, srcPort: int): Id {
    Id(srcIp, srcPort, EMPTY_IP, EMPTY_PORT)
  }

  // ---------------------------------------------------------------- the socket

  /** recv holds seq_of_first_recv_window and the window arrays; sendQ is the queue's contents. */
  datatype Sock = Sock(
    id: Id, state: TcpState, sendQ: string, sndBase: int, recv: Window,
    maxConnections: int, lastSend: int, created: int, finSent: int)
  {
    predicate Shaped() {
      recv.Sized() && |sendQ| <= QUEUE_CAPACITY
    }
  }

  /** create_new_socket. The C code leaves max_connections and time_since_fin_sent unset; both are written
      before they are read, so any value will do. */
  function NewSock(id: Id, state: TcpState, now: int): Sock {
    Sock(id, state, "", 0, EmptyWindow(0), 0, now, now, now)
  }

  /** construct_packet */
  function Construct(s: Sock, data: string, flags: Flags, dstPort: int): Packet {
    MakePacket(s.id.srcPort, dstPort, s.sndBase, s.recv.base, flags, data)
  }

  // ---------------------------------------------------------------- results of the outside world

  /** What the operating system does during one packet delivery: the clock, the room in the reader's fifo
      (negative when it cannot be opened), whether the waiting user could be notified, and for a listener
      the new sequence number and whether the new socket could be made and inserted. */
  datatype Env = Env(now: int, room: int, notifyOk: bool, isn: int, spawnOk: bool)

  /** send_TCP_packet: 0, -1 and -2. */
  datatype SendResult = Sent | SendFailed | NoRecipient

  /** One visit of the manager loop to a socket: the clock, whether a close command is waiting, what the
      writer's fifo yields before it runs dry, and the result of each send that may be tried. */
  datatype VisitEnv = VisitEnv(now: int, close: bool, offered: string,
                               dataSend: SendResult, rstSend: SendResult, statusSend: SendResult)

  /** New socket value, reply to send, bytes handed to the reader, and socket spawned by a listener. */
  datatype Outcome = Outcome(sock: Sock, reply: Option<Packet>, written: string, spawned: Option<Sock>)

  function Quiet(s: Sock): Outcome {
    Outcome(s, None, "", None)
  }

  // ---------------------------------------------------------------- packet handlers (packet_handlers.c)

  /** How many queued bytes an acknowledgement removes. */
  function AckedCount(s: Sock, ackNum: int): (k: nat)
    ensures k <= |s.sendQ|
  {
    Max(0, Min(ackNum - s.sndBase, |s.sendQ|))
  }

  function Acknowledge(s: Sock, ackNum: int): Sock {
    var k := AckedCount(s, ackNum);
    s.(sendQ := s.sendQ[k..], sndBase := s.sndBase + k)
  }

  function HandleListen(s: Sock, p: Packet, srcIp: string, env: Env): Outcome {
    if !p.flags.syn then Quiet(s)
    else if s.maxConnections == 0 then Outcome(s, Some(Construct(s, "", RST, p.srcPort)), "", None)
    else if !env.spawnOk then Quiet(s)
    else Outcome(s.(maxConnections := s.maxConnections - 1), None, "",
                 Some(SpawnedSock(s.id, p, srcIp, env)))
  }

  /** The connection socket a listener makes for a SYN. */
  function SpawnedSock(listener: Id, p: Packet, srcIp: string, env: Env): Sock {
    var s := NewSock(listener.(dstIp := srcIp, dstPort := p.srcPort), SynReceived, env.now);
    s.(sndBase := env.isn, recv := s.recv.(base := p.seqNum + 1))
  }

  function HandleSynSent(s: Sock, p: Packet, env: Env): Outcome {
    if !p.flags.syn || !p.flags.ack || p.ackNum != s.sndBase || !env.notifyOk then Quiet(s)
    else Quiet(s.(state := Established, recv := s.recv.(base := p.seqNum + 1)))
  }

  function HandleSynReceived(s: Sock, p: Packet, env: Env): Outcome {
    if !p.flags.ack || p.ackNum != s.sndBase || !env.notifyOk then Quiet(s)
    else Quiet(s.(state := Established))
  }

  function HandleEstablished(s: Sock, p: Packet, env: Env): Outcome
    requires s.Shaped()
  {
    if p.flags.syn then Quiet(s)
    else if p.flags.fin then
      Quiet(s.(state := CloseWait, recv := s.recv.(base := p.seqNum + 1), sndBase := s.sndBase + |s.sendQ|))
    else
      var s1 := if p.flags.ack then Acknowledge(s, p.ackNum) else s;
      if p.data == "" then Quiet(s1)
      else
        var (w, out) := Receive(s1.recv, p.seqNum, p.data, env.room);
        var s2 := s1.(recv := w);
        Outcome(s2, Some(Construct(s2, "", ACK, p.srcPort)), out, None)
  }

  function HandleLastAck(s: Sock, p: Packet): Outcome {
    if !p.flags.ack || p.ackNum <= s.sndBase then Quiet(s) else Quiet(s.(state := Closed))
  }

  function HandleFinWait1(s: Sock, p: Packet, env: Env): Outcome {
    var acked := p.flags.ack && p.ackNum > s.sndBase;
    if !p.flags.fin then Quiet(if acked then s.(state := FinWait2) else s)
    else
      var s1 := s.(recv := s.recv.(base := p.seqNum + 1), finSent := env.now);
      Quiet(if acked then s1.(lastSend := env.now, state := TimeWait) else s1.(state := Closing))
  }

  function HandleFinWait2(s: Sock, p: Packet): Outcome {
    if !p.flags.fin then Quiet(s)
    else
      var s1 := s.(state := TimeWait, recv := s.recv.(base := p.seqNum + 1));
      Outcome(s1, Some(Construct(s1, "", ACK, p.srcPort)), "", None)
  }

  function HandleClosing(s: Sock, p: Packet, env: Env): Outcome {
    if p.flags.ack && p.ackNum > s.sndBase then Quiet(s.(lastSend := env.now, state := TimeWait)) else Quiet(s)
  }

  /** handle_packet */
  function HandlePacket(s: Sock, p: Packet, srcIp: string, env: Env): Outcome
    requires s.Shaped()
  {
    if p.flags.rst && !s.state.Listen? then Quiet(s.(state := Closed))
    else if !s.state.Listen? && p.srcPort != s.id.dstPort then Quiet(s)
    else match s.state
      case Closed => Quiet(s)
      case Listen => HandleListen(s, p, srcIp, env)
      case SynSent => HandleSynSent(s, p, env)
      case SynReceived => HandleSynReceived(s, p, env)
      case Established => HandleEstablished(s, p, env)
      case CloseWait => Quiet(s)
      case LastAck => HandleLastAck(s, p)
      case FinWait1 => HandleFinWait1(s, p, env)
      case FinWait2 => HandleFinWait2(s, p)
      case Closing => HandleClosing(s, p, env)
      case TimeWait => Quiet(s)
  }

  /** handle_incoming_ip_packet after the handler: a reply that could be sent resets the retransmission clock. */
  function AfterReply(o: Outcome, replySent: bool, now: int): Sock {
    if o.reply.Some? && replySent then o.sock.(lastSend := now) else o.sock
  }

  // ---------------------------------------------------------------- periodic checks (network_manager.c)

  /** New socket value and the packets that left. */
  datatype Action = Action(sock: Sock, sent: seq<Packet>)

  /** A send to the empty ip finds no fifo to open. */
  function Routed(s: Sock, r: SendResult): SendResult {
    if r.Sent? && IsEmptyIp(s.id.dstIp) then NoRecipient else r
  }

  function TrySend(s: Sock, p: Packet, r: SendResult, now: int): Action {
    if Routed(s, r).Sent? then Action(s.(lastSend := now), [p]) else Action(s, [])
  }

  /** check_and_handle_close_command, once the command byte has been read. */
  function CloseCommand(s: Sock, now: int): Sock {
    var s1 := if s.state.SynSent? then s.(id := s.id.(dstIp := EMPTY_IP, dstPort := EMPTY_PORT)) else s;
    s1.(sndBase := s.sndBase + |s.sendQ|, state := FinWait1, finSent := now)
  }

  /** check_and_handle_connect_request on a bound socket. */
  function ConnectCommand(s: Sock, dstIp: string, dstPort: int, isn: int): Sock {
    s.(id := s.id.(dstIp := dstIp, dstPort := dstPort), state := SynSent, sndBase := isn,
       recv := s.recv.(base := 0))
  }

  /** The test of check_and_handle_closed_socket. */
  predicate ReapDue(s: Sock, now: int) {
    s.state.Closed? && Elapsed(now, s.created, SOCKET_TIMEOUT)
  }

  /** get_next_socket_packet_data */
  function NextData(q: string): (d: string)
    ensures |d| <= MAX_DATA
  {
    var d := UntilNul(q);
    d[..Min(|d|, MAX_DATA)]
  }

  function DataPacket(s: Sock): Packet {
    Construct(s, NextData(s.sendQ), ACK, s.id.dstPort)
  }

  /** check_and_handle_send_window */
  function SendWindow(s: Sock, env: VisitEnv): Action {
    if !s.state.Established? || !Elapsed(env.now, s.lastSend, SEND_AGAIN_TIME) then Action(s, [])
    else TrySend(s, DataPacket(s), env.dataSend, env.now)
  }

  /** The bytes taken from the writer in one visit. */
  function Taken(s: Sock, offered: string): (r: string)
    requires s.Shaped()
    ensures r <= offered && |r| <= MAX_DATA && |s.sendQ| + |r| <= QUEUE_CAPACITY
  {
    offered[..Min(|offered|, Min(MAX_DATA, QUEUE_CAPACITY - |s.sendQ|))]
  }

  /** check_and_handle_outgoing_status_messages */
  function StatusMessages(s: Sock, env: VisitEnv): Action
    requires s.Shaped()
  {
    var due := Elapsed(env.now, s.lastSend, SEND_AGAIN_TIME);
    match s.state
    case SynSent =>
      if due then TrySend(s, Construct(s.(sndBase := s.sndBase - 1), "", SYN, s.id.dstPort), env.statusSend, env.now)
      else Action(s, [])
    case SynReceived =>
      if due then
        TrySend(s, Construct(s.(sndBase := s.sndBase - 1), "", SYN_ACK, s.id.dstPort), env.statusSend, env.now)
      else Action(s, [])
    case Established => Action(s.(sendQ := s.sendQ + Taken(s, env.offered)), [])
    case FinWait1 =>
      var rst := Routed(s, env.rstSend);
      if Elapsed(env.now, s.finSent, FIN_RST_TIME) && !rst.SendFailed? then
        Action(s.(state := TimeWait), if rst.Sent? then [Construct(s, "", RST, s.id.dstPort)] else [])
      else if due then TrySend(s, Construct(s, "", FIN, s.id.dstPort), env.statusSend, env.now)
      else Action(s, [])
    case CloseWait => Action(s.(sndBase := s.sndBase + |s.sendQ|, state := LastAck), [])
    case Closing =>
      if Elapsed(env.now, s.finSent, FIN_RST_TIME) && Routed(s, env.rstSend).Sent? then
        Action(s.(state := TimeWait), [Construct(s, "", RST, s.id.dstPort)])
      else Action(s, [])
    case LastAck =>
      if due then TrySend(s, Construct(s, "", FIN_ACK, s.id.dstPort), env.statusSend, env.now)
      else Action(s, [])
    case TimeWait =>
      if Elapsed(env.now, s.lastSend, TIME_WAIT_TIMEOUT) then Action(s.(state := Closed), []) else Action(s, [])
    case Closed => Action(s, [])
    case Listen => Action(s, [])
    case FinWait2 => Action(s, [])
  }

  /** Retransmission, then the status message. */
  function ServeSock(s: Sock, env: VisitEnv): Action
    requires s.Shaped()
  {
    var a := SendWindow(s, env);
    var b := StatusMessages(a.sock, env);
    Action(b.sock, a.sent + b.sent)
  }

  /** check_and_handle_socket_end_fifo: the close command, and whether the socket is then due for removal. */
  function EndCheck(s: Sock, env: VisitEnv): (Sock, bool) {
    var s1 := if env.close then CloseCommand(s, env.now) else s;
    (s1, ReapDue(s1, env.now))
  }

  /** handle_socket_in_network for a connected socket: the new value, whether it left the table, and what was sent. */
  function VisitSock(s: Sock, env: VisitEnv): (Sock, bool, seq<Packet>)
    requires s.Shaped()
  {
    var (s1, removed) := EndCheck(s, env);
    if removed then (s1, true, [])
    else
      var a := ServeSock(s1, env);
      (a.sock, false, a.sent)
  }

  /** A socket closed before its peer answered has nobody to send to: the rest of the visit leaves it alone. */
  lemma ClosedUnheard(s: Sock, env: VisitEnv)
    requires s.Shaped() && s.state.SynSent? && env.close
    ensures VisitSock(s, env) == (EndCheck(s, env).0, false, []) && !EndCheck(s, env).1
  {
    var s1 := CloseCommand(s, env.now);
    assert s1.id.dstIp == EMPTY_IP && IsEmptyIp(EMPTY_IP);
    assert !Elapsed(env.now, s1.finSent, FIN_RST_TIME);
    assert StatusMessages(s1, env) == Action(s1, []);
    assert ServeSock(s1, env) == Action(s1, []);
  }

  /** check_and_handle_listen_request: granted unless the accept fifo or the reply fails. */
  function ListenCommand(s: Sock, limit: int, acceptFifoOk: bool, replyOk: bool): Sock {
    s.(state := if acceptFifoOk && replyOk then Listen else Closed, maxConnections := limit)
  }

  // ---------------------------------------------------------------- lifetime

  /** Distance to CLOSED along the state diagram. */
  function Distance(t: TcpState): nat {
    match t
    case Listen => 10
    case SynSent => 9
    case SynReceived => 9
    case Established => 8
    case CloseWait => 7
    case LastAck => 6
    case FinWait1 => 5
    case FinWait2 => 4
    case Closing => 3
    case TimeWait => 2
    case Closed => 1
  }

  /** Past the data phase: no way back to ESTABLISHED. */
  predicate Past(t: TcpState) {
    Distance(t) < Distance(Established)
  }

  /** No packet whatever, genuine or not, moves a socket away from CLOSED: every change of state brings it strictly
      closer. */
  lemma PacketDescends(s: Sock, p: Packet, srcIp: string, env: Env)
    requires s.Shaped()
    ensures var t := HandlePacket(s, p, srcIp, env).sock;
            t.Shaped() && (t.state == s.state || Distance(t.state) < Distance(s.state))
  {
    hide Fill, Update, NewSock, SpawnedSock;
  }

  /** Nor does any timer. Only the user's close command goes back. */
  lemma StatusDescends(s: Sock, v: VisitEnv)
    requires s.Shaped()
    ensures var t := StatusMessages(s, v).sock;
            t.Shaped() && (t.state == s.state || Distance(t.state) < Distance(s.state))
  {
  }
}
