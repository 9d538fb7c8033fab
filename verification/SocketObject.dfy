/** The mutable socket of socket_utils.c and packet_handlers.c, proved to compute the functions of SocketModel. */
module SocketObject {
  import opened Common
  import opened Packets
  import opened ReceiveWindow
  import opened SocketModel
  import opened ArrayQueue

  /** The socket id struct: shared, by reference, between a socket and the table that holds it. */
  class SocketID {
    var srcIp: string
    var srcPort: int
    var dstIp: string
    var dstPort: int

    constructor (id: Id)
      ensures View() == id
    {
      srcIp, srcPort, dstIp, dstPort := id.srcIp, id.srcPort, id.dstIp, id.dstPort;
    }

    function View(): Id
      reads this
    {
      Id(srcIp, srcPort, dstIp, dstPort)
    }

    method SetDestination(ip: string, port: int)
      modifies this
      ensures View() == old(View()).(dstIp := ip, dstPort := port)
    {
      dstIp, dstPort := ip, port;
    }
  }

  class Socket {
    const id: SocketID
    var state: TcpState
    const sendWindow: Queue
    var seqOfFirstSendWindow: int
    const recvWindow: array<char>
    const recvWindowIsvalid: array<bool>
    var seqOfFirstRecvWindow: int
    var maxConnections: int
    var lastSendClock: int
    const creationTime: int
    var timeSinceFinSent: int

    /** The heap objects a socket consists of. */
    ghost const Repr: set<object>

    ghost predicate Valid()
      reads this, Repr
      ensures Valid() ==> this in Repr
    {
      && this in Repr && id in Repr && sendWindow in Repr && sendWindow.cells in Repr
      && recvWindow in Repr && recvWindowIsvalid in Repr
      && recvWindow != sendWindow.cells
      && recvWindow.Length == WINDOW_SIZE && recvWindowIsvalid.Length == WINDOW_SIZE
      && sendWindow.Valid()
    }

    ghost function RecvView(): (w: Window)
      reads this, recvWindow, recvWindowIsvalid
      requires recvWindow.Length == WINDOW_SIZE && recvWindowIsvalid.Length == WINDOW_SIZE
      ensures w.Sized()
    {
      Window(seqOfFirstRecvWindow, recvWindow[..], recvWindowIsvalid[..])
    }

    ghost function View(): (s: Sock)
      reads this, Repr
      requires Valid()
      ensures s.Shaped()
    {
      Sock(id.View(), state, sendWindow.Contents(), seqOfFirstSendWindow, RecvView(),
           maxConnections, lastSendClock, creationTime, timeSinceFinSent)
    }

    /** create_new_socket, with the id and state its callers give it next. */
    constructor (id: SocketID, state: TcpState, now: int)
      ensures Valid() && fresh(Repr - {id}) && this.id == id
      ensures View() == NewSock(id.View(), state, now)
    {
      this.id := id;
      this.state := state;
      var q := new Queue();
      var bytes := new char[WINDOW_SIZE](_ => '\0');
      var valid := new bool[WINDOW_SIZE](_ => false);
      sendWindow, recvWindow, recvWindowIsvalid := q, bytes, valid;
      seqOfFirstSendWindow, seqOfFirstRecvWindow, maxConnections := 0, 0, 0;
      lastSendClock, creationTime, timeSinceFinSent := now, now, now;
      Repr := {this, id, q, q.cells, bytes, valid};
      new;
      assert recvWindow[..] == EmptyWindow(0).bytes && recvWindowIsvalid[..] == EmptyWindow(0).valid;
    }

    // ---------------------------------------------------------------- the receive window

    /** update_recv_window */
    method UpdateRecvWindow(room: int) returns (written: string)
      requires Valid()
      modifies this`seqOfFirstRecvWindow, recvWindow, recvWindowIsvalid
      ensures Valid() && sendWindow.Contents() == old(sendWindow.Contents())
      ensures (RecvView(), written) == Update(old(RecvView()), room)
    {
      ghost var w := RecvView();
      var n := CountLeading(recvWindowIsvalid);
      hide Slide, Leading, Shifted, Cleared;
      var k := WriteResult(room, n);
      if k == -1 {
        return "";
      }
      written := recvWindow[..k];
      seqOfFirstRecvWindow := seqOfFirstRecvWindow + k;
      ShiftWindow(recvWindow, recvWindowIsvalid, k);
      SlideIs(w, k, recvWindow[..], recvWindowIsvalid[..]);
    }

    /** receiveNewData */
    method ReceiveNewData(p: Packet, room: int) returns (written: string)
      requires Valid()
      modifies this`seqOfFirstRecvWindow, recvWindow, recvWindowIsvalid
      ensures Valid() && sendWindow.Contents() == old(sendWindow.Contents())
      ensures (RecvView(), written) == Receive(old(RecvView()), p.seqNum, p.data, room)
    {
      TakeMissing(p);
      written := UpdateRecvWindow(room);
    }

    /** The loop of receiveNewData. */
    method TakeMissing(p: Packet)
      requires Valid()
      modifies recvWindow, recvWindowIsvalid
      ensures Valid() && sendWindow.Contents() == old(sendWindow.Contents())
      ensures RecvView() == Fill(old(RecvView()), p.seqNum, p.data)
    {
      ghost var w := RecvView();
      for i := 0 to |p.data|
        invariant forall j :: 0 <= j < WINDOW_SIZE ==>
          recvWindowIsvalid[j] == (w.valid[j] || p.seqNum <= w.base + j < p.seqNum + i)
        invariant forall j :: 0 <= j < WINDOW_SIZE ==>
          recvWindow[j] == if !w.valid[j] && p.seqNum <= w.base + j < p.seqNum + i then p.data[w.base + j - p.seqNum]
                           else w.bytes[j]
      {
        var currentByteSeq := p.seqNum + i;
        var placeInWindow := currentByteSeq - seqOfFirstRecvWindow;
        if placeInWindow >= 0 && placeInWindow < WINDOW_SIZE {
          if !recvWindowIsvalid[placeInWindow] {
            recvWindow[placeInWindow] := p.data[i];
            recvWindowIsvalid[placeInWindow] := true;
          }
        }
      }
      var f := Fill(w, p.seqNum, p.data);
      assert recvWindow[..] == f.bytes && recvWindowIsvalid[..] == f.valid;
    }

    // ---------------------------------------------------------------- packet handlers

    /** construct_packet */
    method ConstructPacket(data: string, flags: Flags, dstPort: int) returns (p: Packet)
      requires Valid()
      ensures p == Construct(View(), data, flags, dstPort)
    {
      p := MakePacket(id.srcPort, dstPort, seqOfFirstSendWindow, seqOfFirstRecvWindow, flags, data);
    }

    /** The loop of handle_packet_established that drops acknowledged bytes. */
    method DropAcknowledged(ackNum: int)
      requires Valid()
      modifies this`seqOfFirstSendWindow, sendWindow, sendWindow.cells
      ensures Valid() && View() == Acknowledge(old(View()), ackNum)
    {
      hide Queue.Contents, Queue.Valid;
      ghost var q, base := sendWindow.Contents(), seqOfFirstSendWindow;
      ghost var k := 0;
      while seqOfFirstSendWindow < ackNum && sendWindow.size != 0
        invariant Valid() && 0 <= k <= |q| && seqOfFirstSendWindow == base + k
        invariant sendWindow.Contents() == q[k..] && (k > 0 ==> base + k <= ackNum)
        invariant RecvView() == old(RecvView()) && id.View() == old(id.View())
        decreases |q| - k
      {
        var _ := sendWindow.Dequeue();
        seqOfFirstSendWindow := seqOfFirstSendWindow + 1;
        k := k + 1;
      }
    }

    method HandleSynSent(p: Packet, env: Env)
      requires Valid() && state.SynSent?
      modifies this
      ensures Valid() && View() == SocketModel.HandleSynSent(old(View()), p, env).sock
    {
      if !p.flags.syn {
        return;
      }
      if !p.flags.ack || p.ackNum != seqOfFirstSendWindow {
        return;
      }
      if env.notifyOk {
        seqOfFirstRecvWindow := p.seqNum + 1;
        state := Established;
      }
    }

    method HandleSynReceived(p: Packet, env: Env)
      requires Valid() && state.SynReceived?
      modifies this
      ensures Valid() && View() == SocketModel.HandleSynReceived(old(View()), p, env).sock
    {
      if !p.flags.ack {
        return;
      }
      if !(p.ackNum == seqOfFirstSendWindow) {
        return;
      }
      if env.notifyOk {
        state := Established;
      }
    }

    method HandleEstablished(p: Packet, env: Env) returns (reply: Option<Packet>, written: string)
      requires Valid() && state.Established?
      modifies Repr - {id}
      ensures Valid()
      ensures Outcome(View(), reply, written, None) == SocketModel.HandleEstablished(old(View()), p, env)
    {
      reply, written := None, "";
      if p.flags.syn {
        return;
      }
      if p.flags.fin {
        state := CloseWait;
        seqOfFirstRecvWindow := p.seqNum + 1;
        seqOfFirstSendWindow := seqOfFirstSendWindow + sendWindow.size;
        return;
      }
      if p.flags.ack {
        DropAcknowledged(p.ackNum);
      }
      if p.data != "" {
        written := ReceiveNewData(p, env.room);
        var r := ConstructPacket("", ACK, p.srcPort);
        reply := Some(r);
      }
    }

    method HandleLastAck(p: Packet)
      requires Valid() && state.LastAck?
      modifies this
      ensures Valid() && View() == SocketModel.HandleLastAck(old(View()), p).sock
    {
      if !p.flags.ack {
        return;
      }
      if p.ackNum <= seqOfFirstSendWindow {
        return;
      }
      state := Closed;
    }

    method HandleFinWait1(p: Packet, env: Env)
      requires Valid() && state.FinWait1?
      modifies this
      ensures Valid() && View() == SocketModel.HandleFinWait1(old(View()), p, env).sock
    {
      var receivedAckForOwnFin := false;
      if p.flags.ack {
        if p.ackNum > seqOfFirstSendWindow {
          receivedAckForOwnFin := true;
          state := FinWait2;
        }
      }
      if p.flags.fin {
        seqOfFirstRecvWindow := p.seqNum + 1;
        state := Closing;
        timeSinceFinSent := env.now;
        if receivedAckForOwnFin {
          lastSendClock := env.now;
          state := TimeWait;
        }
      }
    }

    method HandleFinWait2(p: Packet) returns (reply: Option<Packet>)
      requires Valid() && state.FinWait2?
      modifies this
      ensures Valid() && Outcome(View(), reply, "", None) == SocketModel.HandleFinWait2(old(View()), p)
    {
      reply := None;
      if p.flags.fin {
        state := TimeWait;
        seqOfFirstRecvWindow := p.seqNum + 1;
        var r := ConstructPacket("", ACK, p.srcPort);
        reply := Some(r);
      }
    }

    method HandleClosing(p: Packet, env: Env)
      requires Valid() && state.Closing?
      modifies this
      ensures Valid() && View() == SocketModel.HandleClosing(old(View()), p, env).sock
    {
      if p.flags.ack {
        if p.ackNum > seqOfFirstSendWindow {
          lastSendClock := env.now;
          state := TimeWait;
        }
      }
    }

    /** handle_packet for every state but LISTEN, whose handler works on the manager's table. */
    method HandlePacket(p: Packet, srcIp: string, env: Env) returns (reply: Option<Packet>, written: string)
      requires Valid() && !state.Listen?
      modifies Repr - {id}
      ensures Valid()
      ensures Outcome(View(), reply, written, None) == SocketModel.HandlePacket(old(View()), p, srcIp, env)
    {
      reply, written := None, "";
      if p.flags.rst {
        state := Closed;
        return;
      }
      if p.srcPort != id.dstPort {
        return;
      }
      match state {
        case Closed =>
        case SynSent => HandleSynSent(p, env);
        case SynReceived => HandleSynReceived(p, env);
        case Established => reply, written := HandleEstablished(p, env);
        case CloseWait =>
        case LastAck => HandleLastAck(p);
        case FinWait1 => HandleFinWait1(p, env);
        case FinWait2 => reply := HandleFinWait2(p);
        case Closing => HandleClosing(p, env);
        case TimeWait =>
      }
    }

    // ---------------------------------------------------------------- periodic checks

    /** The effect of check_and_handle_listen_request on the socket. */
    method ListenCommand(limit: int, acceptFifoOk: bool, replyOk: bool)
      requires Valid() && !state.Listen?
      modifies this
      ensures Valid() && View() == SocketModel.ListenCommand(old(View()), limit, acceptFifoOk, replyOk)
    {
      state := Listen;
      maxConnections := limit;
      var granted := true;
      if !acceptFifoOk {
        granted := false;
        state := Closed;
      }
      if !replyOk && granted {
        state := Closed;
      }
    }

    /** The effect of check_and_handle_connect_request on a socket outside the table. */
    method ConnectCommand(dstIp: string, dstPort: int, isn: int)
      requires Valid() && state.Closed?
      modifies this, id
      ensures Valid() && View() == SocketModel.ConnectCommand(old(View()), dstIp, dstPort, isn)
    {
      state := SynSent;
      seqOfFirstSendWindow := isn;
      seqOfFirstRecvWindow := 0;
      id.SetDestination(dstIp, dstPort);
    }

    /** The effect of check_and_handle_close_command; a socket still connecting gives up its destination. */
    method CloseCommand(now: int)
      requires Valid()
      modifies this, id
      ensures Valid() && View() == SocketModel.CloseCommand(old(View()), now)
    {
      if state.SynSent? {
        id.SetDestination(EMPTY_IP, EMPTY_PORT);
      }
      seqOfFirstSendWindow := seqOfFirstSendWindow + sendWindow.size;
      state := FinWait1;
      timeSinceFinSent := now;
    }

    method TrySend(p: Packet, r: SendResult, now: int) returns (sent: seq<Packet>)
      requires Valid()
      modifies this`lastSendClock
      ensures Valid() && Action(View(), sent) == SocketModel.TrySend(old(View()), p, r, now)
    {
      sent := [];
      if r.Sent? && !IsEmptyIp(id.dstIp) {
        lastSendClock := now;
        sent := [p];
      }
    }

    /** check_and_handle_send_window */
    method SendWindow(env: VisitEnv) returns (sent: seq<Packet>)
      requires Valid()
      modifies this, sendWindow`iterator_
      ensures Valid() && Action(View(), sent) == SocketModel.SendWindow(old(View()), env)
    {
      sent := [];
      if state != Established {
        return;
      }
      if Elapsed(env.now, lastSendClock, SEND_AGAIN_TIME) {
        var data := sendWindow.FirstElements(MAX_DATA);
        var p := ConstructPacket(data, ACK, id.dstPort);
        sent := TrySend(p, env.dataSend, env.now);
      }
    }

    /** The read loop of check_and_handle_outgoing_status_messages. */
    method AcceptBytes(offered: string)
      requires Valid()
      modifies sendWindow, sendWindow.cells
      ensures Valid()
      ensures View() == old(View()).(sendQ := old(View()).sendQ + Taken(old(View()), offered))
    {
      hide Queue.Contents, Queue.Valid;
      ghost var q := sendWindow.Contents();
      var i := 0;
      while i < MAX_DATA
        invariant Valid() && 0 <= i <= MAX_DATA && i <= |offered| && |q| + i <= QUEUE_CAPACITY
        invariant sendWindow.Contents() == q + offered[..i]
        invariant RecvView() == old(RecvView()) && id.View() == old(id.View())
      {
        if sendWindow.size >= QUEUE_CAPACITY {
          break;
        }
        if i >= |offered| {
          break;
        }
        var _ := sendWindow.Enqueue(offered[i]);
        assert offered[..i + 1] == offered[..i] + [offered[i]];
        i := i + 1;
      }
    }

    /** check_and_handle_outgoing_status_messages */
    method StatusMessages(env: VisitEnv) returns (sent: seq<Packet>)
      requires Valid()
      modifies Repr - {id}
      ensures Valid() && Action(View(), sent) == SocketModel.StatusMessages(old(View()), env)
    {
      sent := [];
      match state {
        case SynSent => sent := ReportHandshake(SYN, env);
        case SynReceived => sent := ReportHandshake(SYN_ACK, env);
        case Established => AcceptBytes(env.offered);
        case FinWait1 => sent := ReportFinWait1(env);
        case CloseWait =>
          seqOfFirstSendWindow := seqOfFirstSendWindow + sendWindow.size;
          state := LastAck;
        case Closing => sent := ReportClosing(env);
        case LastAck => sent := ReportLastAck(env);
        case TimeWait =>
          if Elapsed(env.now, lastSendClock, TIME_WAIT_TIMEOUT) {
            state := Closed;
          }
        case Closed =>
        case Listen =>
        case FinWait2 =>
      }
    }

    /** Builds a handshake packet with the number before the first, as the C code does by stepping back and forth. */
    method ConstructEarlier(flags: Flags) returns (p: Packet)
      requires Valid()
      modifies this`seqOfFirstSendWindow
      ensures Valid() && View() == old(View())
      ensures p == Construct(View().(sndBase := View().sndBase - 1), "", flags, View().id.dstPort)
    {
      seqOfFirstSendWindow := seqOfFirstSendWindow - 1;
      p := ConstructPacket("", flags, id.dstPort);
      seqOfFirstSendWindow := seqOfFirstSendWindow + 1;
    }

    method ReportHandshake(flags: Flags, env: VisitEnv) returns (sent: seq<Packet>)
      requires Valid() && ((state == SynSent && flags == SYN) || (state == SynReceived && flags == SYN_ACK))
      modifies this`seqOfFirstSendWindow, this`lastSendClock
      ensures Valid() && Action(View(), sent) == SocketModel.StatusMessages(old(View()), env)
    {
      sent := [];
      if Elapsed(env.now, lastSendClock, SEND_AGAIN_TIME) {
        var p := ConstructEarlier(flags);
        sent := TrySend(p, env.statusSend, env.now);
      }
    }

    method ReportLastAck(env: VisitEnv) returns (sent: seq<Packet>)
      requires Valid() && state.LastAck?
      modifies this`lastSendClock
      ensures Valid() && Action(View(), sent) == SocketModel.StatusMessages(old(View()), env)
    {
      sent := [];
      if Elapsed(env.now, lastSendClock, SEND_AGAIN_TIME) {
        var p := ConstructPacket("", FIN_ACK, id.dstPort);
        sent := TrySend(p, env.statusSend, env.now);
      }
    }

    method ReportClosing(env: VisitEnv) returns (sent: seq<Packet>)
      requires Valid() && state.Closing?
      modifies this`state
      ensures Valid() && Action(View(), sent) == SocketModel.StatusMessages(old(View()), env)
    {
      sent := [];
      if Elapsed(env.now, timeSinceFinSent, FIN_RST_TIME) {
        var rst := ConstructPacket("", RST, id.dstPort);
        if env.rstSend.Sent? && !IsEmptyIp(id.dstIp) {
          state := TimeWait;
          sent := [rst];
        }
      }
    }

    method ReportFinWait1(env: VisitEnv) returns (sent: seq<Packet>)
      requires Valid() && state.FinWait1?
      modifies this
      ensures Valid() && Action(View(), sent) == SocketModel.StatusMessages(old(View()), env)
    {
      sent := [];
      if Elapsed(env.now, timeSinceFinSent, FIN_RST_TIME) {
        var rst := ConstructPacket("", RST, id.dstPort);
        var result := if env.rstSend.Sent? && IsEmptyIp(id.dstIp) then NoRecipient else env.rstSend;
        if result != SendFailed {
          state := TimeWait;
          sent := if result.Sent? then [rst] else [];
          return;
        }
      }
      if Elapsed(env.now, lastSendClock, SEND_AGAIN_TIME) {
        var fin := ConstructPacket("", FIN, id.dstPort);
        sent := TrySend(fin, env.statusSend, env.now);
      }
    }
  }

  /** The first loop of update_recv_window. */
  method CountLeading(valid: array<bool>) returns (n: nat)
    ensures n == Leading(valid[..])
  {
    n := 0;
    while n < valid.Length && valid[n]
      invariant 0 <= n <= valid.Length && forall i :: 0 <= i < n ==> valid[i]
    {
      n := n + 1;
    }
    LeadingIs(valid[..], n);
  }

  lemma LeadingIs(valid: seq<bool>, n: nat)
    requires n <= |valid| && (forall i :: 0 <= i < n ==> valid[i]) && (n < |valid| ==> !valid[n])
    ensures Leading(valid) == n
  {
    LeadingAtLeast(valid, n);
  }

  predicate Shifted(a: string, b: string, k: nat) {
    |a| == |b| && forall j :: 0 <= j < |a| ==> b[j] == a[if j + k < |a| then j + k else j]
  }

  predicate Cleared(a: seq<bool>, b: seq<bool>, k: nat) {
    |a| == |b| && forall j :: 0 <= j < |a| ==> b[j] == (j + k < |a| && a[j + k])
  }

  /** The first i places have been filled from k places further right. */
  ghost predicate MovedTo<T>(a: seq<T>, b: seq<T>, k: nat, i: nat) {
    |a| == |b| && i + k <= |a| && forall j :: 0 <= j < |a| ==> b[j] == a[if j < i then j + k else j]
  }

  lemma MovedStep<T>(a: seq<T>, b: seq<T>, k: nat, i: nat)
    requires MovedTo(a, b, k, i) && i + k < |a|
    ensures MovedTo(a, b[i := b[i + k]], k, i + 1)
  {
    assert b[i + k] == a[i + k];
  }

  lemma SlideIs(w: Window, k: nat, bytes: string, valid: seq<bool>)
    requires w.Sized() && k <= WINDOW_SIZE && Shifted(w.bytes, bytes, k) && Cleared(w.valid, valid, k)
    ensures Slide(w, k) == Window(w.base + k, bytes, valid)
  {
    assert Slide(w, k).bytes == bytes && Slide(w, k).valid == valid;
  }

  /** The first shifting loop of update_recv_window. */
  method ShiftWindow(bytes: array<char>, valid: array<bool>, k: nat)
    requires bytes.Length == WINDOW_SIZE && valid.Length == WINDOW_SIZE && k <= WINDOW_SIZE
    modifies bytes, valid
    ensures Shifted(old(bytes[..]), bytes[..], k) && Cleared(old(valid[..]), valid[..], k)
  {
    ghost var b, v := bytes[..], valid[..];
    var kept := WINDOW_SIZE - k;
    for i := 0 to kept
      invariant MovedTo(b, bytes[..], k, i) && MovedTo(v, valid[..], k, i)
    {
      hide MovedTo;
      MovedStep(b, bytes[..], k, i);
      MovedStep(v, valid[..], k, i);
      ghost var b1, v1 := bytes[..], valid[..];
      bytes[i] := bytes[i + k];
      valid[i] := valid[i + k];
      assert bytes[..] == b1[i := b1[i + k]] && valid[..] == v1[i := v1[i + k]];
    }
    ghost var v2 := valid[..];
    ClearFrom(valid, kept);
    MovedThenCleared(b, bytes[..], v, v2, valid[..], k);
  }

  lemma MovedThenCleared(b: string, b': string, v: seq<bool>, v': seq<bool>, v'': seq<bool>, k: nat)
    requires |b| == |v| && k <= |b| && MovedTo(b, b', k, |b| - k) && MovedTo(v, v', k, |v| - k)
    requires |v''| == |v| && forall j :: 0 <= j < |v| ==> v''[j] == (j < |v| - k && v'[j])
    ensures Shifted(b, b', k) && Cleared(v, v'', k)
  {
  }

  /** The second. */
  method ClearFrom(valid: array<bool>, kept: nat)
    requires kept <= valid.Length
    modifies valid
    ensures forall j :: 0 <= j < valid.Length ==> valid[j] == (j < kept && old(valid[j]))
  {
    for i := kept to valid.Length
      invariant forall j :: 0 <= j < valid.Length ==> valid[j] == (old(valid[j]) && !(kept <= j < i))
    {
      valid[i] := false;
    }
  }
}
