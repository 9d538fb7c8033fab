/** What a close costs: a side that leaves the data phase sends no more data, so bytes it has accepted and that no
    packet carries by then are never delivered. */
module Truncation {
  import opened Common
  import opened Packets
  import opened ReceiveWindow
  import opened SocketModel
  import opened Protocol
  import opened Invariant
  import opened Safety
  import opened Lifetime
  import opened Progress
  import opened Starvation

  /** Some packet the side has sent carries the byte with this number. */
  predicate Carried(sys: Sys, side: Side, at: int) {
    exists p :: p in sys.From(side) && Covers(p.seqNum, p.data, at)
  }

  /** The window holds the byte with this number. */
  predicate InWindow(w: Window, at: int)
    requires w.Sized()
  {
    w.base <= at < w.base + WINDOW_SIZE && w.valid[at - w.base]
  }

  /** Whatever has reached the peer's reader or waits in its window has come in a packet. */
  ghost predicate Sourced(sys: Sys, side: Side) {
    var x, y := sys.At(side), sys.At(side.Other());
    && (forall at :: x.isn <= at < x.isn + |y.delivered| ==> Carried(sys, side, at))
    && (IsEstablished(y) ==>
          y.sock.recv.Sized() && forall at :: InWindow(y.sock.recv, at) ==> Carried(sys, side, at))
  }

  lemma FillHolds(w: Window, seqNum: int, data: string, at: int)
    requires w.Sized() && InWindow(Fill(w, seqNum, data), at)
    ensures InWindow(w, at) || Covers(seqNum, data, at)
  {
  }

  /** One reception hands over and keeps only bytes that were there or are in the segment. */
  lemma ReceiveSources(w: Window, seqNum: int, data: string, room: int, at: int)
    requires w.Sized()
    ensures var (w', out) := Receive(w, seqNum, data, room);
            && w'.base == w.base + |out|
            && (w.base <= at < w'.base || InWindow(w', at) ==> InWindow(w, at) || Covers(seqNum, data, at))
  {
    var f := Fill(w, seqNum, data);
    if InWindow(f, at) {
      FillHolds(w, seqNum, data, at);
    }
    hide Fill;
  }

  lemma StaysCarried(sys: Sys, step: Step, side: Side, at: int)
    requires Enabled(sys, step) && Carried(sys, side, at)
    ensures Carried(Next(sys, step), side, at)
  {
    hide VisitOf, DeliverTo, Enabled;
    var p :| p in sys.From(side) && Covers(p.seqNum, p.data, at);
    assert p in Next(sys, step).From(side);
  }

  lemma ExpectsNext(sys: Sys, side: Side)
    requires Inv(sys)
    ensures var x, y := sys.At(side), sys.At(side.Other());
            && y.sock.recv.Sized() && (IsEstablished(y) ==> !x.phase.Idle? && y.sock.recv.base == x.isn + |y.delivered|)
            && (x.phase.Idle? || y.phase.Idle? ==> y.delivered == "")
            && (!y.phase.Idle? && Handshaking(y.sock.state) ==>
                  forall i :: 0 <= i < WINDOW_SIZE ==> !y.sock.recv.valid[i])
  {
    assert SideOk(sys, side.Other()) && SideOk(sys, side);
  }

  /** A delivery to an ESTABLISHED end is a reception or leaves its bytes alone. */
  lemma DeliveryReceives(e: Endpoint, p: Packet, env: Env, replySent: bool)
    requires e.sock.Shaped() && e.sock.state.Established?
    ensures var e' := DeliverTo(e, p, env, replySent).0;
            var (w', out) := Receive(e.sock.recv, p.seqNum, p.data, env.room);
            || (e'.delivered == e.delivered && (e'.sock.state.Established? ==> e'.sock.recv == e.sock.recv))
            || (e'.delivered == e.delivered + out && e'.sock.recv == w')
  {
    hide Receive;
  }

  /** An end that becomes ESTABLISHED has an empty window. */
  lemma DeliveryOpens(e: Endpoint, p: Packet, env: Env, replySent: bool)
    requires e.sock.Shaped() && !e.sock.state.Established?
    ensures var e' := DeliverTo(e, p, env, replySent).0;
            && e'.delivered == e.delivered
            && (e'.sock.state.Established? ==> Handshaking(e.sock.state) && e'.sock.recv.valid == e.sock.recv.valid)
  {
    hide Receive;
  }

  /** Bytes an end has been handed, or holds, beyond the first n. */
  ghost predicate HasBeyond(y: Endpoint, start: int, n: nat, at: int)
    requires y.sock.recv.Sized()
  {
    start + n <= at < start + |y.delivered| || (IsEstablished(y) && InWindow(y.sock.recv, at))
  }

  lemma DeliveryBrings(y: Endpoint, start: int, p: Packet, env: Env, replySent: bool, at: int)
    requires y.phase.Live? && y.sock.Shaped()
    requires IsEstablished(y) ==> y.sock.recv.base == start + |y.delivered|
    requires Handshaking(y.sock.state) ==> forall i :: 0 <= i < WINDOW_SIZE ==> !y.sock.recv.valid[i]
    ensures var y' := DeliverTo(y, p, env, replySent).0;
            && y'.sock.recv.Sized() && |y.delivered| <= |y'.delivered|
            && (HasBeyond(y', start, |y.delivered|, at) ==>
                  HasBeyond(y, start, |y.delivered|, at) || Covers(p.seqNum, p.data, at))
  {
    DeliveryShaped(y, p, env, replySent);
    hide DeliverTo, Receive, Covers;
    if y.sock.state.Established? {
      DeliveryReceives(y, p, env, replySent);
      ReceiveSources(y.sock.recv, p.seqNum, p.data, env.room, at);
    } else {
      DeliveryOpens(y, p, env, replySent);
    }
  }

  lemma DeliveryShaped(e: Endpoint, p: Packet, env: Env, replySent: bool)
    requires e.sock.Shaped()
    ensures DeliverTo(e, p, env, replySent).0.sock.recv.Sized()
    ensures DeliverTo(e, p, env, replySent).0.phase == e.phase
  {
    PacketDescends(e.sock, p, e.sock.id.srcIp, env);
  }

  /** The reader's end after a step, in terms of what it had and what the packet carries. */
  lemma ReaderStep(sys: Sys, step: Step, side: Side, at: int)
    requires Inv(sys) && Enabled(sys, step) && !sys.At(side).phase.Idle?
    ensures var x, y, y' := sys.At(side), sys.At(side.Other()), Next(sys, step).At(side.Other());
            && y.sock.recv.Sized() && y'.sock.recv.Sized() && |y.delivered| <= |y'.delivered|
            && (HasBeyond(y', x.isn, |y.delivered|, at) ==>
                  || HasBeyond(y, x.isn, |y.delivered|, at)
                  || (step.Deliver? && step.to == side.Other() && Covers(step.p.seqNum, step.p.data, at)))
  {
    hide Inv, Next, VisitOf, DeliverTo, Receive, Covers, InWindow;
    var other := side.Other();
    var y := sys.At(other);
    NextAt(sys, step, other);
    ExpectsNext(sys, side);
    StepOk(sys, step);
    ExpectsNext(Next(sys, step), side);
    if step.Visit? && step.side == other {
      ReceiverVisit(y, step.visit);
    } else if step.Deliver? && step.to == other {
      DeliveryBrings(y, sys.At(side).isn, step.p, step.env, step.replySent, at);
    } else if step.Connect? || step.Spawn? {
      OpeningHands(sys, step, other);
    }
  }

  lemma OpeningHands(sys: Sys, step: Step, side: Side)
    requires Enabled(sys, step) && (step.Connect? || step.Spawn?)
    ensures Next(sys, step).At(side).delivered == sys.At(side).delivered
  {
  }

  lemma BroughtCarried(sys: Sys, step: Step, side: Side, at: int)
    requires Inv(sys) && Enabled(sys, step) && Sourced(sys, side) && !sys.At(side).phase.Idle?
    requires var y, y' := sys.At(side.Other()), Next(sys, step).At(side.Other());
             y'.sock.recv.Sized() && HasBeyond(y', sys.At(side).isn, |y.delivered|, at)
    ensures Carried(Next(sys, step), side, at)
  {
    ReaderStep(sys, step, side, at);
    hide Inv, Next, Covers, InWindow;
    if step.Deliver? && step.to == side.Other() && Covers(step.p.seqNum, step.p.data, at) {
      assert side.Other().Other() == side && step.p in sys.From(side);
    }
    assert Carried(sys, side, at);
    StaysCarried(sys, step, side, at);
  }

  /** Before a side is set up, nothing has reached its peer. */
  lemma NothingFromIdle(sys: Sys, step: Step, side: Side)
    requires Inv(sys) && Enabled(sys, step) && sys.At(side).phase.Idle?
    ensures var y' := Next(sys, step).At(side.Other()); y'.delivered == "" && !IsEstablished(y')
  {
    StepOk(sys, step);
    ExpectsNext(sys, side);
    ExpectsNext(Next(sys, step), side);
    NextAt(sys, step, side);
    NextAt(sys, step, side.Other());
    hide Inv, VisitOf, DeliverTo;
  }

  /** Every step keeps it: what arrives has come in a packet. */
  lemma StepSourced(sys: Sys, step: Step, side: Side)
    requires Inv(sys) && Enabled(sys, step) && Sourced(sys, side)
    ensures Sourced(Next(sys, step), side)
  {
    hide Inv, Next, Covers, InWindow, Enabled, Carried;
    var x, x', y, y' := sys.At(side), Next(sys, step).At(side), sys.At(side.Other()), Next(sys, step).At(side.Other());
    StepOk(sys, step);
    ExpectsNext(Next(sys, step), side);
    if x.phase.Idle? {
      NothingFromIdle(sys, step, side);
    } else {
      StepForward(sys, step, side);
      forall at | HasBeyond(y', x.isn, |y.delivered|, at) ensures Carried(Next(sys, step), side, at) {
        BroughtCarried(sys, step, side, at);
      }
      forall at | Carried(sys, side, at) ensures Carried(Next(sys, step), side, at) {
        StaysCarried(sys, step, side, at);
      }
    }
  }

  lemma {:induction false} RunSourced(sys: Sys, steps: seq<Step>, side: Side)
    requires Inv(sys) && ValidRun(sys, steps) && Sourced(sys, side)
    ensures Sourced(Exec(sys, steps), side)
    decreases |steps|
  {
    hide Inv, Next, Enabled, Sourced;
    if steps != [] {
      StepOk(sys, steps[0]);
      StepSourced(sys, steps[0], side);
      RunSourced(Next(sys, steps[0]), steps[1..], side);
    }
  }

  // ---------------------------------------------------------------- after the data phase

  /** A side past its data phase sends no more data. */
  lemma {:induction false} NoMoreData(sys: Sys, steps: seq<Step>, side: Side, at: int)
    requires Inv(sys) && ValidRun(sys, steps) && PastData(sys.At(side)) && Carried(Exec(sys, steps), side, at)
    ensures Carried(sys, side, at)
    decreases |steps|
  {
    hide Inv, Next, Enabled, PastData;
    if steps != [] {
      var next := Next(sys, steps[0]);
      StepOk(sys, steps[0]);
      PastStep(sys, steps[0], side);
      NoMoreData(next, steps[1..], side, at);
      var p :| p in next.From(side) && Covers(p.seqNum, p.data, at);
      if p !in sys.From(side) {
        NewPackets(sys, steps[0], side, p);
        NotBoth(sys.At(side));
      }
    }
  }

  lemma NotBoth(e: Endpoint)
    requires PastData(e)
    ensures !IsEstablished(e) && !e.phase.Idle?
  {
  }

  lemma InitSourced(init: Sys, side: Side)
    requires Init(init)
    ensures Sourced(init, side)
  {
  }

  /** No packet reaches more than one packet's length past what the reader has been handed. */
  lemma CarriedNear(init: Sys, steps: seq<Step>, side: Side, at: int)
    requires Init(init) && ValidRun(init, steps) && Carried(Exec(init, steps), side, at)
    ensures at < Exec(init, steps).At(side).isn + |Exec(init, steps).At(side.Other()).delivered| + MAX_DATA
  {
    hide Init, ValidRun, Exec;
    var p :| p in Exec(init, steps).From(side) && Covers(p.seqNum, p.data, at);
    SegmentMeetsReader(init, steps, side, p);
    SegmentIsStretch(init, steps, side, p);
  }

  lemma EndSourced(init: Sys, before: seq<Step>, after: seq<Step>, side: Side)
    requires Init(init) && ValidRun(init, before) && ValidRun(Exec(init, before), after)
    requires PastData(Exec(init, before).At(side))
    ensures Inv(Exec(init, before)) && Sourced(Exec(Exec(init, before), after), side)
    ensures Exec(Exec(init, before), after).At(side).isn == Exec(init, before).At(side).isn
  {
    InitOk(init);
    InitSourced(init, side);
    hide Init, ValidRun, Exec, PastData, Inv, Sourced, SideOk;
    NotBoth(Exec(init, before).At(side));
    RunOk(init, before);
    RunSourced(init, before, side);
    RunSourced(Exec(init, before), after, side);
    RunForward(Exec(init, before), after, side);
  }

  lemma CutAt(init: Sys, before: seq<Step>, after: seq<Step>, side: Side, n: nat)
    requires Init(init) && ValidRun(init, before) && ValidRun(Exec(init, before), after)
    requires PastData(Exec(init, before).At(side))
    requires |Exec(Exec(init, before), after).At(side.Other()).delivered| > n
    ensures Carried(Exec(init, before), side, Exec(init, before).At(side).isn + n)
  {
    hide Init, ValidRun, Exec, Carried, PastData, Inv;
    EndSourced(init, before, after, side);
    NoMoreData(Exec(init, before), after, side, Exec(init, before).At(side).isn + n);
  }

  /** What a close costs: once a side has left the data phase, the peer's reader is handed no byte that no packet
      carries by then, and none behind it; so it is handed at most one packet's length more, however much was
      accepted. */
  lemma CloseCutsStream(init: Sys, before: seq<Step>, after: seq<Step>, side: Side, n: nat)
    requires Init(init) && ValidRun(init, before) && ValidRun(Exec(init, before), after)
    requires PastData(Exec(init, before).At(side))
    ensures var sys, end := Exec(init, before), Exec(Exec(init, before), after);
            && (!Carried(sys, side, sys.At(side).isn + n) ==> |end.At(side.Other()).delivered| <= n)
            && |end.At(side.Other()).delivered| <= |sys.At(side.Other()).delivered| + MAX_DATA
  {
    hide Init, ValidRun, Exec, Carried, PastData;
    var sys, y := Exec(init, before), Exec(Exec(init, before), after).At(side.Other());
    var far := |sys.At(side.Other()).delivered| + MAX_DATA;
    if |y.delivered| > n {
      CutAt(init, before, after, side, n);
    }
    if |y.delivered| > far {
      CutAt(init, before, after, side, far);
      CarriedNear(init, before, side, sys.At(side).isn + far);
    }
  }
}
