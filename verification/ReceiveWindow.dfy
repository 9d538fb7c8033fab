/** The receive window with holes (packet_handlers.c receiveNewData, socket_utils.c update_recv_window), as values. */
module ReceiveWindow {
  import opened Common

  /** base is seq_of_first_recv_window; bytes and valid are recv_window and recv_window_isvalid. */
  datatype Window = Window(base: int, bytes: string, valid: seq<bool>) {
    predicate Sized() {
      |bytes| == WINDOW_SIZE && |valid| == WINDOW_SIZE
    }
  }

  function EmptyWindow(base: int): (w: Window)
    ensures w.Sized() && forall i :: 0 <= i < WINDOW_SIZE ==> !w.valid[i]
  {
    Window(base, seq(WINDOW_SIZE, _ => '\0'), seq(WINDOW_SIZE, _ => false))
  }

  predicate Covers(seqNum: int, data: string, at: int) {
    seqNum <= at < seqNum + |data|
  }

  /** Only missing bytes are taken, and only those that fall inside the window. */
  function Fill(w: Window, seqNum: int, data: string): (r: Window)
    requires w.Sized()
    ensures r.Sized() && r.base == w.base
  {
    Window(w.base,
           seq(WINDOW_SIZE, i requires 0 <= i < WINDOW_SIZE =>
             if !w.valid[i] && Covers(seqNum, data, w.base + i) then data[w.base + i - seqNum] else w.bytes[i]),
           seq(WINDOW_SIZE, i requires 0 <= i < WINDOW_SIZE =>
             w.valid[i] || Covers(seqNum, data, w.base + i)))
  }

  /** Length of the run of received bytes at the left end. */
  function Leading(valid: seq<bool>): (n: nat)
    ensures n <= |valid|
    ensures forall i :: 0 <= i < n ==> valid[i]
    ensures n < |valid| ==> !valid[n]
  {
    if valid == [] || !valid[0] then 0 else 1 + Leading(valid[1..])
  }

  lemma {:induction false} LeadingAtLeast(valid: seq<bool>, m: nat)
    requires m <= |valid| && forall i :: 0 <= i < m ==> valid[i]
    ensures Leading(valid) >= m
  {
    if m > 0 {
      assert forall i :: 0 <= i < m - 1 ==> valid[1..][i] == valid[i + 1];
      LeadingAtLeast(valid[1..], m - 1);
    }
  }

  /** A fifo write offered n bytes: fails when it cannot be opened, otherwise takes what there is room for. */
  function WriteResult(room: int, offered: nat): (k: int)
    ensures -1 <= k <= offered
  {
    if room < 0 then -1 else Min(room, offered)
  }

  /** Moves the window right by k places; the right end becomes invalid, its stale bytes stay. */
  function Slide(w: Window, k: nat): (r: Window)
    requires w.Sized() && k <= WINDOW_SIZE
    ensures r.Sized()
  {
    Window(w.base + k,
           seq(WINDOW_SIZE, i requires 0 <= i < WINDOW_SIZE => w.bytes[if i + k < WINDOW_SIZE then i + k else i]),
           seq(WINDOW_SIZE, i requires 0 <= i < WINDOW_SIZE => i + k < WINDOW_SIZE && w.valid[i + k]))
  }

  /** update_recv_window: the new window and the bytes handed to the reader. */
  function Update(w: Window, room: int): (r: (Window, string))
    requires w.Sized()
    ensures r.0.Sized()
  {
    var k := WriteResult(room, Leading(w.valid));
    if k == -1 then (w, "") else (Slide(w, k), w.bytes[..k])
  }

  /** receiveNewData */
  function Receive(w: Window, seqNum: int, data: string, room: int): (r: (Window, string))
    requires w.Sized()
    ensures r.0.Sized()
  {
    Update(Fill(w, seqNum, data), room)
  }

  // ---------------------------------------------------------------- safety of one reception

  /** Every received byte is the byte of the sender's stream at its place; `start` is the stream's first number. */
  predicate Consistent(w: Window, start: int, stream: string)
    requires w.Sized()
  {
    && start <= w.base <= start + |stream|
    && forall i :: 0 <= i < WINDOW_SIZE && w.valid[i] ==>
         w.base - start + i < |stream| && w.bytes[i] == stream[w.base - start + i]
  }

  /** A segment cut from the stream. */
  predicate CutFrom(seqNum: int, data: string, start: int, stream: string) {
    start <= seqNum && seqNum - start + |data| <= |stream| &&
    data == stream[seqNum - start..seqNum - start + |data|]
  }

  lemma FillConsistent(w: Window, seqNum: int, data: string, start: int, stream: string)
    requires w.Sized() && Consistent(w, start, stream) && CutFrom(seqNum, data, start, stream)
    ensures Consistent(Fill(w, seqNum, data), start, stream)
  {
    var f := Fill(w, seqNum, data);
    forall i | 0 <= i < WINDOW_SIZE && f.valid[i]
      ensures w.base - start + i < |stream| && f.bytes[i] == stream[w.base - start + i]
    {
      if !w.valid[i] {
        assert Covers(seqNum, data, w.base + i);
        assert data[w.base + i - seqNum] == stream[w.base + i - start];
      }
    }
  }

  lemma SlideConsistent(w: Window, k: nat, start: int, stream: string)
    requires w.Sized() && Consistent(w, start, stream) && k <= Leading(w.valid)
    ensures Consistent(Slide(w, k), start, stream)
  {
    assert k > 0 ==> w.valid[k - 1];
    var r := Slide(w, k);
    assert forall i :: 0 <= i < WINDOW_SIZE && r.valid[i] ==> w.valid[i + k] && r.bytes[i] == w.bytes[i + k];
  }

  lemma SlideHandsStream(w: Window, k: nat, start: int, stream: string)
    requires w.Sized() && Consistent(w, start, stream) && k <= Leading(w.valid)
    ensures start <= w.base && w.base + k - start <= |stream|
    ensures w.bytes[..k] == stream[w.base - start..w.base + k - start]
  {
    var a := w.base - start;
    assert k > 0 ==> w.valid[k - 1];
    assert forall i :: 0 <= i < k ==> w.valid[i] && w.bytes[i] == stream[a + i];
    SameBytes(w.bytes[..k], stream[a..a + k]);
  }

  lemma SameBytes(a: string, b: string)
    requires |a| == |b| && forall i :: 0 <= i < |a| ==> a[i] == b[i]
    ensures a == b
  {
  }

  lemma SlideMoves(w: Window, k: nat)
    requires w.Sized() && k <= WINDOW_SIZE
    ensures Slide(w, k).base == w.base + k
  {
  }

  /** Whatever the reader takes, what it is handed is the next stretch of the stream, and the window stays
      consistent: nothing is skipped, repeated or altered. */
  lemma ReceiveKeepsStream(w: Window, seqNum: int, data: string, room: int, start: int, stream: string)
    requires w.Sized() && Consistent(w, start, stream) && CutFrom(seqNum, data, start, stream)
    ensures var (w', out) := Receive(w, seqNum, data, room);
            && w'.base == w.base + |out|
            && Consistent(w', start, stream)
            && out == stream[w.base - start..w'.base - start]
  {
    FillConsistent(w, seqNum, data, start, stream);
    var f := Fill(w, seqNum, data);
    assert start <= w.base <= start + |stream|;
    hide Fill, Leading, CutFrom, Consistent, Slide;
    var k := WriteResult(room, Leading(f.valid));
    if k == -1 {
      assert stream[w.base - start..w.base - start] == "";
    } else {
      assert Slide(f, k).base == f.base + k by { SlideMoves(f, k); }
      SlideConsistent(f, k, start, stream);
      SlideHandsStream(f, k, start, stream);
    }
  }

  /** A segment that starts at or before the base moves the base past its end when the reader takes everything. */
  lemma ReceiveAdvances(w: Window, seqNum: int, data: string, room: int)
    requires w.Sized() && room >= WINDOW_SIZE
    requires seqNum <= w.base && seqNum + |data| <= w.base + WINDOW_SIZE
    ensures Receive(w, seqNum, data, room).0.base >= Max(w.base, seqNum + |data|)
  {
    var f := Fill(w, seqNum, data);
    var m := Max(0, seqNum + |data| - w.base);
    forall i | 0 <= i < m ensures f.valid[i] {
      assert Covers(seqNum, data, w.base + i);
    }
    LeadingAtLeast(f.valid, m);
  }

  /** The byte the window holds for place i once a segment has come in, if any. */
  predicate Held(w: Window, seqNum: int, data: string, i: nat)
    requires w.Sized() && i < WINDOW_SIZE
  {
    w.valid[i] || seqNum <= w.base + i < seqNum + |data|
  }

  function HeldByte(w: Window, seqNum: int, data: string, i: nat): char
    requires w.Sized() && i < WINDOW_SIZE && Held(w, seqNum, data, i)
  {
    if w.valid[i] then w.bytes[i] else data[w.base + i - seqNum]
  }

  /** Exactly what a segment does to a window and what the reader is handed, whatever it takes: the held bytes from
      the left end up to the first missing one, as far as there is room, and not one if the reader's fifo cannot be
      opened; the window moves by as many places and keeps everything else it holds, be it old or new. */
  lemma ReceiveExact(w: Window, seqNum: int, data: string, room: int)
    requires w.Sized()
    ensures var (w', out) := Receive(w, seqNum, data, room); var n := |out|;
            && n <= WINDOW_SIZE && w'.base == w.base + n
            && (room < 0 ==> n == 0) && (room >= 0 ==> n <= room)
            && (forall i :: 0 <= i < n ==> Held(w, seqNum, data, i) && out[i] == HeldByte(w, seqNum, data, i))
            && (0 <= room && n < room && n < WINDOW_SIZE ==> !Held(w, seqNum, data, n))
            && forall i :: 0 <= i < WINDOW_SIZE ==>
                 (w'.valid[i] <==> i + n < WINDOW_SIZE && Held(w, seqNum, data, i + n)) &&
                 (w'.valid[i] ==> w'.bytes[i] == HeldByte(w, seqNum, data, i + n))
  {
    var f := Fill(w, seqNum, data);
    forall i | 0 <= i < WINDOW_SIZE
      ensures f.valid[i] <==> Held(w, seqNum, data, i)
      ensures f.valid[i] ==> f.bytes[i] == HeldByte(w, seqNum, data, i)
    {
    }
    hide Fill, Held, HeldByte;
    var k := WriteResult(room, Leading(f.valid));
    if k >= 0 {
      assert forall i :: 0 <= i < k ==> f.bytes[..k][i] == f.bytes[i];
    }
  }
}
