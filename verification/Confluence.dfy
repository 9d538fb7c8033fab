/** The receiver ends in the same state for every order and every duplication of the same segments. */
module Confluence {
  import opened Common
  import opened ReceiveWindow

  datatype Segment = Segment(seqNum: int, data: string)

  /** Receives the segments one after the other; the reader takes everything it is offered. */
  function ReceiveAll(w: Window, ps: seq<Segment>): (r: (Window, string))
    requires w.Sized()
    ensures r.0.Sized()
  {
    if ps == [] then (w, "")
    else
      var (w1, out1) := ReceiveAll(w, ps[..|ps| - 1]);
      var p := ps[|ps| - 1];
      var (w2, out2) := Receive(w1, p.seqNum, p.data, WINDOW_SIZE);
      (w2, out1 + out2)
  }

  predicate CoveredBy(ps: seq<Segment>, at: int) {
    exists i :: 0 <= i < |ps| && Covers(ps[i].seqNum, ps[i].data, at)
  }

  /** The byte numbered `at` is among those held at the start or carried by some segment. */
  predicate Got(w: Window, ps: seq<Segment>, at: int)
    requires w.Sized()
  {
    (0 <= at - w.base < WINDOW_SIZE && w.valid[at - w.base]) || CoveredBy(ps, at)
  }

  predicate FitsWindow(w: Window, ps: seq<Segment>, start: int, stream: string) {
    forall i :: 0 <= i < |ps| ==>
      && CutFrom(ps[i].seqNum, ps[i].data, start, stream)
      && ps[i].seqNum + |ps[i].data| <= w.base + WINDOW_SIZE
  }

  /** The receiver state `r` and output `out` as a function of which bytes have arrived, and of nothing else. */
  ghost predicate Summarises(w: Window, ps: seq<Segment>, r: Window, out: string, start: int, stream: string)
    requires w.Sized() && r.Sized()
  {
    && w.base <= r.base <= w.base + WINDOW_SIZE
    && Consistent(w, start, stream) && Consistent(r, start, stream)
    && out == stream[w.base - start..r.base - start]
    && (forall at {:trigger Got(w, ps, at)} :: w.base <= at < r.base ==> Got(w, ps, at))
    && (forall i :: 0 <= i < WINDOW_SIZE ==> (r.valid[i] <==> Got(w, ps, r.base + i)))
    && (ps != [] ==> !Got(w, ps, r.base))
  }

  lemma GotSnoc(w: Window, ps: seq<Segment>, p: Segment, at: int)
    requires w.Sized()
    ensures Got(w, ps + [p], at) <==> Got(w, ps, at) || Covers(p.seqNum, p.data, at)
  {
    var qs := ps + [p];
    assert qs[|ps|] == p;
    if CoveredBy(ps, at) {
      var i :| 0 <= i < |ps| && Covers(ps[i].seqNum, ps[i].data, at);
      assert qs[i] == ps[i];
    }
    assert CoveredBy(qs, at) <==> CoveredBy(ps, at) || Covers(p.seqNum, p.data, at);
  }

  lemma BeyondWindow(w: Window, ps: seq<Segment>, start: int, stream: string, at: int)
    requires w.Sized() && FitsWindow(w, ps, start, stream) && at >= w.base + WINDOW_SIZE
    ensures !Got(w, ps, at)
  {
  }

  lemma FillGot(w: Window, ps: seq<Segment>, p: Segment, r: Window, i: nat)
    requires w.Sized() && r.Sized() && i < WINDOW_SIZE
    requires r.valid[i] <==> Got(w, ps, r.base + i)
    ensures Fill(r, p.seqNum, p.data).valid[i] <==> Got(w, ps + [p], r.base + i)
  {
    GotSnoc(w, ps, p, r.base + i);
  }

  /** With a reader that takes everything, the base moves to the first missing byte. */
  lemma ReceiveShape(r: Window, p: Segment)
    requires r.Sized()
    ensures var f := Fill(r, p.seqNum, p.data).valid; var n := Leading(f);
            var r' := Receive(r, p.seqNum, p.data, WINDOW_SIZE).0;
            && r'.base == r.base + n
            && forall i :: 0 <= i < WINDOW_SIZE ==> (r'.valid[i] <==> i + n < WINDOW_SIZE && f[i + n])
  {
  }

  /** The arrivals side of one reception, from the shape of the new window alone. */
  lemma ArrivalsStep(w: Window, ps: seq<Segment>, p: Segment, r: Window, r': Window, start: int, stream: string)
    requires w.Sized() && r.Sized() && r'.Sized() && FitsWindow(w, ps + [p], start, stream)
    requires w.base <= r.base <= w.base + WINDOW_SIZE
    requires forall at {:trigger Got(w, ps, at)} :: w.base <= at < r.base ==> Got(w, ps, at)
    requires forall i :: 0 <= i < WINDOW_SIZE ==> (r.valid[i] <==> Got(w, ps, r.base + i))
    requires var f := Fill(r, p.seqNum, p.data).valid; var n := Leading(f);
             && r'.base == r.base + n
             && forall i :: 0 <= i < WINDOW_SIZE ==> (r'.valid[i] <==> i + n < WINDOW_SIZE && f[i + n])
    ensures r'.base <= w.base + WINDOW_SIZE
    ensures forall at {:trigger Got(w, ps + [p], at)} :: w.base <= at < r'.base ==> Got(w, ps + [p], at)
    ensures forall i :: 0 <= i < WINDOW_SIZE ==> (r'.valid[i] <==> Got(w, ps + [p], r'.base + i))
    ensures !Got(w, ps + [p], r'.base)
  {
    var qs := ps + [p];
    var f := Fill(r, p.seqNum, p.data).valid;
    var n := Leading(f);
    forall i | 0 <= i < WINDOW_SIZE ensures f[i] <==> Got(w, qs, r.base + i) {
      FillGot(w, ps, p, r, i);
    }
    hide Got, FitsWindow, Fill;
    forall at | w.base <= at < r'.base ensures Got(w, qs, at) {
      GotSnoc(w, ps, p, at);
      assert at >= r.base ==> f[at - r.base];
    }
    assert n < WINDOW_SIZE ==> !f[n] && !Got(w, qs, r.base + n);
    BeyondWindow(w, qs, start, stream, r.base + WINDOW_SIZE);
    BeyondWindow(w, qs, start, stream, w.base + WINDOW_SIZE);
    forall i | 0 <= i < WINDOW_SIZE ensures r'.valid[i] <==> Got(w, qs, r'.base + i) {
      if i + n < WINDOW_SIZE {
        assert f[i + n] <==> Got(w, qs, r.base + (i + n));
      } else {
        BeyondWindow(w, qs, start, stream, r'.base + i);
      }
    }
  }

  lemma SummaryStep(w: Window, ps: seq<Segment>, p: Segment, r: Window, out: string, start: int, stream: string)
    requires w.Sized() && r.Sized() && Summarises(w, ps, r, out, start, stream)
    requires FitsWindow(w, ps + [p], start, stream)
    ensures var (r', more) := Receive(r, p.seqNum, p.data, WINDOW_SIZE);
            Summarises(w, ps + [p], r', out + more, start, stream)
  {
    hide Got, FitsWindow, Fill, Receive, CutFrom, Consistent;
    LastFits(w, ps, p, start, stream);
    ReceiveKeepsStream(r, p.seqNum, p.data, WINDOW_SIZE, start, stream);
    ReceiveShape(r, p);
    var (r', more) := Receive(r, p.seqNum, p.data, WINDOW_SIZE);
    ArrivalsStep(w, ps, p, r, r', start, stream);
    InRange(w, start, stream);
    InRange(r, start, stream);
    InRange(r', start, stream);
    assert stream[w.base - start..r'.base - start] ==
           stream[w.base - start..r.base - start] + stream[r.base - start..r'.base - start];
  }

  lemma LastFits(w: Window, ps: seq<Segment>, p: Segment, start: int, stream: string)
    requires FitsWindow(w, ps + [p], start, stream)
    ensures CutFrom(p.seqNum, p.data, start, stream)
  {
    assert (ps + [p])[|ps|] == p;
  }

  lemma InRange(w: Window, start: int, stream: string)
    requires w.Sized() && Consistent(w, start, stream)
    ensures start <= w.base <= start + |stream|
  {
  }

  lemma {:induction false} ReceiveAllSummary(w: Window, ps: seq<Segment>, start: int, stream: string)
    requires w.Sized() && Consistent(w, start, stream) && FitsWindow(w, ps, start, stream)
    ensures Summarises(w, ps, ReceiveAll(w, ps).0, ReceiveAll(w, ps).1, start, stream)
  {
    if ps != [] {
      var front, p := ps[..|ps| - 1], ps[|ps| - 1];
      assert ps == front + [p];
      assert FitsWindow(w, front, start, stream) by {
        assert forall i :: 0 <= i < |front| ==> front[i] == ps[i];
      }
      ReceiveAllSummary(w, front, start, stream);
      var (r, out) := ReceiveAll(w, front);
      SummaryStep(w, front, p, r, out, start, stream);
    } else {
      assert forall at :: !CoveredBy(ps, at);
    }
  }

  /** Two states that summarise the same arrivals agree on all a later step can see. */
  lemma SummaryUnique(w: Window, ps: seq<Segment>, qs: seq<Segment>, r: Window, s: Window,
                      outR: string, outS: string, start: int, stream: string)
    requires w.Sized() && r.Sized() && s.Sized()
    requires Summarises(w, ps, r, outR, start, stream) && Summarises(w, qs, s, outS, start, stream)
    requires ps != [] && qs != []
    requires forall at :: CoveredBy(ps, at) <==> CoveredBy(qs, at)
    ensures r.base == s.base && outR == outS && r.valid == s.valid
    ensures forall i :: 0 <= i < WINDOW_SIZE && r.valid[i] ==> r.bytes[i] == s.bytes[i]
  {
    assert forall at :: Got(w, ps, at) <==> Got(w, qs, at);
    assert Got(w, qs, r.base) <==> Got(w, ps, r.base);
    assert Got(w, qs, s.base) <==> Got(w, ps, s.base);
  }

  /** Receiver confluence: segments cut from one stream, all inside the window of the start, in any order and
      with any duplication, overlap or resegmentation, as long as the same bytes arrive. */
  lemma ReceiveConfluence(w: Window, ps: seq<Segment>, qs: seq<Segment>, start: int, stream: string)
    requires w.Sized() && Consistent(w, start, stream)
    requires FitsWindow(w, ps, start, stream) && FitsWindow(w, qs, start, stream)
    requires ps != [] && qs != []
    requires forall at :: CoveredBy(ps, at) <==> CoveredBy(qs, at)
    ensures var (r, outR) := ReceiveAll(w, ps); var (s, outS) := ReceiveAll(w, qs);
            && r.base == s.base && outR == outS && r.valid == s.valid
            && forall i :: 0 <= i < WINDOW_SIZE && r.valid[i] ==> r.bytes[i] == s.bytes[i]
  {
    ReceiveAllSummary(w, ps, start, stream);
    ReceiveAllSummary(w, qs, start, stream);
    SummaryUnique(w, ps, qs, ReceiveAll(w, ps).0, ReceiveAll(w, qs).0,
                  ReceiveAll(w, ps).1, ReceiveAll(w, qs).1, start, stream);
  }

  /** In particular reordering and duplicating: the two lists hold the same segments. */
  lemma ReorderedOrDuplicated(w: Window, ps: seq<Segment>, qs: seq<Segment>, start: int, stream: string)
    requires w.Sized() && Consistent(w, start, stream) && FitsWindow(w, ps, start, stream)
    requires forall p :: p in ps <==> p in qs
    ensures var (r, outR) := ReceiveAll(w, ps); var (s, outS) := ReceiveAll(w, qs);
            && r.base == s.base && outR == outS && r.valid == s.valid
            && forall i :: 0 <= i < WINDOW_SIZE && r.valid[i] ==> r.bytes[i] == s.bytes[i]
  {
    assert ps != [] ==> ps[0] in ps;
    assert qs != [] ==> qs[0] in qs;
    if ps != [] {
      forall at ensures CoveredBy(ps, at) <==> CoveredBy(qs, at) {
        if CoveredBy(ps, at) {
          var i :| 0 <= i < |ps| && Covers(ps[i].seqNum, ps[i].data, at);
          assert ps[i] in qs;
        }
        if CoveredBy(qs, at) {
          var i :| 0 <= i < |qs| && Covers(qs[i].seqNum, qs[i].data, at);
          assert qs[i] in ps;
        }
      }
      forall i | 0 <= i < |qs|
        ensures CutFrom(qs[i].seqNum, qs[i].data, start, stream)
        ensures qs[i].seqNum + |qs[i].data| <= w.base + WINDOW_SIZE
      {
        assert qs[i] in ps;
      }
      ReceiveConfluence(w, ps, qs, start, stream);
    }
  }
}
