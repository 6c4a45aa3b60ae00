/** The receiver's content window: which (seq, CRC) pairs were handled recently. */
module Dedup {

  const WINDOW: nat := 4096

  datatype State = State(queue: seq<nat>, crc: map<nat, nat>)

  datatype Rec = Rec(seqNo: nat, crc: nat)

  function Record(s: State, r: Rec): State {
    if r.seqNo in s.crc then s.(crc := s.crc[r.seqNo := r.crc])
    else
      var q := s.queue + [r.seqNo];
      if |q| > WINDOW then State(q[1..], (s.crc - {q[0]})[r.seqNo := r.crc])
      else State(q, s.crc[r.seqNo := r.crc])
  }

  predicate Hit(s: State, r: Rec) {
    r.seqNo in s.crc && s.crc[r.seqNo] == r.crc
  }

  class DedupWindow {
    var queue: seq<nat>
    var crc: map<nat, nat>

    ghost function Value(): State
      reads this
    {
      State(queue, crc)
    }

    constructor ()
      ensures Value() == State([], map[])
    {
      queue, crc := [], map[];
    }

    method DedupRecord(seqNo: nat, c: nat)
      modifies this
      ensures Value() == Record(old(Value()), Rec(seqNo, c))
    {
      if seqNo !in crc {
        queue := queue + [seqNo];
        if |queue| > WINDOW {
          crc := crc - {queue[0]};
          queue := queue[1..];
        }
      }
      crc := crc[seqNo := c];
    }

    method DedupHit(seqNo: nat, c: nat) returns (hit: bool)
      ensures hit <==> Hit(Value(), Rec(seqNo, c))
    {
      return seqNo in crc && crc[seqNo] == c;
    }
  }

  // ---------------------------------------------------------------- independent description

  function Last(q: seq<nat>, n: nat): seq<nat> {
    if |q| <= n then q else q[|q| - n..]
  }

  /** The numbers in the order they entered the window; re-recording a number still inside does not count. */
  function Entered(h: seq<Rec>): seq<nat> {
    if |h| == 0 then []
    else
      var e, s := Entered(h[..|h| - 1]), h[|h| - 1].seqNo;
      if s in Last(e, WINDOW) then e else e + [s]
  }

  predicate InWindow(h: seq<Rec>, seqNo: nat) {
    seqNo in Last(Entered(h), WINDOW)
  }

  predicate Recorded(h: seq<Rec>, seqNo: nat) {
    exists i :: 0 <= i < |h| && h[i].seqNo == seqNo
  }

  function Latest(h: seq<Rec>, seqNo: nat): nat
    requires Recorded(h, seqNo)
  {
    if h[|h| - 1].seqNo == seqNo then h[|h| - 1].crc else Latest(h[..|h| - 1], seqNo)
  }

  function Replay(h: seq<Rec>): State {
    if |h| == 0 then State([], map[]) else Record(Replay(h[..|h| - 1]), h[|h| - 1])
  }

  ghost predicate Distinct(q: seq<nat>) {
    forall i, j :: 0 <= i < j < |q| ==> q[i] != q[j]
  }

  lemma LastOfSnoc(q: seq<nat>, x: nat)
    ensures Last(q + [x], WINDOW) == if |Last(q, WINDOW)| < WINDOW then Last(q, WINDOW) + [x] else Last(q, WINDOW)[1..] + [x]
    ensures |Last(q, WINDOW)| <= WINDOW
  {
  }

  /**
   For every history of records: the queue is the last 4096 entries, distinct, the map has
   exactly those keys, and each maps to the CRC recorded for it most recently.
   */
  lemma {:induction false} WindowAgrees(h: seq<Rec>)
    ensures var s := Replay(h);
            && s.queue == Last(Entered(h), WINDOW) && |s.queue| <= WINDOW && Distinct(s.queue)
            && (forall k :: k in s.crc <==> k in s.queue)
            && (forall k :: k in s.crc ==> Recorded(h, k) && s.crc[k] == Latest(h, k))
  {
    if |h| > 0 {
      var init, r := h[..|h| - 1], h[|h| - 1];
      WindowAgrees(init);
      LastOfSnoc(Entered(init), r.seqNo);
      StillRecorded(init, r);
      assert h == init + [r];
      KeysFollowQueue(Replay(init), r);
    }
  }

  ghost predicate Aligned(s: State) {
    |s.queue| <= WINDOW && Distinct(s.queue) && forall k :: k in s.crc <==> k in s.queue
  }

  lemma KeysFollowQueue(s: State, r: Rec)
    requires Aligned(s)
    ensures var s' := Record(s, r);
            && Aligned(s')
            && s'.queue == (if r.seqNo in s.queue then s.queue
                            else if |s.queue| < WINDOW then s.queue + [r.seqNo] else s.queue[1..] + [r.seqNo])
            && r.seqNo in s'.crc && s'.crc[r.seqNo] == r.crc
            && (forall k :: k in s'.crc && k != r.seqNo ==> k in s.crc && s'.crc[k] == s.crc[k])
  {
    if r.seqNo !in s.crc {
      NewQueue(s.queue, r.seqNo);
      var q := s.queue + [r.seqNo];
      if |q| > WINDOW {
        assert q[1..] == s.queue[1..] + [r.seqNo] && q[0] == s.queue[0];
      }
    }
  }

  lemma StillRecorded(init: seq<Rec>, r: Rec)
    ensures Recorded(init + [r], r.seqNo) && Latest(init + [r], r.seqNo) == r.crc
    ensures forall k :: k != r.seqNo && Recorded(init, k) ==>
              Recorded(init + [r], k) && Latest(init + [r], k) == Latest(init, k)
  {
    var h := init + [r];
    assert h[|h| - 1] == r && h[..|h| - 1] == init;
    forall k | k != r.seqNo && Recorded(init, k) ensures Recorded(h, k) {
      var i :| 0 <= i < |init| && init[i].seqNo == k;
      assert h[i].seqNo == k;
    }
  }

  lemma NewQueue(q: seq<nat>, x: nat)
    requires Distinct(q) && x !in q
    ensures Distinct(q + [x])
    ensures q != [] ==> Distinct(q[1..] + [x]) && forall k :: k in q[1..] + [x] <==> k == x || (k in q && k != q[0])
  {
    if q != [] {
      assert q == [q[0]] + q[1..];
    }
  }

  /** The window's answer, for every history including re-records and re-entries. */
  lemma HitIff(h: seq<Rec>, r: Rec)
    ensures Hit(Replay(h), r) <==> InWindow(h, r.seqNo) && Recorded(h, r.seqNo) && Latest(h, r.seqNo) == r.crc
  {
    WindowAgrees(h);
  }
}
