/**
 Opening a WAL directory: what the segments and the last persisted checkpoint recover to,
 as a function of the disk, and what that function returns for the disks a crash leaves behind.
 */
module Recovery {
  import opened Bytes
  import opened Codec
  import opened Records
  import opened Segments

  datatype Checkpoint = Checkpoint(cursor: int, nextSeq: nat, segStart: nat, ackedBytes: nat, backfill: int)

  datatype Disk = Disk(segs: map<nat, bytes>, cp: Checkpoint)

  datatype Opened =
    | Opened(segs: map<nat, bytes>, cp: Checkpoint, index: seq<Entry>, curSeg: nat)
    | Failed

  // ---------------------------------------------------------------- the open function

  function Kept(segs: map<nat, bytes>, from: nat): map<nat, bytes> {
    map k | k in segs && k >= from :: segs[k]
  }

  ghost function Least(s: set<nat>): (m: nat)
    requires s != {}
    ensures m in s && forall k :: k in s ==> m <= k
  {
    var x :| x in s;
    if s == {x} then x
    else
      assert s == (s - {x}) + {x};
      var y := Least(s - {x});
      if x < y then x else y
  }

  ghost function Greatest(s: set<nat>): (m: nat)
    requires s != {}
    ensures m in s && forall k :: k in s ==> k <= m
  {
    var x :| x in s;
    if s == {x} then x
    else
      assert s == (s - {x}) + {x};
      var y := Greatest(s - {x});
      if x > y then x else y
  }

  function MaxSeq(es: seq<Entry>): (m: nat)
    ensures forall e :: e in es ==> e.seqNo <= m
    ensures m == 0 || exists e :: e in es && e.seqNo == m
  {
    if |es| == 0 then 0
    else
      var m := MaxSeq(es[..|es| - 1]);
      assert es == es[..|es| - 1] + [es[|es| - 1]];
      if es[|es| - 1].seqNo > m then es[|es| - 1].seqNo else m
  }

  function RaiseSeq(cp: Checkpoint, es: seq<Entry>): (r: Checkpoint)
    ensures forall e :: e in es ==> e.seqNo < r.nextSeq
    ensures cp.nextSeq <= r.nextSeq && r.nextSeq > 0
  {
    if cp.nextSeq < MaxSeq(es) + 1 then cp.(nextSeq := MaxSeq(es) + 1) else cp
  }

  function SkipOf(cp: Checkpoint, seg: nat): nat {
    if seg == cp.segStart then cp.ackedBytes else 0
  }

  datatype Sweep = Swept(segs: map<nat, bytes>, index: seq<Entry>) | Stuck

  function SweepOne(s: Sweep, segs: map<nat, bytes>, cp: Checkpoint, k: nat): Sweep {
    if s.Stuck? || k !in segs then s
    else
      match Scan(segs[k], k, SkipOf(cp, k), 0)
      case Refused(_) => Stuck
      case Scanned(es, n) => Swept(s.segs[k := segs[k][..n]], s.index + es)
  }

  /** Scans the segments numbered below `hi` in ascending order, cutting torn tails. */
  function SweepBelow(segs: map<nat, bytes>, cp: Checkpoint, hi: nat): Sweep {
    if hi == 0 then Swept(segs, [])
    else SweepOne(SweepBelow(segs, cp, hi - 1), segs, cp, hi - 1)
  }

  /** A checkpoint whose segment is gone starts at the oldest one left. */
  function StartAt(cp: Checkpoint, first: nat): Checkpoint {
    if first > cp.segStart then cp.(segStart := first, ackedBytes := 0) else cp
  }

  ghost function Recover(d: Disk): Opened {
    RecoverKept(Kept(d.segs, d.cp.segStart), d.cp)
  }

  ghost function RecoverKept(alive: map<nat, bytes>, was: Checkpoint): Opened {
    if alive.Keys == {} then
      Opened(map[was.segStart := []], RaiseSeq(was.(ackedBytes := 0), []), [], was.segStart)
    else
      var cp := StartAt(was, Least(alive.Keys));
      var last := Greatest(alive.Keys);
      match SweepBelow(alive, cp, last + 1)
      case Stuck => Failed
      case Swept(segs, index) => Opened(segs, RaiseSeq(cp, index), index, last)
  }

  /** `n` may be assigned next: it is positive, not below the checkpoint's, and above every recovered number. */
  ghost predicate MayResume(next: nat, es: seq<Entry>, n: nat) {
    n >= 1 && n >= next && forall e :: e in es ==> e.seqNo < n
  }

  /** Numbering resumes at the least number that may be assigned: none is skipped, none used again. */
  ghost predicate Resumes(next: nat, es: seq<Entry>, n: nat) {
    MayResume(next, es, n) && forall m :: MayResume(next, es, m) ==> n <= m
  }

  lemma RaisesToLeast(cp: Checkpoint, es: seq<Entry>)
    ensures Resumes(cp.nextSeq, es, RaiseSeq(cp, es).nextSeq)
  {
    var top := MaxSeq(es);
    forall m | MayResume(cp.nextSeq, es, m) ensures RaiseSeq(cp, es).nextSeq <= m {
      if top > 0 {
        var e :| e in es && e.seqNo == top;
      }
    }
  }

  /** For every directory that opens, whatever is in it: where numbering resumes. */
  lemma NumberingResumes(d: Disk)
    requires Recover(d).Opened?
    ensures var r := Recover(d);
            && Resumes(d.cp.nextSeq, r.index, r.cp.nextSeq)
            && (r.index == [] ==> r.cp.nextSeq == if d.cp.nextSeq == 0 then 1 else d.cp.nextSeq)
  {
    hide SweepBelow, Least, Greatest, RaiseSeq;
    var r := Recover(d);
    RaisesToLeast(d.cp.(ackedBytes := 0), r.index);
    var alive := Kept(d.segs, d.cp.segStart);
    if alive.Keys != {} {
      RaisesToLeast(StartAt(d.cp, Least(alive.Keys)), r.index);
    }
    assert r.index == [] ==> MayResume(d.cp.nextSeq, r.index, if d.cp.nextSeq == 0 then 1 else d.cp.nextSeq);
  }

  // ---------------------------------------------------------------- disks and their history

  /** Each segment file holds exactly the pieces the layout says. */
  ghost predicate Laid(segs: map<nat, bytes>, layout: map<nat, seq<Piece>>) {
    && segs.Keys == layout.Keys
    && forall k :: k in segs ==> segs[k] == Lay(layout[k]) && Intact(layout[k])
  }

  /** All records on disk in segments numbered below `hi`, oldest first. */
  ghost function All(layout: map<nat, seq<Piece>>, hi: nat): seq<Entry> {
    if hi == 0 then []
    else All(layout, hi - 1) + Held(layout, hi - 1)
  }

  ghost function Held(layout: map<nat, seq<Piece>>, k: nat): seq<Entry> {
    if k in layout then Entries(k, layout[k]) else []
  }

  /** The entry is not covered by the acknowledged prefix the checkpoint describes. */
  predicate Beyond(cp: Checkpoint, e: Entry) {
    cp.segStart < e.seg || (cp.segStart == e.seg && cp.ackedBytes < e.End())
  }

  function After(es: seq<Entry>, cp: Checkpoint): seq<Entry> {
    if |es| == 0 then []
    else if Beyond(cp, es[0]) then es
    else After(es[1..], cp)
  }

  ghost predicate Suffix(p: seq<Entry>, s: seq<Entry>) {
    |p| <= |s| && s[|s| - |p|..] == p
  }

  /** If the checkpoint's segment is the newest, it holds all the bytes claimed as acknowledged. */
  ghost predicate Fits(cp: Checkpoint, segs: map<nat, bytes>) {
    cp.segStart in segs && Newest(segs, cp.segStart) ==> cp.ackedBytes <= |segs[cp.segStart]|
  }

  ghost predicate Newest(segs: map<nat, bytes>, last: nat) {
    forall k :: k in segs ==> k <= last
  }

  predicate Precedes(a: Entry, b: Entry) {
    a.seg < b.seg || (a.seg == b.seg && a.End() <= b.offset)
  }

  ghost predicate Ordered(es: seq<Entry>) {
    forall i, j :: 0 <= i < j < |es| ==> Precedes(es[i], es[j])
  }

  // ---------------------------------------------------------------- order of entries

  lemma {:induction false} EntriesOrdered(seg: nat, ps: seq<Piece>)
    ensures Ordered(Entries(seg, ps))
    ensures forall e :: e in Entries(seg, ps) ==> e.seg == seg && e.End() <= |Lay(ps)|
  {
    hide Lay, Be, SeqOf;
    if |ps| > 0 {
      var n := |ps| - 1;
      EntriesOrdered(seg, ps[..n]);
      assert ps == ps[..n] + [ps[n]];
      Snoc(ps[..n], ps[n], seg);
    }
  }

  lemma {:induction false} AllOrdered(layout: map<nat, seq<Piece>>, hi: nat)
    ensures Ordered(All(layout, hi))
    ensures forall e :: e in All(layout, hi) ==> e.seg < hi && e.seg in layout && e in Entries(e.seg, layout[e.seg])
  {
    hide Lay, Entries;
    if hi > 0 {
      AllOrdered(layout, hi - 1);
      if hi - 1 in layout {
        EntriesOrdered(hi - 1, layout[hi - 1]);
      }
    }
  }

  lemma {:induction false} AfterIsSuffix(es: seq<Entry>, cp: Checkpoint)
    ensures Suffix(After(es, cp), es)
    ensures After(es, cp) != [] ==> Beyond(cp, After(es, cp)[0])
    ensures forall i :: 0 <= i < |es| - |After(es, cp)| ==> !Beyond(cp, es[i])
  {
    if |es| > 0 && !Beyond(cp, es[0]) {
      AfterIsSuffix(es[1..], cp);
    }
  }

  /** Pending frames survive exactly when the checkpoint does not cover the first of them. */
  lemma SuffixSurvives(es: seq<Entry>, cp: Checkpoint, pend: seq<Entry>)
    requires Ordered(es) && Suffix(pend, es)
    ensures Suffix(pend, After(es, cp)) <==> pend == [] || Beyond(cp, pend[0])
  {
    AfterIsSuffix(es, cp);
    var a := After(es, cp);
    var n, m := |es| - |pend|, |es| - |a|;
    if pend != [] {
      assert pend[0] == es[n];
      if n >= m {
        assert a[n - m..] == es[n..];
        if n > m {
          assert a[0] == es[m] && Precedes(es[m], es[n]);
        }
      }
    }
  }

  lemma {:induction false} AfterAppend(a: seq<Entry>, b: seq<Entry>, cp: Checkpoint)
    ensures After(a + b, cp) == if After(a, cp) == [] then After(b, cp) else After(a, cp) + b
  {
    if |a| == 0 {
      assert a + b == b;
    } else if !Beyond(cp, a[0]) {
      assert (a + b)[1..] == a[1..] + b;
      AfterAppend(a[1..], b, cp);
    }
  }

  /** Within one segment, filtering by the acknowledged offset is the same as dropping a prefix. */
  lemma {:induction false} PastIsAfter(es: seq<Entry>, cp: Checkpoint)
    requires Ordered(es) && forall e :: e in es ==> e.seg == cp.segStart
    ensures Past(es, cp.ackedBytes) == After(es, cp)
  {
    if |es| > 0 {
      var init, last := es[..|es| - 1], es[|es| - 1];
      PastIsAfter(init, cp);
      assert After(es, cp) == if After(init, cp) == [] then After([last], cp) else After(init, cp) + [last] by {
        assert es == init + [last];
        AfterAppend(init, [last], cp);
      }
      assert last in es && [last][1..] == [];
      assert After([last], cp) == if Beyond(cp, last) then [last] else [];
      var kept := if last.End() <= cp.ackedBytes then [] else [last];
      assert Past(es, cp.ackedBytes) == After(init, cp) + kept;
      if After(init, cp) != [] {
        AfterIsSuffix(init, cp);
        assert After(init, cp)[0] == es[|init| - |After(init, cp)|];
        assert Precedes(es[|init| - |After(init, cp)|], last);
      }
    }
  }

  // ---------------------------------------------------------------- what recovery returns

  /** Sweeping laid-out segments, the greatest of which is torn by less than 24 bytes. */
  lemma {:induction false} SweepLaid(segs: map<nat, bytes>, torn: map<nat, bytes>, layout: map<nat, seq<Piece>>,
                                     cp: Checkpoint, tail: bytes, last: nat, hi: nat)
    requires Laid(segs, layout) && (Fits(cp, segs) || tail == []) && |tail| < PREFIX
    requires last in segs && torn == segs[last := segs[last] + tail]
    requires hi <= last + 1
    requires forall k :: k in segs ==> cp.segStart <= k <= last
    ensures SweepBelow(torn, cp, hi)
         == Swept(if hi == last + 1 then segs else torn, After(All(layout, hi), cp))
  {
    hide Scan, Lay, Past, Entries, Beyond, Intact;
    if hi > 0 {
      var k := hi - 1;
      SweepLaid(segs, torn, layout, cp, tail, last, k);
      AfterAppend(All(layout, k), Held(layout, k), cp);
      if k in segs {
        SegmentOf(segs, layout, cp, k, if k == last then tail else []);
        if k == cp.segStart {
          BelowIsCovered(layout, cp, k);
        }
        assert k != last ==> torn[k] == torn[k] + [];
        assert (segs[k] + tail)[..|segs[k]|] == segs[k];
        assert torn[k := torn[k]] == torn;
        assert torn[last := segs[last]] == segs;
      }
    }
  }

  /** The scan of one laid-out segment returns its unacknowledged entries. */
  lemma SegmentOf(segs: map<nat, bytes>, layout: map<nat, seq<Piece>>, cp: Checkpoint, k: nat, tail: bytes)
    requires Laid(segs, layout) && k in segs && |tail| < PREFIX && cp.segStart <= k
    requires (Fits(cp, segs) && Newest(segs, k)) || tail == []
    ensures Scan(segs[k] + tail, k, SkipOf(cp, k), 0) == Scanned(After(Entries(k, layout[k]), cp), |segs[k]|)
    ensures k > cp.segStart ==> After(Entries(k, layout[k]), cp) == Entries(k, layout[k])
  {
    hide Scan, Lay, Entries;
    ScanFindsWholeRecords(layout[k], tail, k, SkipOf(cp, k));
    EntriesOrdered(k, layout[k]);
    if k == cp.segStart {
      PastIsAfter(Entries(k, layout[k]), cp);
    } else {
      PastNothing(Entries(k, layout[k]));
    }
  }

  /** Segments below the checkpoint's hold nothing beyond it, so removing them changes nothing. */
  lemma {:induction false} AfterRestricted(layout: map<nat, seq<Piece>>, from: nat, cp: Checkpoint, hi: nat)
    requires from <= cp.segStart
    ensures After(All(map k | k in layout && k >= from :: layout[k], hi), cp) == After(All(layout, hi), cp)
  {
    hide Lay, Entries, Beyond;
    var kept := map k | k in layout && k >= from :: layout[k];
    if hi > 0 {
      var k := hi - 1;
      AfterRestricted(layout, from, cp, k);
      AfterAppend(All(layout, k), Held(layout, k), cp);
      AfterAppend(All(kept, k), Held(kept, k), cp);
      if k in layout && k < from {
        BelowIsCovered(layout, cp, hi);
        BelowIsCovered(layout, cp, k);
      }
    }
  }

  lemma BelowIsCovered(layout: map<nat, seq<Piece>>, cp: Checkpoint, hi: nat)
    requires hi <= cp.segStart
    ensures After(All(layout, hi), cp) == []
  {
    hide Entries;
    AllOrdered(layout, hi);
    AfterIsSuffix(All(layout, hi), cp);
  }

  /** Above the checkpoint's segment the acknowledged offset plays no role. */
  lemma {:induction false} AfterIgnoresOffset(es: seq<Entry>, cp: Checkpoint, cp': Checkpoint)
    requires forall e :: e in es ==> Beyond(cp, e) == Beyond(cp', e)
    ensures After(es, cp) == After(es, cp')
  {
    if |es| > 0 {
      AfterIgnoresOffset(es[1..], cp, cp');
    }
  }

  /** Removing the segments below the checkpoint's leaves a laid-out directory. */
  lemma KeptLaid(segs: map<nat, bytes>, layout: map<nat, seq<Piece>>, cp: Checkpoint, first: nat, last: nat, tail: bytes)
    requires Laid(segs, layout)
    requires first in segs && cp.segStart <= first && forall k :: k in segs && cp.segStart <= k ==> first <= k
    requires last in segs && cp.segStart <= last
    ensures var kept := Kept(segs, cp.segStart);
            var keptLayout := map k | k in layout && k >= cp.segStart :: layout[k];
            && Laid(kept, keptLayout) && (Fits(cp, segs) ==> Fits(StartAt(cp, first), kept))
            && last in kept && kept.Keys == Kept(segs[last := segs[last] + tail], cp.segStart).Keys
            && Kept(segs[last := segs[last] + tail], cp.segStart) == kept[last := kept[last] + tail]
            && first in kept && forall k :: k in keptLayout || k in kept ==> first <= k && k in segs
  {
    hide Lay, Intact, Fits;
    KeptFits(segs, cp, first);
  }

  lemma KeptFits(segs: map<nat, bytes>, cp: Checkpoint, first: nat)
    requires first in segs && cp.segStart <= first && forall k :: k in segs && cp.segStart <= k ==> first <= k
    ensures Fits(cp, segs) ==> Fits(StartAt(cp, first), Kept(segs, cp.segStart))
  {
    var kept := Kept(segs, cp.segStart);
    if first == cp.segStart && Newest(kept, first) {
      forall k | k in segs ensures k <= first {
        if k >= cp.segStart {
          assert k in kept;
        }
      }
    }
  }

  lemma RecoverSwept(alive: map<nat, bytes>, cp: Checkpoint, first: nat, last: nat,
                     segs: map<nat, bytes>, index: seq<Entry>)
    requires first in alive && last in alive && forall k :: k in alive ==> first <= k <= last
    requires SweepBelow(alive, StartAt(cp, first), last + 1) == Swept(segs, index)
    ensures RecoverKept(alive, cp) == Opened(segs, RaiseSeq(StartAt(cp, first), index), index, last)
  {
    hide Least, Greatest, SweepBelow, RaiseSeq, StartAt;
    assert first in alive.Keys;
    assert Least(alive.Keys) == first && Greatest(alive.Keys) == last;
  }

  lemma AfterStart(layout: map<nat, seq<Piece>>, cp: Checkpoint, first: nat, hi: nat)
    requires cp.segStart <= first && forall k :: k in layout ==> first <= k
    ensures After(All(layout, hi), StartAt(cp, first)) == After(All(layout, hi), cp)
  {
    hide All, After, Ordered, Entries;
    AllOrdered(layout, hi);
    forall e | e in All(layout, hi) ensures Beyond(cp, e) == Beyond(StartAt(cp, first), e) {
      BeyondStart(cp, first, e);
    }
    AfterIgnoresOffset(All(layout, hi), cp, StartAt(cp, first));
  }

  lemma BeyondStart(cp: Checkpoint, first: nat, e: Entry)
    requires cp.segStart <= first <= e.seg && e.End() > 0
    ensures Beyond(cp, e) == Beyond(StartAt(cp, first), e)
  {
  }

  lemma SweepAlive(segs: map<nat, bytes>, layout: map<nat, seq<Piece>>, cp: Checkpoint,
                   first: nat, last: nat, tail: bytes)
    requires Laid(segs, layout) && (Fits(cp, segs) || tail == []) && |tail| < PREFIX
    requires first in segs && cp.segStart <= first && forall k :: k in segs && cp.segStart <= k ==> first <= k
    requires last in segs && cp.segStart <= last && forall k :: k in segs ==> k <= last
    ensures SweepBelow(Kept(segs[last := segs[last] + tail], cp.segStart), StartAt(cp, first), last + 1)
         == Swept(Kept(segs, cp.segStart), After(All(layout, last + 1), cp))
  {
    hide Entries, All, SweepBelow, Scan, Lay, Intact, After, Laid, Fits, Kept;
    KeptLaid(segs, layout, cp, first, last, tail);
    var kept, keptLayout := Kept(segs, cp.segStart), map k | k in layout && k >= cp.segStart :: layout[k];
    var cp' := StartAt(cp, first);
    SweepLaid(kept, kept[last := kept[last] + tail], keptLayout, cp', tail, last, last + 1);
    AfterStart(keptLayout, cp, first, last + 1);
    AfterRestricted(layout, cp.segStart, cp, last + 1);
  }

  lemma RecoverAlive(segs: map<nat, bytes>, layout: map<nat, seq<Piece>>, cp: Checkpoint,
                     first: nat, last: nat, tail: bytes)
    requires Laid(segs, layout) && (Fits(cp, segs) || tail == []) && |tail| < PREFIX
    requires first in segs && cp.segStart <= first && forall k :: k in segs && cp.segStart <= k ==> first <= k
    requires last in segs && cp.segStart <= last && forall k :: k in segs ==> k <= last
    ensures var index := After(All(layout, last + 1), cp);
            Recover(Disk(segs[last := segs[last] + tail], cp))
            == Opened(Kept(segs, cp.segStart), RaiseSeq(StartAt(cp, first), index), index, last)
  {
    hide All, SweepBelow, RaiseSeq, After, Laid, Fits, StartAt, Kept, RecoverKept;
    SweepAlive(segs, layout, cp, first, last, tail);
    KeptLaid(segs, layout, cp, first, last, tail);
    RecoverSwept(Kept(segs[last := segs[last] + tail], cp.segStart), cp, first, last,
                 Kept(segs, cp.segStart), After(All(layout, last + 1), cp));
  }

  /**
   Crash recovery. On segments of whole records (and contained corruption) plus a torn tail of
   fewer than 24 bytes in the newest one, opening the directory undoes the tear, keeps the
   segments from the checkpoint on, and indexes exactly the records on disk that the checkpoint
   does not cover, in append order. Sequence numbering resumes above all of them.
   */
  lemma RecoverRebuilds(segs: map<nat, bytes>, layout: map<nat, seq<Piece>>, cp: Checkpoint, last: nat, tail: bytes)
    requires Laid(segs, layout) && (Fits(cp, segs) || tail == []) && |tail| < PREFIX
    requires last in segs && forall k :: k in segs ==> k <= last
    ensures var r := Recover(Disk(segs[last := segs[last] + tail], cp));
            var index := After(All(layout, last + 1), cp);
            && r.Opened? && r.index == index
            && (forall e :: e in index ==> e.seqNo < r.cp.nextSeq) && r.cp.nextSeq == RaiseSeq(cp, index).nextSeq
            && r.cp.cursor == cp.cursor && r.cp.backfill == cp.backfill
            && (last >= cp.segStart ==> r.segs == Kept(segs, cp.segStart) && r.curSeg == last)
            && (last < cp.segStart ==> r.segs == map[cp.segStart := []] && r.curSeg == cp.segStart)
            && cp.segStart <= r.cp.segStart && (Fits(cp, segs) ==> Fits(r.cp, r.segs))
            && (forall k :: k in r.segs ==> r.cp.segStart <= k <= r.curSeg)
            && (forall e :: e in All(layout, last + 1) ==> Beyond(r.cp, e) == Beyond(cp, e))
  {
    hide Entries, All, SweepBelow, Scan, Lay, Intact, MaxSeq, Least, Greatest;
    AllOrdered(layout, last + 1);
    if last < cp.segStart {
      assert Kept(segs[last := segs[last] + tail], cp.segStart).Keys == {};
      BelowIsCovered(layout, cp, last + 1);
    } else {
      assert last in Kept(segs, cp.segStart);
      var first := Least(Kept(segs, cp.segStart).Keys);
      assert forall k :: k in segs && cp.segStart <= k ==> k in Kept(segs, cp.segStart).Keys;
      RecoverAlive(segs, layout, cp, first, last, tail);
      forall e | e in All(layout, last + 1) && e.seg >= cp.segStart ensures e.seg in Kept(segs, cp.segStart) {
      }
    }
  }

  /**
   What a crash loses, exactly: on any laid-out disk, under any checkpoint, the last frames of
   the log survive if and only if the checkpoint does not claim the first of them.
   */
  lemma PendingSurvivesIff(segs: map<nat, bytes>, layout: map<nat, seq<Piece>>, cp: Checkpoint, last: nat, tail: bytes,
                           pend: seq<Entry>)
    requires Laid(segs, layout) && last in segs && Newest(segs, last)
    requires (Fits(cp, segs) || tail == []) && |tail| < PREFIX
    requires Suffix(pend, All(layout, last + 1))
    ensures var r := Recover(Disk(segs[last := segs[last] + tail], cp));
            r.Opened? && (Suffix(pend, r.index) <==> pend == [] || Beyond(cp, pend[0]))
  {
    hide All, Recover, Laid, After, Fits;
    RecoverRebuilds(segs, layout, cp, last, tail);
    AllOrdered(layout, last + 1);
    SuffixSurvives(All(layout, last + 1), cp, pend);
  }

  /** With no segment left the checkpoint's number is taken for a new one, in memory only. */
  lemma NoSegments(cp: Checkpoint)
    ensures var r := Recover(Disk(map[], cp));
            && r.Opened? && r.segs == map[cp.segStart := []] && r.curSeg == cp.segStart && r.index == []
            && r.cp == cp.(ackedBytes := 0, nextSeq := r.cp.nextSeq) && cp.nextSeq <= r.cp.nextSeq
  {
    assert Kept(map[], cp.segStart).Keys == {};
  }

  /** With a torn tail the directory opens if and only if the checkpoint fits. */
  lemma OpensIff(segs: map<nat, bytes>, layout: map<nat, seq<Piece>>, cp: Checkpoint, last: nat, tail: bytes)
    requires Laid(segs, layout) && last in segs && Newest(segs, last) && |tail| < PREFIX
    ensures Recover(Disk(segs[last := segs[last] + tail], cp)).Opened? <==> tail == [] || Fits(cp, segs)
  {
    hide Recover, Laid;
    if Fits(cp, segs) || tail == [] {
      RecoverRebuilds(segs, layout, cp, last, tail);
    } else {
      StuckOnNewest(segs, layout, cp, tail);
    }
  }

  lemma StuckOnNewest(segs: map<nat, bytes>, layout: map<nat, seq<Piece>>, cp: Checkpoint, tail: bytes)
    requires Laid(segs, layout) && !Fits(cp, segs) && 0 < |tail| < PREFIX
    ensures Recover(Disk(segs[cp.segStart := segs[cp.segStart] + tail], cp)) == Failed
  {
    hide Scan, Least, Greatest, SweepBelow, Lay, Intact, Entries, Past;
    var k := cp.segStart;
    var torn := segs[k := segs[k] + tail];
    ScanFindsWholeRecords(layout[k], tail, k, cp.ackedBytes);
    var alive := Kept(torn, k);
    assert alive == map[k := torn[k]];
    assert alive.Keys == {k};
    SkipsBelow(alive, cp, k);
    OneStep(alive, cp, k);
  }

  lemma {:induction false} SkipsBelow(segs: map<nat, bytes>, cp: Checkpoint, hi: nat)
    requires forall k :: k in segs ==> hi <= k
    ensures SweepBelow(segs, cp, hi) == Swept(segs, [])
  {
    if hi > 0 {
      SkipsBelow(segs, cp, hi - 1);
    }
  }

  lemma OneStep(segs: map<nat, bytes>, cp: Checkpoint, k: nat)
    ensures SweepBelow(segs, cp, k + 1) == SweepOne(SweepBelow(segs, cp, k), segs, cp, k)
  {
  }
}
