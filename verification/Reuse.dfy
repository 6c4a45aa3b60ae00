/**
 Where crash safety stops. If the process dies after deleting its last segment and before
 persisting the checkpoint, the segment number is used again while the persisted checkpoint
 still claims acknowledged bytes in it.
 */
module Reuse {
  import opened Bytes
  import opened Codec
  import opened Records
  import opened Segments
  import opened Recovery
  import opened Journal

  ghost predicate Holds(segs: map<nat, bytes>, layout: map<nat, seq<Piece>>, last: nat) {
    Laid(segs, layout) && last in segs && Newest(segs, last)
  }

  /**
   A frame written at the end of the newest segment and followed by a persist is recovered
   exactly when the checkpoint claims fewer bytes of that segment than the frame's end.
   */
  lemma NextFrameSurvivesIff(segs: map<nat, bytes>, layout: map<nat, seq<Piece>>, cp: Checkpoint, last: nat, f: bytes)
    requires Holds(segs, layout, last) && ValidFrame(f) && cp.segStart <= last
    ensures var e := EntryOf(last, |segs[last]|, f);
            var r := Recover(Disk(segs[last := segs[last] + Record(f)], cp));
            r.Opened? && (e in r.index <==> cp.segStart < last || cp.ackedBytes < e.End())
  {
    hide All, After, Recover, Lay, Intact, ParseHeader, SeqOf, Be, Entries;
    var e := EntryOf(last, |segs[last]|, f);
    var segs' := segs[last := segs[last] + Record(f)];
    var layout' := layout[last := layout[last] + [Good(f)]];
    Snoc(layout[last], Good(f), last);
    IntactSnoc(layout[last], f);
    assert Laid(segs', layout');
    assert segs'[last := segs'[last] + []] == segs' by {
      assert segs'[last] + [] == segs'[last];
    }
    RecoverRebuilds(segs', layout', cp, last, []);
    LogGrows(layout, last, f);
    AllOrdered(layout', last + 1);
    var log := All(layout', last + 1);
    assert log[|log| - 1..] == [e];
    SuffixSurvives(log, cp, [e]);
    AfterIsSuffix(log, cp);
    LastOrNothing(After(log, cp), log);
  }

  lemma LastOrNothing(p: seq<Entry>, s: seq<Entry>)
    requires Suffix(p, s) && Ordered(s) && s != []
    ensures s[|s| - 1] in p <==> Suffix([s[|s| - 1]], p)
  {
    if p != [] {
      assert p[|p| - 1] == s[|s| - 1];
      assert p[|p| - 1..] == [s[|s| - 1]];
    }
  }

  /**
   Two boots and a write that lose a frame below the durable cursor. In `s` the last segment has
   been deleted and the checkpoint on disk still claims bytes of it. Boot 1 starts an empty segment
   under the same number and zeroes the count in memory; the process dies before anything is
   persisted. Boot 2 loads the stale count; `g` is written and the cursor persisted together with that
   count. The next boot takes `g` for acknowledged: nothing is pending, and the cursor is past it.
   */
  lemma ReusedSegmentLosesFrame(s: Core, g: bytes, ts: int) returns (s1: Core, s2: Core, s3: Core)
    requires Recoverable(s) && s.segs == map[] && s.saved.ackedBytes >= |Record(g)| && ValidFrame(g)
    ensures Boots(s, s1) && s1.sound && !s1.guarded && s1.pend == []
    ensures Boots(s1, s2) && !s2.sound && s2.pend == [] && s2.curSeg in s2.segs
    ensures s3 == Saved(Placed(Wrote(s2, g, g[3]), ts, s2.cp.backfill))
    ensures s3.pend == [Entry(s2.curSeg, 0, |g|, s2.cp.nextSeq, g[3])] && s3.saved.cursor == ts && !s3.guarded
    ensures var r := Recover(CrashDisk(s3, []));
            r.Opened? && r.index == [] && r.cp.cursor == ts
  {
    hide Recover, Queued, Logged, All, After, Record, Fits, Lay, Intact, ParseHeader;
    var k := s.saved.segStart;
    LongerThan(g);
    s1 := StaleOnce(s);
    s2 := StaleTwice(s1, k);
    assert s2.segs[k] + Record(g) == Record(g);
    s3 := Saved(Placed(Wrote(s2, g, g[3]), ts, s2.cp.backfill));
    assert s3.segs == map[k := Record(g)];
    assert s3.segs[k := s3.segs[k] + []] == s3.segs by {
      assert s3.segs[k] + [] == s3.segs[k];
    }
    CoveredSegment(k, g, s3.saved);
  }

  /** A crash between two steps and a reopening. */
  ghost predicate Boots(s: Core, s': Core) {
    Recover(CrashDisk(s, [])).Opened? && s' == AfterOpen(s, Recover(CrashDisk(s, [])))
  }

  lemma StaleOnce(s: Core) returns (s1: Core)
    requires Recoverable(s) && s.segs == map[] && s.saved.ackedBytes > 0
    ensures Boots(s, s1) && Recoverable(s1) && s1.sound && !s1.guarded && s1.pend == []
    ensures s1.segs == map[s.saved.segStart := []] && s1.curSeg == s.saved.segStart && s1.saved == s.saved
  {
    hide Recover, Queued, Logged, All, After;
    CrashRecovery(s, []);
    NoSegments(s.saved);
    s1 := AfterOpen(s, Recover(CrashDisk(s, [])));
  }

  lemma StaleTwice(s1: Core, k: nat) returns (s2: Core)
    requires Recoverable(s1) && s1.segs == map[k := []] && s1.curSeg == k && s1.saved.segStart == k && s1.saved.ackedBytes > 0
    ensures Boots(s1, s2) && !s2.sound && s2.pend == []
    ensures s2.segs == map[k := []] && s2.curSeg == k && s2.cp.segStart == k && s2.cp.ackedBytes == s1.saved.ackedBytes
  {
    hide Queued, Logged, All, After, SweepBelow, Scan, Least, Greatest;
    CrashRecovery(s1, []);
    assert s1.segs[k] + [] == s1.segs[k];
    assert CrashDisk(s1, []).segs == s1.segs;
    assert Kept(s1.segs, k) == s1.segs && s1.segs.Keys == {k};
    s2 := AfterOpen(s1, Recover(CrashDisk(s1, [])));
    assert Newest(s2.segs, k);
    InsideEmptyFile(s2, k);
  }

  lemma InsideEmptyFile(s: Core, k: nat)
    requires Recoverable(s) && s.segs == map[k := []]
    ensures s.pend == []
  {
    hide Ordered, Rising, Fits, Logged;
    if s.pend != [] {
      PendingInFile(s, 0);
      assert false;
    }
  }

  lemma PendingInFile(s: Core, i: nat)
    requires Queued(s) && i < |s.pend|
    ensures InFile(s.segs, s.pend[i])
  {
    assert s.pend[i] in s.pend;
  }

  /** A segment holding one frame, all of it claimed. */
  lemma CoveredSegment(k: nat, g: bytes, cp: Checkpoint)
    requires ValidFrame(g) && cp.segStart == k && |Record(g)| <= cp.ackedBytes
    ensures var r := Recover(Disk(map[k := Record(g)], cp));
            r.Opened? && r.index == [] && r.cp.cursor == cp.cursor
  {
    hide Recover, Lay, Entries, Intact, All, After, Ordered, ParseHeader, Record;
    Blank(k);
    var ps := [Good(g)];
    assert [] + ps == ps && [] + Record(g) == Record(g);
    IntactSnoc([], g);
    Snoc([], Good(g), k);
    var segs, layout := map[k := Record(g)], map[k := ps];
    assert segs[k := segs[k] + []] == segs by {
      assert segs[k] + [] == segs[k];
    }
    RecoverRebuilds(segs, layout, cp, k, []);
    AllOrdered(layout, k + 1);
    EntriesOrdered(k, ps);
    NothingBeyond(All(layout, k + 1), cp);
  }

  lemma {:induction false} NothingBeyond(es: seq<Entry>, cp: Checkpoint)
    requires forall e :: e in es ==> !Beyond(cp, e)
    ensures After(es, cp) == []
  {
    if |es| > 0 {
      NothingBeyond(es[1..], cp);
    }
  }
}
