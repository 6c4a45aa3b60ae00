/** The segmented write-ahead log: frames in numbered segment files, an index in memory, a checkpoint. */
module WriteAheadLog {
  import opened Bytes
  import opened Codec
  import opened Records
  import opened Segments
  import opened Recovery
  import opened Journal
  import opened Queues

  const DEFAULT_SEGMENT_SIZE: nat := 0x400_0000
  const BACKFILL_NONE: int := 0
  const BACKFILL_ALL: int := -1

  datatype PeekResult = Frames(frames: seq<FrameData>) | Empty | Unreadable(seqNo: nat)

  /** The queue that a state of the log stands for. */
  ghost function ViewOf(s: Core): Queue<FrameData> {
    Queue(ReadAll(s.segs, s.pend), s.written, s.cp.nextSeq, s.cp.cursor, s.saved.cursor,
          s.sound, s.guarded, Fits(s.saved, s.segs))
  }

  /** Nothing happened to the queue, except that its checkpoint may have come to fit. */
  ghost predicate Unchanged(q: Queue<FrameData>, q': Queue<FrameData>) {
    q' == q.(fits := q'.fits) && (q.fits ==> q'.fits)
  }

  /** Frames as AppendBatch stores them: numbered consecutively from `next`. */
  function Numbered(frames: seq<bytes>, next: nat): (fs: seq<FrameData>)
    requires forall f :: f in frames ==> |f| >= HEADER_SIZE
    ensures |fs| == |frames|
  {
    seq(|frames|, i requires 0 <= i < |frames| => FrameData(next + i, RewriteSeq(frames[i], next + i)))
  }

  /** How many leading frames are long enough to be frames at all. */
  function LongEnough(frames: seq<bytes>): (n: nat)
    ensures n <= |frames|
    ensures forall i :: 0 <= i < n ==> |frames[i]| >= HEADER_SIZE
    ensures n < |frames| ==> |frames[n]| < HEADER_SIZE
  {
    if |frames| == 0 || |frames[0]| < HEADER_SIZE then 0 else 1 + LongEnough(frames[1..])
  }

  function PeekCount(pending: nat, n: int): (c: nat)
    ensures c <= pending
  {
    if 0 < n < pending then n else pending
  }

  /** The segment files left after deleting those numbered from `lo` up to `hi`. */
  ghost function Without(segs: map<nat, bytes>, lo: nat, hi: nat): map<nat, bytes> {
    map k | k in segs && !(lo <= k < hi) :: segs[k]
  }

  lemma WithoutNone(segs: map<nat, bytes>, lo: nat)
    ensures Without(segs, lo, lo) == segs
  {
  }

  lemma WithoutNext(segs: map<nat, bytes>, lo: nat, hi: nat)
    requires lo <= hi
    ensures Without(segs, lo, hi + 1) == Without(segs, lo, hi) - {hi}
  {
  }

  // ---------------------------------------------------------------- opening

  /** Removes stale segments, scans the rest in order and restores the numbering. */
  method RecoverDisk(d: Disk) returns (r: Opened)
    ensures r == Recover(d)
  {
    hide Kept, SweepBelow, RaiseSeq, StartAt, Least, Greatest;
    var alive := Kept(d.segs, d.cp.segStart);
    if alive.Keys == {} {
      var next := RaiseByScan(d.cp.(ackedBytes := 0), []);
      return Opened(map[d.cp.segStart := []], next, [], d.cp.segStart);
    }
    var first, last := Ends(alive.Keys);
    var start := StartAt(d.cp, first);
    var sweep := SweepSegments(alive, start, last + 1);
    if sweep.Stuck? {
      return Failed;
    }
    var next := RaiseByScan(start, sweep.index);
    return Opened(sweep.segs, next, sweep.index, last);
  }

  method Ends(keys: set<nat>) returns (first: nat, last: nat)
    requires keys != {}
    ensures first == Least(keys) && last == Greatest(keys)
  {
    hide Least, Greatest;
    var k :| k in keys;
    first, last := k, k;
    var rest := keys - {k};
    while rest != {}
      invariant rest <= keys && first in keys && last in keys
      invariant forall x :: x in keys && x !in rest ==> first <= x <= last
    {
      var x :| x in rest;
      if x < first { first := x; }
      if x > last { last := x; }
      rest := rest - {x};
    }
  }

  method RaiseByScan(cp: Checkpoint, es: seq<Entry>) returns (r: Checkpoint)
    ensures r == RaiseSeq(cp, es)
    ensures Resumes(cp.nextSeq, es, r.nextSeq)
  {
    RaisesToLeast(cp, es);
    var top := 0;
    for i := 0 to |es|
      invariant top == MaxSeq(es[..i])
    {
      assert es[..i + 1][..i] == es[..i];
      if es[i].seqNo > top {
        top := es[i].seqNo;
      }
    }
    assert es[..|es|] == es;
    return if cp.nextSeq < top + 1 then cp.(nextSeq := top + 1) else cp;
  }

  method SweepSegments(segs: map<nat, bytes>, cp: Checkpoint, hi: nat) returns (s: Sweep)
    ensures s == SweepBelow(segs, cp, hi)
  {
    hide Scan;
    s := Swept(segs, []);
    for k := 0 to hi
      invariant s == SweepBelow(segs, cp, k) && s.Swept?
    {
      if k in segs {
        var r := IndexSegment(segs[k], k, SkipOf(cp, k));
        if r.Refused? {
          StuckStays(segs, cp, k + 1, hi);
          return Stuck;
        }
        s := Swept(s.segs[k := segs[k][..r.size]], s.index + r.entries);
      }
    }
  }

  lemma {:induction false} StuckStays(segs: map<nat, bytes>, cp: Checkpoint, k: nat, hi: nat)
    requires k <= hi && SweepBelow(segs, cp, k).Stuck?
    ensures SweepBelow(segs, cp, hi).Stuck?
  {
    if k < hi {
      StuckStays(segs, cp, k, hi - 1);
    }
  }

  lemma CrashKeepsCheckpoint(s: Core, tail: bytes)
    ensures CrashDisk(s, tail).cp == s.saved
  {
  }

  lemma ReadsSuffix(segs: map<nat, bytes>, p: seq<Entry>, es: seq<Entry>)
    requires Suffix(p, es)
    ensures ReadAll(segs, es) == ReadAll(segs, es[..|es| - |p|]) + ReadAll(segs, p)
  {
    hide Read;
  }

  lemma NothingPending(s: Core)
    requires Queued(s) && s.segs == map[]
    ensures s.pend == []
  {
    assert forall i :: 0 <= i < |s.pend| ==> s.pend[i] in s.pend;
  }

  /** Reopening after a crash, seen as a queue, whether or not the persisted checkpoint fits. */
  lemma RebootView(s: Core, tail: bytes)
    requires Recoverable(s) && |tail| < PREFIX && Opens(s, tail)
    ensures var r := Recover(CrashDisk(s, tail));
            && r.Opened? && r.curSeg in r.segs
            && var s' := AfterOpen(s, r);
               && Recoverable(s') && Steady(s')
               && s'.segs == r.segs && s'.cp == r.cp && s'.pend == r.index && s'.curSeg == r.curSeg && s'.saved == s.saved
               && Reboot(ViewOf(s), ViewOf(s'))
  {
    hide Queued, Logged, Steady, ReadAll, CrashDisk, Fits, Recover, Suffix, All, After;
    CrashRecovery(s, tail);
    var r := Recover(CrashDisk(s, tail));
    if s.guarded {
      KeptBehindOlder(s, r);
    }
    RecoveredWasWritten(s, r);
    LogFacts(s);
    CrashKeepsCheckpoint(s, tail);
    NumberingResumes(CrashDisk(s, tail));
  }

  lemma KeptBehindOlder(s: Core, r: Opened)
    requires r.Opened? && Queued(s) && Suffix(s.pend, r.index) && (s.segs != map[] ==> r.segs == s.segs)
    ensures exists older :: ReadAll(r.segs, r.index) == older + ReadAll(s.segs, s.pend)
  {
    hide Queued, ReadAll, Suffix;
    ReadsSuffix(r.segs, s.pend, r.index);
    if s.segs == map[] {
      NothingPending(s);
      assert ReadAll(s.segs, s.pend) == ReadAll(r.segs, s.pend);
    }
  }

  lemma RecoveredWasWritten(s: Core, r: Opened)
    requires r.Opened? && Logged(s) && Suffix(r.index, s.Log())
    requires (s.segs != map[] ==> r.segs == s.segs) && (s.segs == map[] ==> r.index == [])
    ensures forall f :: f in ReadAll(r.segs, r.index) ==> f in s.written
  {
    hide Logged, ReadAll, Suffix, All, Read;
    LogFacts(s);
    forall f | f in ReadAll(r.segs, r.index) ensures f in s.written {
      var i :| 0 <= i < |r.index| && f == ReadAll(r.segs, r.index)[i];
      RecoveredIsKnown(s, r.index, i);
    }
  }

  lemma LogFacts(s: Core)
    requires Logged(s)
    ensures Laid(s.segs, s.layout) && Known(s.layout, s.written) && s.saved.nextSeq <= s.cp.nextSeq
  {
  }

  // ---------------------------------------------------------------- reading

  lemma ReadsOneMore(segs: map<nat, bytes>, es: seq<Entry>, i: nat)
    requires i < |es|
    ensures ReadAll(segs, es[..i + 1]) == ReadAll(segs, es[..i]) + [Read(segs, es[i])]
  {
    hide Read;
  }

  lemma ReadsPrefix(segs: map<nat, bytes>, es: seq<Entry>, n: nat)
    requires n <= |es|
    ensures ReadAll(segs, es[..n]) == ReadAll(segs, es)[..n]
  {
    hide Read;
  }

  lemma ReadableIfQueued(s: Core, e: Entry)
    requires e in s.pend
    ensures Queued(s) ==> InFile(s.segs, e)
  {
  }

  // ---------------------------------------------------------------- appending

  lemma NoneAhead(s: Core)
    requires Queued(s)
    ensures s.curSeg + 1 !in s.segs
  {
  }

  lemma NumberedSnoc(frames: seq<bytes>, i: nat, next: nat)
    requires i < |frames| && forall k :: 0 <= k <= i ==> |frames[k]| >= HEADER_SIZE
    ensures Numbered(frames[..i + 1], next)
         == Numbered(frames[..i], next) + [FrameData(next + i, RewriteSeq(frames[i], next + i))]
  {
    hide RewriteSeq;
  }

  lemma RewriteKeepsType(f: bytes, s: nat)
    requires |f| >= HEADER_SIZE
    ensures RewriteSeq(f, s)[3] == f[3]
  {
    hide Be;
  }

  lemma {:induction false} AllLongEnough(frames: seq<bytes>)
    requires forall f :: f in frames ==> |f| >= HEADER_SIZE
    ensures LongEnough(frames) == |frames|
  {
    if |frames| > 0 {
      assert frames[0] in frames;
      AllLongEnough(frames[1..]);
    }
  }

  ghost predicate AllRecover(images: seq<Core>) {
    forall i :: 0 <= i < |images| ==> Recoverable(images[i])
  }

  lemma OneMoreImage(images: seq<Core>, s: Core)
    requires Queued(s)
    ensures AllRecover(images) && Logged(s) ==> AllRecover(images + [s])
  {
    hide Queued, Logged;
  }

  lemma ViewWrites(s: Core, f: bytes, typ: byte)
    requires s.curSeg in s.segs && Queued(s)
    ensures var q := ViewOf(Wrote(s, f, typ));
            q == Append(ViewOf(s), [FrameData(s.cp.nextSeq, f)], q.fits)
  {
    hide Queued, ReadAll, Fits, Record;
    QueueWrites(s, f, typ);
    var x := FrameData(s.cp.nextSeq, f);
    assert (set y | y in [x]) == {x};
  }

  lemma RecoverableParts(s: Core)
    requires Recoverable(s)
    ensures Queued(s) && Logged(s)
  {
  }

  lemma SameLog(s: Core, r: Opened)
    requires r.Opened?
    ensures var s' := AfterOpen(s, r);
            s'.segs == r.segs && s'.cp == r.cp && s'.pend == r.index && s'.curSeg == r.curSeg && s'.saved == s.saved
  {
  }

  lemma AppendNone(q: Queue<FrameData>, frames: seq<bytes>, next: nat)
    ensures Append(q, Numbered(frames[..0], next), q.fits) == q
  {
    assert q.pending + [] == q.pending;
  }

  /** One more frame of a batch: space is made, then the record is written. */
  lemma AppendMore(q: Queue<FrameData>, frames: seq<bytes>, i: nat, next: nat,
                   q0: Queue<FrameData>, q1: Queue<FrameData>, q2: Queue<FrameData>)
    requires i < |frames| && forall k :: 0 <= k <= i ==> |frames[k]| >= HEADER_SIZE
    requires q0 == Append(q, Numbered(frames[..i], next), q0.fits) && Unchanged(q0, q1)
    requires q2 == Append(q1, [FrameData(next + i, RewriteSeq(frames[i], next + i))], q2.fits)
    ensures q2 == Append(q, Numbered(frames[..i + 1], next), q2.fits)
  {
    hide RewriteSeq;
    NumberedSnoc(frames, i, next);
    var a, x := Numbered(frames[..i], next), FrameData(next + i, RewriteSeq(frames[i], next + i));
    assert q.pending + (a + [x]) == q.pending + a + [x];
    assert (set f | f in a + [x]) == (set f | f in a) + (set f | f in [x]);
  }

  class Wal {
    const segSize: int
    // on disk
    var segs: map<nat, bytes>
    var saved: Checkpoint
    // in memory
    var cp: Checkpoint
    var index: seq<Entry>
    var acked: nat
    var curSeg: nat
    var isOpen: bool
    var curOffset: nat
    var legacy: bool

    ghost var layout: map<nat, seq<Piece>>
    ghost var sound: bool
    ghost var guarded: bool
    ghost var written: set<FrameData>
    /** Every state the disk has been in since the log was opened, with what had to survive then. */
    ghost var images: seq<Core>

    ghost function Pend(): seq<Entry>
      requires acked <= |index|
      reads this
    {
      index[acked..]
    }

    ghost function Now(): Core
      requires acked <= |index|
      reads this
    {
      Core(segs, layout, saved, cp, Pend(), curSeg, sound, guarded, written)
    }

    ghost predicate Valid()
      reads this
    {
      && acked <= |index|
      && (isOpen ==> curSeg in segs && curOffset == |segs[curSeg]|)
      && Queued(Now())
    }

    /** Every disk state so far, and the present one, recovers. */
    ghost predicate Clean()
      reads this
    {
      Valid() && Logged(Now()) && Steady(Now()) && PastRecovers()
    }

    ghost predicate PastRecovers()
      reads this
    {
      AllRecover(images)
    }

    ghost function Pending(): seq<FrameData>
      requires Valid()
      reads this
    {
      ReadAll(segs, Pend())
    }

    ghost function View(): (q: Queue<FrameData>)
      requires Valid()
      reads this
      ensures q.pending == Pending() && q.nextSeq == cp.nextSeq && q.cursor == cp.cursor && q.durable == saved.cursor
    {
      ViewOf(Now())
    }

    // -------------------------------------------------------------- opening

    constructor (size: int, r: Opened, d: Disk, legacyFile: bool, ghost s: Core)
      requires r.Opened?
      ensures segs == r.segs && cp == r.cp && index == r.index && acked == 0 && curSeg == r.curSeg
      ensures saved == d.cp && legacy == legacyFile
      ensures segSize == if size <= 0 then DEFAULT_SEGMENT_SIZE else size
      ensures isOpen <==> r.curSeg in r.segs
      ensures isOpen ==> curOffset == |segs[curSeg]|
      ensures layout == s.layout && sound == s.sound && guarded == s.guarded && written == s.written && images == [s]
    {
      segSize := if size <= 0 then DEFAULT_SEGMENT_SIZE else size;
      segs, saved, cp, index, acked, curSeg, legacy := r.segs, d.cp, r.cp, r.index, 0, r.curSeg, legacyFile;
      isOpen := r.curSeg in r.segs;
      curOffset := if r.curSeg in r.segs then |r.segs[r.curSeg]| else 0;
      layout, sound, guarded, written, images := s.layout, s.sound, s.guarded, s.written, [s];
    }

    /**
     Opens a directory. The ghost arguments describe the run before a crash, if that is where the
     disk comes from: then opening fails only if a torn tail meets a checkpoint that does not fit,
     and otherwise the log is in order and has lost nothing it had to keep.
     */
    static method Open(d: Disk, size: int, legacyFile: bool, ghost s: Core, ghost tail: bytes) returns (w: Wal?)
      ensures w == null <==> Recover(d).Failed?
      ensures w != null ==>
                && fresh(w) && w.saved == d.cp && w.legacy == legacyFile
                && Opened(w.segs, w.cp, w.index, w.curSeg) == Recover(d) && w.acked == 0
                && Resumes(d.cp.nextSeq, w.index, w.cp.nextSeq)
                && (w.index == [] ==> w.cp.nextSeq == if d.cp.nextSeq == 0 then 1 else d.cp.nextSeq)
      ensures Recoverable(s) && |tail| < PREFIX && d == CrashDisk(s, tail) ==>
                && (w == null <==> !Opens(s, tail))
                && (w != null ==> w.Clean() && Reboot(ViewOf(s), w.View()))
    {
      hide Recoverable, Queued, Logged, Steady, ReadAll, CrashDisk, AfterOpen, Fits, Recover, Reboot, Opens, ViewOf, Resumes;
      var r := RecoverDisk(d);
      ghost var ours := Recoverable(s) && |tail| < PREFIX && d == CrashDisk(s, tail);
      if ours {
        CrashRecovery(s, tail);
      }
      if r.Failed? {
        return null;
      }
      NumberingResumes(d);
      ghost var s' := Core(map[], map[], d.cp, d.cp, [], 0, false, false, {});
      if ours {
        RebootView(s, tail);
        s' := AfterOpen(s, r);
        SameLog(s, r);
      }
      w := new Wal(size, r, d, legacyFile, s');
      assert w.Pend() == r.index;
      if ours {
        assert d.cp == s.saved by { CrashKeepsCheckpoint(s, tail); }
        assert w.Now() == s';
        RecoverableParts(s');
      }
    }

    // -------------------------------------------------------------- appending

    /** Opens the current segment file, creating it if needed. */
    method Rotate()
      requires Valid()
      modifies this
      ensures Valid() && isOpen && Unchanged(old(View()), View())
      ensures cp == old(cp) && saved == old(saved) && curSeg == old(curSeg) && Pend() == old(Pend())
      ensures segs == (if old(curSeg in segs) then old(segs) else old(segs)[curSeg := []])
      ensures old(Clean()) ==> Clean()
    {
      hide Queued, Logged, Steady, ReadAll, Fits, AllRecover;
      if curSeg !in segs {
        ghost var s := Now();
        QueueCreates(s);
        if Logged(s) {
          LogCreates(s);
        }
        segs := segs[curSeg := []];
        layout := layout[curSeg := []];
        assert Now() == Created(s);
        Snap();
      }
      isOpen := true;
      curOffset := |segs[curSeg]|;
    }

    method EnsureSpace(need: nat)
      requires Valid()
      modifies this
      ensures Valid() && isOpen && Unchanged(old(View()), View())
      ensures cp == old(cp) && saved == old(saved) && Pend() == old(Pend())
      ensures old(isOpen) && old(curOffset) + need <= segSize ==> curSeg == old(curSeg) && curOffset == old(curOffset)
      ensures old(isOpen) && old(curOffset) + need > segSize ==> curSeg == old(curSeg) + 1 && curOffset == 0
      ensures !old(isOpen) ==> curSeg == old(curSeg)
      ensures old(Clean()) ==> Clean()
    {
      hide Queued, Logged, Steady, ReadAll, Fits;
      NoneAhead(Now());
      if !isOpen {
        Rotate();
        return;
      }
      if curOffset + need <= segSize {
        return;
      }
      ghost var s := Now();
      QueueMoves(s);
      if Logged(s) {
        LogMoves(s);
      }
      isOpen := false;
      curSeg := curSeg + 1;
      assert Now() == Moved(s);
      Rotate();
    }

    /** Writes one record at the end of the current segment and indexes it. */
    method WriteRecord(typ: byte, seqNo: nat, f: bytes)
      requires Valid() && isOpen && seqNo == cp.nextSeq
      modifies this
      ensures Valid() && View() == Append(old(View()), [FrameData(seqNo, f)], View().fits)
      ensures saved == old(saved) && cp.nextSeq == seqNo + 1
      ensures old(Clean()) && ValidFrame(f) && SeqOf(f) == seqNo && f[3] == typ ==> Clean()
    {
      hide Queued, Logged, Steady, ReadAll, ParseHeader, SeqOf, Be, Fits, Record, ViewOf, Append, AllRecover;
      ghost var s := Now();
      QueueWrites(s, f, typ);
      ViewWrites(s, f, typ);
      if Logged(s) && ValidFrame(f) && SeqOf(f) == seqNo && f[3] == typ {
        LogWrites(s, f);
      }
      PutRecord(typ, f);
      hide Wrote;
      Snap();
    }

    /** The write itself: file, index and checkpoint in memory. */
    method PutRecord(typ: byte, f: bytes)
      requires acked <= |index| && isOpen && curSeg in segs && curOffset == |segs[curSeg]|
      modifies this
      ensures acked <= |index| && isOpen && curSeg in segs && curOffset == |segs[curSeg]|
      ensures Now() == Wrote(old(Now()), f, typ) && images == old(images)
    {
      hide Record;
      ghost var s := Now();
      LongerThan(f);
      var e := Entry(curSeg, curOffset, |f|, cp.nextSeq, typ);
      segs := segs[curSeg := segs[curSeg] + Record(f)];
      layout := layout[curSeg := (if curSeg in layout then layout[curSeg] else []) + [Good(f)]];
      written := written + {FrameData(cp.nextSeq, f)};
      index, curOffset, cp := index + [e], curOffset + HEAD + |f|, cp.(nextSeq := cp.nextSeq + 1);
      assert Pend() == s.pend + [e];
      assert Now() == Wrote(s, f, typ);
    }

    /** One frame already encoded with the number the log expects next. */
    method AppendEncoded(typ: byte, seqNo: nat, f: bytes) returns (ok: bool)
      requires Valid()
      modifies this
      ensures Valid() && saved == old(saved)
      ensures ok <==> seqNo == old(cp).nextSeq
      ensures View() == if ok then Append(old(View()), [FrameData(seqNo, f)], View().fits) else old(View())
      ensures old(Clean()) && ValidFrame(f) && SeqOf(f) == seqNo && f[3] == typ ==> Clean()
    {
      hide Queued, Logged, Steady, ReadAll, ParseHeader, SeqOf, ViewOf;
      if seqNo != cp.nextSeq {
        return false;
      }
      EnsureSpace(|f| + HEAD);
      WriteRecord(typ, seqNo, f);
      return true;
    }

    /**
     Appends frames under consecutive numbers, up to the first that is too short to be a frame, and
     returns the numbers if there was none.
     */
    method AppendBatch(typ: byte, frames: seq<bytes>) returns (ok: bool, seqs: seq<nat>)
      requires Valid()
      modifies this
      ensures Valid() && saved == old(saved)
      ensures ok <==> LongEnough(frames) == |frames|
      ensures seqs == if ok then seq(|frames|, i => old(cp.nextSeq) + i) else []
      ensures View() == Append(old(View()), Numbered(frames[..LongEnough(frames)], old(cp.nextSeq)), View().fits)
      ensures (&& old(Clean()) && old(cp.nextSeq) + |frames| <= U64
               && forall f :: f in frames ==> ValidFrame(f) && f[3] == typ) ==> Clean()
    {
      hide Queued, Logged, Steady, ReadAll, ParseHeader, SeqOf, RewriteSeq, Be, UnBe, ViewOf, Append;
      ghost var n := LongEnough(frames);
      ghost var next := cp.nextSeq;
      ghost var tame := cp.nextSeq + |frames| <= U64 && forall f :: f in frames ==> ValidFrame(f) && f[3] == typ;
      AppendNone(View(), frames, next);
      seqs := [];
      for i := 0 to |frames|
        invariant i <= n
        invariant Valid() && saved == old(saved) && cp.nextSeq == next + i
        invariant seqs == seq(i, k => next + k)
        invariant View() == Append(old(View()), Numbered(frames[..i], next), View().fits)
        invariant old(Clean()) && tame ==> Clean()
      {
        var f := frames[i];
        if |f| < HEADER_SIZE {
          return false, [];
        }
        ghost var q := View();
        EnsureSpace(|f| + HEAD);
        ghost var q1 := View();
        var seqNo := cp.nextSeq;
        seqs := seqs + [seqNo];
        if tame {
          RewriteChangesOnlySeq(_ => 0, f, seqNo);
          RewriteKeepsType(f, seqNo);
        }
        WriteRecord(typ, seqNo, RewriteSeq(f, seqNo));
        AppendMore(old(View()), frames, i, next, q, q1, View());
      }
      assert frames[..|frames|] == frames[..n];
      return true, seqs;
    }

    // -------------------------------------------------------------- reading

    /** Reads the given frames back from their segment files. */
    method ReadFrames(es: seq<Entry>) returns (r: PeekResult)
      ensures !r.Empty?
      ensures r.Unreadable? ==> exists e :: e in es && !InFile(segs, e) && e.seqNo == r.seqNo
      ensures r.Frames? ==> r.frames == ReadAll(segs, es)
    {
      hide ReadAll;
      var out := [];
      for i := 0 to |es|
        invariant out == ReadAll(segs, es[..i])
      {
        var e := es[i];
        if e.seg !in segs || e.End() > |segs[e.seg]| {
          assert e in es && !InFile(segs, e);
          return Unreadable(e.seqNo);
        }
        ReadsOneMore(segs, es, i);
        out := out + [FrameData(e.seqNo, segs[e.seg][e.offset + HEAD..e.End()])];
      }
      assert es[..|es|] == es;
      return Frames(out);
    }

    /** The oldest pending frames, at most `n` of them if `n` is positive. */
    method PeekBatch(n: int) returns (r: PeekResult)
      requires acked <= |index|
      ensures Pend() == [] <==> r == Empty
      ensures r.Unreadable? ==> exists e :: e in Pend() && !InFile(segs, e) && e.seqNo == r.seqNo
      ensures r.Frames? ==> r.frames == ReadAll(segs, Pend())[..PeekCount(|Pend()|, n)]
      ensures Valid() ==> r == if Pending() == [] then Empty else Frames(Pending()[..PeekCount(|Pending()|, n)])
    {
      hide ReadAll, Queued, Read, InFile, ViewOf;
      if acked >= |index| {
        return Empty;
      }
      var count := |index| - acked;
      if n > 0 && count > n {
        count := n;
      }
      assert index[acked..acked + count] == Pend()[..count];
      r := ReadFrames(index[acked..acked + count]);
      ReadsPrefix(segs, Pend(), count);
      if r.Unreadable? {
        ghost var e :| e in Pend()[..count] && !InFile(segs, e) && e.seqNo == r.seqNo;
        ReadableIfQueued(Now(), e);
      }
    }

    // -------------------------------------------------------------- committing

    /** Keeps the present state in the history. */
    ghost method Snap()
      requires Valid()
      modifies this`images
      ensures Valid() && Now() == old(Now()) && images == old(images) + [Now()]
      ensures Logged(Now()) && old(PastRecovers()) ==> PastRecovers()
    {
      hide Queued, Logged, AllRecover;
      OneMoreImage(images, Now());
      images := images + [Now()];
    }

    /** Makes the checkpoint durable, with whatever it claims. */
    method Persist()
      requires Valid()
      modifies this
      ensures Valid() && saved == cp && segs == old(segs) && cp == old(cp) && Pend() == old(Pend())
      ensures curSeg == old(curSeg) && isOpen == old(isOpen) && curOffset == old(curOffset) && legacy == old(legacy)
      ensures View() == MoveCursor(old(View()), cp.cursor, View().fits)
      ensures View().guarded ==> Shields(saved, Now())
      ensures old(Clean()) ==> Clean()
    {
      hide Queued, Logged, Steady, ReadAll, Fits, Shields, AllRecover;
      ghost var s := Now();
      QueueSaves(s);
      if Logged(s) && Steady(s) {
        LogSaves(s);
      }
      saved := cp;
      guarded := sound;
      assert Now() == Saved(s);
      Snap();
    }

    /** Deletes the oldest segment, which holds no pending frame. */
    method RemoveOldest()
      requires Valid() && (Pend() != [] ==> Pend()[0].seg != cp.segStart)
      modifies this
      ensures Valid() && Now() == Removed(old(Now())) && acked == 0 && Pending() == old(Pending())
      ensures old(Logged(Now()) && PastRecovers()) ==> Logged(Now()) && Steady(Now()) && PastRecovers()
      ensures Pend() != [] ==> cp.segStart <= Pend()[0].seg
    {
      hide Queued, Logged, Steady, ReadAll, AllRecover;
      ghost var s := Now();
      QueueRemoves(s);
      if Logged(s) {
        LogRemoves(s);
      }
      DropSegment();
      assert Pend() != [] ==> Pend()[0] in s.pend;
      hide Removed;
      Snap();
    }

    /** The deletion itself: file, index and checkpoint in memory. */
    method DropSegment()
      requires acked <= |index| && (isOpen ==> curSeg in segs && curOffset == |segs[curSeg]|)
      modifies this
      ensures acked == 0 && (isOpen ==> curSeg in segs && curOffset == |segs[curSeg]|)
      ensures Now() == Removed(old(Now())) && images == old(images)
    {
      ghost var s := Now();
      var k := cp.segStart;
      segs, layout, sound := segs - {k}, layout - {k}, true;
      cp := cp.(segStart := k + 1, ackedBytes := 0);
      index, acked := index[acked..], 0;
      assert Now() == Removed(s).(curSeg := s.curSeg);
      if k == curSeg {
        isOpen, curSeg, curOffset := false, curSeg + 1, 0;
      }
      assert Now() == Removed(s);
    }

    /** Moves past the head frame in memory: the first half of a commit. */
    method AckHead()
      requires Valid() && Pending() != []
      modifies this
      ensures Valid() && Now() == Acked(old(Now())) && Pending() == old(Pending())[1..]
      ensures old(Logged(Now()) && PastRecovers()) ==> Logged(Now()) && PastRecovers()
      ensures old(Logged(Now())) && Pend() != [] && Pend()[0].seg == cp.segStart ==> Steady(Now())
      ensures Pend() != [] ==> cp.segStart <= Pend()[0].seg
    {
      hide Queued, Logged, Steady, ReadAll;
      ghost var s := Now();
      QueueAcks(s);
      if Logged(s) {
        LogAcks(s);
      }
      var cur := index[acked];
      assert index[acked + 1..] == Pend()[1..];
      acked := acked + 1;
      cp := cp.(ackedBytes := cur.End());
      sound := true;
      assert Now() == Acked(s);
    }

    /**
     Acknowledges the head frame, deletes the segments it was the last pending frame of, and
     persists the checkpoint if a segment went or the throttle interval has elapsed.
     */
    method Commit(seqNo: nat, elapsed: bool) returns (ok: bool, ghost persisted: bool)
      requires Valid() && Pending() != []
      modifies this
      ensures Valid()
      ensures ok <==> seqNo == old(Pending())[0].seqNo
      ensures !ok ==> View() == old(View()) && !persisted
      ensures ok ==> View() == Queues.Commit(old(View()), persisted)
      ensures persisted <==> ok && (elapsed || cp.segStart > old(cp.segStart))
      ensures ok && Pend() != [] ==> cp.segStart == Pend()[0].seg
      ensures ok && Pend() == [] ==> cp.segStart > old(cp.segStart)
      ensures ok ==> cp.ackedBytes == if cp.segStart == old(cp.segStart) then old(Pend())[0].End() else 0
      ensures ok ==> segs == Without(old(segs), old(cp.segStart), cp.segStart)
      ensures old(Clean()) ==> Clean()
    {
      hide Queued, Logged, Steady, ReadAll, Without, Fits, AllRecover;
      if index[acked].seqNo != seqNo {
        return false, false;
      }
      ghost var disk, from := segs, cp.segStart;
      WithoutNone(disk, from);
      AckHead();
      var removed := false;
      while acked >= |index| || index[acked].seg != cp.segStart
        invariant Valid() && Pending() == old(Pending())[1..] && written == old(written) && sound
        invariant cp.nextSeq == old(cp).nextSeq && cp.cursor == old(cp).cursor
        invariant saved == old(saved) && guarded == old(guarded)
        invariant Pend() != [] ==> cp.segStart <= Pend()[0].seg
        invariant old(Clean()) ==> Logged(Now()) && PastRecovers()
        invariant old(Clean()) && (removed || (Pend() != [] && Pend()[0].seg == cp.segStart)) ==> Steady(Now())
        invariant segs == Without(old(segs), old(cp.segStart), cp.segStart)
        invariant old(cp.segStart) <= cp.segStart && (removed <==> old(cp.segStart) < cp.segStart)
        invariant cp.ackedBytes == if removed then 0 else old(Pend())[0].End()
        decreases if acked < |index| then index[acked].seg - cp.segStart else 0
      {
        WithoutNext(disk, from, cp.segStart);
        RemoveOldest();
        removed := true;
        if |index| == 0 {
          break;
        }
      }
      persisted := removed || elapsed;
      if removed || elapsed {
        Persist();
      }
      return true, persisted;
    }

    // -------------------------------------------------------------- cursor and policy

    /** Moves the cursor forward and persists it. */
    method SetCursor(ts: int) returns (ok: bool)
      requires Valid()
      modifies this
      ensures Valid()
      ensures ok <==> ts >= old(cp.cursor)
      ensures View() == if ok then MoveCursor(old(View()), ts, View().fits) else old(View())
      ensures cp == (if ok then old(cp).(cursor := ts) else old(cp)) && saved == (if ok then cp else old(saved))
      ensures segs == old(segs) && Pend() == old(Pend()) && legacy == old(legacy)
      ensures old(Clean()) ==> Clean()
    {
      hide Queued, Logged, Steady, ReadAll, ViewOf;
      if ts < cp.cursor {
        return false;
      }
      SetPosition(ts, cp.backfill);
      Persist();
      return true;
    }

    /** Changes the cursor and the policy in memory. */
    method SetPosition(cursor: int, backfill: int)
      requires Valid()
      modifies this
      ensures Valid() && View() == old(View()).(cursor := cursor)
      ensures cp == old(cp).(cursor := cursor, backfill := backfill)
      ensures saved == old(saved) && segs == old(segs) && Pend() == old(Pend())
      ensures legacy == old(legacy)
      ensures old(Clean()) ==> Clean()
    {
      hide Queued, Logged, Steady, ReadAll;
      ghost var s := Now();
      QueuePlaces(s, cursor, backfill);
      if Logged(s) {
        LogPlaces(s, cursor, backfill);
      }
      cp := cp.(cursor := cursor, backfill := backfill);
      assert Now() == Placed(s, cursor, backfill);
    }

    /** Records a backfill policy; the only way the cursor moves back. */
    method ApplyBackfillPolicy(policy: int, boundary: int) returns (rewound: bool)
      requires Valid()
      modifies this
      ensures Valid() && Pending() == old(Pending()) && !legacy
      ensures rewound <==> !old(legacy) && old(cp.backfill) != policy && policy != BACKFILL_NONE && 0 < boundary < old(cp.cursor)
      ensures cp == old(cp).(backfill := policy, cursor := if rewound then boundary else old(cp.cursor))
      ensures saved == if old(legacy) || old(cp.backfill) != policy then cp else old(saved)
      ensures View() == if old(legacy) || old(cp.backfill) != policy then MoveCursor(old(View()), cp.cursor, View().fits) else old(View())
      ensures old(Clean()) ==> Clean()
    {
      hide Queued, Logged, Steady, ReadAll, ViewOf;
      if legacy {
        legacy := false;
        SetPosition(cp.cursor, policy);
        Persist();
        return false;
      }
      if cp.backfill == policy {
        return false;
      }
      rewound := policy != BACKFILL_NONE && boundary > 0 && boundary < cp.cursor;
      SetPosition(if rewound then boundary else cp.cursor, policy);
      Persist();
    }
  }

  /**
   Every state the disk went through since the log was opened recovers: no pending frame of that
   moment is lost, and what is recovered is a contiguous suffix of what was on disk.
   */
  lemma EveryDiskStateRecovers(w: Wal, i: nat, tail: bytes)
    requires w.Clean() && i < |w.images| && w.images[i].guarded && |tail| < PREFIX
    ensures var s := w.images[i];
            var r := Recover(CrashDisk(s, tail));
            && r.Opened? && Suffix(s.pend, r.index) && Suffix(r.index, s.Log())
            && (s.pend != [] ==> r.segs == s.segs && r.cp.nextSeq == s.cp.nextSeq)
            && r.cp.cursor == s.saved.cursor
  {
    hide Recover, CrashDisk, All, After, Laid, Rising, Fits, Logged;
    var s := w.images[i];
    CrashRecovery(s, tail);
    if s.segs == map[] {
      NothingPending(s);
    }
  }
}
