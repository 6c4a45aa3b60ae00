/**
 The state of the log on disk and in memory, the steps it takes (creating a segment, writing a
 record, acknowledging, deleting the oldest segment, persisting the checkpoint, reopening after a
 crash), and the invariants under which every disk state it passes through recovers.
 */
module Journal {
  import opened Bytes
  import opened Codec
  import opened Records
  import opened Segments
  import opened Recovery

  /**
   Disk, checkpoint in memory, the entries of the pending frames, and all frames ever written.
   `sound` and `guarded` say that recovering from the checkpoint in memory, or from the persisted
   one, loses no pending frame.
   */
  datatype Core = Core(segs: map<nat, bytes>, layout: map<nat, seq<Piece>>, saved: Checkpoint,
                       cp: Checkpoint, pend: seq<Entry>, curSeg: nat,
                       sound: bool, guarded: bool, written: set<FrameData>)
  {
    ghost function Log(): seq<Entry> { All(layout, curSeg + 1) }
  }

  ghost predicate InFile(segs: map<nat, bytes>, e: Entry) {
    e.seg in segs && e.End() <= |segs[e.seg]|
  }

  ghost function Read(segs: map<nat, bytes>, e: Entry): FrameData {
    FrameData(e.seqNo, if InFile(segs, e) then segs[e.seg][e.offset + HEAD..e.End()] else [])
  }

  ghost function ReadAll(segs: map<nat, bytes>, es: seq<Entry>): (fs: seq<FrameData>)
    ensures |fs| == |es|
    ensures forall i :: 0 <= i < |es| ==> fs[i] == Read(segs, es[i])
  {
    seq(|es|, i requires 0 <= i < |es| => Read(segs, es[i]))
  }

  /** Numbers rise along the entries, and the last one precedes the next to be assigned. */
  ghost predicate Rising(es: seq<Entry>, next: nat) {
    && (forall i, j :: 0 <= i < j < |es| ==> es[i].seqNo < es[j].seqNo)
    && (es != [] ==> es[|es| - 1].seqNo + 1 == next)
  }

  /** Recovering from checkpoint `c` loses no frame that is pending, nor the next one appended. */
  ghost predicate Shields(c: Checkpoint, s: Core) {
    Fits(c, s.segs) && (s.pend != [] ==> Beyond(c, s.pend[0]))
  }

  /** A current segment whose file does not exist yet has nothing acknowledged in it. */
  ghost predicate Settled(c: Checkpoint, s: Core) {
    c.segStart == s.curSeg && s.curSeg !in s.segs ==> c.ackedBytes == 0
  }

  /** Pending frames can be read back, oldest first, with rising numbers; the flags are true. */
  ghost predicate Queued(s: Core) {
    && s.saved.segStart <= s.cp.segStart <= s.curSeg
    && (forall k :: k in s.segs ==> s.cp.segStart <= k <= s.curSeg)
    && (forall e :: e in s.pend ==> InFile(s.segs, e))
    && Ordered(s.pend) && Rising(s.pend, s.cp.nextSeq)
    && Settled(s.cp, s) && Settled(s.saved, s)
    && (s.sound ==> Shields(s.cp, s)) && (s.guarded ==> Shields(s.saved, s))
  }

  /** Every record on disk is a frame that was written. */
  ghost predicate Known(layout: map<nat, seq<Piece>>, written: set<FrameData>) {
    forall k :: k in layout ==> KnownPieces(layout[k], written)
  }

  ghost predicate KnownPieces(ps: seq<Piece>, written: set<FrameData>) {
    forall p :: p in ps && p.Good? && |p.frame| >= HEADER_SIZE ==> FrameData(SeqOf(p.frame), p.frame) in written
  }

  /** A checkpoint that claims the whole of its segment. */
  function Beside(c: Checkpoint): Checkpoint {
    c.(segStart := c.segStart + 1, ackedBytes := 0)
  }

  /** The disk holds whole records, the pending ones last, numbered so that recovery can resume. */
  ghost predicate Logged(s: Core) {
    && Laid(s.segs, s.layout) && Known(s.layout, s.written)
    && s.saved.nextSeq <= s.cp.nextSeq
    && Suffix(s.pend, s.Log())
    && Rising(After(s.Log(), Beside(s.cp)), s.cp.nextSeq)
    && Rising(After(s.Log(), s.saved), s.cp.nextSeq)
  }

  /** Whatever the checkpoint in memory does not claim is numbered in order. */
  ghost predicate Steady(s: Core) {
    Rising(After(s.Log(), s.cp), s.cp.nextSeq)
  }

  ghost predicate Recoverable(s: Core) {
    Queued(s) && Logged(s)
  }

  // ---------------------------------------------------------------- the steps

  ghost function Created(s: Core): Core {
    s.(segs := s.segs[s.curSeg := []], layout := s.layout[s.curSeg := []])
  }

  ghost function Moved(s: Core): Core {
    s.(curSeg := s.curSeg + 1)
  }

  ghost function Wrote(s: Core, f: bytes, typ: byte): Core
    requires s.curSeg in s.segs
  {
    var at := s.segs[s.curSeg];
    s.(segs := s.segs[s.curSeg := at + Record(f)],
       layout := s.layout[s.curSeg := (if s.curSeg in s.layout then s.layout[s.curSeg] else []) + [Good(f)]],
       pend := s.pend + [Entry(s.curSeg, |at|, |f|, s.cp.nextSeq, typ)],
       cp := s.cp.(nextSeq := s.cp.nextSeq + 1),
       written := s.written + {FrameData(s.cp.nextSeq, f)})
  }

  /** After an acknowledgement the checkpoint in memory claims nothing that is pending. */
  ghost function Acked(s: Core): Core
    requires s.pend != []
  {
    s.(pend := s.pend[1..], cp := s.cp.(ackedBytes := s.pend[0].End()), sound := true)
  }

  ghost function Removed(s: Core): Core {
    var k := s.cp.segStart;
    s.(segs := s.segs - {k}, layout := s.layout - {k}, cp := Beside(s.cp),
       curSeg := if k == s.curSeg then k + 1 else s.curSeg, sound := true)
  }

  /** Persisting copies the checkpoint in memory, with whatever it claims. */
  ghost function Saved(s: Core): Core {
    s.(saved := s.cp, guarded := s.sound)
  }

  ghost function Placed(s: Core, cursor: int, backfill: int): Core {
    s.(cp := s.cp.(cursor := cursor, backfill := backfill))
  }

  // ---------------------------------------------------------------- the queue, step by step

  lemma ReadsSame(segs: map<nat, bytes>, segs': map<nat, bytes>, es: seq<Entry>)
    requires forall e :: e in es ==> InFile(segs, e) && e.seg in segs' && segs[e.seg] <= segs'[e.seg]
    ensures ReadAll(segs', es) == ReadAll(segs, es)
    ensures forall e :: e in es ==> InFile(segs', e)
  {
    forall i | 0 <= i < |es| ensures Read(segs', es[i]) == Read(segs, es[i]) {
      assert es[i] in es;
    }
  }

  /** A new, empty segment file. */
  lemma QueueCreates(s: Core)
    requires Queued(s) && s.curSeg !in s.segs
    ensures Queued(Created(s)) && ReadAll(Created(s).segs, s.pend) == ReadAll(s.segs, s.pend)
    ensures Fits(s.saved, s.segs) ==> Fits(s.saved, Created(s).segs)
  {
    hide Rising, ReadAll, Ordered, Beyond, Fits;
    ReadsSame(s.segs, Created(s).segs, s.pend);
    FitsCreated(s.cp, s);
    FitsCreated(s.saved, s);
  }

  lemma FitsCreated(c: Checkpoint, s: Core)
    requires Settled(c, s) && s.curSeg !in s.segs && (forall k :: k in s.segs ==> k <= s.curSeg) && c.segStart <= s.curSeg
    ensures Fits(c, s.segs) ==> Fits(c, Created(s).segs)
  {
    if c.segStart < s.curSeg {
      assert s.curSeg in Created(s).segs;
    }
  }

  lemma QueueMoves(s: Core)
    requires Queued(s)
    ensures Queued(Moved(s))
  {
    hide Rising, Ordered, Beyond, Fits, InFile;
  }

  lemma QueueWrites(s: Core, f: bytes, typ: byte)
    requires Queued(s) && s.curSeg in s.segs
    ensures Queued(Wrote(s, f, typ))
    ensures ReadAll(Wrote(s, f, typ).segs, Wrote(s, f, typ).pend) == ReadAll(s.segs, s.pend) + [FrameData(s.cp.nextSeq, f)]
    ensures Fits(s.saved, s.segs) ==> Fits(s.saved, Wrote(s, f, typ).segs)
  {
    hide Record, Read, Rising, Ordered, Beyond, Fits;
    var s' := Wrote(s, f, typ);
    var e := Entry(s.curSeg, |s.segs[s.curSeg]|, |f|, s.cp.nextSeq, typ);
    ReadsSame(s.segs, s'.segs, s.pend);
    ReadsRecord(s.segs, s.curSeg, f, e);
    assert ReadAll(s'.segs, s.pend + [e]) == ReadAll(s'.segs, s.pend) + [Read(s'.segs, e)];
    RisesByOne(s.pend, e);
    OrderedByOne(s.pend, e, s);
    FitsMore(s.saved, s, f);
    if s.sound { ShieldsWrote(s.cp, s, f, typ); }
    if s.guarded { ShieldsWrote(s.saved, s, f, typ); }
  }

  lemma FitsMore(c: Checkpoint, s: Core, f: bytes)
    requires s.curSeg in s.segs && (forall k :: k in s.segs ==> k <= s.curSeg)
    ensures Fits(c, s.segs) ==> Fits(c, s.segs[s.curSeg := s.segs[s.curSeg] + Record(f)])
  {
    hide Record;
    if c.segStart < s.curSeg {
      assert s.curSeg in s.segs[s.curSeg := s.segs[s.curSeg] + Record(f)];
    }
  }

  lemma ShieldsWrote(c: Checkpoint, s: Core, f: bytes, typ: byte)
    requires Shields(c, s) && s.curSeg in s.segs && (forall k :: k in s.segs ==> k <= s.curSeg) && c.segStart <= s.curSeg
    ensures Shields(c, Wrote(s, f, typ))
    ensures Shields(c.(nextSeq := c.nextSeq + 1), Wrote(s, f, typ))
  {
    hide Record;
    FitsMore(c, s, f);
    FitsMore(c.(nextSeq := c.nextSeq + 1), s, f);
    var e := Entry(s.curSeg, |s.segs[s.curSeg]|, |f|, s.cp.nextSeq, typ);
    assert Wrote(s, f, typ).pend[0] == if s.pend == [] then e else s.pend[0];
  }

  lemma ReadsRecord(segs: map<nat, bytes>, cur: nat, f: bytes, e: Entry)
    requires cur in segs && e.seg == cur && e.offset == |segs[cur]| && e.length == |f|
    ensures var segs' := segs[cur := segs[cur] + Record(f)];
            InFile(segs', e) && Read(segs', e) == FrameData(e.seqNo, f)
  {
    hide Be;
  }

  lemma RisesByOne(pend: seq<Entry>, e: Entry)
    requires Rising(pend, e.seqNo)
    ensures Rising(pend + [e], e.seqNo + 1)
  {
  }

  lemma OrderedByOne(pend: seq<Entry>, e: Entry, s: Core)
    requires Ordered(pend) && s.curSeg in s.segs && e.seg == s.curSeg && e.offset == |s.segs[s.curSeg]|
    requires forall k :: k in s.segs ==> k <= s.curSeg
    requires forall x :: x in pend ==> InFile(s.segs, x)
    ensures Ordered(pend + [e])
  {
    assert forall i :: 0 <= i < |pend| ==> pend[i] in pend;
  }

  /** An acknowledgement takes the head off and heals the checkpoint in memory, whatever it claimed. */
  lemma QueueAcks(s: Core)
    requires Queued(s) && s.pend != []
    ensures Queued(Acked(s)) && ReadAll(s.segs, Acked(s).pend) == ReadAll(s.segs, s.pend)[1..]
    ensures s.cp.segStart <= s.pend[0].seg && (|s.pend| > 1 ==> s.pend[0].seg <= s.pend[1].seg)
  {
    var head := s.pend[0];
    assert head in s.pend;
    assert |s.pend| > 1 ==> Precedes(head, s.pend[1]);
    assert forall e :: e in s.pend[1..] ==> e in s.pend;
    ShieldsAcked(s);
    hide Fits, Beyond;
  }

  lemma ShieldsAcked(s: Core)
    requires Queued(s) && s.pend != []
    ensures Shields(Acked(s).cp, Acked(s)) && (s.guarded ==> Shields(s.saved, Acked(s)))
  {
    hide Rising;
    var head := s.pend[0];
    assert head in s.pend;
    if |s.pend| > 1 {
      assert Precedes(head, s.pend[1]);
    }
  }

  /** Deleting the oldest segment once no pending frame is in it. */
  lemma QueueRemoves(s: Core)
    requires Queued(s) && (s.pend != [] ==> s.pend[0].seg != s.cp.segStart)
    ensures Queued(Removed(s)) && ReadAll(Removed(s).segs, s.pend) == ReadAll(s.segs, s.pend)
    ensures forall e :: e in s.pend ==> e.seg > s.cp.segStart
  {
    hide Rising, ReadAll, Fits;
    forall e | e in s.pend ensures e.seg > s.cp.segStart {
      var i :| 0 <= i < |s.pend| && s.pend[i] == e;
      assert s.pend[0] in s.pend;
      assert i > 0 ==> Precedes(s.pend[0], s.pend[i]);
    }
    ReadsSame(s.segs, Removed(s).segs, s.pend);
    assert Shields(Removed(s).cp, Removed(s)) && (s.guarded ==> Shields(s.saved, Removed(s))) by {
      ShieldsRemoved(s);
    }
  }

  lemma ShieldsRemoved(s: Core)
    requires Queued(s) && forall e :: e in s.pend ==> e.seg > s.cp.segStart
    ensures Shields(Removed(s).cp, Removed(s)) && (s.guarded ==> Shields(s.saved, Removed(s)))
  {
    hide Rising, Ordered;
    assert s.pend != [] ==> s.pend[0] in s.pend;
  }

  lemma QueueSaves(s: Core)
    requires Queued(s)
    ensures Queued(Saved(s)) && (s.sound ==> Fits(s.cp, s.segs) && Shields(s.cp, Saved(s)))
  {
    hide Rising, Ordered, Fits, Beyond, InFile;
  }

  /** The cursor and the policy do not concern the queue. */
  lemma QueuePlaces(s: Core, cursor: int, backfill: int)
    requires Queued(s)
    ensures Queued(Placed(s, cursor, backfill))
  {
    hide Rising, Ordered, InFile;
  }

  // ---------------------------------------------------------------- sequences of entries

  lemma SuffixOrdered(p: seq<Entry>, s: seq<Entry>)
    requires Suffix(p, s) && Ordered(s)
    ensures Ordered(p) && forall e :: e in p ==> e in s
  {
    assert forall i :: 0 <= i < |p| ==> p[i] == s[|s| - |p| + i];
  }

  lemma RisingSuffix(a: seq<Entry>, b: seq<Entry>, next: nat)
    requires Rising(b, next) && Suffix(a, b)
    ensures Rising(a, next)
  {
    assert forall i :: 0 <= i < |a| ==> a[i] == b[|b| - |a| + i];
  }

  lemma SuffixTrans(a: seq<Entry>, b: seq<Entry>, c: seq<Entry>)
    requires Suffix(a, b) && Suffix(b, c)
    ensures Suffix(a, c)
  {
    assert c[|c| - |a|..] == c[|c| - |b|..][|b| - |a|..];
  }

  lemma SuffixGrows(p: seq<Entry>, s: seq<Entry>, e: Entry)
    requires Suffix(p, s)
    ensures Suffix(p + [e], s + [e])
  {
    assert (s + [e])[|s| - |p|..] == s[|s| - |p|..] + [e];
  }

  /** Dropping leading entries that are not pending keeps the pending suffix. */
  lemma SuffixOfRest(p: seq<Entry>, a: seq<Entry>, b: seq<Entry>)
    requires Suffix(p, a + b) && forall e :: e in a ==> e !in p
    ensures Suffix(p, b)
  {
    if p != [] {
      assert p[0] == (a + b)[|a| + |b| - |p|] && p[0] in p;
      assert b[|b| - |p|..] == (a + b)[|a| + |b| - |p|..];
    } else {
      assert b[|b|..] == [];
    }
  }

  lemma RisingAfterRemoval(a: seq<Entry>, b: seq<Entry>, cp: Checkpoint, next: nat)
    requires Rising(After(a + b, cp), next)
    ensures Rising(After(b, cp), next)
  {
    AfterAppend(a, b, cp);
    AfterIsSuffix(b, cp);
    if After(a, cp) != [] {
      assert (After(a, cp) + b)[|After(a, cp)|..] == b;
      SuffixTrans(After(b, cp), b, After(a, cp) + b);
    }
    RisingSuffix(After(b, cp), After(a + b, cp), next);
  }

  lemma RisingResumes(es: seq<Entry>, next: nat, cp: Checkpoint, r: Checkpoint)
    requires Rising(es, next) && cp.nextSeq <= next
    requires r.nextSeq == RaiseSeq(cp, es).nextSeq
    ensures Rising(es, r.nextSeq) && (es != [] ==> r.nextSeq == next)
  {
    if es != [] {
      var last := es[|es| - 1];
      assert last in es;
      assert MaxSeq(es) <= last.seqNo;
    }
  }

  lemma FirstIn(p: seq<Entry>, s: seq<Entry>)
    requires Suffix(p, s)
    ensures p != [] ==> p[0] in s
  {
    if p != [] {
      assert p[0] == s[|s| - |p|];
    }
  }

  /** A checkpoint in the middle of the log leaves exactly what comes after. */
  lemma AfterHead(es: seq<Entry>, pend: seq<Entry>, cp: Checkpoint)
    requires Ordered(es) && Suffix(pend, es) && pend != []
    requires cp.segStart == pend[0].seg && cp.ackedBytes == pend[0].End()
    ensures After(es, cp) == pend[1..]
  {
    var a, n := After(es, cp), |es| - |pend|;
    AfterIsSuffix(es, cp);
    var m := |es| - |a|;
    assert es[n] == pend[0];
    assert forall i :: 0 <= i < n ==> Precedes(es[i], es[n]);
    assert n + 1 < |es| ==> Precedes(es[n], es[n + 1]);
    assert m == n + 1;
    assert es[n + 1..] == es[n..][1..];
  }

  // ---------------------------------------------------------------- the log on disk, step by step

  lemma {:induction false} AllSame(a: map<nat, seq<Piece>>, b: map<nat, seq<Piece>>, hi: nat)
    requires forall k: nat :: k < hi ==> Held(a, k) == Held(b, k)
    ensures All(a, hi) == All(b, hi)
  {
    hide Held;
    if hi > 0 {
      AllSame(a, b, hi - 1);
    }
  }

  lemma Blank(seg: nat)
    ensures Lay([]) == [] && Intact([]) && Entries(seg, []) == []
  {
  }

  lemma LogSaves(s: Core)
    requires Logged(s) && Steady(s)
    ensures Logged(Saved(s)) && Steady(Saved(s))
  {
    hide All, Laid, After, Rising, Known;
  }

  /** The cursor and the backfill policy play no part in recovery. */
  lemma LogPlaces(s: Core, cursor: int, backfill: int)
    requires Logged(s)
    ensures Logged(Placed(s, cursor, backfill)) && (Steady(s) ==> Steady(Placed(s, cursor, backfill)))
  {
    hide All, Laid, Rising, Known;
    var s' := Placed(s, cursor, backfill);
    AfterIgnoresOffset(s.Log(), s.cp, s'.cp);
    AfterIgnoresOffset(s.Log(), Beside(s.cp), Beside(s'.cp));
  }

  lemma LogCreates(s: Core)
    requires Queued(s) && Logged(s) && s.curSeg !in s.segs
    ensures Logged(Created(s)) && (Steady(s) ==> Steady(Created(s)))
  {
    hide All, After, Rising, Beyond, Lay, Intact, Entries, Ordered, SeqOf;
    Blank(s.curSeg);
    AllSame(s.layout, Created(s).layout, s.curSeg + 1);
  }

  lemma LogMoves(s: Core)
    requires Queued(s) && Logged(s)
    ensures Logged(Moved(s)) && (Steady(s) ==> Steady(Moved(s)))
  {
    hide After, Rising, Shields, Lay, Intact, Ordered, Known;
    assert Held(s.layout, s.curSeg + 1) == [];
    assert s.Log() + [] == s.Log();
  }

  lemma IntactSnoc(ps: seq<Piece>, f: bytes)
    requires Intact(ps) && ValidFrame(f)
    ensures Intact(ps + [Good(f)])
  {
    hide ValidFrame, NoMatch;
    var qs := ps + [Good(f)];
    forall i | 0 <= i < |qs| ensures Sound(qs, i) {
      if i < |ps| {
        assert Sound(ps, i);
      }
    }
  }

  /** Writing one record at the end of the newest segment adds one entry at the end of the log. */
  lemma LogGrows(layout: map<nat, seq<Piece>>, cur: nat, f: bytes)
    requires cur in layout && |f| >= HEADER_SIZE
    ensures All(layout[cur := layout[cur] + [Good(f)]], cur + 1)
         == All(layout, cur + 1) + [EntryOf(cur, |Lay(layout[cur])|, f)]
  {
    hide Entries, Lay, EntryOf;
    assert forall k: nat :: k < cur ==> Held(layout, k) == Held(layout[cur := layout[cur] + [Good(f)]], k);
    var layout' := layout[cur := layout[cur] + [Good(f)]];
    Snoc(layout[cur], Good(f), cur);
    AllSame(layout, layout', cur);
    var e := EntryOf(cur, |Lay(layout[cur])|, f);
    assert All(layout, cur) + (Entries(cur, layout[cur]) + [e]) == All(layout, cur) + Entries(cur, layout[cur]) + [e];
  }

  lemma RisingGrows(es: seq<Entry>, e: Entry, cp: Checkpoint, next: nat)
    requires Rising(After(es, cp), next) && e.seqNo == next
    ensures Rising(After(es + [e], cp), next + 1)
  {
    AfterAppend(es, [e], cp);
    JustOne(e, cp);
    hide After;
  }

  lemma JustOne(e: Entry, cp: Checkpoint)
    ensures After([e], cp) == if Beyond(cp, e) then [e] else []
  {
    assert [e][1..] == [];
  }

  /** Writing a record keeps every disk state recoverable, under the old checkpoint and the new. */
  lemma LogWrites(s: Core, f: bytes)
    requires Queued(s) && Logged(s) && s.curSeg in s.segs
    requires ValidFrame(f) && SeqOf(f) == s.cp.nextSeq
    ensures Logged(Wrote(s, f, f[3])) && (Steady(s) ==> Steady(Wrote(s, f, f[3])))
  {
    hide All, Entries, Lay, Intact, Sound, ParseHeader, SeqOf, Rising, After, Be, Suffix, Record, Shields, Ordered, Known;
    var s' := Wrote(s, f, f[3]);
    var e := EntryOf(s.curSeg, |s.segs[s.curSeg]|, f);
    var log := s.Log();
    LogGrows(s.layout, s.curSeg, f);
    Snoc(s.layout[s.curSeg], Good(f), s.curSeg);
    IntactSnoc(s.layout[s.curSeg], f);
    SuffixGrows(s.pend, log, e);
    KnownGrows(s, f);
    NumbersGrow(log, e, s.cp, s.cp.nextSeq);
    NumbersGrow(log, e, Beside(s.cp), s.cp.nextSeq);
    RisingGrows(log, e, s.saved, s.cp.nextSeq);
  }

  lemma NumbersGrow(log: seq<Entry>, e: Entry, cp: Checkpoint, next: nat)
    requires e.seqNo == next
    ensures Rising(After(log, cp), next) ==> Rising(After(log + [e], cp.(nextSeq := next + 1)), next + 1)
  {
    hide Rising;
    AfterIgnoresOffset(log + [e], cp, cp.(nextSeq := next + 1));
    if Rising(After(log, cp), next) {
      RisingGrows(log, e, cp, next);
    }
  }

  lemma KnownGrows(s: Core, f: bytes)
    requires s.curSeg in s.segs && s.curSeg in s.layout && Known(s.layout, s.written)
    requires |f| >= HEADER_SIZE && SeqOf(f) == s.cp.nextSeq
    ensures Known(Wrote(s, f, f[3]).layout, Wrote(s, f, f[3]).written)
  {
    hide Record, SeqOf;
    var s' := Wrote(s, f, f[3]);
    forall k | k in s'.layout ensures KnownPieces(s'.layout[k], s'.written) {
      assert KnownPieces(s.layout[k], s.written);
    }
  }

  /** An acknowledgement leaves the disk alone; in its own segment the checkpoint then claims exactly the acknowledged. */
  lemma LogAcks(s: Core)
    requires Queued(s) && Logged(s) && s.pend != []
    ensures Logged(Acked(s)) && (s.pend[0].seg == s.cp.segStart ==> Steady(Acked(s)))
  {
    hide All, Laid, Rising, After, Known, Shields;
    var log := s.Log();
    assert log[|log| - |s.pend| + 1..] == log[|log| - |s.pend|..][1..];
    AfterIgnoresOffset(log, Beside(s.cp), Beside(Acked(s).cp));
    AllOrdered(s.layout, s.curSeg + 1);
    if s.pend[0].seg == s.cp.segStart {
      AfterHead(log, s.pend, Acked(s).cp);
      RisingRest(s.pend, s.cp.nextSeq);
    }
  }

  lemma RisingRest(p: seq<Entry>, next: nat)
    requires Rising(p, next) && p != []
    ensures Rising(p[1..], next)
  {
  }

  /** The oldest segment's entries come first in the log. */
  lemma {:induction false} OldestFirst(layout: map<nat, seq<Piece>>, k: nat, hi: nat)
    requires forall j :: j in layout ==> k <= j
    ensures All(layout, hi) == (if k < hi then Held(layout, k) else []) + All(layout - {k}, hi)
  {
    hide Entries, Lay, Intact;
    if hi <= k {
      NoneBelow(layout, k, hi);
      NoneBelow(layout - {k}, k, hi);
    } else {
      OldestFirst(layout, k, hi - 1);
      var rest := All(layout - {k}, hi - 1);
      if hi - 1 == k {
        NoneBelow(layout - {k}, k, k);
      } else {
        assert (Held(layout, k) + rest) + Held(layout, hi - 1) == Held(layout, k) + (rest + Held(layout, hi - 1));
      }
    }
  }

  lemma {:induction false} NoneBelow(layout: map<nat, seq<Piece>>, k: nat, hi: nat)
    requires forall j :: j in layout ==> k <= j
    requires hi <= k
    ensures All(layout, hi) == []
  {
    if hi > 0 {
      NoneBelow(layout, k, hi - 1);
    }
  }

  lemma HeldIn(layout: map<nat, seq<Piece>>, k: nat)
    ensures forall e :: e in Held(layout, k) ==> e.seg == k
  {
    hide Entries;
    if k in layout {
      EntriesOrdered(k, layout[k]);
    }
  }

  /** A crash right after the deletion still recovers from the checkpoint on disk. */
  lemma LogRemoves(s: Core)
    requires Queued(s) && Logged(s) && forall e :: e in s.pend ==> e.seg > s.cp.segStart
    ensures Logged(Removed(s)) && Steady(Removed(s))
  {
    hide All, Entries, Rising, After, Held, Suffix, Shields, Ordered, Known;
    var s' := Removed(s);
    LaidWithout(s);
    RestOfLog(s);
    var rest, next := s'.Log(), s.cp.nextSeq;
    var gone := Held(s.layout, s.cp.segStart);
    HeldIn(s.layout, s.cp.segStart);
    SuffixOfRest(s.pend, gone, rest);
    RisingAfterRemoval(gone, rest, Beside(s.cp), next);
    RisingAfterRemoval(gone, rest, s.saved, next);
    AfterIsSuffix(rest, Beside(s.cp));
    AllOrdered(s'.layout, s'.curSeg + 1);
    AfterLater(rest, Beside(s.cp), Beside(s'.cp));
    RisingSuffix(After(rest, Beside(s'.cp)), After(rest, Beside(s.cp)), next);
  }

  /** Without the oldest segment the log is what its other records were. */
  lemma RestOfLog(s: Core)
    requires Queued(s) && Logged(s)
    ensures s.Log() == Held(s.layout, s.cp.segStart) + Removed(s).Log()
  {
    hide All, Entries, Rising, After, Held, Suffix, Shields, Ordered, Known, Lay, Intact;
    var k, rest := s.cp.segStart, s.layout - {s.cp.segStart};
    OldestFirst(s.layout, k, s.curSeg + 1);
    if k == s.curSeg {
      NoneBelow(rest, k + 2, k + 1);
      NoneBelow(rest, k + 2, k + 2);
    }
  }

  lemma LaidWithout(s: Core)
    requires Laid(s.segs, s.layout) && Known(s.layout, s.written)
    ensures Laid(Removed(s).segs, Removed(s).layout) && Known(Removed(s).layout, s.written)
  {
    hide Lay, Intact, KnownPieces;
  }

  /** A checkpoint that covers more leaves a suffix of what one that covers less leaves. */
  lemma AfterLater(es: seq<Entry>, cp: Checkpoint, cp': Checkpoint)
    requires Ordered(es)
    requires forall e :: e in es && Beyond(cp', e) ==> Beyond(cp, e)
    ensures Suffix(After(es, cp'), After(es, cp))
  {
    AfterIsSuffix(es, cp');
    var a := After(es, cp');
    if a != [] {
      assert a[0] == es[|es| - |a|];
      SuffixSurvives(es, cp, a);
    } else {
      SuffixSurvives(es, cp, a);
    }
  }

  // ---------------------------------------------------------------- crash and reopen

  /** The disk a crash leaves: the newest segment may end in a torn record. */
  ghost function CrashDisk(s: Core, tail: bytes): Disk {
    Disk(if s.curSeg in s.segs then s.segs[s.curSeg := s.segs[s.curSeg] + tail] else s.segs, s.saved)
  }

  /** What the log holds after reopening: the pieces left on disk and the recovered fields. */
  ghost function AfterOpen(s: Core, r: Opened): Core
    requires r.Opened?
  {
    Core(r.segs, map k | k in r.segs :: if k in s.layout then s.layout[k] else [], s.saved,
         r.cp, r.index, r.curSeg, Fits(r.cp, r.segs), Fits(s.saved, r.segs), s.written)
  }

  /** The directory opens unless a torn tail meets a checkpoint that claims more than the file. */
  ghost predicate Opens(s: Core, tail: bytes) {
    s.curSeg !in s.segs || tail == [] || Fits(s.saved, s.segs)
  }

  /** No segment at all: the checkpoint's number is taken for a new, empty one. */
  lemma EmptyDisk(s: Core)
    requires Queued(s) && Logged(s) && s.segs == map[]
    ensures var r := Recover(Disk(s.segs, s.saved));
            && r.Opened? && r.index == [] && s.Log() == [] && After(s.Log(), s.saved) == []
            && r.segs == map[s.saved.segStart := []] && r.curSeg == s.saved.segStart
            && r.cp.cursor == s.saved.cursor && r.cp.backfill == s.saved.backfill
            && var s' := AfterOpen(s, r);
               && Queued(s') && Logged(s') && Steady(s') && s'.sound && (s'.guarded <==> s.saved.ackedBytes == 0)
  {
    hide All, Lay, Intact, Entries, Recover, Queued;
    NoneBelow(s.layout, s.curSeg + 1, s.curSeg + 1);
    var k := s.saved.segStart;
    NoSegments(s.saved);
    var r := Recover(Disk(s.segs, s.saved));
    var s' := AfterOpen(s, r);
    assert s'.layout == map[k := []];
    assert Newest(r.segs, k);
    BlankCore(s', k);
  }

  /** One empty segment and nothing pending. */
  lemma BlankCore(s: Core, k: nat)
    requires s.segs == map[k := []] && s.layout == map[k := []] && s.pend == [] && s.curSeg == k
    requires s.cp.segStart == k && s.saved.segStart == k && s.saved.nextSeq <= s.cp.nextSeq
    requires s.sound == Fits(s.cp, s.segs) && s.guarded == Fits(s.saved, s.segs)
    ensures Queued(s) && Logged(s) && Steady(s)
  {
    hide Fits, Lay, Intact, Entries, All;
    Blank(k);
    NoneBelow(map[], k + 1, k + 1);
    AllSame(map[k := []], map[], k + 1);
  }

  lemma {:induction false} NoneAbove(layout: map<nat, seq<Piece>>, last: nat, hi: nat)
    requires forall k :: k in layout ==> k <= last
    requires last < hi
    ensures All(layout, hi) == All(layout, last + 1)
  {
    if hi > last + 1 {
      NoneAbove(layout, last, hi - 1);
      assert All(layout, hi - 1) + [] == All(layout, hi - 1);
    }
  }

  /** Some segment is left: the whole directory is kept. */
  lemma ReopenedFields(s: Core, tail: bytes, last: nat)
    requires Queued(s) && Logged(s) && (Fits(s.saved, s.segs) || tail == []) && |tail| < PREFIX
    requires last in s.segs && Newest(s.segs, last)
    ensures var r := Recover(Disk(s.segs[last := s.segs[last] + tail], s.saved));
            && r.Opened? && r.segs == s.segs && r.index == After(s.Log(), s.saved) && r.curSeg == last
            && r.cp.nextSeq == RaiseSeq(s.saved, r.index).nextSeq
            && r.cp.cursor == s.saved.cursor && r.cp.backfill == s.saved.backfill
            && s.saved.segStart <= r.cp.segStart && (forall k :: k in r.segs ==> r.cp.segStart <= k <= last)
            && (forall e :: e in s.Log() ==> Beyond(r.cp, e) == Beyond(s.saved, e))
            && (Fits(s.saved, s.segs) ==> Fits(r.cp, s.segs))
            && AfterOpen(s, r).layout == s.layout && AfterOpen(s, r).Log() == s.Log()
  {
    hide All, After, Rising, Recover, Fits, Beyond, Suffix, Lay, Intact, Ordered, Known, Shields, RaiseSeq;
    NoneAbove(s.layout, last, s.curSeg + 1);
    RecoverRebuilds(s.segs, s.layout, s.saved, last, tail);
    assert Kept(s.segs, s.saved.segStart) == s.segs;
  }

  /** The log carries on where it was. */
  lemma ReopenedOk(s: Core, tail: bytes, last: nat)
    requires Queued(s) && Logged(s) && (Fits(s.saved, s.segs) || tail == []) && |tail| < PREFIX
    requires last in s.segs && Newest(s.segs, last)
    ensures var r := Recover(Disk(s.segs[last := s.segs[last] + tail], s.saved));
            && r.Opened? && r.segs == s.segs && r.index == After(s.Log(), s.saved) && r.curSeg == last
            && (r.index != [] ==> r.cp.nextSeq == s.cp.nextSeq)
            && r.cp.cursor == s.saved.cursor && r.cp.backfill == s.saved.backfill
            && var s' := AfterOpen(s, r);
               && Queued(s') && Logged(s') && Steady(s')
               && (Fits(s.saved, s.segs) ==> s'.sound) && (s'.guarded <==> Fits(s.saved, s.segs))
  {
    hide All, After, Rising, Recover, Fits, Beyond, Suffix, Laid, Ordered, Known, Shields, RaiseSeq, InFile;
    ReopenedFields(s, tail, last);
    var r := Recover(Disk(s.segs[last := s.segs[last] + tail], s.saved));
    var s', log := AfterOpen(s, r), s.Log();
    AfterIsSuffix(log, s.saved);
    AfterIgnoresOffset(log, s.saved, r.cp);
    RisingResumes(r.index, s.cp.nextSeq, s.saved, r.cp);
    AllOrdered(s.layout, s.curSeg + 1);
    SuffixOrdered(r.index, log);
    BesideClaimsMore(log, r.cp);
    RisingSuffix(After(log, Beside(r.cp)), r.index, r.cp.nextSeq);
    FirstIn(r.index, log);
    LogInFiles(s);
    ReopenedShields(s', s.saved);
    ReopenedShields(s', r.cp);
  }

  lemma BesideClaimsMore(es: seq<Entry>, c: Checkpoint)
    requires Ordered(es)
    ensures Suffix(After(es, Beside(c)), After(es, c))
  {
    hide After, Ordered, Suffix;
    AfterLater(es, c, Beside(c));
  }

  lemma ReopenedShields(s: Core, c: Checkpoint)
    requires s.curSeg in s.segs && (s.pend != [] ==> Beyond(c, s.pend[0]))
    ensures Fits(c, s.segs) ==> Shields(c, s)
  {
  }

  lemma LogInFiles(s: Core)
    requires Laid(s.segs, s.layout)
    ensures forall e :: e in s.Log() ==> InFile(s.segs, e)
  {
    hide All, Entries, Lay, Intact;
    AllOrdered(s.layout, s.curSeg + 1);
    forall e | e in s.Log() ensures InFile(s.segs, e) {
      EntriesOrdered(e.seg, s.layout[e.seg]);
    }
  }

  /**
   Crash recovery for every disk state the log passes through. The directory opens unless a torn
   tail meets a stale checkpoint. A tear of fewer than 24 bytes in the newest segment is undone;
   the index becomes a contiguous suffix of the records on disk; if the state was guarded, that
   suffix contains every pending frame; and unless nothing is recovered, numbering resumes where it
   was. The reopened log satisfies the invariants again, and if the persisted checkpoint fitted its
   segment, it is sound.
   */
  lemma CrashRecovery(s: Core, tail: bytes)
    requires Recoverable(s) && |tail| < PREFIX
    ensures Recover(CrashDisk(s, tail)).Opened? <==> Opens(s, tail)
    ensures Opens(s, tail) ==>
              var r := Recover(CrashDisk(s, tail));
              && r.index == After(s.Log(), s.saved) && Suffix(r.index, s.Log())
              && (s.guarded ==> Suffix(s.pend, r.index))
              && (s.segs != map[] ==> r.segs == s.segs)
              && (r.index != [] ==> r.cp.nextSeq == s.cp.nextSeq)
              && r.cp.cursor == s.saved.cursor && r.cp.backfill == s.saved.backfill
              && r.curSeg in r.segs && (s.segs == map[] ==> r.index == [])
              && var s' := AfterOpen(s, r);
                 && Recoverable(s') && Steady(s') && (Fits(s.saved, s.segs) ==> s'.sound)
                 && (s'.guarded <==> if s.segs == map[] then s.saved.ackedBytes == 0 else Fits(s.saved, s.segs))
  {
    hide All, After, Recover, Suffix, Queued, Logged, Steady, AfterOpen, Fits;
    Survivors(s);
    if s.segs == map[] {
      EmptyDisk(s);
    } else if s.curSeg in s.segs {
      CurrentIsNewest(s);
      OpensIff(s.segs, s.layout, s.saved, s.curSeg, tail);
      if Opens(s, tail) {
        ReopenedOk(s, tail, s.curSeg);
      }
    } else {
      assert s.segs.Keys != {};
      var last := Greatest(s.segs.Keys);
      assert s.segs[last] + [] == s.segs[last];
      assert s.segs[last := s.segs[last]] == s.segs;
      ReopenedOk(s, [], last);
    }
  }

  lemma CurrentIsNewest(s: Core)
    requires Queued(s) && Logged(s)
    ensures Newest(s.segs, s.curSeg) && Laid(s.segs, s.layout)
  {
  }

  lemma Survivors(s: Core)
    requires Queued(s) && Logged(s)
    ensures Suffix(After(s.Log(), s.saved), s.Log())
    ensures s.guarded ==> Suffix(s.pend, After(s.Log(), s.saved))
  {
    hide All, Laid, After, Rising, Ordered, Known, Fits;
    AfterIsSuffix(s.Log(), s.saved);
    AllOrdered(s.layout, s.curSeg + 1);
    SuffixSurvives(s.Log(), s.saved, s.pend);
  }

  /** Before the first boot there are no segments and nothing is acknowledged: the chain starts here. */
  lemma FirstBoot(cp: Checkpoint)
    requires cp.ackedBytes == 0
    ensures Recoverable(Core(map[], map[], cp, cp, [], cp.segStart, true, true, {}))
  {
    NoneBelow(map[], cp.segStart + 1, cp.segStart + 1);
  }

  /** What is recovered was written. */
  lemma RecoveredIsKnown(s: Core, es: seq<Entry>, i: nat)
    requires Laid(s.segs, s.layout) && Known(s.layout, s.written) && Suffix(es, s.Log()) && i < |es|
    ensures Read(s.segs, es[i]) in s.written
  {
    hide All, Entries, Lay, Intact, Read;
    var e := es[i];
    assert e == s.Log()[|s.Log()| - |es| + i];
    AllOrdered(s.layout, s.curSeg + 1);
    assert s.layout[e.seg] + [] == s.layout[e.seg];
    EntryIsKnown(s, e.seg, s.layout[e.seg], [], e);
  }

  lemma {:induction false} EntryIsKnown(s: Core, k: nat, ps: seq<Piece>, rest: seq<Piece>, e: Entry)
    requires k in s.segs && s.segs[k] == Lay(ps + rest) && KnownPieces(ps + rest, s.written) && e in Entries(k, ps)
    ensures Read(s.segs, e) in s.written
    decreases |ps|
  {
    hide Lay, Be, SeqOf, Entries, Read;
    var n := |ps| - 1;
    Blank(k);
    assert ps != [];
    var p := ps[n];
    assert ps == ps[..n] + [p];
    Snoc(ps[..n], p, k);
    if e in Entries(k, ps[..n]) {
      assert ps[..n] + ([p] + rest) == ps + rest;
      EntryIsKnown(s, k, ps[..n], [p] + rest, e);
    } else {
      assert p in ps + rest;
      LaySplit(ps + rest, n);
      LaySplit(ps + rest, n + 1);
      assert (ps + rest)[..n] == ps[..n] && (ps + rest)[..n + 1] == ps;
      ReadsPiece(s.segs, k, Lay(ps[..n]), p.frame, Lay((ps + rest)[n + 1..]), e);
    }
  }

  lemma ReadsPiece(segs: map<nat, bytes>, k: nat, pre: bytes, f: bytes, post: bytes, e: Entry)
    requires k in segs && segs[k] == pre + Record(f) + post && |f| >= HEADER_SIZE && e == EntryOf(k, |pre|, f)
    ensures Read(segs, e) == FrameData(SeqOf(f), f)
  {
    hide Be, SeqOf;
  }
}
