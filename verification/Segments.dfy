/**
 What a scan finds. A segment file is described by the pieces written to it: whole records,
 stretches of corrupt bytes, and the torn beginning of one last record.
 */
module Segments {
  import opened Bytes
  import opened Codec
  import opened Records

  datatype Piece = Good(frame: bytes) | Bad(junk: bytes)

  function PieceBytes(p: Piece): bytes {
    match p
    case Good(f) => Record(f)
    case Bad(j) => j
  }

  function Lay(ps: seq<Piece>): bytes {
    if |ps| == 0 then [] else Lay(ps[..|ps| - 1]) + PieceBytes(ps[|ps| - 1])
  }

  function Off(ps: seq<Piece>, i: nat): nat
    requires i <= |ps|
  {
    |Lay(ps[..i])|
  }

  /** Nothing in the corrupt stretch, the start included, reads as a record. */
  ghost predicate NoMatch(junk: bytes, next: bytes) {
    forall p :: 0 <= p < |junk| ==> !RecordAt(junk + Record(next), p)
  }

  /** Corrupt stretches are followed by a whole record that resynchronisation can still reach. */
  ghost predicate Intact(ps: seq<Piece>) {
    forall i :: 0 <= i < |ps| ==> Sound(ps, i)
  }

  ghost predicate Sound(ps: seq<Piece>, i: nat)
    requires i < |ps|
  {
    match ps[i]
    case Good(f) => ValidFrame(f)
    case Bad(j) =>
      && 1 <= |j| <= MAX_FRAME_LEN + HEAD - PREFIX
      && i + 1 < |ps| && ps[i + 1].Good?
      && NoMatch(j, ps[i + 1].frame)
  }

  function EntryOf(seg: nat, off: nat, f: bytes): Entry
    requires |f| >= HEADER_SIZE
  {
    Entry(seg, off, |f|, SeqOf(f), f[3])
  }

  function PieceEntry(seg: nat, off: nat, p: Piece): seq<Entry> {
    if p.Good? && |p.frame| >= HEADER_SIZE then [EntryOf(seg, off, p.frame)] else []
  }

  /** One entry per whole record, at its true offset. */
  function Entries(seg: nat, ps: seq<Piece>): seq<Entry> {
    if |ps| == 0 then []
    else Entries(seg, ps[..|ps| - 1]) + PieceEntry(seg, |Lay(ps[..|ps| - 1])|, ps[|ps| - 1])
  }

  /** The entries not yet acknowledged when the first `skip` bytes are. */
  function Past(es: seq<Entry>, skip: nat): seq<Entry> {
    if |es| == 0 then []
    else Past(es[..|es| - 1], skip) + if es[|es| - 1].End() <= skip then [] else [es[|es| - 1]]
  }

  /** A strict, non-empty beginning of one record. */
  ghost predicate TornFrom(tail: bytes, f: bytes) {
    ValidFrame(f) && 0 < |tail| < |Record(f)| && tail == Record(f)[..|tail|]
  }

  // ---------------------------------------------------------------- layout facts

  lemma Assoc(a: bytes, b: bytes, c: bytes)
    ensures (a + b) + c == a + (b + c)
  {
  }

  lemma {:induction false} LaySplit(ps: seq<Piece>, i: nat)
    requires i <= |ps|
    ensures Lay(ps) == Lay(ps[..i]) + Lay(ps[i..])
  {
    hide Record, PieceBytes;
    if i == |ps| {
      assert ps[..i] == ps;
    } else {
      var n := |ps| - 1;
      LaySplit(ps[..n], i);
      assert ps[..n][..i] == ps[..i];
      assert ps[..n][i..] == ps[i..][..n - i];
      Assoc(Lay(ps[..i]), Lay(ps[i..][..n - i]), PieceBytes(ps[n]));
    }
  }

  /** Piece `i` lies at its offset, with the rest of the file after it. */
  lemma PieceSplit(ps: seq<Piece>, i: nat, tail: bytes)
    requires i < |ps|
    ensures Off(ps, i + 1) == Off(ps, i) + |PieceBytes(ps[i])|
    ensures Lay(ps) + tail == Lay(ps[..i]) + PieceBytes(ps[i]) + (Lay(ps[i + 1..]) + tail)
  {
    hide Record, PieceBytes;
    LaySplit(ps, i + 1);
    assert ps[..i + 1][..i] == ps[..i];
    Assoc(Lay(ps[..i + 1]), Lay(ps[i + 1..]), tail);
  }

  /** Whether a record starts at a position depends on 24 bytes only. */
  lemma RecordAtLocal(a: bytes, p: nat, b: bytes, q: nat)
    requires p + PREFIX <= |a| && q + PREFIX <= |b|
    requires a[p..p + PREFIX] == b[q..q + PREFIX]
    ensures RecordAt(a, p) == RecordAt(b, q)
    ensures LengthAt(a, p) == LengthAt(b, q)
  {
    hide UnBe, ParseHeader;
    assert a[p..p + HEAD] == a[p..p + PREFIX][..HEAD];
    assert b[q..q + HEAD] == b[q..q + PREFIX][..HEAD];
    assert a[p + HEAD..p + PREFIX] == a[p..p + PREFIX][HEAD..];
    assert b[q + HEAD..q + PREFIX] == b[q..q + PREFIX][HEAD..];
  }

  lemma Slices(pre: bytes, head: bytes, f: bytes, n: nat, post: bytes)
    requires |head| == HEAD && HEADER_SIZE <= |f| && PREFIX <= n <= HEAD + |f|
    ensures var file := pre + (head + f)[..n] + post;
            && |file| >= |pre| + PREFIX
            && file[|pre|..|pre| + HEAD] == head
            && file[|pre| + HEAD..|pre| + PREFIX] == f[..HEADER_SIZE]
  {
  }

  /** At least 24 bytes of a valid record parse as that record. */
  lemma HeadOfRecord(pre: bytes, f: bytes, n: nat, post: bytes, seg: nat)
    requires ValidFrame(f) && PREFIX <= n <= |Record(f)|
    ensures var file := pre + Record(f)[..n] + post;
            && RecordAt(file, |pre|) && LengthAt(file, |pre|) == |f|
            && EntryAt(file, seg, |pre|) == EntryOf(seg, |pre|, f)
  {
    hide Be, UnBe, ParseHeader;
    Widths();
    UnBeOfBe(|f|, HEAD);
    Slices(pre, Be(|f|, HEAD), f, n, post);
    ParsedFields(f[..HEADER_SIZE]);
    assert f[..HEADER_SIZE][4..12] == f[4..12];
  }

  // ---------------------------------------------------------------- scanning pieces

  /** No position inside a corrupt stretch reads as a record, wherever the stretch lies. */
  lemma NoMatchInFile(pre: bytes, junk: bytes, f: bytes, post: bytes, p: nat)
    requires NoMatch(junk, f) && ValidFrame(f) && p < |junk|
    ensures !RecordAt(pre + junk + (Record(f) + post), |pre| + p)
  {
    hide UnBe, ParseHeader, RecordAt, Be;
    var file, local := pre + junk + (Record(f) + post), junk + Record(f);
    assert file[|pre| + p..|pre| + p + PREFIX] == local[p..p + PREFIX];
    RecordAtLocal(file, |pre| + p, local, p);
  }

  /** From a corrupt record, resynchronisation lands exactly on the next whole record, if in range. */
  lemma ResyncLands(pre: bytes, junk: bytes, f: bytes, post: bytes)
    requires 1 <= |junk| && NoMatch(junk, f) && ValidFrame(f)
    ensures var file := pre + junk + (Record(f) + post);
            && !RecordAt(file, |pre|)
            && Resync(file, |pre|) == if |junk| <= MAX_FRAME_LEN + HEAD - PREFIX then Some(|pre| + |junk|) else None
  {
    hide Be, UnBe, ParseHeader, RecordAt, EntryAt;
    var file := pre + junk + (Record(f) + post);
    forall p | |pre| <= p < |pre| + |junk| ensures !RecordAt(file, p) {
      NoMatchInFile(pre, junk, f, post, p - |pre|);
    }
    HeadOfRecord(pre + junk, f, |Record(f)|, post, 0);
    assert pre + junk + Record(f)[..|Record(f)|] + post == file;
    assert WholeRecordAt(file, |pre| + |junk|);
  }

  lemma ScanOverGood(pre: bytes, f: bytes, post: bytes, seg: nat, skip: nat)
    requires ValidFrame(f)
    ensures var file := pre + Record(f) + post;
            Scan(file, seg, skip, |pre|)
            == Prepend(if |pre| + |Record(f)| <= skip then [] else [EntryOf(seg, |pre|, f)],
                       Scan(file, seg, skip, |pre| + |Record(f)|))
  {
    hide Be, UnBe, ParseHeader, RecordAt, EntryAt;
    HeadOfRecord(pre, f, |Record(f)|, post, seg);
    assert Record(f)[..|Record(f)|] == Record(f);
  }

  lemma ScanOverBad(pre: bytes, junk: bytes, f: bytes, post: bytes, seg: nat, skip: nat)
    requires 1 <= |junk| <= MAX_FRAME_LEN + HEAD - PREFIX && NoMatch(junk, f) && ValidFrame(f)
    ensures var file := pre + junk + (Record(f) + post);
            Scan(file, seg, skip, |pre|) == Scan(file, seg, skip, |pre| + |junk|)
  {
    hide Be, UnBe, ParseHeader, RecordAt, EntryAt;
    ResyncLands(pre, junk, f, post);
  }

  lemma PrependNothing(r: ScanResult)
    ensures Prepend([], r) == r
  {
    if r.Scanned? { assert [] + r.entries == r.entries; }
  }

  lemma ScanGoodPiece(ps: seq<Piece>, tail: bytes, seg: nat, skip: nat, i: nat)
    requires i < |ps| && ps[i].Good? && ValidFrame(ps[i].frame)
    ensures Scan(Lay(ps) + tail, seg, skip, Off(ps, i))
         == Prepend(Past([EntryOf(seg, Off(ps, i), ps[i].frame)], skip), Scan(Lay(ps) + tail, seg, skip, Off(ps, i + 1)))
  {
    hide Scan, Past, RecordAt, ParseHeader, Be;
    var pre, f, post := Lay(ps[..i]), ps[i].frame, Lay(ps[i + 1..]) + tail;
    var file := Lay(ps) + tail;
    assert file == pre + Record(f) + post && Off(ps, i + 1) == |pre| + |Record(f)| by {
      PieceSplit(ps, i, tail);
    }
    ScanOverGood(pre, f, post, seg, skip);
    PastOne(EntryOf(seg, Off(ps, i), f), skip);
  }

  lemma ScanBadPiece(ps: seq<Piece>, tail: bytes, seg: nat, skip: nat, i: nat)
    requires i + 1 < |ps| && ps[i].Bad? && Sound(ps, i) && Sound(ps, i + 1)
    ensures Scan(Lay(ps) + tail, seg, skip, Off(ps, i)) == Scan(Lay(ps) + tail, seg, skip, Off(ps, i + 1))
  {
    hide Scan, Past, RecordAt, ParseHeader, Be;
    PieceSplit(ps, i, tail);
    BesideBad(ps, i, tail);
    ScanOverBad(Lay(ps[..i]), ps[i].junk, ps[i + 1].frame, Lay(ps[i + 2..]) + tail, seg, skip);
  }

  /** One piece of progress of the scan. */
  lemma ScanPiece(ps: seq<Piece>, tail: bytes, seg: nat, skip: nat, i: nat)
    requires Intact(ps) && i < |ps|
    ensures Scan(Lay(ps) + tail, seg, skip, Off(ps, i))
         == Prepend(Past(PieceEntry(seg, Off(ps, i), ps[i]), skip), Scan(Lay(ps) + tail, seg, skip, Off(ps, i + 1)))
  {
    hide Scan, RecordAt, ParseHeader, Be, Lay;
    assert Sound(ps, i);
    if ps[i].Good? {
      ScanGoodPiece(ps, tail, seg, skip, i);
    } else {
      assert Sound(ps, i + 1);
      ScanBadPiece(ps, tail, seg, skip, i);
      PrependNothing(Scan(Lay(ps) + tail, seg, skip, Off(ps, i + 1)));
    }
  }

  lemma BesideBad(ps: seq<Piece>, i: nat, tail: bytes)
    requires i + 1 < |ps|
    ensures Lay(ps) + tail
         == Lay(ps[..i]) + PieceBytes(ps[i]) + (PieceBytes(ps[i + 1]) + (Lay(ps[i + 2..]) + tail))
  {
    hide PieceBytes;
    PieceSplit(ps, i + 1, tail);
    assert ps[..i + 1][..i] == ps[..i];
    Assoc(Lay(ps[..i + 1]), PieceBytes(ps[i + 1]), Lay(ps[i + 2..]) + tail);
  }

  lemma PastOne(e: Entry, skip: nat)
    ensures Past([e], skip) == if e.End() <= skip then [] else [e]
  {
    assert [e][..0] == [];
  }

  lemma PastOfPiece(es: seq<Entry>, es': seq<Entry>, skip: nat)
    requires |es'| <= 1
    ensures Past(es + es', skip) == Past(es, skip) + Past(es', skip)
  {
    if |es'| == 0 {
      assert es + es' == es;
    } else {
      assert (es + es')[..|es|] == es && es'[..0] == [];
      assert Past(es', skip) == Past([], skip) + if es'[0].End() <= skip then [] else [es'[0]];
    }
  }

  lemma Nothing(seg: nat, skip: nat)
    ensures Lay([]) == [] && Past(Entries(seg, []), skip) == []
  {
  }

  lemma {:induction false} ScanPrefix(ps: seq<Piece>, tail: bytes, seg: nat, skip: nat, i: nat)
    requires Intact(ps) && i <= |ps|
    ensures Scan(Lay(ps) + tail, seg, skip, 0)
         == Prepend(Past(Entries(seg, ps[..i]), skip), Scan(Lay(ps) + tail, seg, skip, Off(ps, i)))
  {
    hide Scan, RecordAt, Be, Lay, Past, Entries;
    var file := Lay(ps) + tail;
    if i == 0 {
      Nothing(seg, skip);
      assert ps[..0] == [];
      var r := Scan(file, seg, skip, 0);
      if r.Scanned? { assert [] + r.entries == r.entries; }
    } else {
      ScanPrefix(ps, tail, seg, skip, i - 1);
      ScanPiece(ps, tail, seg, skip, i - 1);
      var es, e := Entries(seg, ps[..i - 1]), PieceEntry(seg, Off(ps, i - 1), ps[i - 1]);
      assert ps[..i] == ps[..i - 1] + [ps[i - 1]];
      Snoc(ps[..i - 1], ps[i - 1], seg);
      PastOfPiece(es, e, skip);
      PrependAssoc(Past(es, skip), Past(e, skip), Scan(file, seg, skip, Off(ps, i)));
    }
  }

  /**
   The scan of whole records, corrupt stretches and a torn tail shorter than 24 bytes finds
   every whole record at its true offset and cuts exactly the tail. It refuses only when the
   checkpoint claims bytes of the tail as acknowledged.
   */
  lemma ScanFindsWholeRecords(ps: seq<Piece>, tail: bytes, seg: nat, skip: nat)
    requires Intact(ps) && |tail| < PREFIX
    ensures Scan(Lay(ps) + tail, seg, skip, 0)
         == if |tail| > 0 && |Lay(ps)| < skip then Refused(|Lay(ps)|)
            else Scanned(Past(Entries(seg, ps), skip), |Lay(ps)|)
  {
    hide UnBe, ParseHeader, Be, Entries, Past, Lay;
    ScanPrefix(ps, tail, seg, skip, |ps|);
    assert ps[..|ps|] == ps;
    assert Past(Entries(seg, ps), skip) + [] == Past(Entries(seg, ps), skip);
  }

  /**
   A torn record of which at least 24 bytes were written is indexed as if it were whole and
   nothing is cut: the entry runs past the end of the file.
   */
  lemma LongTearIsIndexed(ps: seq<Piece>, tail: bytes, f: bytes, seg: nat, skip: nat)
    requires Intact(ps) && TornFrom(tail, f) && |tail| >= PREFIX && skip <= |Lay(ps)|
    ensures Scan(Lay(ps) + tail, seg, skip, 0)
         == Scanned(Past(Entries(seg, ps), skip) + [EntryOf(seg, |Lay(ps)|, f)], |Lay(ps)| + |tail|)
    ensures EntryOf(seg, |Lay(ps)|, f).End() > |Lay(ps)| + |tail|
  {
    hide UnBe, ParseHeader, Be, RecordAt, Entries, Past, Lay, EntryAt;
    ScanPrefix(ps, tail, seg, skip, |ps|);
    assert ps[..|ps|] == ps;
    HeadOfRecord(Lay(ps), f, |tail|, [], seg);
    assert Lay(ps) + Record(f)[..|tail|] + [] == Lay(ps) + tail;
    var e := EntryOf(seg, |Lay(ps)|, f);
    assert Scan(Lay(ps) + tail, seg, skip, e.End()) == Scanned([], |Lay(ps)| + |tail|);
    assert [e] + [] == [e];
  }

  /** A tear is undone exactly when fewer than 24 bytes of the record were written. */
  lemma TearIsUndoneIffShort(ps: seq<Piece>, tail: bytes, f: bytes, seg: nat, skip: nat)
    requires Intact(ps) && TornFrom(tail, f) && skip <= |Lay(ps)|
    ensures Scan(Lay(ps) + tail, seg, skip, 0) == Scan(Lay(ps), seg, skip, 0) <==> |tail| < PREFIX
  {
    hide UnBe, ParseHeader, Be, RecordAt, Entries, Past, Lay, EntryAt, Scan;
    ScanFindsWholeRecords(ps, [], seg, skip);
    assert Lay(ps) + [] == Lay(ps);
    if |tail| < PREFIX {
      ScanFindsWholeRecords(ps, tail, seg, skip);
    } else {
      LongTearIsIndexed(ps, tail, f, seg, skip);
    }
  }

  /** The scan never goes back: it indexes nothing before the position it is at. */
  lemma {:induction false} ScanGoesOn(file: bytes, seg: nat, skip: nat, off: nat)
    ensures Scan(file, seg, skip, off).Scanned? ==>
              forall e :: e in Scan(file, seg, skip, off).entries ==> e.offset >= off
    decreases if off <= |file| then |file| - off else 0
  {
    hide UnBe, ParseHeader, ResyncFrom;
    if off < |file| {
      if RecordAt(file, off) {
        ScanGoesOn(file, seg, skip, EntryAt(file, seg, off).End());
      } else if Resync(file, off).Some? {
        ScanGoesOn(file, seg, skip, Resync(file, off).value);
      }
    }
  }

  /**
   A frame written after a tear. The log is opened on the torn segment and appends `g` at the end
   of what the scan left; at the next opening `g` is found if and only if the tear was shorter
   than 24 bytes. After a longer one the scan runs past the start of `g`, whatever `g` is.
   */
  lemma FrameBehindTearIsFoundIff(ps: seq<Piece>, tail: bytes, f: bytes, g: bytes, seg: nat, skip: nat)
    requires Intact(ps) && TornFrom(tail, f) && ValidFrame(g) && skip <= |Lay(ps)|
    ensures Scan(Lay(ps) + tail, seg, skip, 0).Scanned?
    ensures var left := (Lay(ps) + tail)[..Scan(Lay(ps) + tail, seg, skip, 0).size];
            var again := Scan(left + Record(g), seg, skip, 0);
            again.Scanned? && EntryOf(seg, |left|, g) in again.entries <==> |tail| < PREFIX
  {
    hide UnBe, ParseHeader, Be, RecordAt, Entries, Past, Lay, EntryAt, Scan, Record;
    if |tail| < PREFIX {
      ScanFindsWholeRecords(ps, tail, seg, skip);
      assert (Lay(ps) + tail)[..|Lay(ps)|] == Lay(ps);
      FoundAtEnd(ps, g, seg, skip);
    } else {
      LongTearIsIndexed(ps, tail, f, seg, skip);
      assert (Lay(ps) + tail)[..|Lay(ps)| + |tail|] == Lay(ps) + tail;
      LostBehindTear(ps, tail, f, g, seg, skip);
    }
  }

  lemma FoundAtEnd(ps: seq<Piece>, g: bytes, seg: nat, skip: nat)
    requires Intact(ps) && ValidFrame(g) && skip <= |Lay(ps)|
    ensures var again := Scan(Lay(ps) + Record(g), seg, skip, 0);
            again.Scanned? && EntryOf(seg, |Lay(ps)|, g) in again.entries
  {
    hide UnBe, ParseHeader, Be, RecordAt, Lay, EntryAt, Scan, Record, Past, Entries;
    var file := Lay(ps) + Record(g);
    ScanPrefix(ps, Record(g), seg, skip, |ps|);
    assert ps[..|ps|] == ps;
    ScanOverGood(Lay(ps), g, [], seg, skip);
    assert Lay(ps) + Record(g) + [] == file;
    EndOfFile(file, seg, skip);
    LongerThan(g);
  }

  lemma EndOfFile(file: bytes, seg: nat, skip: nat)
    ensures Scan(file, seg, skip, |file|) == Scanned([], |file|)
  {
  }

  lemma LongerThan(g: bytes)
    ensures |Record(g)| == HEAD + |g|
  {
    hide Be;
  }

  lemma LostBehindTear(ps: seq<Piece>, tail: bytes, f: bytes, g: bytes, seg: nat, skip: nat)
    requires Intact(ps) && TornFrom(tail, f) && |tail| >= PREFIX && ValidFrame(g) && skip <= |Lay(ps)|
    ensures var again := Scan(Lay(ps) + tail + Record(g), seg, skip, 0);
            again.Scanned? ==> EntryOf(seg, |Lay(ps)| + |tail|, g) !in again.entries
  {
    hide UnBe, ParseHeader, Be, RecordAt, Entries, Past, Lay, EntryAt, Record;
    var file := Lay(ps) + tail + Record(g);
    assert file == Lay(ps) + (tail + Record(g)) == Lay(ps) + Record(f)[..|tail|] + Record(g);
    ScanPrefix(ps, tail + Record(g), seg, skip, |ps|);
    assert ps[..|ps|] == ps;
    HeadOfRecord(Lay(ps), f, |tail|, Record(g), seg);
    LongerThan(f);
    ScanGoesOn(file, seg, skip, |Lay(ps)| + HEAD + |f|);
    EntriesBelow(seg, ps, skip);
  }

  /** Every entry of the pieces lies before their end. */
  lemma {:induction false} EntriesBelow(seg: nat, ps: seq<Piece>, skip: nat)
    ensures forall e :: e in Past(Entries(seg, ps), skip) ==> e.offset < |Lay(ps)|
  {
    hide Lay, Be, SeqOf;
    if |ps| > 0 {
      var n := |ps| - 1;
      EntriesBelow(seg, ps[..n], skip);
      assert ps == ps[..n] + [ps[n]];
      Snoc(ps[..n], ps[n], seg);
      PastOfPiece(Entries(seg, ps[..n]), PieceEntry(seg, |Lay(ps[..n])|, ps[n]), skip);
    }
  }

  /**
   The resynchronisation range falls short by 24 bytes: after a corrupt record whose frame is
   longer than MAX_FRAME_LEN - 24, the scan cuts the file and drops every record behind it.
   */
  lemma LongCorruptRecordCutsTheRest(ps: seq<Piece>, junk: bytes, f: bytes, post: bytes, seg: nat, skip: nat)
    requires Intact(ps) && (|ps| == 0 || ps[|ps| - 1].Good?)
    requires |junk| > MAX_FRAME_LEN + HEAD - PREFIX && NoMatch(junk, f) && ValidFrame(f)
    requires skip <= |Lay(ps)|
    ensures Scan(Lay(ps) + junk + (Record(f) + post), seg, skip, 0)
         == Scanned(Past(Entries(seg, ps), skip), |Lay(ps)|)
  {
    hide UnBe, ParseHeader, Be, RecordAt, Entries, Past, Lay, EntryAt;
    var tail := junk + (Record(f) + post);
    assert Lay(ps) + junk + (Record(f) + post) == Lay(ps) + tail;
    ScanPrefix(ps, tail, seg, skip, |ps|);
    assert ps[..|ps|] == ps;
    ResyncLands(Lay(ps), junk, f, post);
    assert Past(Entries(seg, ps), skip) + [] == Past(Entries(seg, ps), skip);
  }

  /** One corrupted record among good ones: every other record is found where it was written. */
  lemma CorruptionIsContained(before: seq<Piece>, lost: bytes, junk: bytes, after: seq<Piece>, seg: nat, skip: nat)
    returns (rest: seq<Entry>)
    requires Intact(before) && Intact(after) && (|before| == 0 || before[|before| - 1].Good?)
    requires |after| > 0 && after[0].Good?
    requires ValidFrame(lost) && |lost| <= MAX_FRAME_LEN - PREFIX
    requires |junk| == |Record(lost)| && NoMatch(junk, after[0].frame)
    ensures Entries(seg, before + [Good(lost)] + after)
         == Entries(seg, before) + [EntryOf(seg, |Lay(before)|, lost)] + rest
    ensures Scan(Lay(before + [Bad(junk)] + after), seg, skip, 0)
         == Scanned(Past(Entries(seg, before) + rest, skip), |Lay(before + [Good(lost)] + after)|)
  {
    hide UnBe, ParseHeader, Be, RecordAt, Entries, Past, Lay, EntryAt, Scan;
    var rotten := before + [Bad(junk)] + after;
    BadBetween(before, junk, after);
    ScanFindsWholeRecords(rotten, [], seg, skip);
    assert Lay(rotten) + [] == Lay(rotten);
    rest := SameShape(before, Good(lost), Bad(junk), after, seg);
    assert Entries(seg, before) + [] == Entries(seg, before);
  }

  lemma BadBetween(before: seq<Piece>, junk: bytes, after: seq<Piece>)
    requires Intact(before) && Intact(after) && |after| > 0 && after[0].Good?
    requires 1 <= |junk| <= MAX_FRAME_LEN + HEAD - PREFIX && NoMatch(junk, after[0].frame)
    ensures Intact(before + [Bad(junk)] + after)
  {
    var ps := before + [Bad(junk)] + after;
    forall i | 0 <= i < |ps| ensures Sound(ps, i) {
      if i < |before| {
        assert Sound(before, i);
      } else if i > |before| {
        assert Sound(after, i - |before| - 1);
      }
    }
  }

  lemma {:induction false} PastNothing(es: seq<Entry>)
    ensures Past(es, 0) == es
  {
    if |es| > 0 {
      PastNothing(es[..|es| - 1]);
      assert es == es[..|es| - 1] + [es[|es| - 1]];
    }
  }

  /** Replacing one piece by another of the same size moves no other record. */
  lemma {:induction false} SameShape(before: seq<Piece>, p: Piece, q: Piece, after: seq<Piece>, seg: nat)
    returns (rest: seq<Entry>)
    requires |PieceBytes(p)| == |PieceBytes(q)|
    ensures |Lay(before + [p] + after)| == |Lay(before + [q] + after)|
    ensures Entries(seg, before + [p] + after) == Entries(seg, before) + PieceEntry(seg, |Lay(before)|, p) + rest
    ensures Entries(seg, before + [q] + after) == Entries(seg, before) + PieceEntry(seg, |Lay(before)|, q) + rest
  {
    hide Lay, Entries, PieceEntry, PieceBytes;
    if |after| == 0 {
      rest := [];
      assert before + [p] + after == before + [p] && before + [q] + after == before + [q];
      Snoc(before, p, seg);
      Snoc(before, q, seg);
    } else {
      var n := |after| - 1;
      var most := SameShape(before, p, q, after[..n], seg);
      var ps, qs, x := before + [p] + after[..n], before + [q] + after[..n], after[n];
      rest := most + PieceEntry(seg, |Lay(ps)|, x);
      assert before + [p] + after == ps + [x] && before + [q] + after == qs + [x];
      Snoc(ps, x, seg);
      Snoc(qs, x, seg);
    }
  }

  /** Adding a piece adds its bytes and its entry. */
  lemma Snoc(ps: seq<Piece>, p: Piece, seg: nat)
    ensures Lay(ps + [p]) == Lay(ps) + PieceBytes(p)
    ensures Entries(seg, ps + [p]) == Entries(seg, ps) + PieceEntry(seg, |Lay(ps)|, p)
  {
    hide PieceEntry, PieceBytes;
    assert (ps + [p])[..|ps|] == ps;
  }
}
