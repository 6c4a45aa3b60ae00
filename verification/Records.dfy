/**
 The byte format of a WAL segment ([u32 length][frame], repeated) and the scan that rebuilds
 the frame index from it after a crash, skipping corrupt records and cutting a torn tail.
 */
module Records {
  import opened Bytes
  import opened Codec

  const HEAD: nat := 4
  const PREFIX: nat := HEAD + HEADER_SIZE

  /** A frame read back from the log. */
  datatype FrameData = FrameData(seqNo: nat, frame: bytes)

  /** In-memory index entry of one frame. */
  datatype Entry = Entry(seg: nat, offset: nat, length: nat, seqNo: nat, typ: byte) {
    function End(): nat { offset + HEAD + length }
  }

  function Record(f: bytes): bytes {
    Be(|f|, HEAD) + f
  }

  function LengthAt(file: bytes, p: nat): nat
    requires p + HEAD <= |file|
  {
    UnBe(file[p..p + HEAD])
  }

  /** A record head and frame header are complete at `p`, legal, and agree on the length. */
  predicate RecordAt(file: bytes, p: nat) {
    && p + PREFIX <= |file|
    && 0 < LengthAt(file, p) <= MAX_FRAME_LEN
    && var h := ParseHeader(file[p + HEAD..p + PREFIX]);
       h.Ok? && LengthAt(file, p) == HEADER_SIZE + h.value.length
  }

  predicate WholeRecordAt(file: bytes, p: nat) {
    RecordAt(file, p) && p + HEAD + LengthAt(file, p) <= |file|
  }

  function EntryAt(file: bytes, seg: nat, p: nat): Entry
    requires RecordAt(file, p)
  {
    var h := ParseHeader(file[p + HEAD..p + PREFIX]).value;
    Entry(seg, p, LengthAt(file, p), h.seqNo, h.typ)
  }

  // ---------------------------------------------------------------- resynchronisation

  function ResyncLimit(file: bytes, badOff: nat): nat {
    if badOff + MAX_FRAME_LEN + HEAD < |file| then badOff + MAX_FRAME_LEN + HEAD else |file|
  }

  function ResyncFrom(file: bytes, limit: nat, p: nat): (r: Option<nat>)
    requires limit <= |file|
    ensures r.Some? ==> p <= r.value && r.value + PREFIX <= limit && WholeRecordAt(file, r.value)
    ensures r.Some? ==> forall q :: p <= q < r.value ==> !WholeRecordAt(file, q)
    ensures r.None? ==> forall q :: p <= q && q + PREFIX <= limit ==> !WholeRecordAt(file, q)
    decreases limit - p
  {
    if p + PREFIX > limit then None
    else if WholeRecordAt(file, p) then Some(p)
    else ResyncFrom(file, limit, p + 1)
  }

  /** The least whole record that starts after `badOff` and within one maximal frame of it. */
  function Resync(file: bytes, badOff: nat): (r: Option<nat>) {
    ResyncFrom(file, ResyncLimit(file, badOff), badOff + 1)
  }

  method ResyncRecord(file: bytes, badOff: nat) returns (r: Option<nat>)
    ensures r == Resync(file, badOff)
    ensures r.Some? ==> badOff < r.value && WholeRecordAt(file, r.value)
    ensures r.Some? ==> forall q :: badOff < q < r.value ==> !WholeRecordAt(file, q)
  {
    hide UnBe, ParseHeader;
    var limit := badOff + MAX_FRAME_LEN + HEAD;
    if limit > |file| {
      limit := |file|;
    }
    var p := badOff + 1;
    while p + PREFIX <= limit
      invariant badOff < p
      invariant Resync(file, badOff) == ResyncFrom(file, limit, p)
      invariant forall q :: badOff < q < p ==> !WholeRecordAt(file, q)
    {
      var length := UnBe(file[p..p + HEAD]);
      if 0 < length <= MAX_FRAME_LEN && p + HEAD + length <= |file| {
        var h := ParseHeader(file[p + HEAD..p + PREFIX]);
        if h.Ok? && length == HEADER_SIZE + h.value.length {
          return Some(p);
        }
      }
      p := p + 1;
    }
    return None;
  }

  // ---------------------------------------------------------------- scanning one segment

  /** Index entries and the file size left after the scan, or a refusal to guess. */
  datatype ScanResult = Scanned(entries: seq<Entry>, size: nat) | Refused(at: nat)

  function Prepend(es: seq<Entry>, r: ScanResult): ScanResult {
    match r
    case Scanned(fs, n) => Scanned(es + fs, n)
    case Refused(_) => r
  }

  /** No legal record follows `badOff`: cut the file there, unless that would cut acknowledged bytes. */
  function Cut(skip: nat, badOff: nat): ScanResult {
    if badOff < skip then Refused(badOff) else Scanned([], badOff)
  }

  function Scan(file: bytes, seg: nat, skip: nat, off: nat): (r: ScanResult)
    ensures r.Scanned? ==> r.size <= |file|
    decreases if off <= |file| then |file| - off else 0
  {
    if |file| <= off then Scanned([], |file|)
    else if RecordAt(file, off) then
      var e := EntryAt(file, seg, off);
      Prepend(if e.End() <= skip then [] else [e], Scan(file, seg, skip, e.End()))
    else
      match Resync(file, off)
      case Some(p) => Scan(file, seg, skip, p)
      case None => Cut(skip, off)
  }

  lemma PrependAssoc(a: seq<Entry>, b: seq<Entry>, r: ScanResult)
    ensures Prepend(a, Prepend(b, r)) == Prepend(a + b, r)
  {
    if r.Scanned? {
      assert a + (b + r.entries) == (a + b) + r.entries;
    }
  }

  /** The scan loop, branch for branch: short head, bad length, short header, bad header, record. */
  method IndexSegment(file: bytes, seg: nat, skip: nat) returns (r: ScanResult)
    ensures r == Scan(file, seg, skip, 0)
  {
    hide UnBe, ParseHeader, ResyncFrom;
    var off, index := 0, [];
    while true
      invariant Scan(file, seg, skip, 0) == Prepend(index, Scan(file, seg, skip, off))
      decreases if off <= |file| then |file| - off else 0, if off <= |file| then 1 else 0
    {
      if off + HEAD > |file| {
        if off < |file| {
          var _ := ResyncRecord(file, off);
          return if off < skip then Refused(off) else Scanned(index, off);
        }
        return Scanned(index, |file|);
      }
      var length := UnBe(file[off..off + HEAD]);
      if length == 0 || length > MAX_FRAME_LEN {
        var next := ResyncRecord(file, off);
        if next.None? {
          return if off < skip then Refused(off) else Scanned(index, off);
        }
        off := next.value;
        continue;
      }
      if off + PREFIX > |file| {
        var _ := ResyncRecord(file, off);
        return if off < skip then Refused(off) else Scanned(index, off);
      }
      var h := ParseHeader(file[off + HEAD..off + PREFIX]);
      if h.Err? || length != HEADER_SIZE + h.value.length {
        var next := ResyncRecord(file, off);
        if next.None? {
          return if off < skip then Refused(off) else Scanned(index, off);
        }
        off := next.value;
        continue;
      }
      assert EntryAt(file, seg, off) == Entry(seg, off, length, h.value.seqNo, h.value.typ);
      ghost var rest := Scan(file, seg, skip, off + HEAD + length);
      if off + HEAD + length > skip {
        PrependAssoc(index, [EntryAt(file, seg, off)], rest);
        index := index + [Entry(seg, off, length, h.value.seqNo, h.value.typ)];
      } else {
        PrependAssoc(index, [], rest);
        assert index + [] == index;
      }
      off := off + HEAD + length;
    }
  }
}
