/**
 The pieces fit together: what the poller, the sending loops and the reopened log do to the log of
 bytes are steps of the end-to-end machine, once a frame of bytes is read as the packet it carries.
 */
module Bridge {
  import opened Bytes
  import opened Codec
  import opened Records
  import opened Queues
  import opened Lines
  import opened Link
  import WriteAheadLog
  import Journal
  import Poller
  import E = EndToEnd

  // ---------------------------------------------------------------- frames as packets

  /** The checksum, the compressor of one data type, and its inverse. */
  datatype Coding = Coding(crcOf: bytes -> u32, pack: bytes -> bytes, unpack: bytes -> bytes, typ: byte)

  ghost predicate Lossless(c: Coding) {
    && (c.typ == TYPE_DATA || c.typ == TYPE_DATA_ZSTD)
    && c.crcOf([]) == 0
    && forall x :: c.unpack(c.pack(x)) == x
  }

  /** What the receiver makes of a stored frame. */
  function PacketOf(c: Coding, f: FrameData): E.Packet {
    match Decode(c.crcOf, f.frame)
    case Ok(d) => if d.typ == TYPE_HEARTBEAT then E.Beat else E.Data(d.seqNo, d.crc, c.unpack(d.payload))
    case Err(_) => E.Beat
  }

  function Encoded(c: Coding, chunk: bytes): Result<bytes> {
    Encode(c.crcOf, c.pack, c.pack, c.typ, 0, chunk)
  }

  /** A frame made by the encoder and numbered by the log carries that number, its CRC and its chunk. */
  lemma NumberedFrameIsPacket(c: Coding, chunk: bytes, frame: bytes, n: nat)
    requires Lossless(c) && Encoded(c, chunk) == Ok(frame) && n < U64
    ensures |frame| >= HEADER_SIZE && ValidFrame(frame) && frame[3] == c.typ
    ensures PacketOf(c, FrameData(n, RewriteSeq(frame, n))) == E.Data(n, c.crcOf(c.pack(chunk)), chunk)
  {
    hide Be, UnBe, ParseHeader, Encode, RewriteSeq, Decode;
    EncodeDecodes(c.crcOf, c.pack, c.pack, c.typ, 0, chunk);
    RewriteChangesOnlySeq(c.crcOf, frame, n);
    DecodedType(c.crcOf, frame);
  }

  lemma DecodedType(crcOf: bytes -> u32, frame: bytes)
    requires Decode(crcOf, frame).Ok?
    ensures |frame| >= HEADER_SIZE && frame[3] == Decode(crcOf, frame).value.typ
  {
    hide UnBe;
  }

  lemma HeartbeatIsBeat(c: Coding)
    requires Lossless(c)
    ensures PacketOf(c, FrameData(0, FrameBytes(Frame(TYPE_HEARTBEAT, 0, 0, [])))) == E.Beat
  {
    hide Be, UnBe, ParseHeader, Decode, FrameBytes;
    DecodeAfterEncode(c.crcOf, Frame(TYPE_HEARTBEAT, 0, 0, []));
  }

  // ---------------------------------------------------------------- queues and clients

  function All<F, G>(m: F -> G, s: seq<F>): (r: seq<G>)
    ensures |r| == |s| && forall i :: 0 <= i < |s| ==> r[i] == m(s[i])
  {
    seq(|s|, i requires 0 <= i < |s| => m(s[i]))
  }

  ghost function QueueOf<F(!new), G>(m: F -> G, q: Queue<F>): Queue<G> {
    Queue(All(m, q.pending), set f | f in q.written :: m(f), q.nextSeq, q.cursor, q.durable, q.sound, q.guarded, q.fits)
  }

  function ClientOf<F, G>(m: F -> G, c: Client<F>): Client<G> {
    Client(c.live, All(m, c.sent), c.acks, c.spoiled, c.unused, if c.owed.Some? then Some(m(c.owed.value)) else None)
  }

  function EventOf<F, G>(m: F -> G, e: Event<F>): Event<G> {
    match e
    case Dialed => Dialed
    case Sent(f) => Sent(m(f))
    case Read(b) => Read(b)
    case Dropped(waiting) => Dropped(waiting)
    case Committed(f) => Committed(m(f))
  }

  lemma AppendCarries<F(!new), G(!new)>(m: F -> G, q: Queue<F>, fs: seq<F>, fits: bool)
    ensures QueueOf(m, Append(q, fs, fits)) == Append(QueueOf(m, q), All(m, fs), fits)
  {
    var a, b := QueueOf(m, Append(q, fs, fits)), Append(QueueOf(m, q), All(m, fs), fits);
    assert a.pending == b.pending;
    forall g | g in b.written ensures g in a.written {
      if g in All(m, fs) {
        var i :| 0 <= i < |fs| && All(m, fs)[i] == g;
        assert fs[i] in q.written + (set f | f in fs);
      }
    }
    forall g | g in a.written ensures g in b.written {
      var f :| f in q.written + (set f | f in fs) && m(f) == g;
      if f in fs {
        var i :| 0 <= i < |fs| && fs[i] == f;
        assert All(m, fs)[i] == g;
      }
    }
    assert a.written == b.written;
  }

  lemma RebootCarries<F(!new), G(!new)>(m: F -> G, q: Queue<F>, q': Queue<F>)
    requires Reboot(q, q')
    ensures Reboot(QueueOf(m, q), QueueOf(m, q'))
  {
    forall g | g in All(m, q'.pending) ensures g in QueueOf(m, q).written {
      var i :| 0 <= i < |q'.pending| && All(m, q'.pending)[i] == g;
      assert q'.pending[i] in q.written;
    }
    if q.guarded {
      var older: seq<F> :| q'.pending == older + q.pending;
      assert All(m, q'.pending) == All(m, older) + All(m, q.pending);
    }
  }

  /** What the discipline allows for frames of bytes it allows for packets, with the same effect. */
  lemma EventCarries<F, G>(m: F -> G, c: Client<F>, e: Event<F>)
    ensures Allowed(c, e) ==> Allowed(ClientOf(m, c), EventOf(m, e))
    ensures ClientOf(m, Link.Apply(c, e)) == Link.Apply(ClientOf(m, c), EventOf(m, e))
  {
    if e.Sent? {
      assert All(m, c.sent + [e.f]) == All(m, c.sent) + [m(e.f)];
    } else if e.Dialed? {
      assert All(m, []) == [];
    }
  }

  // ---------------------------------------------------------------- the steps

  /** The end-to-end state describes this log and this client. */
  ghost predicate Describes(c: Coding, s: E.State, q: Queue<FrameData>, client: Client<FrameData>) {
    s.q == QueueOf(f => PacketOf(c, f), q) && s.client == ClientOf(f => PacketOf(c, f), client)
  }

  /** A successful round of the poller is an export followed by an advance. */
  lemma RoundIsExportThenAdvance(c: Coding, s: E.State, max: nat, q: Queue<FrameData>, client: Client<FrameData>,
                                 raw: bytes, chunks: seq<bytes>, frames: seq<bytes>, end: int, fits: bool)
    returns (crcs: seq<nat>)
    requires Lossless(c) && Describes(c, s, q, client) && s.stage.None?
    requires end > q.cursor && LinesOfAll(chunks) == LinesOf(raw)
    requires |frames| == |chunks| && (forall i :: 0 <= i < |chunks| ==> Encoded(c, chunks[i]) == Ok(frames[i]))
    requires Poller.Long(frames) && q.nextSeq + |frames| <= U64
    ensures |crcs| == |chunks|
    ensures var step := E.Export(end, raw, chunks, crcs, false);
            && E.Enabled(s, max, step)
            && var s1 := E.Apply(s, max, step);
               && E.Enabled(s1, max, E.Advance(fits))
               && Describes(c, E.Apply(s1, max, E.Advance(fits)), Poller.Delivered(q, frames, end, fits), client)
  {
    hide LinesOf, LinesOfAll, Encode, PacketOf, WriteAheadLog.Numbered, Append;
    var m := f => PacketOf(c, f);
    crcs := seq(|chunks|, i requires 0 <= i < |chunks| => c.crcOf(c.pack(chunks[i])));
    var numbered := WriteAheadLog.Numbered(frames, q.nextSeq);
    NumberedArePackets(c, chunks, frames, q.nextSeq, crcs);
    AppendCarries(m, q, numbered, false);
  }

  lemma NumberedArePackets(c: Coding, chunks: seq<bytes>, frames: seq<bytes>, next: nat, crcs: seq<nat>)
    requires Lossless(c) && Poller.Long(frames) && next + |frames| <= U64
    requires |frames| == |chunks| == |crcs|
    requires forall i :: 0 <= i < |chunks| ==> Encoded(c, chunks[i]) == Ok(frames[i])
    requires forall i :: 0 <= i < |chunks| ==> crcs[i] == c.crcOf(c.pack(chunks[i]))
    ensures All(f => PacketOf(c, f), WriteAheadLog.Numbered(frames, next)) == E.Packets(next, chunks, crcs)
  {
    hide Encode, PacketOf, RewriteSeq;
    var a, b := All(f => PacketOf(c, f), WriteAheadLog.Numbered(frames, next)), E.Packets(next, chunks, crcs);
    forall i | 0 <= i < |chunks| ensures a[i] == b[i] {
      NumberedFrameIsPacket(c, chunks[i], frames[i], next + i);
    }
    assert a == b;
  }

  /** A commit of the sending loop is a commit of the machine. */
  lemma CommitIsCommit(c: Coding, s: E.State, max: nat, q: Queue<FrameData>, client: Client<FrameData>, persisted: bool)
    requires Describes(c, s, q, client) && q.pending != [] && Allowed(client, Committed(q.pending[0]))
    ensures E.Enabled(s, max, E.Commit(persisted))
    ensures E.Apply(s, max, E.Commit(persisted)).q == QueueOf(f => PacketOf(c, f), Queues.Commit(q, persisted))
  {
    hide PacketOf;
    var m := f => PacketOf(c, f);
    EventCarries(m, client, Committed(q.pending[0]));
    assert All(m, q.pending[1..]) == All(m, q.pending)[1..];
  }

  /** Sending a pending frame or a heartbeat is a send of the machine. */
  lemma SendIsSend(c: Coding, s: E.State, max: nat, q: Queue<FrameData>, client: Client<FrameData>, f: FrameData)
    requires Describes(c, s, q, client) && Allowed(client, Sent(f)) && (f in q.pending || PacketOf(c, f).Beat?)
    ensures E.Enabled(s, max, E.Send(PacketOf(c, f)))
    ensures Describes(c, E.Apply(s, max, E.Send(PacketOf(c, f))), q, Link.Apply(client, Sent(f)))
  {
    hide PacketOf;
    var m := f => PacketOf(c, f);
    EventCarries(m, client, Sent(f));
    if f in q.pending {
      var i :| 0 <= i < |q.pending| && q.pending[i] == f;
      assert All(m, q.pending)[i] == PacketOf(c, f);
    }
  }

  /** A crash and the reopening of the log is a crash of the machine. */
  lemma RebootIsCrash(c: Coding, s: E.State, max: nat, q: Queue<FrameData>, q': Queue<FrameData>, client: Client<FrameData>)
    requires Describes(c, s, q, client) && Reboot(q, q')
    ensures var crash := E.Crash(QueueOf(f => PacketOf(c, f), q'));
            && E.Enabled(s, max, crash)
            && Describes(c, E.Apply(s, max, crash), q', Link.Apply(client, Dropped(false)))
  {
    hide PacketOf;
    var m := f => PacketOf(c, f);
    RebootCarries(m, q, q');
    EventCarries(m, client, Dropped(false));
  }

  /**
   A whole round of the poller, seen by the machine: if it advances, an export and an advance
   happened; if not, nothing did. An encoder that only makes frames never gets one refused.
   */
  method PollRound(p: Poller.Poller, env: Poller.Env, c: Coding, ghost s: E.State, ghost max: nat, ghost client: Client<FrameData>)
    returns (r: Poller.Round, ghost s': E.State)
    requires p.Valid() && Lossless(c) && (forall x :: p.encode(x) == Encoded(c, x)) && p.cfg.compression == c.typ
    requires Describes(c, s, p.wal.View(), client) && s.stage.None?
    modifies p, p.wal
    ensures p.Valid() && !r.AppendFailed?
    ensures r.Advanced? && p.wal.cp.nextSeq <= U64 ==>
              && (exists raw, chunks, crcs, fits :: ExportedThenAdvanced(s, max, E.Export(r.end, raw, chunks, crcs, false), fits, s'))
              && Describes(c, s', p.wal.View(), client)
    ensures !r.Advanced? ==> s' == s && Describes(c, s, p.wal.View(), client)
    ensures old(p.wal.Clean()) && p.wal.cp.nextSeq <= U64 ==> p.wal.Clean()
  {
    hide E.Enabled, E.Apply, Poller.Delivered, Describes, Encode, PacketOf, Decode, ParseHeader, LinesOf, LinesOfAll,
      Poller.Chunk, Poller.Ahead, Poller.WindowOf, Poller.EndOf, WriteAheadLog.ViewOf, Journal.Queued, Journal.Logged,
      Journal.Steady, Journal.ReadAll, ExportedThenAdvanced;
    MakesFrames(p, c);
    ghost var raw, chunks, frames;
    ghost var q := p.wal.View();
    r, raw, chunks, frames := p.PollOnce(env);
    s' := s;
    if r.Advanced? && p.wal.cp.nextSeq <= U64 {
      DeliveredNext(q, frames, r.end, p.wal.View().fits);
      s' := AdvancedRound(c, s, max, q, client, raw, chunks, frames, r.end, p.wal.View().fits);
    }
  }

  lemma AdvancedRound(c: Coding, s: E.State, max: nat, q: Queue<FrameData>, client: Client<FrameData>,
                      raw: bytes, chunks: seq<bytes>, frames: seq<bytes>, end: int, fits: bool)
    returns (s': E.State)
    requires Lossless(c) && Describes(c, s, q, client) && s.stage.None?
    requires end > q.cursor && LinesOfAll(chunks) == LinesOf(raw)
    requires |frames| == |chunks| && (forall i :: 0 <= i < |chunks| ==> Encoded(c, chunks[i]) == Ok(frames[i]))
    requires Poller.Long(frames) && q.nextSeq + |frames| <= U64
    ensures exists crcs :: ExportedThenAdvanced(s, max, E.Export(end, raw, chunks, crcs, false), fits, s')
    ensures Describes(c, s', Poller.Delivered(q, frames, end, fits), client)
  {
    hide E.Enabled, E.Apply, Poller.Delivered, Describes, Encode, PacketOf, Decode, LinesOf, LinesOfAll;
    var crcs := RoundIsExportThenAdvance(c, s, max, q, client, raw, chunks, frames, end, fits);
    var step := E.Export(end, raw, chunks, crcs, false);
    s' := E.Apply(E.Apply(s, max, step), max, E.Advance(fits));
    assert ExportedThenAdvanced(s, max, step, fits, s');
  }

  ghost predicate ExportedThenAdvanced(s: E.State, max: nat, step: E.Step, fits: bool, s': E.State) {
    && step.Export? && E.Enabled(s, max, step)
    && E.Enabled(E.Apply(s, max, step), max, E.Advance(fits))
    && s' == E.Apply(E.Apply(s, max, step), max, E.Advance(fits))
  }

  lemma DeliveredNext(q: Queue<FrameData>, frames: seq<bytes>, end: int, fits: bool)
    requires Poller.Long(frames)
    ensures Poller.Delivered(q, frames, end, fits).nextSeq == q.nextSeq + |frames|
  {
  }

  /** What the encoder returns are frames, and never too short ones. */
  lemma MakesFrames(p: Poller.Poller, c: Coding)
    requires Lossless(c) && (forall x :: p.encode(x) == Encoded(c, x)) && p.cfg.compression == c.typ
    ensures p.EncodesFrames()
  {
    hide Encode, PacketOf, Decode, ParseHeader, RewriteSeq;
    forall x | p.encode(x).Ok? ensures ValidFrame(p.encode(x).value) && p.encode(x).value[3] == c.typ {
      NumberedFrameIsPacket(c, x, p.encode(x).value, 0);
    }
  }
}
