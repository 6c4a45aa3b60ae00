/**
 The whole system: poller, log, sending loop, connections, server pipelines and receiver,
 interleaved arbitrarily, with connection loss, corrupted headers and payloads, nacks, receiver
 restarts and sender crashes.
 */
module EndToEnd {
  import opened Bytes
  import opened Codec
  import opened Queues
  import opened Lines
  import Link
  import Server
  import Receiver
  import Dedup

  /** A frame as the link sees it: a heartbeat, or a numbered chunk of lines with its checksum. */
  datatype Packet = Beat | Data(seqNo: nat, crc: nat, chunk: bytes)

  /** An exported window whose lines the log has taken over, and the frames it appended for it. */
  datatype Window = Window(start: int, end: int, raw: bytes, packets: seq<Packet>)

  /** The server's end of a connection: frames delivered to it and the handler call of each dispatched one. */
  datatype Side = Side(conn: Server.Conn, inbox: seq<Packet>, calls: map<nat, nat>)

  datatype State = State(
    q: Queue<Packet>,
    stage: Option<Window>,     // appended, cursor not moved yet
    delivered: set<Window>,    // cursor moved past it and persisted
    client: Link.Client<Packet>,
    here: nat,                 // number of the client's connection
    sides: map<nat, Side>,
    recv: Receiver.State,
    origin: map<nat, Packet>,  // the frame each handler call was dispatched for
    landed: set<Packet>)       // frames whose own chunk was imported or isolated

  datatype Step =
    | Export(end: int, raw: bytes, chunks: seq<bytes>, crcs: seq<nat>, fits: bool)
    | Advance(fits: bool)
    | Abandon
    | Rewind(to: int, fits: bool)
    | Crash(q: Queue<Packet>)
    | Dial(c: nat)
    | Send(p: Packet)
    | ReadAck
    | Drop
    | Commit(persisted: bool)
    | Serve(c: nat, step: Server.Step, id: nat, corrupt: bool, first: bool)
    | Handle(id: nat, outcome: Receiver.Outcome)
    | Restart(lastSeq: nat)

  function KeyOf(p: Packet): Receiver.Key
    requires p.Data?
  {
    Dedup.Rec(p.seqNo, p.crc)
  }

  function MessageOf(p: Packet): Receiver.Message {
    if p.Beat? then Receiver.Heartbeat else Receiver.Data(p.seqNo, p.crc)
  }

  function ByteOf(s: Server.Sent): byte {
    if s.Answer? then s.ack else ACK_FAIL
  }

  function Packets(next: nat, chunks: seq<bytes>, crcs: seq<nat>): (ps: seq<Packet>)
    requires |crcs| == |chunks|
    ensures |ps| == |chunks|
    ensures forall i :: 0 <= i < |chunks| ==> ps[i] == Data(next + i, crcs[i], chunks[i])
  {
    seq(|chunks|, i requires 0 <= i < |chunks| => Data(next + i, crcs[i], chunks[i]))
  }

  // ---------------------------------------------------------------- steps

  ghost predicate Enabled(s: State, max: nat, step: Step) {
    match step
    case Export(end, raw, chunks, crcs, _) =>
      s.stage.None? && end > s.q.cursor && |crcs| == |chunks| && LinesOfAll(chunks) == LinesOf(raw)
    case Advance(_) => s.stage.Some?
    case Abandon => true
    case Rewind(to, _) => s.stage.None? && to <= s.q.cursor
    case Crash(q') => Reboot(s.q, q')
    case Dial(c) => Link.Allowed(s.client, Link.Dialed) && c !in s.sides
    case Send(p) => Link.Allowed(s.client, Link.Sent(p)) && (p.Beat? || p in s.q.pending)
    case ReadAck =>
      && s.here in s.sides && |s.client.acks| < |s.sides[s.here].conn.wire|
      && Link.Allowed(s.client, Link.Read(ByteOf(s.sides[s.here].conn.wire[|s.client.acks|])))
    case Drop => true
    case Commit(_) => s.q.pending != [] && Link.Allowed(s.client, Link.Committed(s.q.pending[0]))
    case Serve(c, step, id, _, _) =>
      && c in s.sides && Server.Enabled(s.sides[c].conn, max, step)
      && (step.ReadFrame? || step.ReadBadHeader? ==> s.sides[c].conn.idx < |s.sides[c].inbox|)
      && (step.Dispatch? ==> id !in s.recv.calls)
      && (step.Finish? ==>
            && step.i in s.sides[c].calls && s.sides[c].calls[step.i] in s.recv.calls
            && s.recv.calls[s.sides[c].calls[step.i]].pc == Receiver.Replied(step.ack))
    case Handle(id, outcome) => Receiver.Enabled(s.recv, Receiver.Move(id, outcome))
    case Restart(_) => true
  }

  ghost function Apply(s: State, max: nat, step: Step): State
    requires Enabled(s, max, step)
  {
    match step
    case Export(end, raw, chunks, crcs, fits) =>
      var ps := Packets(s.q.nextSeq, chunks, crcs);
      s.(q := Append(s.q, ps, fits), stage := Some(Window(s.q.cursor, end, raw, ps)))
    case Advance(fits) =>
      s.(q := MoveCursor(s.q, s.stage.value.end, fits), stage := None, delivered := s.delivered + {s.stage.value})
    case Abandon => s.(stage := None)
    case Rewind(to, fits) => s.(q := MoveCursor(s.q, to, fits))
    case Crash(q') => s.(q := q', stage := None, client := Link.Apply(s.client, Link.Dropped(false)))
    case Dial(c) =>
      s.(client := Link.Apply(s.client, Link.Dialed), here := c, sides := s.sides[c := Side(Server.Fresh(), [], map[])])
    case Send(p) =>
      s.(client := Link.Apply(s.client, Link.Sent(p)),
         sides := if s.here in s.sides then s.sides[s.here := s.sides[s.here].(inbox := s.sides[s.here].inbox + [p])] else s.sides)
    case ReadAck =>
      s.(client := Link.Apply(s.client, Link.Read(ByteOf(s.sides[s.here].conn.wire[|s.client.acks|]))))
    case Drop => s.(client := Link.Apply(s.client, Link.Dropped(false)))
    case Commit(persisted) => s.(q := Queues.Commit(s.q, persisted))
    case Serve(c, step, id, corrupt, first) => Served(s, max, c, step, id, corrupt, first)
    case Handle(id, outcome) =>
      s.(recv := Receiver.Apply(s.recv, Receiver.Move(id, outcome)),
         landed := if Lands(s.recv, id, outcome) && id in s.origin then s.landed + {s.origin[id]} else s.landed)
    case Restart(lastSeq) =>
      s.(recv := Receiver.Init(lastSeq, s.recv.stored), sides := map[], origin := map[])
  }

  /** This action writes or isolates the payload of the call's own frame. */
  ghost predicate Lands(r: Receiver.State, id: nat, outcome: Receiver.Outcome) {
    && id in r.calls && r.calls[id].msg.Data? && r.calls[id].pc.Importing?
    && (outcome == Receiver.Imported || outcome == Receiver.Isolated)
  }

  ghost function Served(s: State, max: nat, c: nat, step: Server.Step, id: nat, corrupt: bool, first: bool): State
    requires Enabled(s, max, Serve(c, step, id, corrupt, first))
  {
    var side := s.sides[c];
    var conn := Server.Apply(side.conn, max, step);
    if step.Dispatch? && side.conn.idx < |side.inbox| then
      var msg := if corrupt then Receiver.Broken else MessageOf(side.inbox[side.conn.idx]);
      s.(sides := s.sides[c := Side(conn, side.inbox, side.calls[side.conn.idx := id])],
         origin := s.origin[id := side.inbox[side.conn.idx]],
         recv := Receiver.Apply(s.recv, Receiver.Arrive(id, msg, first)))
    else s.(sides := s.sides[c := side.(conn := conn)])
  }

  ghost function After(s: State, max: nat, steps: seq<Step>): State {
    if |steps| == 0 then s
    else
      var t := After(s, max, steps[..|steps| - 1]);
      if Enabled(t, max, steps[|steps| - 1]) then Apply(t, max, steps[|steps| - 1]) else t
  }

  // ---------------------------------------------------------------- the invariant

  ghost predicate Stored(s: State, p: Packet) {
    p.Data? && KeyOf(p) in s.recv.stored
  }

  /** The call handles this packet, or a corrupted copy of it. */
  ghost predicate Handles(s: State, p: Packet, id: nat) {
    id in s.recv.calls && (s.recv.calls[id].msg == MessageOf(p) || s.recv.calls[id].msg == Receiver.Broken)
  }

  ghost predicate SideOk(s: State, max: nat, side: Side) {
    && Server.Inv(side.conn, max)
    && side.conn.idx <= |side.inbox|
    && (side.conn.reader.Holding? ==> side.conn.idx < |side.inbox|)
    && (Server.BadHeaders(side.conn.wire) > 0 ==> side.conn.idx < |side.inbox|)
    && (forall i :: i in side.calls ==> 0 <= i < side.conn.idx)
    && (forall i :: 0 <= i < side.conn.idx ==> i in side.calls && Handles(s, side.inbox[i], side.calls[i]))
    && (forall i :: i in side.conn.answers && i < |side.inbox| ==>
          side.conn.answers[i] == ACK_SUCCESS && side.inbox[i].Data? ==> Stored(s, side.inbox[i]))
  }

  /** The client's view of its connection agrees with the server's. */
  ghost predicate LinkOk(s: State) {
    && |s.client.acks| <= |s.client.sent|
    && (s.client.live ==>
          forall k :: 0 <= k < |s.client.acks| && s.client.acks[k] == ACK_SUCCESS && s.client.sent[k].Data? ==>
            Stored(s, s.client.sent[k]))
    && (s.client.live && s.here in s.sides ==>
          var side := s.sides[s.here];
          && side.inbox == s.client.sent
          && |s.client.acks| <= |side.conn.wire|
          && forall k :: 0 <= k < |s.client.acks| && side.conn.wire[k].BadHeader? ==>
               s.client.spoiled || side.conn.idx <= k)
  }

  /** Nothing is in the log, on a connection, in a handler or at the receiver that was not appended. */
  ghost predicate Traced(s: State) {
    && (forall p :: p in s.q.pending ==> p in s.q.written)
    && (forall p :: p in s.q.written ==> p.Data?)
    && (forall c :: c in s.sides ==> Carried(s, s.sides[c].inbox))
    && (forall id :: id in s.recv.calls ==> Originates(s, id))
    && s.landed <= s.q.written
    && (forall w :: w in s.delivered ==> Appended(s, w))
    && (s.stage.Some? ==> Appended(s, s.stage.value))
  }

  ghost predicate Carried(s: State, inbox: seq<Packet>) {
    forall p :: p in inbox && p.Data? ==> p in s.q.written
  }

  /** The window's frames were appended, and together they hold exactly its lines in order. */
  ghost predicate Appended(s: State, w: Window) {
    && (forall p :: p in w.packets ==> p in s.q.written)
    && LinesOfAll(Chunks(w.packets)) == LinesOf(w.raw)
  }

  function Chunks(ps: seq<Packet>): seq<bytes> {
    seq(|ps|, i requires 0 <= i < |ps| => if ps[i].Data? then ps[i].chunk else [])
  }

  ghost predicate Originates(s: State, id: nat)
    requires id in s.recv.calls
  {
    s.recv.calls[id].msg.Data? ==>
      id in s.origin && s.origin[id].Data? && s.origin[id] in s.q.written && MessageOf(s.origin[id]) == s.recv.calls[id].msg
  }

  ghost predicate Inv(s: State, max: nat) {
    && Receiver.Inv(s.recv)
    && (forall c :: c in s.sides ==> SideOk(s, max, s.sides[c]))
    && LinkOk(s)
    && Traced(s)
  }

  /** A line of a window is safe: one of the window's frames holds it and is stored, or pending if that counts. */
  ghost predicate Safe(s: State, w: Window, pendingCounts: bool, l: bytes) {
    exists p :: p in w.packets && p.Data? && l in LinesOf(p.chunk) && (Stored(s, p) || (pendingCounts && p in s.q.pending))
  }

  ghost predicate SafeWindow(s: State, w: Window, pendingCounts: bool) {
    forall l :: l in LinesOf(w.raw) ==> Safe(s, w, pendingCounts, l)
  }

  /** Delivered lines are safe; pending frames count only if the persisted checkpoint protects them. */
  ghost predicate DataOk(s: State) {
    && s.q.sound
    && (forall w :: w in s.delivered ==> SafeWindow(s, w, s.q.guarded))
    && (s.stage.Some? ==> SafeWindow(s, s.stage.value, true))
  }

  // ---------------------------------------------------------------- lines

  lemma {:induction false} LineInSome(frames: seq<bytes>, l: bytes)
    requires l in LinesOfAll(frames)
    ensures exists i :: 0 <= i < |frames| && l in LinesOf(frames[i])
  {
    var n := |frames| - 1;
    if l in LinesOf(frames[n]) {
    } else {
      LineInSome(frames[..n], l);
      var i :| 0 <= i < |frames[..n]| && l in LinesOf(frames[..n][i]);
      assert l in LinesOf(frames[i]);
    }
  }

  /** A window stays safe when stored frames stay and pending ones stay or become stored. */
  lemma StaysSafe(s: State, s': State, w: Window, was: bool, now: bool)
    requires SafeWindow(s, w, was)
    requires s.recv.stored <= s'.recv.stored
    requires was ==> forall p :: p in s.q.pending ==> Stored(s', p) || (now && p in s'.q.pending)
    ensures SafeWindow(s', w, now)
  {
    hide LinesOf;
    forall l | l in LinesOf(w.raw) ensures Safe(s', w, now, l) {
      assert Safe(s, w, was, l);
      var p :| p in w.packets && p.Data? && l in LinesOf(p.chunk) && (Stored(s, p) || (was && p in s.q.pending));
    }
  }

  /** The data invariant, for a step that neither delivers nor stages a window. */
  lemma DataStays(s: State, s': State)
    requires DataOk(s) && s.recv.stored <= s'.recv.stored && s'.delivered == s.delivered && s'.q.sound
    requires s.q.guarded ==> forall p :: p in s.q.pending ==> Stored(s', p) || (s'.q.guarded && p in s'.q.pending)
    requires s'.stage.Some? ==> s'.stage == s.stage && forall p :: p in s.q.pending ==> Stored(s', p) || p in s'.q.pending
    ensures DataOk(s')
  {
    hide SafeWindow, Stored;
    forall w | w in s'.delivered ensures SafeWindow(s', w, s'.q.guarded) {
      StaysSafe(s, s', w, s.q.guarded, s'.q.guarded);
    }
    if s'.stage.Some? {
      StaysSafe(s, s', s'.stage.value, true, true);
    }
  }

  // ---------------------------------------------------------------- poller and log

  lemma ExportKeeps(s: State, max: nat, step: Step)
    requires step.Export? && DataOk(s) && Enabled(s, max, step)
    ensures DataOk(Apply(s, max, step))
  {
    hide LinesOf, LinesOfAll, SafeWindow;
    var s' := Apply(s, max, step);
    forall w | w in s'.delivered ensures SafeWindow(s', w, s'.q.guarded) {
      StaysSafe(s, s', w, s.q.guarded, s'.q.guarded);
    }
    ExportIsSafe(s', s'.stage.value, step.chunks);
  }

  lemma ExportIsSafe(s: State, w: Window, chunks: seq<bytes>)
    requires LinesOfAll(chunks) == LinesOf(w.raw) && |w.packets| == |chunks|
    requires forall i :: 0 <= i < |chunks| ==> w.packets[i].Data? && w.packets[i].chunk == chunks[i]
    requires forall p :: p in w.packets ==> p in s.q.pending
    ensures SafeWindow(s, w, true)
  {
    hide LinesOf, LinesOfAll;
    forall l | l in LinesOf(w.raw) ensures Safe(s, w, true, l) {
      LineInSome(chunks, l);
      var i :| 0 <= i < |chunks| && l in LinesOf(chunks[i]);
      assert w.packets[i] in w.packets && l in LinesOf(w.packets[i].chunk);
    }
  }

  lemma AdvanceKeeps(s: State, max: nat, fits: bool)
    requires DataOk(s) && Enabled(s, max, Advance(fits))
    ensures DataOk(Apply(s, max, Advance(fits)))
  {
    hide SafeWindow;
    var s' := Apply(s, max, Advance(fits));
    forall w | w in s'.delivered ensures SafeWindow(s', w, true) {
      StaysSafe(s, s', w, if w in s.delivered then s.q.guarded else true, true);
    }
  }

  lemma CrashKeeps(s: State, max: nat, q': Queue<Packet>)
    requires DataOk(s) && Enabled(s, max, Crash(q')) && s.q.fits
    ensures DataOk(Apply(s, max, Crash(q')))
  {
    hide SafeWindow;
    var s' := Apply(s, max, Crash(q'));
    if s.q.guarded {
      var older: seq<Packet> :| q'.pending == older + s.q.pending;
      assert forall p :: p in s.q.pending ==> p in q'.pending && q'.guarded;
    }
    DataStays(s, s');
  }

  /** The head was answered by its own 0xff, so it is stored and may go. */
  lemma CommittedStored(s: State, max: nat, persisted: bool)
    requires LinkOk(s) && Traced(s) && Enabled(s, max, Commit(persisted))
    ensures s.q.pending[0].Data? && Stored(s, s.q.pending[0])
  {
    assert s.q.pending[0] in s.q.pending;
  }

  lemma CommitKeeps(s: State, max: nat, persisted: bool)
    requires LinkOk(s) && Traced(s) && DataOk(s) && Enabled(s, max, Commit(persisted))
    ensures DataOk(Apply(s, max, Commit(persisted)))
  {
    hide SafeWindow, Traced;
    CommittedStored(s, max, persisted);
    var s' := Apply(s, max, Commit(persisted));
    var head := s.q.pending[0];
    forall p | p in s.q.pending ensures p == head || p in s'.q.pending {
    }
    DataStays(s, s');
  }

  // ---------------------------------------------------------------- acknowledgements

  /** Before any bad-header nack, byte k on the wire is the answer to frame k. */
  lemma {:induction false} PlainPrefix(wire: seq<Server.Sent>, k: nat)
    requires k < |wire| && forall j :: 0 <= j <= k ==> wire[j].Answer?
    ensures k < |Server.Answers(wire)| && Server.Answers(wire)[k] == wire[k].ack
  {
    var n := |wire| - 1;
    if k < n {
      PlainPrefix(wire[..n], k);
    } else {
      AllPlain(wire[..n]);
    }
  }

  lemma {:induction false} AllPlain(wire: seq<Server.Sent>)
    requires forall j :: 0 <= j < |wire| ==> wire[j].Answer?
    ensures |Server.Answers(wire)| == |wire|
  {
    if |wire| > 0 {
      AllPlain(wire[..|wire| - 1]);
    }
  }

  /** The wire is never longer than the dispatched frames plus one nack. */
  lemma WireBound(c: Server.Conn, max: nat)
    requires Server.Inv(c, max)
    ensures |c.wire| <= c.idx + 1 && |Server.Answers(c.wire)| == Server.Written(c)
    ensures forall i :: 0 <= i < Server.Written(c) ==> i in c.answers && Server.Answers(c.wire)[i] == c.answers[i]
  {
    hide Server.Answers, Server.BadHeaders;
    Server.WireLength(c.wire);
    assert Server.Written(c) > 0 ==> Server.Written(c) - 1 in c.answers;
  }

  /** A byte read on an unspoiled connection answers the frame at its position, or is a bad-header nack. */
  lemma ReadIsAligned(s: State, max: nat)
    requires Inv(s, max) && Enabled(s, max, ReadAck)
    ensures var side, k := s.sides[s.here], |s.client.acks|;
            side.conn.wire[k].Answer? ==> k in side.conn.answers && side.conn.wire[k].ack == side.conn.answers[k]
  {
    hide Server.Inv, Server.Answers, Traced, Receiver.Inv, Handles, Stored;
    var side, k := s.sides[s.here], |s.client.acks|;
    assert SideOk(s, max, side);
    WireBound(side.conn, max);
    if side.conn.wire[k].Answer? {
      forall j | 0 <= j < k ensures side.conn.wire[j].Answer? {
      }
      PlainPrefix(side.conn.wire, k);
    }
  }

  lemma ReadKeeps(s: State, max: nat)
    requires Inv(s, max) && Enabled(s, max, ReadAck)
    ensures LinkOk(Apply(s, max, ReadAck))
  {
    hide Server.Inv, Traced, Receiver.Inv, Handles;
    ReadIsAligned(s, max);
    var side, k := s.sides[s.here], |s.client.acks|;
    assert SideOk(s, max, side);
    if side.conn.wire[k].BadHeader? {
      HasBad(side.conn.wire, k);
    }
  }

  lemma {:induction false} HasBad(wire: seq<Server.Sent>, k: nat)
    requires k < |wire| && wire[k].BadHeader?
    ensures Server.BadHeaders(wire) > 0
  {
    if k < |wire| - 1 {
      HasBad(wire[..|wire| - 1], k);
    }
  }

  // ---------------------------------------------------------------- server sides

  /** A side depends on the receiver only through its calls' messages and what is stored. */
  lemma SideStays(s: State, s': State, max: nat, side: Side)
    requires SideOk(s, max, side) && s.recv.stored <= s'.recv.stored
    requires forall i :: i in s.recv.calls ==> i in s'.recv.calls && s'.recv.calls[i].msg == s.recv.calls[i].msg
    ensures SideOk(s', max, side)
  {
    hide Server.Inv, Server.BadHeaders;
  }

  lemma SidesStay(s: State, s': State, max: nat)
    requires (forall c :: c in s.sides ==> SideOk(s, max, s.sides[c])) && s.recv.stored <= s'.recv.stored
    requires forall i :: i in s.recv.calls ==> i in s'.recv.calls && s'.recv.calls[i].msg == s.recv.calls[i].msg
    ensures forall c :: c in s.sides ==> SideOk(s', max, s.sides[c])
  {
    hide SideOk;
    forall c | c in s.sides ensures SideOk(s', max, s.sides[c]) {
      SideStays(s, s', max, s.sides[c]);
    }
  }

  lemma InboxGrows(s: State, max: nat, side: Side, p: Packet)
    requires SideOk(s, max, side)
    ensures SideOk(s, max, side.(inbox := side.inbox + [p]))
  {
    hide Server.BadHeaders, Server.Answers, Stored, Handles;
    var side' := side.(inbox := side.inbox + [p]);
    assert forall i :: 0 <= i < |side.inbox| ==> side'.inbox[i] == side.inbox[i];
    assert forall i :: i in side.conn.answers ==> 0 <= i < side.conn.idx;
  }

  /** A handler's success for frame i means frame i is stored. */
  lemma FinishedIsStored(s: State, p: Packet, id: nat)
    requires Receiver.Inv(s.recv) && Handles(s, p, id) && p.Data?
    requires s.recv.calls[id].pc == Receiver.Replied(ACK_SUCCESS)
    ensures Stored(s, p)
  {
    hide Receiver.CountsOk;
    assert Receiver.CallOk(s.recv, id);
  }

  /** The served side after a step that is not a dispatch. */
  lemma ServedSideOk(s: State, max: nat, c: nat, step: Server.Step)
    requires Inv(s, max) && Enabled(s, max, Serve(c, step, 0, false, false)) && !step.Dispatch?
    ensures SideOk(s, max, s.sides[c].(conn := Server.Apply(s.sides[c].conn, max, step)))
  {
    hide Server.Inv, Server.Answers, Receiver.Inv, LinkOk, Traced, Handles, Stored;
    var side := s.sides[c];
    assert SideOk(s, max, side);
    Server.InvStep(side.conn, max, step);
    match step {
      case ReadBadHeader => Server.WireGrows(side.conn.wire, Server.BadHeader);
      case Write(ok) =>
        if ok {
          Server.WireGrows(side.conn.wire, Server.Answer(side.conn.writer.ack));
        }
      case Finish(i, ack) =>
        RunningIsDispatched(side.conn, max, i);
        if ack == ACK_SUCCESS && side.inbox[i].Data? {
          FinishedIsStored(s, side.inbox[i], side.calls[i]);
        }
      case _ =>
    }
  }

  lemma RunningIsDispatched(c: Server.Conn, max: nat, i: nat)
    requires Server.Inv(c, max) && i in c.running
    ensures i < c.idx
  {
  }

  lemma DispatchedSideOk(s: State, max: nat, c: nat, id: nat, corrupt: bool, first: bool)
    requires Inv(s, max) && Enabled(s, max, Serve(c, Server.Dispatch, id, corrupt, first))
    ensures s.sides[c].conn.idx < |s.sides[c].inbox|
    ensures var s' := Apply(s, max, Serve(c, Server.Dispatch, id, corrupt, first));
            SideOk(s', max, s'.sides[c])
  {
    hide Server.Inv, Server.Answers, Server.BadHeaders, Receiver.Inv, LinkOk, Traced, Apply, Enabled;
    DispatchChanges(s, max, c, id, corrupt, first);
    assert SideOk(s, max, s.sides[c]);
    HoldingIsPlain(s.sides[c].conn, max);
  }

  /** A dispatch moves one frame of one connection into a new call of the receiver. */
  lemma DispatchChanges(s: State, max: nat, c: nat, id: nat, corrupt: bool, first: bool)
    requires Enabled(s, max, Serve(c, Server.Dispatch, id, corrupt, first)) && Inv(s, max)
    ensures c in s.sides && s.sides[c].conn.idx < |s.sides[c].inbox| && s.sides[c].conn.reader.Holding?
    ensures var s' := Apply(s, max, Serve(c, Server.Dispatch, id, corrupt, first));
            var side, conn := s.sides[c], s.sides[c].conn;
            && s'.recv.stored == s.recv.stored && Handles(s', side.inbox[conn.idx], id)
            && (forall i :: i in s.recv.calls ==> i in s'.recv.calls && s'.recv.calls[i] == s.recv.calls[i])
            && c in s'.sides && s'.sides[c].inbox == side.inbox && s'.sides[c].calls == side.calls[conn.idx := id]
            && var conn' := s'.sides[c].conn;
               && Server.Inv(conn', max) && conn'.reader.Reading? && conn'.idx == conn.idx + 1
               && conn'.wire == conn.wire && conn'.answers == conn.answers
  {
    hide Server.Inv, Server.Answers, Server.BadHeaders, Receiver.Inv, LinkOk, Traced, Receiver.Apply, MessageOf;
    var side := s.sides[c];
    assert SideOk(s, max, side);
    Server.InvStep(side.conn, max, Server.Dispatch);
    ArrivalIsHandled(s.recv, id, if corrupt then Receiver.Broken else MessageOf(side.inbox[side.conn.idx]), first);
  }

  lemma ArrivalIsHandled(r: Receiver.State, id: nat, msg: Receiver.Message, first: bool)
    requires id !in r.calls
    ensures var r' := Receiver.Apply(r, Receiver.Arrive(id, msg, first));
            && r'.stored == r.stored && id in r'.calls && r'.calls[id].msg == msg
            && forall i :: i in r.calls ==> i in r'.calls && r'.calls[i] == r.calls[i]
  {
  }

  lemma HoldingIsPlain(c: Server.Conn, max: nat)
    requires Server.Inv(c, max) && c.reader.Holding?
    ensures Server.BadHeaders(c.wire) == 0
  {
  }

  /** Serving changes the wire only at its end, and dispatches only while no bad header was seen. */
  lemma ServeKeepsLink(s: State, max: nat, c: nat, step: Server.Step, id: nat, corrupt: bool, first: bool)
    requires Inv(s, max) && Enabled(s, max, Serve(c, step, id, corrupt, first))
    ensures LinkOk(Apply(s, max, Serve(c, step, id, corrupt, first)))
  {
    hide Server.Answers, Server.Inv, Receiver.Inv, Traced, Handles, Receiver.Apply, Receiver.Enabled;
    var s' := Apply(s, max, Serve(c, step, id, corrupt, first));
    assert SideOk(s, max, s.sides[c]);
    ServingStoresNothing(s, max, Serve(c, step, id, corrupt, first));
    if step.Dispatch? {
      HoldingIsPlain(s.sides[c].conn, max);
      NoBad(s.sides[c].conn.wire);
    }
    hide SideOk, Receiver.Init;
  }

  lemma NoBad(wire: seq<Server.Sent>)
    requires Server.BadHeaders(wire) == 0
    ensures forall k :: 0 <= k < |wire| ==> wire[k].Answer?
  {
    forall k | 0 <= k < |wire| ensures wire[k].Answer? {
      if wire[k].BadHeader? {
        HasBad(wire, k);
      }
    }
  }

  // ---------------------------------------------------------------- where frames come from

  /** Appended frames stay appended, so what was traced stays traced. */
  lemma TracedStays(s: State, s': State)
    requires Traced(s) && s.q.written <= s'.q.written && s'.landed == s.landed
    requires (forall p :: p in s'.q.pending ==> p in s'.q.written) && (forall p :: p in s'.q.written ==> p.Data?)
    requires forall c :: c in s'.sides ==> Carried(s', s'.sides[c].inbox)
    requires forall id :: id in s'.recv.calls ==> Originates(s', id)
    requires forall w :: w in s'.delivered ==> w in s.delivered || Appended(s', w)
    requires s'.stage.Some? ==> s'.stage == s.stage || Appended(s', s'.stage.value)
    ensures Traced(s')
  {
    hide Carried, Originates, LinesOf, LinesOfAll, Chunks;
  }

  lemma SourceStepTraced(s: State, max: nat, step: Step)
    requires Traced(s) && Enabled(s, max, step)
    requires step.Export? || step.Advance? || step.Abandon? || step.Rewind? || step.Crash? || step.Commit?
    ensures Traced(Apply(s, max, step))
  {
    hide LinesOf, LinesOfAll, Packets, Chunks;
    var s' := Apply(s, max, step);
    if step.Export? {
      assert Chunks(s'.stage.value.packets) == step.chunks by { ChunksOfPackets(s.q.nextSeq, step.chunks, step.crcs); }
    }
    assert step.Advance? ==> Appended(s, s.stage.value);
    forall c | c in s'.sides ensures Carried(s', s'.sides[c].inbox) {
      assert Carried(s, s.sides[c].inbox);
    }
    forall id | id in s'.recv.calls ensures Originates(s', id) {
      assert Originates(s, id);
    }
    TracedStays(s, s');
  }

  lemma ChunksOfPackets(next: nat, chunks: seq<bytes>, crcs: seq<nat>)
    requires |crcs| == |chunks|
    ensures Chunks(Packets(next, chunks, crcs)) == chunks
  {
  }

  lemma ClientStepTraced(s: State, max: nat, step: Step)
    requires Traced(s) && Enabled(s, max, step)
    requires step.Dial? || step.Send? || step.ReadAck? || step.Drop?
    ensures Traced(Apply(s, max, step))
  {
    hide Link.Apply;
    var s' := Apply(s, max, step);
    forall c | c in s'.sides ensures Carried(s', s'.sides[c].inbox) {
      assert c in s.sides ==> Carried(s, s.sides[c].inbox);
    }
    forall id | id in s'.recv.calls ensures Originates(s', id) {
      assert Originates(s, id);
    }
    TracedStays(s, s');
  }

  lemma ServeTraced(s: State, max: nat, c: nat, step: Server.Step, id: nat, corrupt: bool, first: bool)
    requires Traced(s) && Enabled(s, max, Serve(c, step, id, corrupt, first))
    ensures Traced(Apply(s, max, Serve(c, step, id, corrupt, first)))
  {
    hide Server.Apply, Server.Enabled, Receiver.Apply;
    var s' := Apply(s, max, Serve(c, step, id, corrupt, first));
    var side := s.sides[c];
    assert Carried(s, side.inbox);
    forall k | k in s'.sides ensures Carried(s', s'.sides[k].inbox) {
      assert Carried(s, s.sides[k].inbox);
    }
    if step.Dispatch? && side.conn.idx < |side.inbox| {
      var msg := if corrupt then Receiver.Broken else MessageOf(side.inbox[side.conn.idx]);
      ArrivalIsHandled(s.recv, id, msg, first);
      ArrivalOnly(s.recv, id, msg, first);
      assert side.inbox[side.conn.idx] in side.inbox;
    }
    forall i | i in s'.recv.calls ensures Originates(s', i) {
      assert i in s.recv.calls ==> Originates(s, i);
    }
    TracedStays(s, s');
  }

  lemma ArrivalOnly(r: Receiver.State, id: nat, msg: Receiver.Message, first: bool)
    requires id !in r.calls
    ensures forall i :: i in Receiver.Apply(r, Receiver.Arrive(id, msg, first)).calls ==> i == id || i in r.calls
  {
  }

  lemma ReceiverStepTraced(s: State, max: nat, step: Step)
    requires Traced(s) && Enabled(s, max, step) && (step.Handle? || step.Restart?)
    ensures Traced(Apply(s, max, step))
  {
    hide Receiver.Apply, Carried;
    var s' := Apply(s, max, step);
    if step.Handle? {
      Receiver.ActionKeepsMessages(s.recv, step.id, step.outcome);
      HandlingOnly(s.recv, step.id, step.outcome);
      forall id | id in s'.recv.calls ensures Originates(s', id) {
        assert Originates(s, id);
      }
      assert Lands(s.recv, step.id, step.outcome) ==> Originates(s, step.id);
    }
    assert forall c :: c in s'.sides ==> Carried(s, s.sides[c].inbox);
    forall c | c in s'.sides ensures Carried(s', s'.sides[c].inbox) {
      SameCarried(s, s', s.sides[c].inbox);
    }
  }

  lemma SameCarried(s: State, s': State, inbox: seq<Packet>)
    requires Carried(s, inbox) && s'.q == s.q
    ensures Carried(s', inbox)
  {
  }

  lemma HandlingOnly(r: Receiver.State, id: nat, outcome: Receiver.Outcome)
    requires Receiver.Enabled(r, Receiver.Move(id, outcome))
    ensures forall i :: i in Receiver.Apply(r, Receiver.Move(id, outcome)).calls ==> i in r.calls
  {
  }

  /** Every stored number and CRC was stored before the run or belongs to a frame that landed. */
  ghost predicate Arrived(s: State, before: set<Receiver.Key>) {
    forall k :: k in s.recv.stored ==> k in before || Landed(s, k)
  }

  ghost predicate Landed(s: State, k: Receiver.Key) {
    exists p :: p in s.landed && p.Data? && KeyOf(p) == k
  }

  lemma ArrivedStep(s: State, max: nat, step: Step, before: set<Receiver.Key>)
    requires Arrived(s, before) && Traced(s) && Enabled(s, max, step)
    ensures Arrived(Apply(s, max, step), before)
  {
    hide Served, LinesOf, LinesOfAll, Packets, Link.Apply, Receiver.Apply, Server.Enabled;
    var s' := Apply(s, max, step);
    if step.Serve? {
      ServingStoresNothing(s, max, step);
    } else if step.Handle? {
      StoresOwn(s.recv, step.id, step.outcome);
      assert Lands(s.recv, step.id, step.outcome) ==> Originates(s, step.id);
    }
    forall k | k in s'.recv.stored ensures k in before || Landed(s', k) {
      if k in s.recv.stored && k !in before {
        assert Landed(s, k);
      } else if k !in s.recv.stored {
        assert s.origin[step.id] in s'.landed;
      }
    }
  }

  /** A handler stores at most the number and CRC of its own message. */
  lemma StoresOwn(r: Receiver.State, id: nat, outcome: Receiver.Outcome)
    requires Receiver.Enabled(r, Receiver.Move(id, outcome))
    ensures Receiver.Apply(r, Receiver.Move(id, outcome)).stored
         == r.stored + if Lands(r, id, outcome) then {Dedup.Rec(r.calls[id].msg.seqNo, r.calls[id].msg.crc)} else {}
  {
  }

  lemma ServingStoresNothing(s: State, max: nat, step: Step)
    requires step.Serve? && Enabled(s, max, step)
    ensures var s' := Apply(s, max, step);
            s'.recv.stored == s.recv.stored && s'.landed == s.landed && s'.q == s.q
  {
    hide Server.Apply, Server.Enabled;
  }

  // ---------------------------------------------------------------- every step

  lemma SourceStepKeeps(s: State, max: nat, step: Step)
    requires Inv(s, max) && Enabled(s, max, step)
    requires step.Export? || step.Advance? || step.Abandon? || step.Rewind? || step.Crash? || step.Commit?
    ensures Inv(Apply(s, max, step), max)
  {
    hide SideOk, Traced, Receiver.Inv, LinesOf, LinesOfAll, Packets;
    SidesStay(s, Apply(s, max, step), max);
    SourceStepTraced(s, max, step);
  }

  lemma ClientStepKeeps(s: State, max: nat, step: Step)
    requires Inv(s, max) && Enabled(s, max, step)
    requires step.Dial? || step.Send? || step.ReadAck? || step.Drop?
    ensures Inv(Apply(s, max, step), max)
  {
    hide SideOk, Traced, Receiver.Inv;
    var s' := Apply(s, max, step);
    SidesStay(s, s', max);
    ClientStepTraced(s, max, step);
    match step {
      case Dial(c) => FreshSide(s', max);
      case Send(p) =>
        if s.here in s.sides {
          InboxGrows(s', max, s.sides[s.here], p);
        }
      case ReadAck => ReadKeeps(s, max);
      case _ =>
    }
  }

  lemma FreshSide(s: State, max: nat)
    ensures SideOk(s, max, Side(Server.Fresh(), [], map[]))
  {
  }

  lemma ServeKeeps(s: State, max: nat, c: nat, step: Server.Step, id: nat, corrupt: bool, first: bool)
    requires Inv(s, max) && Enabled(s, max, Serve(c, step, id, corrupt, first))
    ensures Inv(Apply(s, max, Serve(c, step, id, corrupt, first)), max)
  {
    hide SideOk, Traced, LinkOk, Receiver.Inv, Server.Inv, Server.Apply, Server.Enabled;
    var s' := Apply(s, max, Serve(c, step, id, corrupt, first));
    ServeKeepsLink(s, max, c, step, id, corrupt, first);
    ServeTraced(s, max, c, step, id, corrupt, first);
    if step.Dispatch? {
      DispatchedSideOk(s, max, c, id, corrupt, first);
      var msg := if corrupt then Receiver.Broken else MessageOf(s.sides[c].inbox[s.sides[c].conn.idx]);
      Receiver.InvStep(s.recv, Receiver.Arrive(id, msg, first));
      SidesStay(s, s', max);
    } else {
      ServedSideOk(s, max, c, step);
      SidesStay(s, s', max);
      SideStays(s, s', max, s'.sides[c]);
    }
  }

  lemma ReceiverStepKeeps(s: State, max: nat, step: Step)
    requires Inv(s, max) && Enabled(s, max, step) && (step.Handle? || step.Restart?)
    ensures Inv(Apply(s, max, step), max)
  {
    hide SideOk, Traced, Receiver.Inv, Receiver.Apply, Receiver.Enabled;
    var s' := Apply(s, max, step);
    match step {
      case Handle(id, outcome) =>
        Receiver.ActionKeepsMessages(s.recv, id, outcome);
        Receiver.InvStep(s.recv, Receiver.Move(id, outcome));
        SidesStay(s, s', max);
      case Restart(lastSeq) =>
        Receiver.RestartKeeps(s.recv, lastSeq);
      case _ =>
    }
    ReceiverStepTraced(s, max, step);
  }

  lemma InvStep(s: State, max: nat, step: Step)
    requires Inv(s, max) && Enabled(s, max, step)
    ensures Inv(Apply(s, max, step), max)
  {
    hide Inv, Apply, Enabled;
    match step {
      case Serve(c, st, id, corrupt, first) => ServeKeeps(s, max, c, st, id, corrupt, first);
      case Handle(_, _) => ReceiverStepKeeps(s, max, step);
      case Restart(_) => ReceiverStepKeeps(s, max, step);
      case Dial(_) => ClientStepKeeps(s, max, step);
      case Send(_) => ClientStepKeeps(s, max, step);
      case ReadAck => ClientStepKeeps(s, max, step);
      case Drop => ClientStepKeeps(s, max, step);
      case _ => SourceStepKeeps(s, max, step);
    }
  }

  /** Delivered lines stay safe in every step, provided a crash finds a checkpoint that fits. */
  lemma DataStep(s: State, max: nat, step: Step)
    requires Inv(s, max) && DataOk(s) && Enabled(s, max, step) && (step.Crash? ==> s.q.fits)
    ensures DataOk(Apply(s, max, step))
  {
    hide SideOk, Receiver.Inv, LinesOf, LinesOfAll, Chunks, SafeWindow, Traced, Served, Receiver.Apply, Server.Enabled;
    var s' := Apply(s, max, step);
    match step {
      case Export(_, _, _, _, _) => ExportKeeps(s, max, step);
      case Advance(fits) => AdvanceKeeps(s, max, fits);
      case Crash(q') => CrashKeeps(s, max, q');
      case Commit(persisted) => CommitKeeps(s, max, persisted);
      case Serve(_, _, _, _, _) =>
        ServingStoresNothing(s, max, step);
        ServingLeavesTheSource(s, max, step);
        DataStays(s, s');
      case Handle(id, outcome) =>
        StoresOwn(s.recv, id, outcome);
        DataStays(s, s');
      case _ => DataStays(s, s');
    }
  }

  // ---------------------------------------------------------------- runs

  /** A sender with an empty, sound log and a receiver with nothing in progress. */
  ghost predicate Initial(s: State) {
    && s.q.pending == [] && s.q.written == {} && s.q.cursor == s.q.durable
    && s.q.sound && (s.q.guarded ==> s.q.fits)
    && s.stage == None && s.delivered == {} && s.landed == {} && s.origin == map[]
    && s.client == Link.Start() && s.sides == map[]
    && exists lastSeq, stored :: s.recv == Receiver.Init(lastSeq, stored)
  }

  /** Whenever the sender crashes, its persisted checkpoint claims no more bytes than its segment holds. */
  ghost predicate FitCrashes(s: State, max: nat, steps: seq<Step>) {
    |steps| > 0 ==>
      && FitCrashes(s, max, steps[..|steps| - 1])
      && (steps[|steps| - 1].Crash? ==> After(s, max, steps[..|steps| - 1]).q.fits)
  }

  lemma InitialInv(s: State, max: nat)
    requires Initial(s)
    ensures Inv(s, max)
  {
    var lastSeq, stored :| s.recv == Receiver.Init(lastSeq, stored);
    Receiver.RestartKeeps(Receiver.Init(lastSeq, stored), lastSeq);
  }

  lemma {:induction false} InvAlways(s: State, max: nat, steps: seq<Step>)
    requires Initial(s)
    ensures Inv(After(s, max, steps), max)
  {
    hide Inv, Apply, Enabled, Initial;
    if |steps| == 0 {
      InitialInv(s, max);
    } else {
      var t, step := After(s, max, steps[..|steps| - 1]), steps[|steps| - 1];
      InvAlways(s, max, steps[..|steps| - 1]);
      if Enabled(t, max, step) {
        InvStep(t, max, step);
      }
    }
  }

  lemma {:induction false} DataAlways(s: State, max: nat, steps: seq<Step>)
    requires Initial(s) && FitCrashes(s, max, steps)
    ensures DataOk(After(s, max, steps))
  {
    hide Inv, Apply, Enabled;
    if |steps| > 0 {
      hide Initial;
      var t, step := After(s, max, steps[..|steps| - 1]), steps[|steps| - 1];
      DataAlways(s, max, steps[..|steps| - 1]);
      InvAlways(s, max, steps[..|steps| - 1]);
      if Enabled(t, max, step) {
        DataStep(t, max, step);
      }
    }
  }

  /** A crash of a log whose persisted checkpoint protects its pending frames always finds it fitting. */
  lemma {:induction false} GuardedLogFits(s: State, max: nat, steps: seq<Step>)
    requires Initial(s)
    ensures After(s, max, steps).q.guarded ==> After(s, max, steps).q.fits
  {
    hide Apply, Enabled;
    if |steps| > 0 {
      var t, step := After(s, max, steps[..|steps| - 1]), steps[|steps| - 1];
      GuardedLogFits(s, max, steps[..|steps| - 1]);
      if Enabled(t, max, step) {
        GuardedStep(t, max, step);
      }
    }
  }

  lemma GuardedStep(s: State, max: nat, step: Step)
    requires Enabled(s, max, step) && (s.q.guarded ==> s.q.fits)
    ensures Apply(s, max, step).q.guarded ==> Apply(s, max, step).q.fits
  {
    hide Served, LinesOf, LinesOfAll, Packets, Receiver.Apply, Link.Apply;
    if step.Serve? {
      ServingStoresNothing(s, max, step);
    }
  }

  lemma {:induction false} ArrivedAlways(s: State, max: nat, steps: seq<Step>)
    requires Initial(s)
    ensures Arrived(After(s, max, steps), s.recv.stored)
  {
    hide Apply, Enabled;
    if |steps| > 0 {
      var t, step := After(s, max, steps[..|steps| - 1]), steps[|steps| - 1];
      ArrivedAlways(s, max, steps[..|steps| - 1]);
      InvAlways(s, max, steps[..|steps| - 1]);
      if Enabled(t, max, step) {
        ArrivedStep(t, max, step, s.recv.stored);
      }
    }
  }

  // ---------------------------------------------------------------- time

  /** The cursor is never ahead of the persisted one, and a staged window starts at it. */
  ghost predicate TimeOk(s: State) {
    s.q.cursor == s.q.durable && (s.stage.Some? ==> s.stage.value.start == s.q.cursor)
  }

  /** Only advancing takes the durable cursor forward, and it delivers the window it crosses. */
  lemma TimeStep(s: State, max: nat, step: Step)
    requires TimeOk(s) && Enabled(s, max, step)
    ensures var s' := Apply(s, max, step);
            && TimeOk(s') && s.delivered <= s'.delivered
            && (s'.q.durable > s.q.durable ==>
                  exists w :: w in s'.delivered && w.start == s.q.durable && w.end == s'.q.durable)
  {
    hide Served, LinesOf, LinesOfAll, Receiver.Apply, Link.Apply;
    if step.Serve? {
      ServingLeavesTheSource(s, max, step);
    } else if step.Advance? {
      assert s.stage.value in Apply(s, max, step).delivered;
    }
  }

  lemma ServingLeavesTheSource(s: State, max: nat, step: Step)
    requires step.Serve? && Enabled(s, max, step)
    ensures var s' := Apply(s, max, step);
            s'.q == s.q && s'.stage == s.stage && s'.delivered == s.delivered
  {
  }

  /** Each instant the durable cursor has passed during the run lies in a delivered window. */
  lemma {:induction false} DeliveredWindowsCover(s: State, max: nat, steps: seq<Step>, i: nat, t: int) returns (w: Window)
    requires Initial(s) && i <= |steps|
    requires After(s, max, steps[..i]).q.durable <= t < After(s, max, steps).q.durable
    ensures w in After(s, max, steps).delivered && w.start <= t < w.end
  {
    hide Apply, Enabled;
    TimeAlways(s, max, steps);
    assert steps[..|steps|] == steps;
    var before := steps[..|steps| - 1];
    assert before[..i] == steps[..i];
    TimeAlways(s, max, before);
    var u, step := After(s, max, before), steps[|steps| - 1];
    if Enabled(u, max, step) {
      TimeStep(u, max, step);
    }
    if t < u.q.durable {
      w := DeliveredWindowsCover(s, max, before, i, t);
    } else {
      w :| w in After(s, max, steps).delivered && w.start == u.q.durable && w.end == After(s, max, steps).q.durable;
    }
  }

  lemma {:induction false} TimeAlways(s: State, max: nat, steps: seq<Step>)
    requires Initial(s)
    ensures TimeOk(After(s, max, steps))
  {
    hide Apply, Enabled;
    if |steps| > 0 {
      var t, step := After(s, max, steps[..|steps| - 1]), steps[|steps| - 1];
      TimeAlways(s, max, steps[..|steps| - 1]);
      if Enabled(t, max, step) {
        TimeStep(t, max, step);
      }
    }
  }

  // ---------------------------------------------------------------- the theorem

  /** Each line of a delivered window is in one of its own frames that is pending or that the receiver has. */
  lemma DeliveredIsSafe(s: State, max: nat, steps: seq<Step>, w: Window)
    requires Initial(s) && FitCrashes(s, max, steps) && w in After(s, max, steps).delivered
    ensures SafeWindow(After(s, max, steps), w, true) && Appended(After(s, max, steps), w)
  {
    hide After, SideOk, LinkOk, Receiver.Inv, SafeWindow, Initial, FitCrashes;
    DataAlways(s, max, steps);
    InvAlways(s, max, steps);
    var t := After(s, max, steps);
    StaysSafe(t, t, w, t.q.guarded, true);
  }

  /**
   At least once, end to end. Take any run in which every crash finds a checkpoint that fits, and
   any instant `t` that the durable cursor was at or before at some point of it and is beyond now.
   Then a window containing `t` was exported, and each of its non-empty lines is in a frame that was
   appended for that window and is either still pending in the log or has its number and CRC among
   those the receiver has imported or isolated.
   */
  lemma NothingBelowTheCursorIsLost(s: State, max: nat, steps: seq<Step>, i: nat, t: int) returns (w: Window)
    requires Initial(s) && FitCrashes(s, max, steps) && i <= |steps|
    requires After(s, max, steps[..i]).q.durable <= t < After(s, max, steps).q.durable
    ensures w in After(s, max, steps).delivered && w.start <= t < w.end && Appended(After(s, max, steps), w)
    ensures forall l :: l in LinesOf(w.raw) ==>
              exists p ::
                && p in w.packets && p.Data? && l in LinesOf(p.chunk)
                && (p in After(s, max, steps).q.pending || KeyOf(p) in After(s, max, steps).recv.stored)
  {
    hide LinesOf, LinesOfAll, After, Initial, FitCrashes;
    w := DeliveredWindowsCover(s, max, steps, i, t);
    DeliveredIsSafe(s, max, steps, w);
    var u := After(s, max, steps);
    forall l | l in LinesOf(w.raw)
      ensures exists p ::
                && p in w.packets && p.Data? && l in LinesOf(p.chunk)
                && (p in u.q.pending || KeyOf(p) in u.recv.stored)
    {
      assert Safe(u, w, true, l);
      var p :| p in w.packets && p.Data? && l in LinesOf(p.chunk) && (Stored(u, p) || p in u.q.pending);
    }
  }

  /** Frames that share a number also differ in CRC, and the receiver had none of them before. */
  ghost predicate CrcsSeparate(s: State, before: set<Receiver.Key>) {
    && (forall p, q :: p in s.q.written && q in s.q.written && p.Data? && q.Data? && KeyOf(p) == KeyOf(q) ==> p == q)
    && (forall p :: p in s.q.written && p.Data? ==> KeyOf(p) !in before)
  }

  /** If CRCs separate frames that share a number, the line's own frame is pending, or itself was imported or isolated. */
  lemma OwnFrameArrives(s: State, max: nat, steps: seq<Step>, w: Window, l: bytes) returns (p: Packet)
    requires Initial(s) && FitCrashes(s, max, steps) && CrcsSeparate(After(s, max, steps), s.recv.stored)
    requires w in After(s, max, steps).delivered && l in LinesOf(w.raw)
    ensures p in w.packets && p.Data? && l in LinesOf(p.chunk)
    ensures p in After(s, max, steps).q.pending || p in After(s, max, steps).landed
  {
    hide LinesOf, After, Initial, FitCrashes, SideOk, LinkOk, Receiver.Inv;
    DeliveredIsSafe(s, max, steps, w);
    ArrivedAlways(s, max, steps);
    InvAlways(s, max, steps);
    var u := After(s, max, steps);
    assert Safe(u, w, true, l);
    p :| p in w.packets && p.Data? && l in LinesOf(p.chunk) && (Stored(u, p) || p in u.q.pending);
    if p !in u.q.pending {
      assert Landed(u, KeyOf(p));
    }
  }

  /** A frame leaves the log only when the receiver has it: in every reachable state, whatever the crashes. */
  lemma CommittedIsStored(s: State, max: nat, steps: seq<Step>, persisted: bool)
    requires Initial(s) && Enabled(After(s, max, steps), max, Commit(persisted))
    ensures var t := After(s, max, steps);
            t.q.pending[0].Data? && KeyOf(t.q.pending[0]) in t.recv.stored
  {
    hide After, Receiver.Inv, SideOk, LinkOk, Traced, Enabled;
    InvAlways(s, max, steps);
    CommittedStored(After(s, max, steps), max, persisted);
  }

  // ---------------------------------------------------------------- the run that loses a line

  /** A log before its first crash: empty, with a checkpoint that protects it. */
  function FreshQueue(): Queue<Packet> {
    Queue([], {}, 1, 0, 0, true, true, true)
  }

  /** After a crash that left no segment, under a checkpoint that still claims bytes. */
  function StaleQueue(sound: bool): Queue<Packet> {
    FreshQueue().(sound := sound, guarded := false, fits := false)
  }

  /**
   Without that condition the guarantee fails: two crashes in a row, the first of which left no
   segment, one exported window, and a third crash. The window is below the durable cursor, its frame
   is neither pending nor stored, and the queue steps are those of a log that reuses a segment number.
   */
  lemma UnfitCrashLosesLine(max: nat, line: bytes, crc: nat) returns (s: State, steps: seq<Step>, w: Window)
    requires LinesOf(line) == [line]
    ensures Initial(s) && !FitCrashes(s, max, steps)
    ensures var t := After(s, max, steps);
            && w in t.delivered && line in LinesOf(w.raw) && w.end <= t.q.durable
            && t.q.pending == [] && t.recv.stored == {}
  {
    hide LinesOf, LinesOfAll, After, FitCrashes, Link.Apply;
    s := State(FreshQueue(), None, {}, Link.Start(), 0, map[], Receiver.Init(0, {}), map[], {});
    w := Window(0, 1, line, Packets(1, [line], [crc]));
    var c1, c2, out, on := Crash(StaleQueue(true)), Crash(StaleQueue(false)), Export(1, line, [line], [crc], false), Advance(false);
    var c3 := Crash(StaleQueue(false).(written := {Data(1, crc, line)}, cursor := 1, durable := 1));
    assert StaleQueue(true).pending == [] + FreshQueue().pending;
    StartOf(s, max);
    Extend(s, max, [], c1);
    var run := [] + [c1];
    Extend(s, max, run, c2);
    run := run + [c2];
    OneChunk(line);
    Extend(s, max, run, out);
    run := run + [out];
    assert w.packets == [Data(1, crc, line)];
    assert After(s, max, run).q.written == {Data(1, crc, line)};
    Extend(s, max, run, on);
    run := run + [on];
    Extend(s, max, run, c3);
    steps := run + [c3];
  }

  lemma StartOf(s: State, max: nat)
    ensures After(s, max, []) == s && FitCrashes(s, max, [])
  {
  }

  lemma Extend(s: State, max: nat, steps: seq<Step>, step: Step)
    ensures var t := After(s, max, steps);
            && After(s, max, steps + [step]) == (if Enabled(t, max, step) then Apply(t, max, step) else t)
            && (FitCrashes(s, max, steps + [step]) <==> FitCrashes(s, max, steps) && (step.Crash? ==> t.q.fits))
  {
    hide Enabled, Apply;
    assert (steps + [step])[..|steps|] == steps;
  }

  lemma OneChunk(line: bytes)
    ensures LinesOfAll([line]) == LinesOf(line)
  {
    hide LinesOf;
    assert LinesOfAll([]) == [];
    assert [line][..0] == [];
  }
}
