/** A run in which everything works: the machine does deliver, and not only keep its promises idly. */
module Delivery {
  import opened Bytes
  import opened Codec
  import opened Queues
  import opened Lines
  import opened EndToEnd
  import Link
  import Server
  import Receiver
  import Replies
  import Dedup

  function Handling(id: nat, k: nat): seq<Step> {
    seq(k, i => Handle(id, Receiver.Imported))
  }

  /** A state as it was, but for what the receiver has done since. */
  ghost predicate OnlyReceived(s: State, s': State, recv: Receiver.State) {
    s' == s.(recv := recv, landed := s'.landed)
  }

  /** Handler actions are the receiver's own steps and touch nothing else. */
  lemma {:induction false} HandlingIsReceiving(s: State, max: nat, id: nat, k: nat)
    ensures OnlyReceived(s, After(s, max, Handling(id, k)), Receiver.After(s.recv, Replies.Moves(id, Receiver.Imported, k)))
  {
    hide Receiver.Apply, Receiver.Enabled;
    if k > 0 {
      HandlingIsReceiving(s, max, id, k - 1);
      assert Handling(id, k)[..k - 1] == Handling(id, k - 1);
      assert Replies.Moves(id, Receiver.Imported, k)[..k - 1] == Replies.Moves(id, Receiver.Imported, k - 1);
    }
  }

  lemma {:induction false} AfterBoth(s: State, max: nat, a: seq<Step>, b: seq<Step>)
    ensures After(s, max, a + b) == After(After(s, max, a), max, b)
  {
    hide Apply, Enabled;
    if |b| == 0 {
      assert a + b == a;
    } else {
      var n := |b| - 1;
      AfterBoth(s, max, a, b[..n]);
      assert (a + b)[..|a| + n] == a + b[..n];
    }
  }

  ghost function Start(): State {
    State(FreshQueue(), None, {}, Link.Start(), 0, map[], Receiver.Init(0, {}), map[], {})
  }

  ghost function Frame(line: bytes, crc: nat): Packet {
    Data(1, crc, line)
  }

  /** Exported, appended, sent, read by the server and handed to a handler. */
  function Upstream(line: bytes, crc: nat): seq<Step> {
    [Export(1, line, [line], [crc], true), Advance(true), Dial(0), Send(Data(1, crc, line)),
     Serve(0, Server.ReadFrame, 0, false, false), Serve(0, Server.Dispatch, 0, false, false)]
  }

  /** Answered, read and committed. */
  function Downstream(): seq<Step> {
    [Serve(0, Server.Finish(0, ACK_SUCCESS), 0, false, false), Serve(0, Server.Take, 0, false, false),
     Serve(0, Server.Write(true), 0, false, false), ReadAck, Commit(true)]
  }

  /** The state once the handler has its frame. */
  ghost function HandedOver(line: bytes, crc: nat): State {
    var p := Frame(line, crc);
    var q := Queue([p], {p}, 2, 1, 1, true, true, true);
    var conn := Server.Conn(Server.Pipe(0, map[], false), Server.Reading, 1, Server.Waiting, 0, {0}, map[], []);
    State(q, None, {Window(0, 1, line, [p])}, Link.Client(true, [p], [], false, false, None), 0,
          map[0 := Side(conn, [p], map[0 := 0])],
          Receiver.Apply(Receiver.Init(0, {}), Receiver.Arrive(0, Receiver.Data(1, crc), false)), map[0 := p], {})
  }

  ghost function QueueWith(p: Packet, cursor: int): Queue<Packet> {
    Queue([p], {p}, 2, cursor, cursor, true, true, true)
  }

  ghost function ConnAt(reader: Server.Reader): Server.Conn {
    Server.Conn(Server.Pipe(0, map[], false), reader, 0, Server.Waiting, 0, {}, map[], [])
  }

  /** The stations on the way: exported, advanced, dialed, sent, read. */
  ghost function Station(i: nat, line: bytes, crc: nat): State {
    var p := Frame(line, crc);
    var w := Window(0, 1, line, [p]);
    var idle := Receiver.Init(0, {});
    if i == 0 then Start()
    else if i == 1 then State(QueueWith(p, 0), Some(w), {}, Link.Start(), 0, map[], idle, map[], {})
    else if i == 2 then State(QueueWith(p, 1), None, {w}, Link.Start(), 0, map[], idle, map[], {})
    else if i == 3 then
      State(QueueWith(p, 1), None, {w}, Link.Client(true, [], [], false, false, None), 0,
            map[0 := Side(ConnAt(Server.Reading), [], map[])], idle, map[], {})
    else
      State(QueueWith(p, 1), None, {w}, Link.Client(true, [p], [], false, false, None), 0,
            map[0 := Side(ConnAt(if i == 4 then Server.Reading else Server.Holding), [p], map[])], idle, map[], {})
  }

  lemma IsExported(max: nat, line: bytes, crc: nat)
    requires LinesOf(line) == [line]
    ensures var step := Export(1, line, [line], [crc], true);
            Enabled(Start(), max, step) && Apply(Start(), max, step) == Station(1, line, crc)
  {
    hide LinesOf, LinesOfAll;
    OneChunk(line);
    var p := Frame(line, crc);
    assert Packets(1, [line], [crc]) == [p];
    assert (set f | f in [p]) == {p};
  }

  lemma IsAdvanced(max: nat, line: bytes, crc: nat)
    ensures Enabled(Station(1, line, crc), max, Advance(true))
    ensures Apply(Station(1, line, crc), max, Advance(true)) == Station(2, line, crc)
  {
  }

  lemma IsDialed(max: nat, line: bytes, crc: nat)
    ensures Enabled(Station(2, line, crc), max, Dial(0))
    ensures Apply(Station(2, line, crc), max, Dial(0)) == Station(3, line, crc)
  {
  }

  lemma IsSent(max: nat, line: bytes, crc: nat)
    ensures var step := Send(Frame(line, crc));
            Enabled(Station(3, line, crc), max, step) && Apply(Station(3, line, crc), max, step) == Station(4, line, crc)
  {
    var s, p := Station(3, line, crc), Frame(line, crc);
    assert s.sides[0].inbox + [p] == [p] && s.client.sent + [p] == [p];
  }

  lemma IsRead(max: nat, line: bytes, crc: nat)
    ensures var step := Serve(0, Server.ReadFrame, 0, false, false);
            Enabled(Station(4, line, crc), max, step) && Apply(Station(4, line, crc), max, step) == Station(5, line, crc)
  {
  }

  lemma IsDispatched(max: nat, line: bytes, crc: nat)
    requires max >= 1
    ensures var step := Serve(0, Server.Dispatch, 0, false, false);
            Enabled(Station(5, line, crc), max, step) && Apply(Station(5, line, crc), max, step) == HandedOver(line, crc)
  {
    hide Receiver.Apply;
    var s := Station(5, line, crc);
    assert Server.HasRoom(s.sides[0].conn.pipe, 0, max);
    assert s.sides[0].conn.running + {0} == {0};
  }

  lemma GetsHandedOver(max: nat, line: bytes, crc: nat)
    requires max >= 1 && LinesOf(line) == [line]
    ensures After(Start(), max, Upstream(line, crc)) == HandedOver(line, crc)
  {
    hide LinesOf, After, Enabled, Apply, Station, HandedOver;
    var steps := Upstream(line, crc);
    NoSteps(Start(), max);
    assert steps[..0] == [];
    IsExported(max, line, crc);
    Takes(Start(), max, steps, 0);
    IsAdvanced(max, line, crc);
    Takes(Start(), max, steps, 1);
    IsDialed(max, line, crc);
    Takes(Start(), max, steps, 2);
    IsSent(max, line, crc);
    Takes(Start(), max, steps, 3);
    IsRead(max, line, crc);
    Takes(Start(), max, steps, 4);
    IsDispatched(max, line, crc);
    Takes(Start(), max, steps, 5);
    assert steps[..6] == steps;
  }

  lemma NoSteps(s: State, max: nat)
    ensures After(s, max, []) == s
  {
  }

  lemma Takes(s: State, max: nat, steps: seq<Step>, i: nat)
    requires i < |steps|
    ensures var t := After(s, max, steps[..i]);
            After(s, max, steps[..i + 1]) == if Enabled(t, max, steps[i]) then Apply(t, max, steps[i]) else t
  {
    hide Apply, Enabled;
    assert steps[..i + 1][..i] == steps[..i];
  }

  /** On the way back: finished, taken, written. */
  ghost function Answering(s: State, i: nat, line: bytes, crc: nat): State {
    var done := map[0 := ACK_SUCCESS];
    var conn :=
      if i == 1 then Server.Conn(Server.Pipe(0, done, false), Server.Reading, 1, Server.Waiting, 0, {}, done, [])
      else if i == 2 then Server.Conn(Server.Pipe(0, map[], false), Server.Reading, 1, Server.Writing(ACK_SUCCESS), 0, {}, done, [])
      else Server.Conn(Server.Pipe(0, map[], false), Server.Reading, 1, Server.Advancing, 0, {}, done, [Server.Answer(ACK_SUCCESS)]);
    s.(sides := map[0 := Side(conn, [Frame(line, crc)], map[0 := 0])])
  }

  lemma IsAnswered(s: State, max: nat, line: bytes, crc: nat)
    requires OnlyReceived(HandedOver(line, crc), s, s.recv)
    requires 0 in s.recv.calls && s.recv.calls[0].pc == Receiver.Replied(ACK_SUCCESS)
    ensures var step := Serve(0, Server.Finish(0, ACK_SUCCESS), 0, false, false);
            Enabled(s, max, step) && Apply(s, max, step) == Answering(s, 1, line, crc)
  {
    hide Receiver.Apply;
    var c := s.sides[0].conn;
    assert c.running - {0} == {};
  }

  lemma IsTaken(s: State, max: nat, line: bytes, crc: nat)
    ensures var step := Serve(0, Server.Take, 0, false, false);
            Enabled(Answering(s, 1, line, crc), max, step)
            && Apply(Answering(s, 1, line, crc), max, step) == Answering(s, 2, line, crc)
  {
    var done: map<nat, byte> := map[0 := ACK_SUCCESS];
    assert done - {0} == map[];
  }

  lemma IsWritten(s: State, max: nat, line: bytes, crc: nat)
    ensures var step := Serve(0, Server.Write(true), 0, false, false);
            Enabled(Answering(s, 2, line, crc), max, step)
            && Apply(Answering(s, 2, line, crc), max, step) == Answering(s, 3, line, crc)
  {
    assert Answering(s, 2, line, crc).sides[0].conn.wire + [Server.Answer(ACK_SUCCESS)] == [Server.Answer(ACK_SUCCESS)];
  }

  lemma IsCommitted(s: State, max: nat, line: bytes, crc: nat)
    requires OnlyReceived(HandedOver(line, crc), s, s.recv)
    ensures var t := Answering(s, 3, line, crc);
            && Enabled(t, max, ReadAck)
            && var u := Apply(t, max, ReadAck);
               && Enabled(u, max, Commit(true))
               && var v := Apply(u, max, Commit(true));
                  && v.q.pending == [] && v.q.durable == 1 && v.recv == s.recv && v.landed == s.landed
                  && v.delivered == s.delivered && v.client.acks == [ACK_SUCCESS] && v.q.written == s.q.written
  {
    hide Receiver.Apply;
  }

  lemma GetsCommitted(s: State, max: nat, line: bytes, crc: nat)
    requires OnlyReceived(HandedOver(line, crc), s, s.recv)
    requires 0 in s.recv.calls && s.recv.calls[0].pc == Receiver.Replied(ACK_SUCCESS)
    ensures var t := After(s, max, Downstream());
            && t.q.pending == [] && t.q.durable == 1 && t.recv == s.recv && t.landed == s.landed && t.delivered == s.delivered
            && t.client.acks == [ACK_SUCCESS] && t.q.written == s.q.written
  {
    hide After, Receiver.Apply, Enabled, Apply, HandedOver, Answering;
    var steps := Downstream();
    NoSteps(s, max);
    assert steps[..0] == [];
    IsAnswered(s, max, line, crc);
    Takes(s, max, steps, 0);
    IsTaken(s, max, line, crc);
    Takes(s, max, steps, 1);
    IsWritten(s, max, line, crc);
    Takes(s, max, steps, 2);
    IsCommitted(s, max, line, crc);
    Takes(s, max, steps, 3);
    Takes(s, max, steps, 4);
    assert steps[..5] == steps;
  }

  /**
   For every line there is a run from the start in which it is exported, its frame appended, sent, stored
   with its own chunk, answered 0xff and committed; nothing is pending any more and the cursor is durable.
   */
  lemma LineIsDelivered(max: nat, line: bytes, crc: nat) returns (steps: seq<Step>)
    requires max >= 1 && LinesOf(line) == [line]
    ensures Initial(Start()) && (forall step :: step in steps ==> !step.Crash?)
    ensures var t, p := After(Start(), max, steps), Frame(line, crc);
            && Window(0, 1, line, [p]) in t.delivered && t.q.durable == 1
            && p in t.landed && KeyOf(p) in t.recv.stored
            && t.client.acks == [ACK_SUCCESS] && t.q.pending == []
  {
    hide After, LinesOf, Receiver.After, Receiver.Apply, Enabled, Apply, Replies.Moves, Inv;
    var up, work, down := Upstream(line, crc), Handling(0, 9), Downstream();
    steps := up + work + down;
    GetsHandedOver(max, line, crc);
    var s := HandedOver(line, crc);
    HandlingIsReceiving(s, max, 0, 9);
    Replies.FirstIsStored(s.recv, crc, Receiver.Imported);
    AfterBoth(Start(), max, up, work);
    AfterBoth(Start(), max, up + work, down);
    var t := After(s, max, work);
    GetsCommitted(t, max, line, crc);
    ItsOwnLanded(max, up + work, line, crc);
  }

  /** Only one frame was ever appended, so it is the one that landed. */
  lemma ItsOwnLanded(max: nat, steps: seq<Step>, line: bytes, crc: nat)
    requires Initial(Start()) && After(Start(), max, steps).q.written == {Frame(line, crc)}
    requires Dedup.Rec(1, crc) in After(Start(), max, steps).recv.stored
    ensures Frame(line, crc) in After(Start(), max, steps).landed
  {
    hide After, Receiver.Inv, SideOk, LinkOk;
    ArrivedAlways(Start(), max, steps);
    InvAlways(Start(), max, steps);
    var t := After(Start(), max, steps);
    assert Landed(t, Dedup.Rec(1, crc));
  }
}
