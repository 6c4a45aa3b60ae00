/**
 The frame handler of the receiver as a machine of atomic actions: any number of HandleFrame
 calls run at once, each action taking one lock or one atomic access of the original.
 */
module Receiver {
  import opened Bytes
  import opened Codec
  import Tracker
  import Dedup

  type Key = Dedup.Rec

  datatype Message = Broken | Heartbeat | Data(seqNo: nat, crc: nat)

  /** What becomes of a payload: not readable, written, isolated in the dead-letter queue, or to be retried. */
  datatype Outcome = Unusable | Imported | Isolated | Rejected

  datatype Pc =
    | Arrived
    | MaybeDup
    | Unregistered
    | Registered
    | Closing
    | Checking(seen: nat)
    | ClosingGap(seen: nat)
    | GapLoad
    | GapAdvance(v: nat)
    | Importing
    | Marking
    | MarkLoad
    | MarkAdvance(v: nat)
    | Recording
    | Leaving(ack: byte)
    | Replied(ack: byte)

  datatype Call = Call(msg: Message, first: bool, pc: Pc)

  datatype State = State(
    lastSeq: nat,
    tracker: Tracker.State,
    window: Dedup.State,
    inflight: map<nat, nat>,
    lock: Option<nat>,
    calls: map<nat, Call>,
    stored: set<Key>,   // imported or in the dead-letter queue, ever
    session: set<Key>)  // likewise, by the running process

  datatype Step = Arrive(id: nat, msg: Message, first: bool) | Move(id: nat, outcome: Outcome) | Restart(persisted: nat)

  // ---------------------------------------------------------------- in-flight reference counts

  function Join(m: map<nat, nat>, n: nat): map<nat, nat> {
    m[n := (if n in m then m[n] else 0) + 1]
  }

  function Leave(m: map<nat, nat>, n: nat): map<nat, nat> {
    if n !in m || m[n] <= 1 then m - {n} else m[n := m[n] - 1]
  }

  class InflightTable {
    var counts: map<nat, nat>

    constructor ()
      ensures counts == map[]
    {
      counts := map[];
    }

    method AddInflight(n: nat)
      modifies this
      ensures counts == Join(old(counts), n)
    {
      var c := if n in counts then counts[n] else 0;
      counts := counts[n := c + 1];
    }

    method RemoveInflight(n: nat)
      modifies this
      ensures counts == Leave(old(counts), n)
    {
      var c := if n in counts then counts[n] else 0;
      if c <= 1 {
        counts := counts - {n};
      } else {
        counts := counts[n := c - 1];
      }
    }

    /** The scan of the gap in tryCloseGap: is nothing between `last` and `n` in flight? */
    method GapIsQuiet(last: nat, n: nat) returns (quiet: bool)
      ensures quiet <==> Quiet(counts, last, n)
    {
      var s := last + 1;
      while s < n
        invariant last < s
        invariant forall q :: last < q < s && q < n ==> q !in counts
      {
        if s in counts {
          return false;
        }
        s := s + 1;
      }
      return true;
    }
  }

  predicate Quiet(m: map<nat, nat>, last: nat, n: nat) {
    forall q :: last < q < n ==> q !in m
  }

  // ---------------------------------------------------------------- the machine

  /** The compare-and-swap loop of advanceSeq: the published number only rises. */
  function Raised(lastSeq: nat, v: nat): nat {
    if lastSeq < v then v else lastSeq
  }

  function Init(lastSeq: nat, stored: set<Key>): State {
    State(lastSeq, Tracker.State(lastSeq, {}), Dedup.State([], map[]), map[], None, map[], stored, {})
  }

  function Goto(s: State, id: nat, pc: Pc): State
    requires id in s.calls
  {
    s.(calls := s.calls[id := s.calls[id].(pc := pc)])
  }

  ghost predicate Enabled(s: State, step: Step) {
    match step
    case Arrive(id, _, _) => id !in s.calls
    case Restart(_) => true
    case Move(id, _) =>
      && id in s.calls && !s.calls[id].pc.Replied?
      && (s.calls[id].pc.Unregistered? || s.calls[id].pc.Checking? || s.calls[id].pc.Leaving? ==> s.lock == None)
  }

  ghost function Apply(s: State, step: Step): State
    requires Enabled(s, step)
  {
    match step
    case Arrive(id, msg, first) => s.(calls := s.calls[id := Call(msg, first, Arrived)])
    case Restart(persisted) => Init(persisted, s.stored)
    case Move(id, outcome) =>
      match s.calls[id].msg
      case Broken => Goto(s, id, Replied(ACK_FAIL))
      case Heartbeat => Goto(s, id, Replied(ACK_SUCCESS))
      case Data(n, crc) => Advance(s, id, n, Dedup.Rec(n, crc), outcome)
  }

  /** One atomic action of a call handling data frame number `n`. */
  ghost function Advance(s: State, id: nat, n: nat, key: Key, outcome: Outcome): State
    requires id in s.calls
  {
    match s.calls[id].pc
    case Arrived => Goto(s, id, if n <= s.lastSeq then MaybeDup else Unregistered)
    case MaybeDup => Goto(s, id, if Dedup.Hit(s.window, key) then Replied(ACK_SUCCESS) else Unregistered)
    case Unregistered => Goto(s.(inflight := Join(s.inflight, n)), id, Registered)
    case Registered =>
      var near := s.lastSeq + 1 < n <= s.lastSeq + Tracker.JUMP_LIMIT;
      Goto(s, id, if near && s.calls[id].first then Closing else Importing)
    case Closing => Goto(s, id, if n <= s.lastSeq + 1 then Importing else Checking(s.lastSeq))
    case Checking(seen) =>
      if Quiet(s.inflight, seen, n) then Goto(s.(lock := Some(id)), id, ClosingGap(seen)) else Goto(s, id, Importing)
    case ClosingGap(_) => Goto(s.(tracker := Tracker.CloseGap(s.tracker, if n > 0 then n - 1 else 0)), id, GapLoad)
    case GapLoad => Goto(s, id, GapAdvance(s.tracker.last))
    case GapAdvance(v) => Goto(s.(lastSeq := Raised(s.lastSeq, v), lock := None), id, Importing)
    case Importing =>
      if outcome == Imported || outcome == Isolated then
        Goto(s.(stored := s.stored + {key}, session := s.session + {key}), id, Marking)
      else Goto(s, id, Leaving(ACK_FAIL))
    case Marking =>
      var t := Tracker.Done(s.tracker, n);
      Goto(s.(tracker := t), id, if t.last > s.tracker.last then MarkLoad else Recording)
    case MarkLoad => Goto(s, id, MarkAdvance(s.tracker.last))
    case MarkAdvance(v) => Goto(s.(lastSeq := Raised(s.lastSeq, v)), id, Recording)
    case Recording => Goto(s.(window := Dedup.Record(s.window, key)), id, Leaving(ACK_SUCCESS))
    case Leaving(ack) => Goto(s.(inflight := Leave(s.inflight, n)), id, Replied(ack))
    case Replied(_) => s
  }

  // ---------------------------------------------------------------- the invariant

  predicate InFlight(pc: Pc) {
    !pc.Arrived? && !pc.MaybeDup? && !pc.Unregistered? && !pc.Replied?
  }

  predicate HoldsLock(pc: Pc) {
    pc.ClosingGap? || pc.GapLoad? || pc.GapAdvance?
  }

  /** The payload has been written or isolated by this process. */
  predicate Settled(pc: Pc) {
    pc.Marking? || pc.MarkLoad? || pc.MarkAdvance? || pc.Recording? || pc == Leaving(ACK_SUCCESS) || pc == Replied(ACK_SUCCESS)
  }

  ghost function Active(s: State, n: nat): set<nat> {
    set id | id in s.calls && InFlight(s.calls[id].pc) && s.calls[id].msg.Data? && s.calls[id].msg.seqNo == n
  }

  ghost predicate CallOk(s: State, id: nat)
    requires id in s.calls
  {
    var c := s.calls[id];
    match c.msg
    case Broken => c.pc == Arrived || c.pc == Replied(ACK_FAIL)
    case Heartbeat => c.pc == Arrived || c.pc == Replied(ACK_SUCCESS)
    case Data(n, crc) =>
      && (Settled(c.pc) ==> Dedup.Rec(n, crc) in s.session)
      && (HoldsLock(c.pc) ==> s.lock == Some(id))
      && (c.pc.Checking? ==> c.pc.seen <= s.tracker.last && c.pc.seen + 1 < n)
      && (c.pc.ClosingGap? ==> c.pc.seen <= s.tracker.last && c.pc.seen + 1 < n && Quiet(s.inflight, c.pc.seen, n))
      && (c.pc.GapAdvance? ==> c.pc.v <= s.tracker.last)
      && (c.pc.MarkAdvance? ==> c.pc.v <= s.tracker.last)
      && (c.pc.Leaving? ==> c.pc.ack == ACK_SUCCESS || c.pc.ack == ACK_FAIL)
      && (c.pc.Replied? ==> c.pc.ack == ACK_SUCCESS || c.pc.ack == ACK_FAIL)
  }

  ghost predicate WindowOk(s: State) {
    forall n :: n in s.window.crc ==> Dedup.Rec(n, s.window.crc[n]) in s.session
  }

  /** Reference counts are the numbers of calls in flight. */
  ghost predicate CountsOk(s: State) {
    forall n: nat :: CountOk(s, n)
  }

  ghost predicate CountOk(s: State, n: nat) {
    if n in s.inflight then s.inflight[n] == |Active(s, n)| && s.inflight[n] > 0 else Active(s, n) == {}
  }

  ghost predicate Inv(s: State) {
    && s.lastSeq <= s.tracker.last
    && s.session <= s.stored
    && WindowOk(s)
    && (forall id :: id in s.calls ==> CallOk(s, id))
    && CountsOk(s)
  }

  // ---------------------------------------------------------------- preservation

  /** What one action may do to the shared state, as seen by every other call. */
  ghost predicate Gentle(s: State, s': State, id: nat) {
    && s.tracker.last <= s'.tracker.last && s.session <= s'.session
    && (s'.inflight == s.inflight || s.lock == None)
    && (s'.lock == s.lock || s.lock == None || s.lock == Some(id))
    && (forall i :: i in s.calls && i != id ==> i in s'.calls && s'.calls[i] == s.calls[i])
    && (forall i :: i in s'.calls && i != id ==> i in s.calls)
  }

  lemma OthersOk(s: State, s': State, id: nat)
    requires Inv(s) && Gentle(s, s', id)
    ensures forall i :: i in s'.calls && i != id ==> CallOk(s', i)
  {
    hide CountsOk, WindowOk;
    forall i | i in s'.calls && i != id ensures CallOk(s', i) {
      assert CallOk(s, i);
    }
  }

  lemma CountsAfter(s: State, s': State, id: nat)
    requires CountsOk(s) && id in s.calls && id in s'.calls && s.calls[id].msg.Data? && s'.calls[id].msg == s.calls[id].msg
    requires forall i :: i in s.calls || i in s'.calls ==> i in s.calls && i in s'.calls && (i != id ==> s'.calls[i] == s.calls[i])
    requires var n, was, now := s.calls[id].msg.seqNo, InFlight(s.calls[id].pc), InFlight(s'.calls[id].pc);
             s'.inflight == if was == now then s.inflight else if now then Join(s.inflight, n) else Leave(s.inflight, n)
    ensures CountsOk(s')
  {
    hide Leave, Join, Active, InFlight;
    forall m: nat ensures CountOk(s', m) {
      assert CountOk(s, m);
      CountAfter(s, s', id, m);
    }
  }

  lemma CountAfter(s: State, s': State, id: nat, m: nat)
    requires CountOk(s, m) && id in s.calls && id in s'.calls && s.calls[id].msg.Data? && s'.calls[id].msg == s.calls[id].msg
    requires forall i :: i in s.calls || i in s'.calls ==> i in s.calls && i in s'.calls && (i != id ==> s'.calls[i] == s.calls[i])
    requires var n, was, now := s.calls[id].msg.seqNo, InFlight(s.calls[id].pc), InFlight(s'.calls[id].pc);
             s'.inflight == if was == now then s.inflight else if now then Join(s.inflight, n) else Leave(s.inflight, n)
    ensures CountOk(s', m)
  {
    hide InFlight, Active;
    var n, was, now := s.calls[id].msg.seqNo, InFlight(s.calls[id].pc), InFlight(s'.calls[id].pc);
    if m != n || was == now {
      ActiveSame(s, s', id, m);
      assert m in s'.inflight <==> m in s.inflight;
    } else if now {
      ActiveGains(s, s', id);
    } else {
      ActiveGains(s', s, id);
    }
  }

  lemma ActiveSame(s: State, s': State, id: nat, m: nat)
    requires id in s.calls && id in s'.calls && s.calls[id].msg.Data? && s'.calls[id].msg == s.calls[id].msg
    requires forall i :: i in s.calls || i in s'.calls ==> i in s.calls && i in s'.calls && (i != id ==> s'.calls[i] == s.calls[i])
    requires m != s.calls[id].msg.seqNo || InFlight(s.calls[id].pc) == InFlight(s'.calls[id].pc)
    ensures Active(s', m) == Active(s, m)
  {
    hide InFlight;
  }

  lemma ActiveGains(s: State, s': State, id: nat)
    requires id in s.calls && id in s'.calls && s.calls[id].msg.Data? && s'.calls[id].msg == s.calls[id].msg
    requires forall i :: i in s.calls || i in s'.calls ==> i in s.calls && i in s'.calls && (i != id ==> s'.calls[i] == s.calls[i])
    requires !InFlight(s.calls[id].pc) && InFlight(s'.calls[id].pc)
    ensures var n := s.calls[id].msg.seqNo;
            Active(s', n) == Active(s, n) + {id} && |Active(s', n)| == |Active(s, n)| + 1
  {
    hide InFlight;
    var n := s.calls[id].msg.seqNo;
    assert id !in Active(s, n);
    assert Active(s', n) == Active(s, n) + {id};
  }

  lemma ActionIsGentle(s: State, id: nat, outcome: Outcome)
    requires Inv(s) && Enabled(s, Move(id, outcome))
    ensures Gentle(s, Apply(s, Move(id, outcome)), id)
  {
    hide CountsOk, WindowOk, Quiet, Join, Leave, Dedup.Record, Tracker.Done, Tracker.CloseGap;
    assert CallOk(s, id);
  }

  lemma ActionKeepsShared(s: State, id: nat, outcome: Outcome)
    requires Inv(s) && Enabled(s, Move(id, outcome))
    ensures var s' := Apply(s, Move(id, outcome));
            && s'.lastSeq <= s'.tracker.last && s'.session <= s'.stored && WindowOk(s')
            && s.lastSeq <= s'.lastSeq && s.stored <= s'.stored
  {
    hide CountsOk, Quiet, Join, Leave, Dedup.Record, Tracker.Done, Tracker.CloseGap;
    assert CallOk(s, id);
    var s' := Apply(s, Move(id, outcome));
    if s.calls[id].pc.Recording? && s.calls[id].msg.Data? {
      RecordKeepsWindow(s, Dedup.Rec(s.calls[id].msg.seqNo, s.calls[id].msg.crc));
    }
  }

  /** An action changes no message and forgets nothing stored. */
  lemma ActionKeepsMessages(s: State, id: nat, outcome: Outcome)
    requires Enabled(s, Move(id, outcome))
    ensures var s' := Apply(s, Move(id, outcome));
            && s.stored <= s'.stored
            && forall i :: i in s.calls ==> i in s'.calls && s'.calls[i].msg == s.calls[i].msg
  {
    hide Quiet, Join, Leave, Dedup.Record, Dedup.Hit, Tracker.Done, Tracker.CloseGap;
  }

  lemma RecordKeepsWindow(s: State, key: Key)
    requires WindowOk(s) && key in s.session
    ensures WindowOk(s.(window := Dedup.Record(s.window, key)))
  {
  }

  predicate Early(pc: Pc) {
    pc.Arrived? || pc.MaybeDup? || pc.Unregistered? || pc.Registered? || pc.Closing? || pc.Checking? || pc.ClosingGap?
  }

  lemma EarlyActionKeepsCall(s: State, id: nat, outcome: Outcome)
    requires Inv(s) && Enabled(s, Move(id, outcome)) && Early(s.calls[id].pc)
    ensures CallOk(Apply(s, Move(id, outcome)), id)
  {
    hide CountsOk, Quiet, Join, Leave, Tracker.CloseGap;
    assert CallOk(s, id);
  }

  lemma LateActionKeepsCall(s: State, id: nat, outcome: Outcome)
    requires Inv(s) && Enabled(s, Move(id, outcome)) && !Early(s.calls[id].pc)
    ensures CallOk(Apply(s, Move(id, outcome)), id)
  {
    hide CountsOk, WindowOk, Quiet, Join, Leave, Dedup.Record, Tracker.Done;
    assert CallOk(s, id);
  }

  lemma ActionKeepsCounts(s: State, id: nat, outcome: Outcome)
    requires Inv(s) && Enabled(s, Move(id, outcome))
    ensures CountsOk(Apply(s, Move(id, outcome)))
  {
    hide CountsOk, WindowOk, Quiet, Join, Leave, Dedup.Record, Tracker.Done, Tracker.CloseGap;
    var s' := Apply(s, Move(id, outcome));
    assert CallOk(s, id);
    if s.calls[id].msg.Data? {
      CountsAfter(s, s', id);
    } else {
      SameCounts(s, s', id);
    }
  }

  lemma SameCounts(s: State, s': State, id: nat)
    requires CountsOk(s) && s'.inflight == s.inflight
    requires forall i :: i in s.calls && i != id ==> i in s'.calls && s'.calls[i] == s.calls[i]
    requires forall i :: i in s'.calls && i != id ==> i in s.calls
    requires id in s'.calls && (s'.calls[id].msg.Data? ==> !InFlight(s'.calls[id].pc))
    requires id in s.calls && s.calls[id].msg.Data? ==> !InFlight(s.calls[id].pc)
    ensures CountsOk(s')
  {
    forall m: nat ensures CountOk(s', m) {
      assert CountOk(s, m);
      assert Active(s', m) == Active(s, m);
    }
  }

  lemma InvStep(s: State, step: Step)
    requires Inv(s) && Enabled(s, step)
    ensures Inv(Apply(s, step))
  {
    hide CountsOk, CallOk, WindowOk, Gentle;
    var s' := Apply(s, step);
    match step {
      case Arrive(id, msg, first) =>
        ArriveKeeps(s, id, msg, first);
      case Restart(persisted) =>
        RestartKeeps(s, persisted);
      case Move(id, outcome) =>
        ActionIsGentle(s, id, outcome);
        OthersOk(s, s', id);
        if Early(s.calls[id].pc) {
          EarlyActionKeepsCall(s, id, outcome);
        } else {
          LateActionKeepsCall(s, id, outcome);
        }
        ActionKeepsShared(s, id, outcome);
        ActionKeepsCounts(s, id, outcome);
    }
  }

  lemma ArriveKeeps(s: State, id: nat, msg: Message, first: bool)
    requires Inv(s) && id !in s.calls
    ensures Inv(Apply(s, Arrive(id, msg, first)))
  {
    hide CountsOk;
    var s' := Apply(s, Arrive(id, msg, first));
    OthersOk(s, s', id);
    SameCounts(s, s', id);
  }

  lemma RestartKeeps(s: State, persisted: nat)
    ensures Inv(Init(persisted, s.stored))
  {
    var s' := Init(persisted, s.stored);
    forall n: nat ensures CountOk(s', n) {
      assert Active(s', n) == {};
    }
  }

  // ---------------------------------------------------------------- runs

  /** Any interleaving: a step that is not enabled where it stands has no effect. */
  ghost function After(s: State, steps: seq<Step>): State {
    if |steps| == 0 then s
    else
      var t := After(s, steps[..|steps| - 1]);
      if Enabled(t, steps[|steps| - 1]) then Apply(t, steps[|steps| - 1]) else t
  }

  /**
   The meaning of 0xff, in every interleaving of calls and across restarts: a data frame is
   answered with success only if a frame with its number and CRC was imported or isolated by the
   running process. Reference counts are exact and the published number never passes the tracker.
   */
  lemma {:induction false} AckMeansStored(lastSeq: nat, stored: set<Key>, steps: seq<Step>)
    ensures var s := After(Init(lastSeq, stored), steps);
            && Inv(s)
            && forall id :: id in s.calls && s.calls[id].msg.Data? && s.calls[id].pc == Replied(ACK_SUCCESS) ==>
                 Dedup.Rec(s.calls[id].msg.seqNo, s.calls[id].msg.crc) in s.session
  {
    hide Inv, Apply, Enabled;
    var s0 := Init(lastSeq, stored);
    if steps == [] {
      RestartKeeps(s0, lastSeq);
    } else {
      var t, step := After(s0, steps[..|steps| - 1]), steps[|steps| - 1];
      AckMeansStored(lastSeq, stored, steps[..|steps| - 1]);
      if Enabled(t, step) {
        InvStep(t, step);
      }
    }
    SuccessIsSession(After(s0, steps));
  }

  lemma SuccessIsSession(s: State)
    requires Inv(s)
    ensures forall id :: id in s.calls && s.calls[id].msg.Data? && s.calls[id].pc == Replied(ACK_SUCCESS) ==>
              Dedup.Rec(s.calls[id].msg.seqNo, s.calls[id].msg.crc) in s.session
  {
    forall id | id in s.calls && s.calls[id].msg.Data? && s.calls[id].pc == Replied(ACK_SUCCESS)
      ensures Dedup.Rec(s.calls[id].msg.seqNo, s.calls[id].msg.crc) in s.session
    {
      assert CallOk(s, id);
    }
  }

  /** A frame is swallowed as a duplicate only if this process has stored it: nothing is, right after a restart. */
  lemma SwallowedWasStored(s: State, key: Key)
    requires Inv(s)
    ensures Dedup.Hit(s.window, key) ==> key in s.session
    ensures forall persisted: nat :: !Dedup.Hit(Init(persisted, s.stored).window, key)
  {
  }

  /**
   Closing a gap never passes a call in flight: when the tracker moves, every number it skips
   lies in the interval that was checked, although that interval was measured from an older
   value, and no registered call carries such a number.
   */
  lemma GapSkipsNothingInFlight(s: State, id: nat, outcome: Outcome, q: nat)
    requires Inv(s) && Enabled(s, Move(id, outcome))
    requires s.calls[id].msg.Data? && s.calls[id].pc.ClosingGap?
    requires s.tracker.last < q <= Apply(s, Move(id, outcome)).tracker.last
    ensures s.calls[id].pc.seen < q < s.calls[id].msg.seqNo
    ensures Active(s, q) == {}
  {
    assert CallOk(s, id);
    assert q !in s.inflight && CountOk(s, q);
  }
}
