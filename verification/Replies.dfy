/**
 What the receiver does with each frame, over whole runs: every handler call leaves a trail of
 effects, the shared tracker and duplicate window are nothing but the sum of those trails, and the byte
 a call answers is decided by its own.
 */
module Replies {
  import opened Bytes
  import opened Codec
  import opened Receiver
  import Tracker
  import Dedup

  /** An effect of the call `id` on what all calls share. */
  datatype Effect =
    | Closed(id: nat, upTo: nat)
    | Stored(id: nat, key: Key, outcome: Outcome)
    | Refused(id: nat, outcome: Outcome)
    | Completed(id: nat, n: nat)
    | Recorded(id: nat, key: Key)
    | Swallowed(id: nat, key: Key)

  /** The number the tracker started from in this process, and all effects since, in order. */
  datatype Ledger = Ledger(base: nat, effects: seq<Effect>)

  predicate Accepts(o: Outcome) {
    o == Imported || o == Isolated
  }

  /** The effects of one action, read off from where its call stands. */
  ghost function EffectsOf(s: State, id: nat, outcome: Outcome): seq<Effect>
    requires id in s.calls
  {
    match s.calls[id].msg
    case Data(n, crc) =>
      (match s.calls[id].pc
       case MaybeDup => if Dedup.Hit(s.window, Dedup.Rec(n, crc)) then [Swallowed(id, Dedup.Rec(n, crc))] else []
       case ClosingGap(_) => [Closed(id, if n > 0 then n - 1 else 0)]
       case Importing => [if Accepts(outcome) then Stored(id, Dedup.Rec(n, crc), outcome) else Refused(id, outcome)]
       case Marking => [Completed(id, n)]
       case Recording => [Recorded(id, Dedup.Rec(n, crc))]
       case _ => [])
    case _ => []
  }

  /** Keeps the ledger along a run; a restart begins a new one. */
  ghost function Book(start: State, steps: seq<Step>): Ledger {
    if |steps| == 0 then Ledger(start.lastSeq, [])
    else
      var s, l, step := After(start, steps[..|steps| - 1]), Book(start, steps[..|steps| - 1]), steps[|steps| - 1];
      if !Enabled(s, step) then l
      else
        match step
        case Arrive(_, _, _) => l
        case Restart(persisted) => Ledger(persisted, [])
        case Move(id, outcome) => l.(effects := l.effects + EffectsOf(s, id, outcome))
  }

  // ---------------------------------------------------------------- reading the ledger

  function Story(es: seq<Effect>, id: nat): seq<Effect> {
    if |es| == 0 then []
    else Story(es[..|es| - 1], id) + if es[|es| - 1].id == id then [es[|es| - 1]] else []
  }

  /** What the tracker was told. */
  function Ops(es: seq<Effect>): seq<Tracker.Op> {
    if |es| == 0 then []
    else
      Ops(es[..|es| - 1]) + match es[|es| - 1]
                            case Closed(_, u) => [Tracker.Close(u)]
                            case Completed(_, n) => [Tracker.Complete(n)]
                            case _ => []
  }

  /** What the duplicate window was told. */
  function Records(es: seq<Effect>): seq<Dedup.Rec> {
    if |es| == 0 then []
    else Records(es[..|es| - 1]) + if es[|es| - 1].Recorded? then [es[|es| - 1].key] else []
  }

  lemma OneMoreEffect(es: seq<Effect>, e: Effect, id: nat)
    ensures Story(es + [e], id) == Story(es, id) + if e.id == id then [e] else []
    ensures Ops(es + [e]) == Ops(es) + match e case Closed(_, u) => [Tracker.Close(u)] case Completed(_, n) => [Tracker.Complete(n)] case _ => []
    ensures Records(es + [e]) == Records(es) + if e.Recorded? then [e.key] else []
  {
    assert (es + [e])[..|es|] == es;
  }

  /** A gap closure may come first, whatever follows. */
  predicate Tells(story: seq<Effect>, id: nat, n: nat, rest: seq<Effect>) {
    story == rest || story == [Closed(id, if n > 0 then n - 1 else 0)] + rest
  }

  predicate StoredAndSettled(story: seq<Effect>, id: nat, n: nat, key: Key) {
    || Tells(story, id, n, [Stored(id, key, Imported), Completed(id, n), Recorded(id, key)])
    || Tells(story, id, n, [Stored(id, key, Isolated), Completed(id, n), Recorded(id, key)])
  }

  predicate TurnedAway(story: seq<Effect>, id: nat, n: nat) {
    Tells(story, id, n, [Refused(id, Unusable)]) || Tells(story, id, n, [Refused(id, Rejected)])
  }

  /** How far the story of a call has got, by where the call stands. */
  predicate Fits(pc: Pc, story: seq<Effect>, id: nat, n: nat, key: Key) {
    match pc
    case GapLoad => Tells(story, id, n, []) && story != []
    case GapAdvance(_) => Tells(story, id, n, []) && story != []
    case Importing => Tells(story, id, n, [])
    case Marking => Tells(story, id, n, [Stored(id, key, Imported)]) || Tells(story, id, n, [Stored(id, key, Isolated)])
    case MarkLoad => Half(story, id, n, key)
    case MarkAdvance(_) => Half(story, id, n, key)
    case Recording => Half(story, id, n, key)
    case Leaving(ack) =>
      || (ack == ACK_SUCCESS && StoredAndSettled(story, id, n, key))
      || (ack == ACK_FAIL && TurnedAway(story, id, n))
    case Replied(ack) =>
      || (ack == ACK_SUCCESS && (StoredAndSettled(story, id, n, key) || story == [Swallowed(id, key)]))
      || (ack == ACK_FAIL && TurnedAway(story, id, n))
    case _ => story == []
  }

  predicate Half(story: seq<Effect>, id: nat, n: nat, key: Key) {
    || Tells(story, id, n, [Stored(id, key, Imported), Completed(id, n)])
    || Tells(story, id, n, [Stored(id, key, Isolated), Completed(id, n)])
  }

  ghost predicate CallFits(s: State, es: seq<Effect>, id: nat)
    requires id in s.calls
  {
    match s.calls[id].msg
    case Data(n, crc) =>
      && Fits(s.calls[id].pc, Story(es, id), id, n, Dedup.Rec(n, crc))
      && (InGap(s.calls[id].pc) || ClosedGap(Story(es, id)) ==> s.calls[id].first)
    case _ => Story(es, id) == []
  }

  predicate InGap(pc: Pc) {
    pc.Closing? || pc.Checking? || pc.ClosingGap?
  }

  predicate ClosedGap(story: seq<Effect>) {
    story != [] && story[0].Closed?
  }

  /** The ledger explains the shared state and every call. */
  ghost predicate Explains(l: Ledger, s: State) {
    && s.tracker == Tracker.Run(Tracker.State(l.base, {}), Ops(l.effects))
    && s.window == Dedup.Replay(Records(l.effects))
    && (forall id :: id in s.calls ==> CallFits(s, l.effects, id))
    && (forall id :: id !in s.calls ==> Story(l.effects, id) == [])
    && (forall e :: e in l.effects && e.Swallowed? ==> e.key in Records(l.effects))
  }

  // ---------------------------------------------------------------- every action

  /** The effects listed for an action are the ones it has. */
  lemma EffectsAreReal(s: State, id: nat, outcome: Outcome)
    requires Enabled(s, Move(id, outcome))
    ensures var s', es := Apply(s, Move(id, outcome)), EffectsOf(s, id, outcome);
            && |es| <= 1 && (es != [] ==> es[0].id == id)
            && s'.tracker == (if es != [] && es[0].Closed? then Tracker.CloseGap(s.tracker, es[0].upTo)
                              else if es != [] && es[0].Completed? then Tracker.Done(s.tracker, es[0].n) else s.tracker)
            && s'.window == (if es != [] && es[0].Recorded? then Dedup.Record(s.window, es[0].key) else s.window)
            && s'.stored == (if es != [] && es[0].Stored? then s.stored + {es[0].key} else s.stored)
            && (es != [] && es[0].Swallowed? ==> Dedup.Hit(s.window, es[0].key))
  {
    hide Tracker.Done, Tracker.CloseGap, Dedup.Record, Dedup.Hit, Quiet, Join, Leave;
  }

  lemma SharedExplained(l: Ledger, s: State, id: nat, outcome: Outcome)
    requires Explains(l, s) && Enabled(s, Move(id, outcome))
    ensures var s', es := Apply(s, Move(id, outcome)), l.effects + EffectsOf(s, id, outcome);
            && s'.tracker == Tracker.Run(Tracker.State(l.base, {}), Ops(es))
            && s'.window == Dedup.Replay(Records(es))
            && (forall e :: e in es && e.Swallowed? ==> e.key in Records(es))
  {
    hide CallFits, Tracker.Done, Tracker.CloseGap, Tracker.Run, Dedup.Record, Dedup.Hit, Dedup.Replay, Apply, EffectsOf,
      Ops, Records, Story;
    EffectsAreReal(s, id, outcome);
    var es := EffectsOf(s, id, outcome);
    if es == [] {
      assert l.effects + es == l.effects;
    } else {
      var e := es[0];
      assert es == [e];
      OneMoreEffect(l.effects, e, id);
      SharedGrows(l, s, e);
    }
  }

  lemma SharedGrows(l: Ledger, s: State, e: Effect)
    requires Explains(l, s)
    ensures var ops, recs := Ops(l.effects + [e]), Records(l.effects + [e]);
            && Tracker.Run(Tracker.State(l.base, {}), ops)
               == (if e.Closed? then Tracker.CloseGap(s.tracker, e.upTo)
                   else if e.Completed? then Tracker.Done(s.tracker, e.n) else s.tracker)
            && Dedup.Replay(recs) == (if e.Recorded? then Dedup.Record(s.window, e.key) else s.window)
            && (e.Swallowed? && Dedup.Hit(s.window, e.key) ==> e.key in recs)
  {
    hide CallFits, Tracker.Done, Tracker.CloseGap, Tracker.Run, Dedup.Record, Dedup.Hit, Dedup.Replay, Ops, Records, Story;
    OneMoreEffect(l.effects, e, 0);
    var ops, recs := Ops(l.effects), Records(l.effects);
    assert ops + [] == ops && recs + [] == recs;
    match e {
      case Closed(_, u) => RunMore(Tracker.State(l.base, {}), ops, Tracker.Close(u));
      case Completed(_, n) => RunMore(Tracker.State(l.base, {}), ops, Tracker.Complete(n));
      case Recorded(_, key) => ReplayMore(recs, key);
      case Swallowed(_, key) => if Dedup.Hit(s.window, key) { HitWasRecorded(recs, key); }
      case _ =>
    }
  }

  lemma RunMore(s: Tracker.State, ops: seq<Tracker.Op>, op: Tracker.Op)
    ensures Tracker.Run(s, ops + [op]) == Tracker.Step(Tracker.Run(s, ops), op)
  {
    assert (ops + [op])[..|ops|] == ops;
  }

  lemma ReplayMore(h: seq<Dedup.Rec>, r: Dedup.Rec)
    ensures Dedup.Replay(h + [r]) == Dedup.Record(Dedup.Replay(h), r)
  {
    assert (h + [r])[..|h|] == h;
  }

  /** The window only answers for what was recorded. */
  lemma HitWasRecorded(h: seq<Dedup.Rec>, r: Dedup.Rec)
    requires Dedup.Hit(Dedup.Replay(h), r)
    ensures r in h
  {
    Dedup.HitIff(h, r);
    LatestIsThere(h, r.seqNo);
  }

  lemma {:induction false} LatestIsThere(h: seq<Dedup.Rec>, k: nat)
    requires Dedup.Recorded(h, k)
    ensures Dedup.Rec(k, Dedup.Latest(h, k)) in h
  {
    if h[|h| - 1].seqNo != k {
      LatestIsThere(h[..|h| - 1], k);
    }
  }

  lemma StoryMoves(s: State, id: nat, outcome: Outcome, es: seq<Effect>, other: nat)
    requires Enabled(s, Move(id, outcome))
    ensures Story(es + EffectsOf(s, id, outcome), other)
         == Story(es, other) + if other == id then EffectsOf(s, id, outcome) else []
  {
    hide Apply, EffectsOf;
    EffectsAreReal(s, id, outcome);
    var more := EffectsOf(s, id, outcome);
    if more == [] {
      assert es + more == es;
      assert Story(es, other) + [] == Story(es, other);
    } else {
      assert more == [more[0]];
      OneMoreEffect(es, more[0], other);
    }
  }

  lemma TellsMore(story: seq<Effect>, id: nat, n: nat, rest: seq<Effect>, x: Effect)
    requires Tells(story, id, n, rest)
    ensures Tells(story + [x], id, n, rest + [x])
  {
    var gap := [Closed(id, if n > 0 then n - 1 else 0)];
    assert gap + (rest + [x]) == gap + rest + [x];
  }

  /** The call that acts carries its story on: up to the import... */
  lemma EarlyStory(s: State, id: nat, outcome: Outcome, story: seq<Effect>, n: nat, crc: nat)
    requires Enabled(s, Move(id, outcome)) && s.calls[id].msg == Data(n, crc) && Early(s.calls[id].pc)
    requires Fits(s.calls[id].pc, story, id, n, Dedup.Rec(n, crc))
    ensures Fits(Apply(s, Move(id, outcome)).calls[id].pc, story + EffectsOf(s, id, outcome), id, n, Dedup.Rec(n, crc))
  {
    hide Tracker.Done, Tracker.CloseGap, Dedup.Record, Dedup.Hit, Quiet, Join, Leave, StoredAndSettled, TurnedAway, Half;
    assert story + [] == story && [] + story == story;
    var gap := [Closed(id, if n > 0 then n - 1 else 0)];
    assert gap + [] == gap;
  }

  /** ...and from the import on. */
  lemma LateStory(s: State, id: nat, outcome: Outcome, story: seq<Effect>, n: nat, crc: nat)
    requires Enabled(s, Move(id, outcome)) && s.calls[id].msg == Data(n, crc) && !Early(s.calls[id].pc)
    requires Fits(s.calls[id].pc, story, id, n, Dedup.Rec(n, crc))
    ensures Fits(Apply(s, Move(id, outcome)).calls[id].pc, story + EffectsOf(s, id, outcome), id, n, Dedup.Rec(n, crc))
  {
    hide Tracker.Done, Tracker.CloseGap, Dedup.Record, Dedup.Hit, Quiet, Join, Leave, Tells;
    assert story + [] == story;
    var key := Dedup.Rec(n, crc);
    match s.calls[id].pc {
      case Importing =>
        var x := if Accepts(outcome) then Stored(id, key, outcome) else Refused(id, outcome);
        TellsMore(story, id, n, [], x);
        assert [] + [x] == [x];
      case Marking =>
        var o := if Tells(story, id, n, [Stored(id, key, Imported)]) then Imported else Isolated;
        TellsMore(story, id, n, [Stored(id, key, o)], Completed(id, n));
        assert [Stored(id, key, o)] + [Completed(id, n)] == [Stored(id, key, o), Completed(id, n)];
      case Recording =>
        var o := if Tells(story, id, n, [Stored(id, key, Imported), Completed(id, n)]) then Imported else Isolated;
        TellsMore(story, id, n, [Stored(id, key, o), Completed(id, n)], Recorded(id, key));
        assert [Stored(id, key, o), Completed(id, n)] + [Recorded(id, key)]
            == [Stored(id, key, o), Completed(id, n), Recorded(id, key)];
      case _ =>
    }
  }

  lemma OwnStory(l: Ledger, s: State, id: nat, outcome: Outcome)
    requires Explains(l, s) && Enabled(s, Move(id, outcome))
    ensures CallFits(Apply(s, Move(id, outcome)), l.effects + EffectsOf(s, id, outcome), id)
  {
    hide Fits, Story, Apply, EffectsOf;
    assert CallFits(s, l.effects, id);
    StoryMoves(s, id, outcome, l.effects, id);
    SameMessages(s, id, outcome);
    if s.calls[id].msg.Data? {
      var n, crc, story := s.calls[id].msg.seqNo, s.calls[id].msg.crc, Story(l.effects, id);
      OnlyFirstCloses(s, id, outcome, story);
      if Early(s.calls[id].pc) {
        EarlyStory(s, id, outcome, story, n, crc);
      } else {
        LateStory(s, id, outcome, story, n, crc);
      }
    }
  }

  /** Only the first frame of a connection gets to close a gap. */
  lemma OnlyFirstCloses(s: State, id: nat, outcome: Outcome, story: seq<Effect>)
    requires Enabled(s, Move(id, outcome)) && s.calls[id].msg.Data?
    requires InGap(s.calls[id].pc) || ClosedGap(story) ==> s.calls[id].first
    ensures var c := Apply(s, Move(id, outcome)).calls[id];
            c.first == s.calls[id].first && (InGap(c.pc) || ClosedGap(story + EffectsOf(s, id, outcome)) ==> c.first)
  {
    hide Tracker.Done, Tracker.CloseGap, Dedup.Record, Dedup.Hit, Quiet, Join, Leave;
  }

  lemma SameMessages(s: State, id: nat, outcome: Outcome)
    requires Enabled(s, Move(id, outcome))
    ensures id in Apply(s, Move(id, outcome)).calls && Apply(s, Move(id, outcome)).calls[id].msg == s.calls[id].msg
    ensures !s.calls[id].msg.Data? ==> EffectsOf(s, id, outcome) == []
  {
  }

  lemma MoveExplained(l: Ledger, s: State, id: nat, outcome: Outcome)
    requires Explains(l, s) && Enabled(s, Move(id, outcome))
    ensures Explains(l.(effects := l.effects + EffectsOf(s, id, outcome)), Apply(s, Move(id, outcome)))
  {
    hide Fits, EffectsOf, Apply, Story, Ops, Records, Tracker.Run, Dedup.Replay;
    var s', es := Apply(s, Move(id, outcome)), l.effects + EffectsOf(s, id, outcome);
    SharedExplained(l, s, id, outcome);
    OwnStory(l, s, id, outcome);
    OthersStay(s, id, outcome);
    forall i | i in s'.calls && i != id ensures CallFits(s', es, i) {
      assert CallFits(s, l.effects, i);
      StoryMoves(s, id, outcome, l.effects, i);
      assert Story(es, i) == Story(l.effects, i);
    }
    forall i | i !in s'.calls ensures Story(es, i) == [] {
      StoryMoves(s, id, outcome, l.effects, i);
    }
  }

  lemma OthersStay(s: State, id: nat, outcome: Outcome)
    requires Enabled(s, Move(id, outcome))
    ensures var s' := Apply(s, Move(id, outcome));
            && (forall i :: i in s'.calls <==> i in s.calls)
            && (forall i :: i in s.calls && i != id ==> s'.calls[i] == s.calls[i])
  {
  }

  /** In every interleaving, restarts included, the ledger explains the state. */
  lemma {:induction false} LedgerExplains(lastSeq: nat, stored: set<Key>, steps: seq<Step>)
    ensures Explains(Book(Init(lastSeq, stored), steps), After(Init(lastSeq, stored), steps))
  {
    hide Apply, Enabled, CallFits, EffectsOf;
    var start := Init(lastSeq, stored);
    if |steps| > 0 {
      var before, step := steps[..|steps| - 1], steps[|steps| - 1];
      LedgerExplains(lastSeq, stored, before);
      var s, l := After(start, before), Book(start, before);
      if Enabled(s, step) {
        match step {
          case Arrive(id, msg, first) => ArrivalExplained(l, s, id, msg, first);
          case Restart(persisted) => RestartExplained(s, persisted);
          case Move(id, outcome) => MoveExplained(l, s, id, outcome);
        }
      }
    }
  }

  lemma ArrivalExplained(l: Ledger, s: State, id: nat, msg: Message, first: bool)
    requires Explains(l, s) && Enabled(s, Arrive(id, msg, first))
    ensures Explains(l, Apply(s, Arrive(id, msg, first)))
  {
    hide Fits;
    var s' := Apply(s, Arrive(id, msg, first));
    forall i | i in s'.calls ensures CallFits(s', l.effects, i) {
      if i == id {
        Unstarted(msg, id);
      } else {
        assert CallFits(s, l.effects, i);
      }
    }
  }

  lemma Unstarted(msg: Message, id: nat)
    ensures msg.Data? ==> Fits(Arrived, [], id, msg.seqNo, Dedup.Rec(msg.seqNo, msg.crc))
  {
  }

  lemma RestartExplained(s: State, persisted: nat)
    requires Enabled(s, Restart(persisted))
    ensures Explains(Ledger(persisted, []), Apply(s, Restart(persisted)))
  {
  }

  // ---------------------------------------------------------------- the laws

  /**
   The byte decides itself by what was done. In every interleaving: a data call that replied did
   exactly one of three things, after closing a gap or not. It stored its frame, completed its number and
   recorded its number and CRC, and answered 0xff; or it was refused, touched neither tracker nor window,
   and answered 0x00; or it found its number and CRC recorded already, stored nothing, and answered 0xff.
   */
  lemma ReplyTellsWhatWasDone(lastSeq: nat, stored: set<Key>, steps: seq<Step>, id: nat)
    requires var s := After(Init(lastSeq, stored), steps);
             id in s.calls && s.calls[id].msg.Data? && s.calls[id].pc.Replied?
    ensures var s := After(Init(lastSeq, stored), steps);
            var n, key, ack := s.calls[id].msg.seqNo, Dedup.Rec(s.calls[id].msg.seqNo, s.calls[id].msg.crc), s.calls[id].pc.ack;
            var es := Book(Init(lastSeq, stored), steps).effects;
            var story := Story(es, id);
            && (ack == ACK_SUCCESS || ack == ACK_FAIL)
            && (ack == ACK_SUCCESS <==> StoredAndSettled(story, id, n, key) || story == [Swallowed(id, key)])
            && (ack == ACK_FAIL <==> TurnedAway(story, id, n))
            && (ack == ACK_SUCCESS ==> key in Records(es))
            && (StoredAndSettled(story, id, n, key) ==> Tracker.Complete(n) in Ops(es))
            && (ClosedGap(story) ==> s.calls[id].first)
  {
    hide After, Book, Tracker.Run, Dedup.Replay, Story, Ops, Records;
    LedgerExplains(lastSeq, stored, steps);
    var s, es := After(Init(lastSeq, stored), steps), Book(Init(lastSeq, stored), steps).effects;
    assert CallFits(s, es, id);
    var n, key := s.calls[id].msg.seqNo, Dedup.Rec(s.calls[id].msg.seqNo, s.calls[id].msg.crc);
    var story := Story(es, id);
    InLedger(es, id, Recorded(id, key));
    InLedger(es, id, Completed(id, n));
    InLedger(es, id, Swallowed(id, key));
    StoriesDiffer(story, id, n, key);
  }

  /** How a story ends tells which of the three it is. */
  lemma StoriesDiffer(story: seq<Effect>, id: nat, n: nat, key: Key)
    ensures StoredAndSettled(story, id, n, key) ==>
              && story != [] && story[|story| - 1] == Recorded(id, key) && !TurnedAway(story, id, n)
              && Recorded(id, key) in story && Completed(id, n) in story
    ensures story == [Swallowed(id, key)] ==> !TurnedAway(story, id, n) && Swallowed(id, key) in story
  {
    if StoredAndSettled(story, id, n, key) {
      assert story[|story| - 1] == Recorded(id, key) && story[|story| - 2] == Completed(id, n);
    }
  }

  lemma {:induction false} InLedger(es: seq<Effect>, id: nat, e: Effect)
    ensures e in Story(es, id) ==> e in es
    ensures e in es && e.Recorded? ==> e.key in Records(es)
    ensures e in es && e.Completed? ==> Tracker.Complete(e.n) in Ops(es)
  {
    if |es| > 0 {
      InLedger(es[..|es| - 1], id, e);
    }
  }

  /** The published tracker is the sum of the closures and completions, so all that is proved of runs of it applies. */
  lemma TrackerIsAccounted(lastSeq: nat, stored: set<Key>, steps: seq<Step>, n: nat)
    requires var s, l := After(Init(lastSeq, stored), steps), Book(Init(lastSeq, stored), steps);
             l.base < n <= s.tracker.last
    ensures var l := Book(Init(lastSeq, stored), steps);
            Tracker.Accounted(l.base, Ops(l.effects), n)
  {
    hide After, Book, CallFits;
    LedgerExplains(lastSeq, stored, steps);
    var l := Book(Init(lastSeq, stored), steps);
    Tracker.PassedIsAccounted(l.base, Ops(l.effects));
  }

  /** A frame at or below the published number whose number and CRC are in the window is answered 0xff and stored nowhere. */
  lemma DuplicateIsSwallowed(s: State, id: nat, o1: Outcome, o2: Outcome)
    requires id in s.calls && s.calls[id].msg.Data? && s.calls[id].pc == Arrived
    requires s.calls[id].msg.seqNo <= s.lastSeq
    requires Dedup.Hit(s.window, Dedup.Rec(s.calls[id].msg.seqNo, s.calls[id].msg.crc))
    ensures After(s, [Move(id, o1), Move(id, o2)]) == Goto(s, id, Replied(ACK_SUCCESS))
  {
    hide Dedup.Hit;
    var s1 := Apply(s, Move(id, o1));
    assert [Move(id, o1), Move(id, o2)][..1] == [Move(id, o1)];
    assert [Move(id, o1)][..0] == [];
    assert After(s, [Move(id, o1)]) == s1;
  }

  // ---------------------------------------------------------------- calls come to an end

  /** How many actions a call has left at most. */
  function Left(pc: Pc): nat {
    match pc
    case Arrived => 15
    case MaybeDup => 14
    case Unregistered => 13
    case Registered => 12
    case Closing => 11
    case Checking(_) => 10
    case ClosingGap(_) => 9
    case GapLoad => 8
    case GapAdvance(_) => 7
    case Importing => 6
    case Marking => 5
    case MarkLoad => 4
    case MarkAdvance(_) => 3
    case Recording => 2
    case Leaving(_) => 1
    case Replied(_) => 0
  }

  function Moves(id: nat, outcome: Outcome, k: nat): seq<Step> {
    seq(k, i => Move(id, outcome))
  }

  /** No other call holds the lock. */
  predicate Undisturbed(s: State, id: nat)
    requires id in s.calls
  {
    s.lock == if HoldsLock(s.calls[id].pc) then Some(id) else None
  }

  lemma ActionBringsNearer(s: State, id: nat, outcome: Outcome)
    requires Inv(s) && id in s.calls && Undisturbed(s, id) && !s.calls[id].pc.Replied?
    ensures Enabled(s, Move(id, outcome))
    ensures var s' := Apply(s, Move(id, outcome));
            id in s'.calls && Left(s'.calls[id].pc) < Left(s.calls[id].pc) && Undisturbed(s', id)
  {
    hide Tracker.Done, Tracker.CloseGap, Dedup.Record, Dedup.Hit, Quiet, Join, Leave, CountsOk, WindowOk;
    assert CallOk(s, id);
  }

  lemma StepFirst(s: State, step: Step, steps: seq<Step>)
    requires Enabled(s, step)
    ensures After(s, [step] + steps) == After(Apply(s, step), steps)
  {
    hide Apply, Enabled;
    if |steps| == 0 {
      assert [step] + steps == [step] && [step][..0] == [];
    } else {
      var n := |steps| - 1;
      StepFirst(s, step, steps[..n]);
      assert ([step] + steps)[..n + 1] == [step] + steps[..n];
    }
  }

  /** Left alone, a call replies within fifteen actions, wherever it stands. */
  lemma {:induction false} CallReplies(s: State, id: nat, outcome: Outcome) returns (k: nat)
    requires Inv(s) && id in s.calls && Undisturbed(s, id)
    ensures k <= Left(s.calls[id].pc) <= 15
    ensures var t := After(s, Moves(id, outcome, k));
            id in t.calls && t.calls[id].pc.Replied? && t.calls[id].msg == s.calls[id].msg
    decreases Left(s.calls[id].pc)
  {
    hide Apply, Inv, Undisturbed;
    if s.calls[id].pc.Replied? {
      k := 0;
    } else {
      ActionBringsNearer(s, id, outcome);
      ActionKeepsMessages(s, id, outcome);
      InvStep(s, Move(id, outcome));
      var rest := CallReplies(Apply(s, Move(id, outcome)), id, outcome);
      k := rest + 1;
      StepFirst(s, Move(id, outcome), Moves(id, outcome, rest));
      assert Moves(id, outcome, k) == [Move(id, outcome)] + Moves(id, outcome, rest);
    }
  }

  /**
   Each reply is reached from the start: the first frame is stored, answered 0xff and recorded, and
   moves the published number to 1; sent again it is swallowed; and a refused one is answered 0x00.
   */
  lemma EachReplyIsReached(crc: nat, outcome: Outcome)
    ensures var s := After(Init(0, {}), [Arrive(0, Data(1, crc), false)] + Moves(0, outcome, 9));
            if Accepts(outcome) then
              && 0 in s.calls && s.calls[0].pc == Replied(ACK_SUCCESS) && s.stored == {Dedup.Rec(1, crc)}
              && s.lastSeq == 1 && s.tracker.last == 1 && Dedup.Hit(s.window, Dedup.Rec(1, crc))
              && var t := After(s, [Arrive(1, Data(1, crc), false)] + Moves(1, outcome, 2));
                 1 in t.calls && t.calls[1].pc == Replied(ACK_SUCCESS) && t.stored == s.stored
            else
              && 0 in s.calls && s.calls[0].pc == Replied(ACK_FAIL) && s.stored == {} && s.lastSeq == 0
  {
    hide After, Inv;
    var s0 := Init(0, {});
    var s1 := Apply(s0, Arrive(0, Data(1, crc), false));
    StepFirst(s0, Arrive(0, Data(1, crc), false), Moves(0, outcome, 9));
    if Accepts(outcome) {
      FirstIsStored(s1, crc, outcome);
      var s := After(s1, Moves(0, outcome, 9));
      var t := Apply(s, Arrive(1, Data(1, crc), false));
      StepFirst(s, Arrive(1, Data(1, crc), false), Moves(1, outcome, 2));
      DuplicateIsSwallowed(t, 1, outcome, outcome);
      assert Moves(1, outcome, 2) == [Move(1, outcome), Move(1, outcome)];
    } else {
      FirstIsRefused(s1, crc, outcome);
    }
  }

  /** The first of some actions of one call. */
  lemma Acts(s: State, id: nat, outcome: Outcome, k: nat)
    requires k > 0 && Enabled(s, Move(id, outcome))
    ensures After(s, Moves(id, outcome, k)) == After(Apply(s, Move(id, outcome)), Moves(id, outcome, k - 1))
  {
    hide Apply, Enabled, After;
    StepFirst(s, Move(id, outcome), Moves(id, outcome, k - 1));
    assert Moves(id, outcome, k) == [Move(id, outcome)] + Moves(id, outcome, k - 1);
  }

  /** After its last action a call stays replied. */
  lemma {:induction false} Stays(s: State, outcome: Outcome, k: nat)
    requires 0 in s.calls && s.calls[0].pc.Replied?
    ensures After(s, Moves(0, outcome, k)) == s
  {
    hide Apply;
    if k > 0 {
      Stays(s, outcome, k - 1);
      assert Moves(0, outcome, k)[..k - 1] == Moves(0, outcome, k - 1);
    }
  }

  /** The only call, about to import. */
  ghost function Waiting(crc: nat): State {
    State(0, Tracker.State(0, {}), Dedup.State([], map[]), map[1 := 1], None,
          map[0 := Call(Data(1, crc), false, Importing)], {}, {})
  }

  lemma GetsToImport(s: State, crc: nat, outcome: Outcome)
    requires s == Apply(Init(0, {}), Arrive(0, Data(1, crc), false))
    ensures After(s, Moves(0, outcome, 9)) == After(Waiting(crc), Moves(0, outcome, 6))
  {
    hide After;
    var m := Move(0, outcome);
    Acts(s, 0, outcome, 9);
    var s1 := Apply(s, m);
    Acts(s1, 0, outcome, 8);
    var s2 := Apply(s1, m);
    Acts(s2, 0, outcome, 7);
    assert Apply(s2, m) == Waiting(crc);
  }

  lemma FirstCompletes()
    ensures Tracker.Done(Tracker.State(0, {}), 1) == Tracker.State(1, {})
  {
    Tracker.ReachUnique(0, {} + {1}, 1);
    assert Tracker.After({} + {1}, 1) == {};
  }

  lemma FirstIsStored(s: State, crc: nat, outcome: Outcome)
    requires s == Apply(Init(0, {}), Arrive(0, Data(1, crc), false)) && Accepts(outcome)
    ensures var t := After(s, Moves(0, outcome, 9));
            && t.calls.Keys == {0} && t.calls[0].pc == Replied(ACK_SUCCESS) && t.stored == {Dedup.Rec(1, crc)}
            && t.lastSeq == 1 && t.tracker.last == 1 && Dedup.Hit(t.window, Dedup.Rec(1, crc))
  {
    hide After, Tracker.Done;
    GetsToImport(s, crc, outcome);
    FirstCompletes();
    var m := Move(0, outcome);
    Acts(Waiting(crc), 0, outcome, 6);
    var s4 := Apply(Waiting(crc), m);
    Acts(s4, 0, outcome, 5);
    var s5 := Apply(s4, m);
    Acts(s5, 0, outcome, 4);
    var s6 := Apply(s5, m);
    Acts(s6, 0, outcome, 3);
    LastActions(Apply(s6, m), crc, outcome);
  }

  lemma LastActions(s: State, crc: nat, outcome: Outcome)
    requires s.calls == map[0 := Call(Data(1, crc), false, Recording)] && s.lock == None
    requires s.window == Dedup.State([], map[])
    ensures var t := After(s, Moves(0, outcome, 2));
            && t.calls == map[0 := Call(Data(1, crc), false, Replied(ACK_SUCCESS))] && t.stored == s.stored
            && t.lastSeq == s.lastSeq && t.tracker == s.tracker && Dedup.Hit(t.window, Dedup.Rec(1, crc))
  {
    hide After;
    var m := Move(0, outcome);
    Acts(s, 0, outcome, 2);
    var s1 := Apply(s, m);
    Acts(s1, 0, outcome, 1);
    Stays(Apply(s1, m), outcome, 0);
  }

  lemma FirstIsRefused(s: State, crc: nat, outcome: Outcome)
    requires s == Apply(Init(0, {}), Arrive(0, Data(1, crc), false)) && !Accepts(outcome)
    ensures var t := After(s, Moves(0, outcome, 9));
            0 in t.calls && t.calls[0].pc == Replied(ACK_FAIL) && t.stored == {} && t.lastSeq == 0
  {
    hide After;
    GetsToImport(s, crc, outcome);
    var m := Move(0, outcome);
    Acts(Waiting(crc), 0, outcome, 6);
    var s1 := Apply(Waiting(crc), m);
    Acts(s1, 0, outcome, 5);
    Stays(Apply(s1, m), outcome, 4);
  }

  // ---------------------------------------------------------------- gaps and the published number

  /**
   The first frame of a connection closes a gap: if its number is ahead of the published one by more than
   one and at most the limit, and nothing in between is in flight, then six undisturbed actions later
   everything before it counts as settled and is published, and the call is about to import.
   */
  lemma FirstFrameClosesGap(s: State, id: nat, outcome: Outcome)
    requires id in s.calls && s.calls[id].msg.Data? && s.calls[id].pc == Registered && s.calls[id].first && s.lock == None
    requires s.lastSeq + 1 < s.calls[id].msg.seqNo <= s.lastSeq + Tracker.JUMP_LIMIT
    requires Quiet(s.inflight, s.lastSeq, s.calls[id].msg.seqNo)
    ensures var n, t := s.calls[id].msg.seqNo, After(s, Moves(id, outcome, 6));
            && id in t.calls && t.calls[id].pc == Importing && t.lock == None
            && t.tracker == Tracker.CloseGap(s.tracker, n - 1) && t.tracker.last >= n - 1 && t.lastSeq >= n - 1
  {
    hide After, Tracker.CloseGap, Quiet;
    var m := Move(id, outcome);
    Acts(s, id, outcome, 6);
    var s1 := Apply(s, m);
    Acts(s1, id, outcome, 5);
    var s2 := Apply(s1, m);
    Acts(s2, id, outcome, 4);
    var s3 := Apply(s2, m);
    Acts(s3, id, outcome, 3);
    ClosedReaches(s.tracker, s.calls[id].msg.seqNo - 1);
    PublishesGap(Apply(s3, m), id, outcome);
  }

  lemma ClosedReaches(t: Tracker.State, u: nat)
    ensures Tracker.CloseGap(t, u).last >= u
  {
  }

  lemma PublishesGap(s: State, id: nat, outcome: Outcome)
    requires id in s.calls && s.calls[id].msg.Data? && s.calls[id].pc == GapLoad
    ensures var t := After(s, Moves(id, outcome, 2));
            && id in t.calls && t.calls[id].pc == Importing && t.lock == None
            && t.tracker == s.tracker && t.lastSeq >= s.tracker.last
  {
    hide After;
    var m := Move(id, outcome);
    Acts(s, id, outcome, 2);
    var s1 := Apply(s, m);
    Acts(s1, id, outcome, 1);
    var t := Apply(s1, m);
    assert After(t, Moves(id, outcome, 0)) == t by { NoMoves(t, id, outcome); }
  }

  lemma NoMoves(s: State, id: nat, outcome: Outcome)
    ensures After(s, Moves(id, outcome, 0)) == s
  {
  }

  /** This call is about to publish the tracker's number. */
  ghost predicate Publishing(s: State, id: nat) {
    && id in s.calls && s.calls[id].msg.Data?
    && match s.calls[id].pc
       case GapLoad => true
       case MarkLoad => true
       case GapAdvance(v) => v == s.tracker.last
       case MarkAdvance(v) => v == s.tracker.last
       case _ => false
  }

  ghost predicate Published(s: State) {
    s.lastSeq == s.tracker.last || exists id :: Publishing(s, id)
  }

  lemma PublishedStep(s: State, id: nat, outcome: Outcome)
    requires Inv(s) && Published(s) && Enabled(s, Move(id, outcome))
    ensures Published(Apply(s, Move(id, outcome)))
  {
    hide CountsOk, WindowOk, Dedup.Record, Dedup.Hit, Quiet, Join, Leave, Tracker.Done, Tracker.CloseGap;
    var s' := Apply(s, Move(id, outcome));
    ActionKeepsShared(s, id, outcome);
    OthersStay(s, id, outcome);
    if s'.tracker != s.tracker && s'.tracker.last != s.tracker.last {
      assert Publishing(s', id);
    } else if s'.lastSeq != s'.tracker.last {
      var i :| Publishing(s, i);
      assert Publishing(s', i);
    }
  }

  /** The published number keeps up: it is the tracker's, unless some call is just about to publish that. */
  lemma {:induction false} PublishedKeepsUp(lastSeq: nat, stored: set<Key>, steps: seq<Step>)
    ensures Published(After(Init(lastSeq, stored), steps))
  {
    hide Apply, Enabled, Inv;
    if |steps| > 0 {
      var before, step := steps[..|steps| - 1], steps[|steps| - 1];
      PublishedKeepsUp(lastSeq, stored, before);
      AckMeansStored(lastSeq, stored, before);
      var s := After(Init(lastSeq, stored), before);
      if Enabled(s, step) {
        match step {
          case Arrive(id, msg, first) => ArrivalPublishes(s, id, msg, first);
          case Restart(persisted) => RestartPublishes(s, persisted);
          case Move(id, outcome) => PublishedStep(s, id, outcome);
        }
      }
    }
  }

  lemma ArrivalPublishes(s: State, id: nat, msg: Message, first: bool)
    requires Published(s) && Enabled(s, Arrive(id, msg, first))
    ensures Published(Apply(s, Arrive(id, msg, first)))
  {
    if s.lastSeq != s.tracker.last {
      var i :| Publishing(s, i);
      assert Publishing(Apply(s, Arrive(id, msg, first)), i);
    }
  }

  lemma RestartPublishes(s: State, persisted: nat)
    requires Enabled(s, Restart(persisted))
    ensures Published(Apply(s, Restart(persisted)))
  {
  }
}
