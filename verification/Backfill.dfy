/** Start-up of the sender: finding the oldest sample, applying the backfill policy, placing the cursor. */
module Backfill {
  import opened Bytes
  import opened WriteAheadLog
  import Journal

  // ---------------------------------------------------------------- the probe

  /** Is there a sample in [0, x)? */
  ghost predicate HasBefore(data: set<int>, x: int) {
    exists t :: t in data && 0 <= t < x
  }

  ghost predicate IsOldest(data: set<int>, now: int, t: int) {
    t in data && 0 <= t < now && forall u :: u in data && 0 <= u < now ==> t <= u
  }

  /** One export probe: the answer, or nothing if the request failed. */
  method ExportHasData(data: set<int>, x: int, fails: bool) returns (r: Option<bool>)
    ensures r.None? <==> fails
    ensures r.Some? ==> (r.value <==> HasBefore(data, x))
  {
    if fails {
      return None;
    }
    var hits := set t | t in data && 0 <= t < x;
    assert hits != {} <==> HasBefore(data, x) by {
      if HasBefore(data, x) {
        var t :| t in data && 0 <= t < x;
        assert t in hits;
      }
    }
    return Some(hits != {});
  }

  /**
   Binary search for the oldest sample before `now`. An answer is exact: the least timestamp,
   or 0 when there is none. (A sample at time 0 also gives 0.)
   */
  method ProbeOldestData(data: set<int>, now: int, fails: nat -> bool) returns (r: Option<int>)
    ensures r.Some? && HasBefore(data, now) ==> IsOldest(data, now, r.value)
    ensures r.Some? && !HasBefore(data, now) ==> r.value == 0
    ensures r.Some? ==> r.value >= 0
    ensures (forall i :: !fails(i)) ==> r.Some?
  {
    var calls := 0;
    var has := ExportHasData(data, now, fails(calls));
    if has.None? {
      return None;
    }
    if !has.value {
      return Some(0);
    }
    var lo, hi := 0, now;
    while hi - lo > 1
      invariant 0 <= lo < hi <= now && HasBefore(data, hi) && !HasBefore(data, lo)
      decreases hi - lo
    {
      var mid := lo + (hi - lo) / 2;
      calls := calls + 1;
      has := ExportHasData(data, mid, fails(calls));
      if has.None? {
        return None;
      }
      if has.value {
        hi := mid;
      } else {
        lo := mid;
      }
    }
    return Some(lo);
  }

  // ---------------------------------------------------------------- the policy

  datatype Mode = Realtime | Everything | Bounded(ms: int)

  /** The part of the checkpoint that start-up decides on. */
  datatype Position = Position(cursor: int, backfill: int, legacy: bool)

  datatype Boot = Boot(mode: Mode, probe: Option<int>, lag: int, now: int)

  /** Policy and boundary to apply, or nothing when this boot must not record a policy. */
  function Decide(b: Boot): Option<(int, int)> {
    match b.mode
    case Realtime => Some((BACKFILL_NONE, 0))
    case Everything =>
      if b.probe.None? || b.probe.value == 0 then None else Some((BACKFILL_ALL, b.probe.value))
    case Bounded(ms) =>
      if b.probe == Some(0) then None
      else
        var boundary := b.now - ms;
        Some((ms, if b.probe.Some? && b.probe.value > 0 && b.probe.value > boundary then b.probe.value else boundary))
  }

  function Apply(p: Position, policy: int, boundary: int): Position {
    if p.legacy then Position(p.cursor, policy, false)
    else if p.backfill == policy then p
    else Position(if policy != BACKFILL_NONE && 0 < boundary < p.cursor then boundary else p.cursor, policy, false)
  }

  function Placed(p: Position, b: Boot): Position {
    if Decide(b).None? then p else Apply(p, Decide(b).value.0, Decide(b).value.1)
  }

  function InitialCursor(b: Boot): int {
    if b.mode.Everything? && b.probe.Some? && b.probe.value > 0 then b.probe.value
    else if b.mode.Bounded? && Decide(b).Some? && Decide(b).value.1 > 0 then Decide(b).value.1
    else b.now - b.lag
  }

  /** Where a boot leaves the position; an initial cursor below zero is refused. */
  function Booted(p: Position, b: Boot): Position {
    var q := Placed(p, b);
    if q.cursor == 0 && InitialCursor(b) >= 0 then q.(cursor := InitialCursor(b)) else q
  }

  function Earlier(a: int, b: int): int {
    if a < b then a else b
  }

  function Later(a: int, b: int): int {
    if a < b then b else a
  }

  /**
   Where a boot must leave the position, as an operator would say it. With a sample found, "all" starts
   at it, and a bounded backfill at it or at `ms` before now, whichever is later; without an answer a
   bounded backfill starts at `ms` before now, and an empty database decides nothing. A first boot (cursor
   0) takes that start, or `lag` before now if there is none. A later one only ever moves back to it, and
   only if that policy is not the recorded one and the checkpoint is not a legacy one.
   */
  ghost predicate StartsAt(p: Position, b: Boot, q: Position) {
    var recent := if b.now - b.lag >= 0 then b.now - b.lag else 0;
    var stays := if p.cursor == 0 then recent else p.cursor;
    match b.mode
    case Realtime => q.backfill == BACKFILL_NONE && q.cursor == stays && !q.legacy
    case Everything =>
      if b.probe.Some? && b.probe.value > 0 then
        && q.backfill == BACKFILL_ALL && !q.legacy
        && q.cursor == (if p.cursor == 0 then b.probe.value
                        else if p.legacy || p.backfill == BACKFILL_ALL then p.cursor
                        else Earlier(p.cursor, b.probe.value))
      else q == p.(cursor := stays)
    case Bounded(ms) =>
      if b.probe == Some(0) then q == p.(cursor := stays)
      else
        var start := if b.probe.Some? then Later(b.now - ms, b.probe.value) else b.now - ms;
        && q.backfill == ms && !q.legacy
        && q.cursor == (if start <= 0 then stays
                        else if p.cursor == 0 then start
                        else if p.legacy || p.backfill == ms || ms == BACKFILL_NONE then p.cursor
                        else Earlier(p.cursor, start))
  }

  lemma BootedStartsAt(p: Position, b: Boot)
    ensures (b.probe.Some? ==> b.probe.value >= 0) ==> StartsAt(p, b, Booted(p, b))
  {
  }

  ghost function PositionOf(w: Wal): Position
    reads w
  {
    Position(w.cp.cursor, w.cp.backfill, w.legacy)
  }

  /** The first of up to five probe attempts that succeeds. */
  function FirstAnswer(attempts: seq<Option<int>>, n: nat): Option<int> {
    if n == 0 || |attempts| == 0 then None
    else if attempts[0].Some? then attempts[0]
    else FirstAnswer(attempts[1..], n - 1)
  }

  method ProbeWithRetries(attempts: seq<Option<int>>) returns (oldest: int, probeOk: bool)
    ensures FirstAnswer(attempts, 5) == if probeOk then Some(oldest) else None
    ensures !probeOk ==> oldest == 0
  {
    hide FirstAnswer;
    oldest, probeOk := 0, false;
    var i := 0;
    assert attempts[0..] == attempts;
    while i < 5 && i < |attempts|
      invariant 0 <= i <= 5 && i <= |attempts|
      invariant FirstAnswer(attempts, 5) == FirstAnswer(attempts[i..], 5 - i)
    {
      NextAttempt(attempts, i);
      if attempts[i].Some? {
        return attempts[i].value, true;
      }
      i := i + 1;
    }
    AttemptsOver(attempts, i);
  }

  method BackfillInit(w: Wal, mode: Mode, attempts: seq<Option<int>>, lag: int, now: int) returns (ok: bool)
    requires w.Valid()
    modifies w
    ensures w.Valid() && w.Pending() == old(w.Pending())
    ensures var b := Boot(mode, if mode == Realtime then Some(0) else FirstAnswer(attempts, 5), lag, now);
            && PositionOf(w) == Booted(old(PositionOf(w)), b)
            && (ok <==> Placed(old(PositionOf(w)), b).cursor != 0 || InitialCursor(b) >= 0)
            && ((b.probe.Some? ==> b.probe.value >= 0) ==> StartsAt(old(PositionOf(w)), b, PositionOf(w)))
    ensures old(w.Clean()) ==> w.Clean()
  {
    hide Journal.Queued, Journal.ReadAll, Journal.Logged, Journal.Steady, ViewOf, AllRecover, FirstAnswer, StartsAt;
    var oldest, probeOk := 0, true;
    if mode != Realtime {
      oldest, probeOk := ProbeWithRetries(attempts);
    }
    ghost var b := Boot(mode, if mode == Realtime then Some(0) else FirstAnswer(attempts, 5), lag, now);
    assert mode != Realtime ==> b.probe == if probeOk then Some(oldest) else None;
    BootedStartsAt(PositionOf(w), b);
    var policy, boundary, apply := BACKFILL_NONE, 0, true;
    match mode {
      case Realtime =>
      case Everything =>
        if !probeOk || oldest == 0 {
          apply := false;
        } else {
          policy, boundary := BACKFILL_ALL, oldest;
        }
      case Bounded(ms) =>
        if probeOk && oldest == 0 {
          apply := false;
        } else {
          policy := ms;
          boundary := now - ms;
          if probeOk && oldest > 0 && oldest > boundary {
            boundary := oldest;
          }
        }
    }
    assert Decide(b) == if apply then Some((policy, boundary)) else None;
    if apply {
      var _ := w.ApplyBackfillPolicy(policy, boundary);
    }
    ok := true;
    if w.cp.cursor == 0 {
      var init := now - lag;
      if mode == Everything && probeOk && oldest > 0 {
        init := oldest;
      } else if mode.Bounded? && boundary > 0 {
        init := boundary;
      }
      ok := w.SetCursor(init);
    }
  }

  lemma NextAttempt(attempts: seq<Option<int>>, i: nat)
    requires i < |attempts| && i < 5
    ensures FirstAnswer(attempts[i..], 5 - i)
         == if attempts[i].Some? then attempts[i] else FirstAnswer(attempts[i + 1..], 4 - i)
  {
    assert attempts[i..][1..] == attempts[i + 1..];
  }

  lemma AttemptsOver(attempts: seq<Option<int>>, i: nat)
    requires i <= |attempts| && i <= 5
    ensures i == 5 || i == |attempts| ==> FirstAnswer(attempts[i..], 5 - i) == None
  {
  }

  // ---------------------------------------------------------------- any sequence of boots

  /** The life of a deployment: boots, and the poller moving the cursor forward between them. */
  datatype Event = Started(b: Boot) | Polled(to: int)

  function Next(p: Position, e: Event): Position {
    match e
    case Started(b) => Booted(p, b)
    case Polled(to) => if to >= p.cursor then p.(cursor := to) else p
  }

  function Lived(p: Position, es: seq<Event>): Position {
    if |es| == 0 then p else Next(Lived(p, es[..|es| - 1]), es[|es| - 1])
  }

  /** A boot that decides on another policy than the recorded one, with a boundary before the cursor. */
  predicate ChangesPolicy(p: Position, e: Event) {
    && e.Started? && Decide(e.b).Some?
    && Decide(e.b).value.0 != p.backfill && Decide(e.b).value.0 != BACKFILL_NONE
    && 0 < Decide(e.b).value.1 < p.cursor
  }

  /**
   The cursor moves back in exactly one situation: the recorded policy changes to one that
   backfills, and its boundary lies before the cursor. Then it moves exactly to the boundary.
   */
  lemma RewindsIffPolicyChanges(p: Position, e: Event)
    requires !p.legacy && p.cursor >= 0
    ensures Next(p, e).cursor < p.cursor <==> ChangesPolicy(p, e)
    ensures ChangesPolicy(p, e) ==> Next(p, e).cursor == Decide(e.b).value.1 && Next(p, e).backfill != p.backfill
    ensures !Next(p, e).legacy && Next(p, e).cursor >= 0
  {
  }

  /** Over any life: unless some boot changes the policy, the cursor ends no earlier than it began. */
  lemma {:induction false} UnchangedPolicyNeverRewinds(p: Position, es: seq<Event>)
    requires !p.legacy && p.cursor >= 0
    requires forall i :: 0 <= i < |es| ==> !ChangesPolicy(Lived(p, es[..i]), es[i])
    ensures Lived(p, es).cursor >= p.cursor && !Lived(p, es).legacy
  {
    if |es| > 0 {
      var before := es[..|es| - 1];
      forall i | 0 <= i < |before| ensures !ChangesPolicy(Lived(p, before[..i]), before[i]) {
        assert before[..i] == es[..i];
      }
      UnchangedPolicyNeverRewinds(p, before);
      RewindsIffPolicyChanges(Lived(p, before), es[|es| - 1]);
    }
  }

  /** A boot in "all" mode whose probe fails or finds nothing. */
  predicate Fruitless(e: Event) {
    e.Polled? || (e.b.mode.Everything? && (e.b.probe.None? || e.b.probe.value == 0))
  }

  lemma {:induction false} FruitlessBootsRecordNothing(p: Position, es: seq<Event>)
    requires !p.legacy && p.cursor >= 0 && forall e :: e in es ==> Fruitless(e)
    ensures var q := Lived(p, es);
            q.backfill == p.backfill && !q.legacy && q.cursor >= 0
  {
    if |es| > 0 {
      assert es[|es| - 1] in es;
      FruitlessBootsRecordNothing(p, es[..|es| - 1]);
      RewindsIffPolicyChanges(Lived(p, es[..|es| - 1]), es[|es| - 1]);
    }
  }

  /**
   Failed and empty probes do not use up the policy: however many of them come first, and however
   far realtime polling has moved the cursor, the first boot whose probe answers leaves the cursor
   at or before the oldest sample.
   */
  lemma FirstGoodProbeReachesOldest(p: Position, es: seq<Event>, b: Boot)
    requires !p.legacy && p.cursor >= 0 && p.backfill != BACKFILL_ALL
    requires forall e :: e in es ==> Fruitless(e)
    requires b.mode.Everything? && b.probe.Some? && b.probe.value > 0
    ensures var q := Lived(p, es + [Started(b)]);
            0 < q.cursor <= b.probe.value && q.backfill == BACKFILL_ALL
  {
    FruitlessBootsRecordNothing(p, es);
    var all := es + [Started(b)];
    assert all[..|all| - 1] == es && all[|all| - 1] == Started(b);
  }

  /** Once recorded, the same policy never moves the cursor again. */
  lemma RecordedPolicyIsFinal(p: Position, b: Boot)
    requires !p.legacy && p.cursor > 0 && Decide(b).Some? && Decide(b).value.0 == p.backfill
    ensures Booted(p, b) == p
  {
  }
}
