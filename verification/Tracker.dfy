/** The receiver's contiguous-prefix tracker: which sequence numbers are known to be complete. */
module Tracker {

  const JUMP_LIMIT: nat := 100000
  const PENDING_LIMIT: nat := 65536

  /** All numbers up to `last` are settled; `pending` completed out of order beyond it. */
  datatype State = State(last: nat, pending: set<nat>)

  /** The greatest number that can be reached from `last` through `done` without a gap. */
  function Reach(last: nat, done: set<nat>): (r: nat)
    ensures last <= r
    ensures forall n :: last < n <= r ==> n in done
    ensures r + 1 !in done
    decreases done
  {
    if last + 1 in done then
      var r := Reach(last + 1, done - {last + 1});
      r
    else last
  }

  function After(s: set<nat>, n: nat): set<nat> {
    set k | k in s && k > n
  }

  /** The effect of completing `n`. */
  function Done(s: State, n: nat): (s': State)
    ensures s.last <= s'.last
  {
    if n <= s.last then s
    else if n > s.last + JUMP_LIMIT then State(n, {})
    else
      var done := s.pending + {n};
      var last := Reach(s.last, done);
      var rest := After(done, last);
      State(last, if |rest| > PENDING_LIMIT then {} else rest)
  }

  /** The effect of closing a gap up to `upTo`. */
  function CloseGap(s: State, upTo: nat): (s': State)
    ensures s.last <= s'.last
  {
    var last := if upTo > s.last then upTo else s.last;
    State(last, After(s.pending, last))
  }

  ghost predicate Ahead(s: State) {
    forall k :: k in s.pending ==> k > s.last
  }

  class SeqTracker {
    var last: nat
    var pending: set<nat>

    ghost function Value(): State
      reads this
    {
      State(last, pending)
    }

    constructor (v: nat)
      ensures Value() == State(v, {})
    {
      last, pending := v, {};
    }

    method CloseGapTo(upTo: nat)
      modifies this
      ensures Value() == CloseGap(old(Value()), upTo)
    {
      if upTo > last {
        last := upTo;
      }
      pending := set s | s in pending && !(s <= last);
    }

    method MarkDone(n: nat) returns (advanced: bool)
      requires Ahead(Value())
      modifies this
      ensures Value() == Done(old(Value()), n) && Ahead(Value())
      ensures advanced <==> last > old(last)
    {
      if n <= last {
        return false;
      }
      if n > last + JUMP_LIMIT {
        last := n;
        pending := {};
        return true;
      }
      ghost var done := pending + {n};
      ghost var start := last;
      pending := pending + {n};
      advanced := false;
      while last + 1 in pending
        invariant start <= last && (advanced <==> last > start)
        invariant pending == After(done, last)
        invariant forall k :: start < k <= last ==> k in done
        decreases pending
      {
        pending := pending - {last + 1};
        last := last + 1;
        advanced := true;
      }
      ReachUnique(start, done, last);
      if |pending| > PENDING_LIMIT {
        pending := {};
      }
    }
  }

  lemma {:induction false} ReachUnique(last: nat, done: set<nat>, r: nat)
    requires last <= r && (forall n :: last < n <= r ==> n in done) && r + 1 !in done
    ensures Reach(last, done) == r
    decreases done
  {
    if last + 1 in done {
      ReachUnique(last + 1, done - {last + 1}, r);
    }
  }

  // ---------------------------------------------------------------- runs

  datatype Op = Complete(n: nat) | Close(n: nat)

  function Step(s: State, op: Op): State {
    match op
    case Complete(n) => Done(s, n)
    case Close(n) => CloseGap(s, n)
  }

  function Run(s: State, ops: seq<Op>): State {
    if |ops| == 0 then s else Step(Run(s, ops[..|ops| - 1]), ops[|ops| - 1])
  }

  /** Why the number `n` counts as settled after this operation: completed, jumped over, or closed over. */
  predicate Accounts(s: State, op: Op, n: nat) {
    match op
    case Complete(m) => m == n || (m > s.last + JUMP_LIMIT && s.last < n < m)
    case Close(m) => s.last < n <= m
  }

  ghost predicate Accounted(start: nat, ops: seq<Op>, n: nat) {
    exists i :: 0 <= i < |ops| && Accounts(Run(State(start, {}), ops[..i]), ops[i], n)
  }

  lemma AccountedLonger(start: nat, ops: seq<Op>, n: nat)
    requires |ops| > 0 && Accounted(start, ops[..|ops| - 1], n)
    ensures Accounted(start, ops, n)
  {
    var init := ops[..|ops| - 1];
    var i :| 0 <= i < |init| && Accounts(Run(State(start, {}), init[..i]), init[i], n);
    assert init[..i] == ops[..i];
    assert Accounts(Run(State(start, {}), ops[..i]), ops[i], n);
  }

  /**
   Safety over every run of completions and gap closures: each number the tracker has passed was
   completed, or lies in an interval skipped by a jump of more than 100000 or by a gap closure.
   Numbers kept as pending were completed.
   */
  lemma {:induction false} PassedIsAccounted(start: nat, ops: seq<Op>)
    ensures var s := Run(State(start, {}), ops);
            && start <= s.last && Ahead(s)
            && (forall n :: start < n <= s.last ==> Accounted(start, ops, n))
            && (forall n :: n in s.pending ==> Accounted(start, ops, n))
  {
    var s := Run(State(start, {}), ops);
    if |ops| > 0 {
      var init, op := ops[..|ops| - 1], ops[|ops| - 1];
      PassedIsAccounted(start, init);
      var was := Run(State(start, {}), init);
      forall n | start < n && (n <= s.last || n in s.pending) ensures Accounted(start, ops, n) {
        if n <= was.last || n in was.pending {
          AccountedLonger(start, ops, n);
        } else {
          NewlyPassed(was, op, n);
          assert Accounts(Run(State(start, {}), ops[..|ops| - 1]), ops[|ops| - 1], n);
        }
      }
    }
  }

  lemma NewlyPassed(s: State, op: Op, n: nat)
    requires s.last < n && n !in s.pending
    requires n <= Step(s, op).last || n in Step(s, op).pending
    ensures Accounts(s, op, n)
  {
    if op.Complete? && s.last < op.n <= s.last + JUMP_LIMIT {
      assert n in s.pending + {op.n};
    }
  }

  // ---------------------------------------------------------------- order of completion

  function Completions(ds: seq<nat>): seq<Op> {
    seq(|ds|, i requires 0 <= i < |ds| => Complete(ds[i]))
  }

  function Above(start: nat, ds: seq<nat>): set<nat> {
    set d | d in ds && d > start
  }

  lemma ReachFurther(start: nat, done: set<nat>, d: nat)
    requires forall k :: k in done ==> k > start
    requires d > Reach(start, done)
    ensures Reach(start, done + {d}) == Reach(Reach(start, done), After(done, Reach(start, done)) + {d})
  {
    var mid := Reach(start, done);
    var r := Reach(mid, After(done, mid) + {d});
    ReachUnique(start, done + {d}, r);
  }

  /**
   Confluence: within 100000 of the start and without overflow, the tracker ends at the greatest
   number all of whose predecessors completed, whatever the order of completion.
   */
  lemma {:induction false} OrderDoesNotMatter(start: nat, ds: seq<nat>)
    requires forall d :: d in ds ==> d <= start + JUMP_LIMIT
    requires |Above(start, ds)| <= PENDING_LIMIT
    ensures var last := Reach(start, Above(start, ds));
            Run(State(start, {}), Completions(ds)) == State(last, After(Above(start, ds), last))
  {
    hide Reach, Done;
    var all := Above(start, ds);
    if |ds| == 0 {
      ReachUnique(start, all, start);
      assert After(all, start) == {};
    } else {
      var init, d := ds[..|ds| - 1], ds[|ds| - 1];
      var done := Above(start, init);
      assert ds == init + [d];
      assert forall x :: x in ds <==> x in init || x == d;
      assert all == if d > start then done + {d} else done;
      Fewer(done, all);
      OrderDoesNotMatter(start, init);
      assert Completions(ds)[..|ds| - 1] == Completions(init);
      OneMoreDone(start, done, d);
    }
  }

  /** One completion, whatever completed before it. */
  lemma OneMoreDone(start: nat, done: set<nat>, d: nat)
    requires d <= start + JUMP_LIMIT && (forall k :: k in done ==> k > start)
    requires |if d > start then done + {d} else done| <= PENDING_LIMIT
    ensures var all := if d > start then done + {d} else done;
            var last := Reach(start, all);
            Done(State(Reach(start, done), After(done, Reach(start, done))), d) == State(last, After(all, last))
  {
    var all := if d > start then done + {d} else done;
    var mid := Reach(start, done);
    if d > mid {
      ReachFurther(start, done, d);
      var last := Reach(start, all);
      assert After(After(done, mid) + {d}, last) == After(all, last);
      Fewer(After(all, last), all);
    } else {
      assert all == done;
    }
  }

  lemma Fewer(a: set<nat>, b: set<nat>)
    requires a <= b
    ensures |a| <= |b|
  {
    if a != b {
      assert b == a + (b - a);
    }
  }

  /** Closing a gap does not look at the next number: it may stay pending... */
  lemma CloseMayLeaveNextPending(s: State, upTo: nat)
    requires Ahead(s)
    ensures var s' := CloseGap(s, upTo);
            s'.last + 1 in s'.pending <==> s'.last + 1 in s.pending
  {
  }

  /** ...until the next completion within range, which always drains it. */
  lemma NextCompletionDrains(s: State, n: nat)
    requires Ahead(s) && s.last < n <= s.last + JUMP_LIMIT
    ensures var s' := Done(s, n);
            s'.last + 1 !in s'.pending && (s.last + 1 in s.pending ==> s'.last > s.last)
  {
    var done := s.pending + {n};
    var last := Reach(s.last, done);
    assert last + 1 !in done;
    if s.last + 1 in s.pending {
      assert last != s.last;
    }
  }

  /** From `last` on, everything in `done` without a gap was passed; what is left is kept unless it is too much. */
  ghost predicate Drained(done: set<nat>, last: nat, after: State) {
    var rest := set k | k in done && k > after.last;
    && last <= after.last && (forall k :: last < k <= after.last ==> k in done) && after.last + 1 !in done
    && after.pending == if |rest| > PENDING_LIMIT then {} else rest
  }

  /** What every operation does, exactly: a closure reaches its end, a jump its number, a completion the end of its run. */
  lemma EveryOperationLands(start: nat, ops: seq<Op>)
    requires |ops| > 0
    ensures var before, after := Run(State(start, {}), ops[..|ops| - 1]), Run(State(start, {}), ops);
            match ops[|ops| - 1]
            case Close(u) =>
              && (u <= before.last ==> after.last == before.last) && (u > before.last ==> after.last == u)
              && (forall k :: k in after.pending <==> k in before.pending && k > after.last)
            case Complete(n) =>
              && (n <= before.last ==> after == before)
              && (before.last < n <= before.last + JUMP_LIMIT ==> Drained(before.pending + {n}, before.last, after))
              && (n > before.last + JUMP_LIMIT ==> after.last == n && after.pending == {})
  {
    hide Done, Drained, Run;
    var before := Run(State(start, {}), ops[..|ops| - 1]);
    LastStep(start, ops);
    if ops[|ops| - 1].Complete? {
      DoneDrains(before, ops[|ops| - 1].n);
    }
  }

  lemma LastStep(start: nat, ops: seq<Op>)
    requires |ops| > 0
    ensures Run(State(start, {}), ops) == Step(Run(State(start, {}), ops[..|ops| - 1]), ops[|ops| - 1])
  {
    hide Step;
  }

  lemma DoneDrains(s: State, n: nat)
    ensures n <= s.last ==> Done(s, n) == s
    ensures n > s.last + JUMP_LIMIT ==> Done(s, n) == State(n, {})
    ensures s.last < n <= s.last + JUMP_LIMIT ==> Drained(s.pending + {n}, s.last, Done(s, n))
  {
    hide Reach;
    if s.last < n <= s.last + JUMP_LIMIT {
      var done := s.pending + {n};
      var last := Reach(s.last, done);
      assert After(done, last) == set k | k in done && k > last;
    }
  }
}
