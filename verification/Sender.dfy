/**
 The sending loops: stop-and-wait and go-back-N. The environment is a script of outcomes, one
 per network operation; each also carries the frames the poller appends meanwhile. When the
 script is used up the context counts as cancelled, so a run of the loop is any finite prefix
 of an execution.
 */
module Sender {
  import opened Bytes
  import opened Codec
  import opened Records
  import opened WriteAheadLog
  import opened Link
  import Journal
  import opened Queues

  /** Result of one operation: did it work, which byte was read, what was appended meanwhile. */
  datatype Outcome = Outcome(ok: bool, ack: byte, elapsed: bool, typ: byte, appended: seq<bytes>)

  /** The next `n` operations succeed and read 0xff. */
  predicate Smooth(script: seq<Outcome>, n: nat) {
    |script| >= n && forall i :: 0 <= i < n ==> script[i].ok && script[i].ack == ACK_SUCCESS
  }

  /** The first `n` outcomes have been used up. */
  ghost predicate Used(before: seq<Outcome>, n: nat, now: seq<Outcome>) {
    n <= |before| && now == before[n..]
  }

  lemma UsedTwice(s0: seq<Outcome>, n: nat, s1: seq<Outcome>, m: nat, s2: seq<Outcome>)
    requires Used(s0, n, s1) && Used(s1, m, s2)
    ensures Used(s0, n + m, s2)
  {
  }

  /** The history and the appended frames have only grown. */
  ghost predicate Extends(t0: seq<Event<FrameData>>, a0: seq<FrameData>, t1: seq<Event<FrameData>>, a1: seq<FrameData>) {
    t0 <= t1 && a0 <= a1
  }

  lemma ExtendsTwice(t0: seq<Event<FrameData>>, a0: seq<FrameData>, t1: seq<Event<FrameData>>, a1: seq<FrameData>,
                     t2: seq<Event<FrameData>>, a2: seq<FrameData>)
    requires Extends(t0, a0, t1, a1) && Extends(t1, a1, t2, a2)
    ensures Extends(t0, a0, t2, a2)
  {
  }

  /** These events came first. */
  ghost predicate Begins(t0: seq<Event<FrameData>>, es: seq<Event<FrameData>>, t1: seq<Event<FrameData>>) {
    t0 + es <= t1
  }

  lemma BeginsLonger(t0: seq<Event<FrameData>>, es: seq<Event<FrameData>>, t1: seq<Event<FrameData>>, a1: seq<FrameData>,
                     t2: seq<Event<FrameData>>, a2: seq<FrameData>)
    requires Begins(t0, es, t1) && Extends(t1, a1, t2, a2)
    ensures Begins(t0, es, t2)
  {
  }

  /** Two stretches of history, and two of the script, make one. */
  lemma AddUp(t0: seq<Event<FrameData>>, a0: seq<FrameData>, t1: seq<Event<FrameData>>, a1: seq<FrameData>,
              t2: seq<Event<FrameData>>, a2: seq<FrameData>, e: Event<FrameData>,
              s0: seq<Outcome>, s1: seq<Outcome>, s2: seq<Outcome>, n: nat)
    requires Extends(t0, a0, t1, a1) && Extends(t1, a1, t2, a2)
    ensures Extends(t0, a0, t2, a2)
    ensures Begins(t0, [e], t1) ==> Begins(t0, [e], t2)
    ensures Used(s0, n, s1) && Used(s1, n, s2) ==> Used(s0, 2 * n, s2)
  {
  }

  lemma OneUsed(s0: seq<Outcome>, s1: seq<Outcome>)
    ensures s0 != [] && s1 == s0[1..] ==> Used(s0, 1, s1)
  {
  }

  lemma TraceOnly(t0: seq<Event<FrameData>>, t1: seq<Event<FrameData>>, a: seq<FrameData>)
    requires t0 <= t1
    ensures Extends(t0, a, t1, a)
  {
  }

  lemma SmoothHalves(script: seq<Outcome>, n: nat)
    ensures Smooth(script, 2 * n) ==> Smooth(script, n) && forall rest :: Used(script, n, rest) ==> Smooth(rest, n)
  {
  }

  lemma SmoothRest(script: seq<Outcome>, n: nat, m: nat)
    requires Smooth(script, n) && m <= n
    ensures Smooth(script[m..], n - m)
  {
  }

  lemma SmoothLong(script: seq<Outcome>, n: nat)
    requires Smooth(script, n)
    ensures |script| >= n
  {
  }

  lemma SmoothLess(script: seq<Outcome>, n: nat, m: nat)
    requires m <= n
    ensures Smooth(script, n) ==> Smooth(script, m)
  {
  }

  /** The frame of a heartbeat. */
  function Beat(): FrameData {
    FrameData(0, FrameBytes(Frame(TYPE_HEARTBEAT, 0, 0, [])))
  }

  /** Whatever the poller appends during the run is a frame of the type it says. */
  ghost predicate Feeds(script: seq<Outcome>) {
    forall o :: o in script ==> FeedsFrames(o)
  }

  ghost predicate FeedsFrames(o: Outcome) {
    forall f :: f in o.appended ==> ValidFrame(f) && f[3] == o.typ
  }

  lemma FeedsRest(script: seq<Outcome>)
    requires Feeds(script) && script != []
    ensures FeedsFrames(script[0]) && Feeds(script[1..])
  {
  }

  /** `frames` is a contiguous block of the pending frames. */
  ghost predicate Block(pending: seq<FrameData>, at: nat, frames: seq<FrameData>) {
    at + |frames| <= |pending| && pending[at..at + |frames|] == frames
  }

  lemma NumberedFrom(frames: seq<bytes>, next: nat)
    requires forall f :: f in frames ==> |f| >= HEADER_SIZE
    ensures forall p :: p in Numbered(frames, next) ==> p.seqNo >= next
  {
    hide RewriteSeq;
  }

  ghost predicate Grew(app: seq<FrameData>, pend: seq<FrameData>, next: nat,
                       app': seq<FrameData>, pend': seq<FrameData>, next': nat)
  {
    && app <= app' && pend' == pend + app'[|app|..]
    && next <= next' && forall p :: p in app'[|app|..] ==> p.seqNo >= next
  }

  lemma GrewTwice(a0: seq<FrameData>, p0: seq<FrameData>, n0: nat, a1: seq<FrameData>, p1: seq<FrameData>, n1: nat,
                  a2: seq<FrameData>, p2: seq<FrameData>, n2: nat)
    requires Grew(a0, p0, n0, a1, p1, n1) && Grew(a1, p1, n1, a2, p2, n2)
    ensures Grew(a0, p0, n0, a2, p2, n2)
  {
    assert a2[|a0|..] == a1[|a0|..] + a2[|a1|..];
  }

  lemma BlockGrows(a0: seq<FrameData>, p0: seq<FrameData>, n0: nat, a1: seq<FrameData>, p1: seq<FrameData>, n1: nat,
                   at: nat, frames: seq<FrameData>)
    requires Grew(a0, p0, n0, a1, p1, n1) && Block(p0, at, frames)
    ensures Block(p1, at, frames)
  {
    assert p1[at..at + |frames|] == p0[at..at + |frames|];
  }

  lemma BlockRest(pending: seq<FrameData>, at: nat, frames: seq<FrameData>, i: nat)
    requires Block(pending, at, frames) && i <= |frames|
    ensures Block(pending, at + i, frames[i..])
  {
    assert pending[at + i..at + |frames|] == pending[at..at + |frames|][i..];
  }

  lemma BlockHead(pending: seq<FrameData>, at: nat, frames: seq<FrameData>)
    requires Block(pending, at, frames) && frames != []
    ensures at < |pending| && pending[at] == frames[0]
    ensures Block(pending, at + 1, frames[1..])
    ensures at == 0 ==> Block(pending[1..], 0, frames[1..])
  {
    BlockRest(pending, at, frames, 1);
    assert pending[at..at + |frames|][0] == pending[at];
    if at == 0 {
      assert pending[1..][0..|frames| - 1] == pending[1..|frames|];
    }
  }

  /** A frame kept from an earlier look at the log is still what the log holds under that number. */
  ghost predicate Fresh(cache: Option<FrameData>, pending: seq<FrameData>, next: nat) {
    cache.Some? ==> cache.value.seqNo < next && forall p :: p in pending && p.seqNo == cache.value.seqNo ==> p == cache.value
  }

  /** What is pending now was pending then, or carries a number not yet assigned then. */
  ghost predicate Evolved(p0: seq<FrameData>, n0: nat, p1: seq<FrameData>, n1: nat) {
    n0 <= n1 && forall p :: p in p1 ==> p in p0 || p.seqNo >= n0
  }

  lemma EvolvedTwice(p0: seq<FrameData>, n0: nat, p1: seq<FrameData>, n1: nat, p2: seq<FrameData>, n2: nat)
    requires Evolved(p0, n0, p1, n1) && Evolved(p1, n1, p2, n2)
    ensures Evolved(p0, n0, p2, n2)
  {
  }

  lemma GrewEvolves(a0: seq<FrameData>, p0: seq<FrameData>, n0: nat, a1: seq<FrameData>, p1: seq<FrameData>, n1: nat)
    requires Grew(a0, p0, n0, a1, p1, n1)
    ensures Evolved(p0, n0, p1, n1)
  {
  }

  lemma PopEvolves(p0: seq<FrameData>, n0: nat, p1: seq<FrameData>)
    requires p1 == p0 || (p0 != [] && p1 == p0[1..])
    ensures Evolved(p0, n0, p1, n0)
  {
  }

  lemma FreshAfter(cache: Option<FrameData>, p0: seq<FrameData>, n0: nat, p1: seq<FrameData>, n1: nat)
    requires Fresh(cache, p0, n0) && Evolved(p0, n0, p1, n1)
    ensures Fresh(cache, p1, n1)
  {
  }

  lemma Regroup(base: seq<FrameData>, app: seq<FrameData>, com: seq<FrameData>, pend: seq<FrameData>, more: seq<FrameData>)
    ensures app <= app + more && (app + more)[|app|..] == more
    ensures base + app == com + pend ==> base + (app + more) == com + (pend + more)
  {
    assert base + (app + more) == (base + app) + more && com + (pend + more) == (com + pend) + more;
  }

  /** The connection is up and owes one byte for each of these frames, in order. */
  ghost predicate Due(c: Client<FrameData>, frames: seq<FrameData>) {
    c.live && !c.spoiled && |c.acks| <= |c.sent| && c.sent[|c.acks|..] == frames && (frames != [] ==> c.owed.None?)
  }

  lemma WindowIsBlock(pending: seq<FrameData>, n: int, frames: seq<FrameData>)
    requires pending != [] && (frames == [pending[0]] || frames == pending[..PeekCount(|pending|, n)])
    ensures Block(pending, 0, frames) && frames != []
  {
  }

  /** The head's number is its own, so a cached copy under that number is the head itself. */
  lemma CacheAgrees(w: Wal, cache: Option<FrameData>, head: FrameData)
    requires w.Valid() && w.Pending() != [] && w.Pending()[0] == head
    requires Fresh(cache, w.Pending(), w.cp.nextSeq)
    ensures cache.Some? && cache.value.seqNo == head.seqNo ==> cache.value == head
    ensures Fresh(Some(head), w.Pending(), w.cp.nextSeq)
  {
    assert head in w.Pending();
    forall i | 0 <= i < |w.Pending()| ensures w.Pending()[i].seqNo == w.Pend()[i].seqNo {
    }
    assert w.Pend()[|w.Pend()| - 1].seqNo + 1 == w.cp.nextSeq;
  }

  lemma HeadNumber(w: Wal, at: nat)
    requires w.Valid() && at < |w.Pending()|
    ensures w.Pending()[at].seqNo == w.Pending()[0].seqNo <==> at == 0
  {
    assert w.Pend()[at].seqNo == w.Pending()[at].seqNo;
  }

  lemma HeadStays(a0: seq<FrameData>, p0: seq<FrameData>, n0: nat, a1: seq<FrameData>, p1: seq<FrameData>, n1: nat)
    requires Grew(a0, p0, n0, a1, p1, n1)
    ensures a0 <= a1 && p0 <= p1
  {
  }

  lemma NothingCached(pending: seq<FrameData>, next: nat)
    ensures Fresh(None, pending, next)
  {
  }

  lemma AfterTick(s0: seq<Outcome>, s1: seq<Outcome>, up: bool, m: nat)
    requires Used(s0, 1, s1)
    ensures var d := if up then 0 else 1; Smooth(s0, d + 1 + 2 * m) ==> Smooth(s1, d + 2 * m)
    ensures |s0| >= 2 ==> s1 != [] && s1[0] == s0[1]
  {
  }

  lemma Dials(s0: seq<Outcome>, up: bool, s1: seq<Outcome>, m: nat)
    ensures !up && Smooth(s0, 1 + 2 * m) ==> s0 != [] && s0[0].ok && (s1 == s0[1..] ==> Smooth(s1, 2 * m))
    ensures up && s1 == s0 && Smooth(s0, 2 * m) ==> Smooth(s1, 2 * m)
  {
  }

  lemma AfterDial(s0: seq<Outcome>, up: bool, s1: seq<Outcome>, n: nat, s2: seq<Outcome>)
    requires Used(s1, n, s2) && (if up then s1 == s0 else s0 != [] && s1 == s0[1..])
    ensures Used(s0, (if up then 0 else 1) + n, s2)
  {
  }

  /** Outcomes enough, and good enough, for `left` more frames to be committed. */
  ghost predicate Pays(script: seq<Outcome>, left: int, m: nat, up: bool) {
    left > 0 ==> Smooth(script, Cost(left, m) + if up then 0 else 1)
  }

  lemma PaysForTurn(script: seq<Outcome>, left: int, m: nat, up: bool)
    requires Pays(script, left, m, up) && left > 0 && m >= 1
    ensures Smooth(script, (if up then 1 else 2) + 2 * m) && script != []
  {
    hide Cost;
    Affords(left, 1, m);
  }

  lemma SmoothAfter(s0: seq<Outcome>, n: nat, used: nat, s1: seq<Outcome>, m: nat)
    requires Smooth(s0, n) && Used(s0, used, s1) && used + m <= n
    ensures Smooth(s1, m)
  {
  }

  lemma PaysOn(s0: seq<Outcome>, left: int, m: nat, up: bool, k: nat, s1: seq<Outcome>)
    requires Pays(s0, left, m, up) && left > 0 && 1 <= k && 1 <= m && Used(s0, (if up then 1 else 2) + 2 * k, s1)
    ensures Pays(s1, left - k, m, true)
  {
    hide Cost, Smooth, Used;
    if left > k {
      Affords(left, k, m);
      var d := if up then 0 else 1;
      SmoothAfter(s0, Cost(left, m) + d, 1 + d + 2 * k, s1, Cost(left - k, m));
    }
  }

  /** Outcomes that suffice to commit that many frames over a live link. */
  function Cost(frames: nat, m: nat): nat {
    frames * (1 + 2 * m)
  }

  /** A turn that commits `k` of `left` frames costs no more than its share. */
  lemma Affords(left: nat, k: nat, m: nat)
    requires 1 <= k && 1 <= m && left >= 1
    ensures Cost(left, m) >= 1 + 2 * m
    ensures k <= left ==> 1 + 2 * k + Cost(left - k, m) <= Cost(left, m)
  {
    var unit := 1 + 2 * m;
    assert left * unit >= unit by { AtLeast(left, unit); }
    if k <= left {
      assert left * unit == (left - k) * unit + k * unit;
      assert k * unit == k + 2 * (k * m);
      AtLeast(m, k);
      assert k * m == m * k;
    }
  }

  lemma AtLeast(a: nat, b: nat)
    requires a >= 1
    ensures a * b >= b
  {
    assert a * b == (a - 1) * b + b;
  }

  lemma PaidOff(script: seq<Outcome>, left: int, m: nat, up: bool)
    requires Pays(script, left, m, up) && script == [] && m >= 1
    ensures left <= 0
  {
    hide Cost;
    if left > 0 {
      Affords(left, 1, m);
    }
  }

  lemma NothingToPay(script: seq<Outcome>, left: int, m: nat, up: bool)
    ensures left <= 0 ==> Pays(script, left, m, up)
  {
  }

  lemma Same(t: seq<Event<FrameData>>, a: seq<FrameData>)
    ensures Extends(t, a, t, a)
  {
  }

  lemma Grows(t0: seq<Event<FrameData>>, a0: seq<FrameData>, t1: seq<Event<FrameData>>, a1: seq<FrameData>,
              t2: seq<Event<FrameData>>, a2: seq<FrameData>)
    requires Extends(t0, a0, t1, a1) && Extends(t1, a1, t2, a2)
    ensures Extends(t0, a0, t2, a2) && |Commits(t1)| <= |Commits(t2)|
  {
    Longer(t1, t2);
  }

  /** While fewer than `p` more are committed, something of what was there is pending. */
  lemma Counts(base: seq<FrameData>, a0: seq<FrameData>, a1: seq<FrameData>, com: seq<FrameData>, pend: seq<FrameData>, c: nat, p: nat,
               t0: seq<Event<FrameData>>, t1: seq<Event<FrameData>>)
    requires Extends(t0, a0, t1, a1) && base + a1 == com + pend
    ensures |base| + |a0| == c + p && |com| < c + p ==> pend != []
  {
    assert |base + a1| == |com + pend|;
  }

  /** Enough commits, in order, are commits of the first frames there were. */
  lemma EnoughCommitted(base: seq<FrameData>, a0: seq<FrameData>, a1: seq<FrameData>, c0: seq<FrameData>, p0: seq<FrameData>,
                   c1: seq<FrameData>, p1: seq<FrameData>, t0: seq<Event<FrameData>>, t1: seq<Event<FrameData>>)
    requires Extends(t0, a0, t1, a1) && base + a0 == c0 + p0 && base + a1 == c1 + p1 && |c1| >= |c0| + |p0|
    ensures c0 + p0 <= c1
  {
    var n := |c0| + |p0|;
    assert (base + a1)[..n] == base + a0;
    assert (c1 + p1)[..n] == c1[..n];
  }

  class Sender {
    const wal: Wal
    const window: int
    var script: seq<Outcome>
    var live: bool

    ghost const base: seq<FrameData>
    /** The log recovered from every disk state before the run, and only frames are appended to it. */
    ghost const tidy: bool
    ghost var trace: seq<Event<FrameData>>
    ghost var appended: seq<FrameData>

    constructor (w: Wal, pipeline: int, events: seq<Outcome>)
      requires w.Valid()
      ensures Valid() && wal == w && script == events && trace == [] && appended == [] && !live
      ensures base == w.Pending() && tidy == (w.Clean() && Feeds(events)) && Quiet(Conn()) && Oriented()
      ensures window == if pipeline <= 0 then 1 else pipeline
    {
      hide Journal.Queued, Journal.ReadAll, ViewOf;
      wal := w;
      window := if pipeline <= 0 then 1 else pipeline;
      script := events;
      live := false;
      base, trace, appended, tidy := w.Pending(), [], [], w.Clean() && Feeds(events);
    }

    ghost function Conn(): Client<FrameData>
      reads this
    {
      Replay(trace)
    }

    /** The trace obeys the link discipline and describes the connection. */
    ghost predicate Linked()
      reads this, wal
    {
      wal.Valid() && Disciplined(trace) && GoesBack(trace, Beat()) && Conn().live == live
    }

    /** Sending `f` next continues where the window was interrupted. */
    ghost predicate Next(f: FrameData)
      reads this`trace
    {
      Follows(Replay(trace), f, Beat())
    }

    /** Nothing was interrupted but perhaps a heartbeat. */
    ghost predicate Free()
      reads this`trace
    {
      Replay(trace).owed.Some? ==> Replay(trace).owed.value == Beat()
    }

    /** The history and the appended frames have only grown since. */
    ghost predicate Onward(hadTrace: seq<Event<FrameData>>, hadAppended: seq<FrameData>)
      reads this`trace, this`appended
    {
      Extends(hadTrace, hadAppended, trace, appended)
    }

    /** Linked, and no frame is lost or reordered: what was there or appended is committed or pending. */
    ghost predicate Valid()
      reads this, wal
    {
      Linked() && base + appended == Commits(trace) + wal.Pending() && Tidy()
    }

    /** A tidy run leaves the log recoverable, as long as its numbers fit 64 bits. */
    ghost predicate Tidy()
      reads this`script, wal
    {
      tidy ==> Feeds(script) && (wal.cp.nextSeq <= U64 ==> wal.Clean())
    }

    lemma TidyRecovers()
      requires Valid()
      ensures tidy && wal.cp.nextSeq <= U64 ==> wal.Clean()
    {
    }

    ghost method Log(e: Event<FrameData>)
      requires wal.Valid() && Disciplined(trace) && Allowed(Conn(), e) && Apply(Conn(), e).live == live
      requires GoesBack(trace, Beat()) && (e.Sent? ==> Next(e.f))
      modifies this`trace
      ensures Linked() && trace == old(trace) + [e] && Conn() == Apply(old(Conn()), e)
      ensures Commits(trace) == old(Commits(trace)) + if e.Committed? then [e.f] else []
    {
      hide Allowed, Apply, Follows, Beat;
      OneMore(trace, e);
      assert (trace + [e])[..|trace|] == trace;
      trace := trace + [e];
    }

    // -------------------------------------------------------------- network operations

    /** Takes the next outcome off the script; the poller's appends happen first. */
    method Tick() returns (o: Outcome)
      requires Valid() && script != []
      modifies this`script, this`appended, wal
      ensures Valid() && script == old(script)[1..] && o == old(script)[0]
      ensures o.appended == [] ==> wal.Pending() == old(wal.Pending())
      ensures Grown(old(appended), old(wal.Pending()), old(wal.cp.nextSeq))
    {
      hide Journal.Queued, Journal.ReadAll, ViewOf, Replay, Disciplined, GoesBack, Beat, Numbered, Commits;
      o := script[0];
      if tidy {
        FeedsRest(script);
      }
      script := script[1..];
      ghost var was := wal.Pending();
      ghost var more := Feed(o);
      Regroup(base, appended, Commits(trace), was, more);
      appended := appended + more;
    }

    /** The poller appends, meanwhile. */
    method Feed(o: Outcome) returns (ghost more: seq<FrameData>)
      requires wal.Valid()
      modifies wal
      ensures wal.Valid() && wal.Pending() == old(wal.Pending()) + more && wal.cp.nextSeq >= old(wal.cp.nextSeq)
      ensures (forall p :: p in more ==> p.seqNo >= old(wal.cp.nextSeq)) && (o.appended == [] ==> more == [])
      ensures old(wal.Clean()) && FeedsFrames(o) && wal.cp.nextSeq <= U64 ==> wal.Clean()
    {
      hide Journal.Queued, Journal.ReadAll, ViewOf, Numbered, ParseHeader;
      ghost var next, n := wal.cp.nextSeq, LongEnough(o.appended);
      if FeedsFrames(o) {
        AllLongEnough(o.appended);
      }
      var _, _ := wal.AppendBatch(o.typ, o.appended);
      more := Numbered(o.appended[..n], next);
      NumberedFrom(o.appended[..n], next);
    }

    /** Since then frames were only appended, under new numbers. */
    ghost predicate Grown(hadAppended: seq<FrameData>, hadPending: seq<FrameData>, hadNext: nat)
      requires wal.Valid()
      reads this`appended, wal
    {
      Grew(hadAppended, hadPending, hadNext, appended, wal.Pending(), wal.cp.nextSeq)
    }

    method EnsureConnected() returns (ok: bool)
      requires Valid() && Quiet(Conn())
      modifies this`script, this`appended, this`live, this`trace, wal
      ensures Valid() && Quiet(Conn()) && (ok <==> live)
      ensures |script| <= |old(script)| && (!old(live) && old(script) != [] ==> |script| < |old(script)|)
      ensures if old(live) then ok && script == old(script) && trace == old(trace)
              else if old(script) == [] then !ok && trace == old(trace)
              else ok == old(script)[0].ok && script == old(script)[1..] && trace == old(trace) + if ok then [Dialed] else []
      ensures Conn().owed == old(Conn()).owed && Onward(old(trace), old(appended))
      ensures Commits(trace) == old(Commits(trace))
      ensures Grown(old(appended), old(wal.Pending()), old(wal.cp.nextSeq))
    {
      hide Commits, Replay, Disciplined, GoesBack, Beat, Journal.Queued, Journal.ReadAll, ViewOf;
      assert Grown(appended, wal.Pending(), wal.cp.nextSeq) by {
        assert wal.Pending() + appended[|appended|..] == wal.Pending();
      }
      hide Grown;
      if live {
        return true;
      }
      if script == [] {
        return false;
      }
      var o := Tick();
      if !o.ok {
        return false;
      }
      live := true;
      Log(Dialed);
      return true;
    }

    /** A failed write may still have delivered the frame, so it is logged before the drop. */
    method SendFrame(f: FrameData) returns (ok: bool)
      requires Valid() && (live ==> !Conn().spoiled) && Next(f)
      modifies this`script, this`appended, this`live, this`trace, wal
      ensures Valid() && (ok ==> live)
      ensures ok ==> Conn() == Apply(old(Conn()), Sent(f))
      ensures !ok ==> !live && Next(f)
      ensures old(live) ==> Begins(old(trace), [Sent(f)], trace)
      ensures Onward(old(trace), old(appended))
      ensures |script| <= |old(script)| && (ok ==> |script| < |old(script)|)
      ensures old(live) && old(script) != [] ==> script == old(script)[1..] && (ok <==> old(script)[0].ok)
      ensures Commits(trace) == old(Commits(trace))
      ensures Grown(old(appended), old(wal.Pending()), old(wal.cp.nextSeq))
    {
      hide Commits, Replay, Disciplined, GoesBack, Beat, Journal.Queued, Journal.ReadAll, ViewOf;
      assert Grown(appended, wal.Pending(), wal.cp.nextSeq) by {
        assert wal.Pending() + appended[|appended|..] == wal.Pending();
      }
      hide Grown;
      if !live {
        return false;
      }
      ok := false;
      if script != [] {
        var o := Tick();
        ok := o.ok;
      }
      Log(Sent(f));
      if !ok {
        Drop(false);
      }
    }

    /** One acknowledgement byte, or a failure that closes the connection. */
    method WaitAck() returns (r: Option<byte>)
      requires Valid() && (live ==> !Conn().spoiled && |Conn().acks| < |Conn().sent|)
      modifies this`script, this`appended, this`live, this`trace, wal
      ensures Valid() && (r.Some? <==> live)
      ensures r.Some? ==> Conn() == Apply(old(Conn()), Read(r.value))
      ensures r.None? && old(live) && old(Conn()).owed.None? ==> Conn().owed == Awaited(old(Conn()))
      ensures r.None? && !old(live) ==> Conn() == old(Conn())
      ensures Onward(old(trace), old(appended))
      ensures |script| <= |old(script)|
      ensures old(live) && old(script) != [] ==>
                script == old(script)[1..] && r == if old(script)[0].ok then Some(old(script)[0].ack) else None
      ensures Commits(trace) == old(Commits(trace))
      ensures Grown(old(appended), old(wal.Pending()), old(wal.cp.nextSeq))
    {
      hide Commits, Replay, Disciplined, GoesBack, Beat, Journal.Queued, Journal.ReadAll, ViewOf;
      assert Grown(appended, wal.Pending(), wal.cp.nextSeq) by {
        assert wal.Pending() + appended[|appended|..] == wal.Pending();
      }
      hide Grown;
      if !live {
        return None;
      }
      if script != [] {
        var o := Tick();
        if o.ok {
          Log(Read(o.ack));
          return Some(o.ack);
        }
      }
      Drop(true);
      return None;
    }

    method Close()
      requires Valid()
      modifies this`live, this`trace
      ensures Valid() && !live && Commits(trace) == old(Commits(trace)) && old(trace) <= trace
      ensures Conn() == Apply(old(Conn()), Dropped(false))
    {
      hide Commits, Replay, Disciplined, GoesBack, Beat, Journal.Queued, Journal.ReadAll, ViewOf, Apply, Allowed;
      Drop(false);
    }

    /** The connection goes down, while waiting for an answer or not. */
    method Drop(waiting: bool)
      requires Valid()
      modifies this`live, this`trace
      ensures Valid() && !live && Commits(trace) == old(Commits(trace)) && old(trace) <= trace
      ensures Conn() == Apply(old(Conn()), Dropped(waiting))
    {
      hide Commits, Replay, Disciplined, GoesBack, Beat, Journal.Queued, Journal.ReadAll, ViewOf;
      live := false;
      Log(Dropped(waiting));
    }

    // -------------------------------------------------------------- committing

    /**
     Commits the frame whose 0xff was just read. The log accepts it exactly when it is the head,
     which it is unless earlier frames of the window were left behind by a failed send.
     */
    method CommitFrame(f: FrameData, ghost at: nat) returns (ok: bool)
      requires Valid() && Allowed(Conn(), Committed(f))
      requires at < |wal.Pending()| && wal.Pending()[at] == f
      modifies this`trace, wal
      ensures Valid() && Conn() == if ok then Apply(old(Conn()), Committed(f)) else old(Conn())
      ensures ok <==> at == 0
      ensures wal.Pending() == if ok then old(wal.Pending())[1..] else old(wal.Pending())
      ensures Commits(trace) == old(Commits(trace)) + if ok then [f] else []
      ensures wal.cp.nextSeq == old(wal.cp.nextSeq) && old(trace) <= trace
    {
      hide Journal.Queued, Journal.ReadAll, ViewOf, Replay, Disciplined, GoesBack, Beat, Commits;
      ghost var was := wal.Pending();
      HeadNumber(wal, at);
      var elapsed: bool := *;
      ghost var persisted;
      ok, persisted := wal.Commit(f.seqNo, elapsed);
      if ok {
        Log(Committed(f));
        assert Commits(trace) + was[1..] == old(Commits(trace)) + was;
      }
    }

    // -------------------------------------------------------------- go-back-N

    /** Sends the window, stopping at the first failure or when the context is cancelled. */
    method SendWindow(frames: seq<FrameData>) returns (failed: Option<nat>, cancelled: bool)
      requires Valid() && Quiet(Conn()) && frames != [] && Next(frames[0])
      modifies this`script, this`appended, this`live, this`trace, wal
      ensures Valid() && Commits(trace) == old(Commits(trace)) && Onward(old(trace), old(appended))
      ensures Grown(old(appended), old(wal.Pending()), old(wal.cp.nextSeq))
      ensures cancelled ==> script == []
      ensures failed.Some? ==> failed.value < |frames| && !live && Next(frames[failed.value])
      ensures old(live) && old(script) != [] ==> Begins(old(trace), [Sent(frames[0])], trace)
      ensures !cancelled && failed.None? ==> Due(Conn(), frames)
      ensures |script| <= |old(script)| && (!cancelled ==> old(script) != [])
      ensures !cancelled && failed.None? ==> |script| < |old(script)|
      ensures old(live) && Smooth(old(script), |frames|) ==> !cancelled && failed.None? && Used(old(script), |frames|, script)
    {
      hide Commits, Replay, Disciplined, GoesBack, Beat, Journal.Queued, Journal.ReadAll, ViewOf;
      assert Grown(appended, wal.Pending(), wal.cp.nextSeq) by {
        assert wal.Pending() + appended[|appended|..] == wal.Pending();
      }
      hide Grew;
      ghost var a0, p0, n0 := appended, wal.Pending(), wal.cp.nextSeq;
      assert live ==> Conn().sent[|Conn().acks|..] == frames[..0];
      for i := 0 to |frames|
        invariant Valid() && Commits(trace) == old(Commits(trace)) && Grown(a0, p0, n0)
        invariant live ==> Due(Conn(), frames[..i])
        invariant i > 0 ==> live && |script| < |old(script)|
        invariant Onward(old(trace), old(appended)) && (i == 0 ==> script == old(script) && trace == old(trace) && live == old(live) && Next(frames[0]))
        invariant i > 0 && old(live) ==> Begins(old(trace), [Sent(frames[0])], trace)
        invariant |script| <= |old(script)|
        invariant old(live) && Smooth(old(script), |frames|) ==> live && Used(old(script), i, script)
      {
        if script == [] {
          return None, true;
        }
        ghost var a1, p1, n1 := appended, wal.Pending(), wal.cp.nextSeq;
        var ok := SendFrame(frames[i]);
        GrewTwice(a0, p0, n0, a1, p1, n1, appended, wal.Pending(), wal.cp.nextSeq);
        if !ok {
          return Some(i), false;
        }
        assert frames[..i + 1] == frames[..i] + [frames[i]];
      }
      assert frames[..|frames|] == frames;
      return None, false;
    }

    /** Reads the byte due for the first of `frames` and commits that frame if it is 0xff. */
    method ReadOne(frames: seq<FrameData>, ghost at: nat) returns (done: bool, ghost next: nat)
      requires Valid() && Due(Conn(), frames) && Block(wal.Pending(), at, frames) && frames != []
      modifies this`script, this`appended, this`live, this`trace, wal
      ensures Valid() && |script| <= |old(script)|
      ensures Evolved(old(wal.Pending()), old(wal.cp.nextSeq), wal.Pending(), wal.cp.nextSeq)
      ensures done ==> Due(Conn(), frames[1..]) && Block(wal.Pending(), next, frames[1..])
      ensures !done ==> !live && Block(wal.Pending(), next, frames) && Next(frames[0])
      ensures done ==> Conn().owed.None?
      ensures Onward(old(trace), old(appended))
      ensures next == 0 <==> at == 0
      ensures Commits(trace) == old(Commits(trace)) + if done && at == 0 then [frames[0]] else []
      ensures old(script) != [] ==>
                script == old(script)[1..] && (done <==> old(script)[0].ok && old(script)[0].ack == ACK_SUCCESS)
    {
      hide Tidy, Commits, Replay, Disciplined, GoesBack, Beat, Journal.Queued, Journal.ReadAll, ViewOf, Grew, Block, Evolved;
      next := at;
      ghost var a1, p1, n1 := appended, wal.Pending(), wal.cp.nextSeq;
      var ack := WaitAck();
      BlockGrows(a1, p1, n1, appended, wal.Pending(), wal.cp.nextSeq, at, frames);
      GrewEvolves(a1, p1, n1, appended, wal.Pending(), wal.cp.nextSeq);
      if ack.None? {
        return false, next;
      }
      if ack.value != ACK_SUCCESS {
        Close();
        return false, next;
      }
      BlockHead(wal.Pending(), at, frames);
      ghost var p2, n2 := wal.Pending(), wal.cp.nextSeq;
      done := CommitFrame(frames[0], at);
      PopEvolves(p2, n2, wal.Pending());
      EvolvedTwice(p1, n1, p2, n2, wal.Pending(), wal.cp.nextSeq);
      return true, if at == 0 then 0 else at + 1;
    }

    /** Reads one byte per frame of the window; go-back-N from the first that is not 0xff. */
    method ReadWindow(frames: seq<FrameData>, ghost start: nat) returns (nackAt: Option<nat>, ghost at: nat)
      requires Valid() && Due(Conn(), frames) && Block(wal.Pending(), start, frames) && frames != []
      modifies this`script, this`appended, this`live, this`trace, wal
      ensures Valid() && |script| <= |old(script)|
      ensures Evolved(old(wal.Pending()), old(wal.cp.nextSeq), wal.Pending(), wal.cp.nextSeq)
      ensures Onward(old(trace), old(appended))
      ensures nackAt.None? ==> Quiet(Conn()) && live && Conn().owed.None?
      ensures nackAt.Some? ==>
                && !live && nackAt.value < |frames| && Block(wal.Pending(), at, frames[nackAt.value..])
                && Next(frames[nackAt.value])
      ensures var n := if nackAt.Some? then nackAt.value else |frames|;
              Commits(trace) == old(Commits(trace)) + if start == 0 then frames[..n] else []
      ensures Smooth(old(script), |frames|) ==> nackAt.None? && Used(old(script), |frames|, script)
    {
      hide Commits, Replay, Disciplined, GoesBack, Beat, Journal.Queued, Journal.ReadAll, ViewOf, Grew, Block;
      at := start;
      assert frames[0..] == frames;
      assert Evolved(wal.Pending(), wal.cp.nextSeq, wal.Pending(), wal.cp.nextSeq);
      hide Evolved;
      ghost var p0, n0 := wal.Pending(), wal.cp.nextSeq;
      for i := 0 to |frames|
        invariant Valid() && |script| <= |old(script)|
        invariant Evolved(p0, n0, wal.Pending(), wal.cp.nextSeq) && Onward(old(trace), old(appended))
        invariant Conn().owed.None?
        invariant at == 0 <==> start == 0
        invariant Commits(trace) == old(Commits(trace)) + if start == 0 then frames[..i] else []
        invariant Smooth(old(script), |frames|) ==> Used(old(script), i, script)
        invariant Due(Conn(), frames[i..]) && Block(wal.Pending(), at, frames[i..])
      {
        ghost var p1, n1 := wal.Pending(), wal.cp.nextSeq;
        var done;
        done, at := ReadOne(frames[i..], at);
        EvolvedTwice(p0, n0, p1, n1, wal.Pending(), wal.cp.nextSeq);
        if !done {
          return Some(i), at;
        }
        assert frames[i + 1..] == frames[i..][1..] && frames[..i + 1] == frames[..i] + [frames[i]];
      }
      assert frames[..|frames|] == frames;
      return None, at;
    }

    /** Sends the window and reads the answers; says from which frame to go on, if any, with the connection down. */
    method SendAndRead(frames: seq<FrameData>, ghost start: nat) returns (again: Option<nat>, cancelled: bool, ghost at: nat)
      requires Valid() && Quiet(Conn()) && frames != [] && Block(wal.Pending(), start, frames) && Next(frames[0])
      modifies this`script, this`appended, this`live, this`trace, wal
      ensures Valid() && |script| <= |old(script)| && (if cancelled then script == [] && again.None? else old(script) != [])
      ensures Evolved(old(wal.Pending()), old(wal.cp.nextSeq), wal.Pending(), wal.cp.nextSeq)
      ensures again.Some? ==>
                && !live && again.value < |frames| && Block(wal.Pending(), at, frames[again.value..])
                && Next(frames[again.value])
      ensures again.None? && !cancelled ==> live && Quiet(Conn()) && Conn().owed.None?
      ensures Onward(old(trace), old(appended))
      ensures old(live) && old(script) != [] ==> Begins(old(trace), [Sent(frames[0])], trace)
      ensures old(live) && start == 0 && Smooth(old(script), 2 * |frames|) ==>
                && again.None? && !cancelled && Commits(trace) == old(Commits(trace)) + frames
                && Used(old(script), 2 * |frames|, script)
    {
      hide Tidy, Commits, Replay, Disciplined, GoesBack, Beat, Journal.Queued, Journal.ReadAll, ViewOf, Grew, Block, Evolved,
        Extends, Begins, Used, Due;
      at := start;
      ghost var t1, a1, p1, n1, s1 := trace, appended, wal.Pending(), wal.cp.nextSeq, script;
      SmoothHalves(script, |frames|);
      hide Smooth;
      again, cancelled := SendWindow(frames);
      BlockGrows(a1, p1, n1, appended, wal.Pending(), wal.cp.nextSeq, at, frames);
      GrewEvolves(a1, p1, n1, appended, wal.Pending(), wal.cp.nextSeq);
      if cancelled {
        return None, true, at;
      }
      if again.Some? {
        BlockRest(wal.Pending(), at, frames, again.value);
        at := at + again.value;
        return;
      }
      ghost var t3, a3, p3, n3, s3 := trace, appended, wal.Pending(), wal.cp.nextSeq, script;
      again, at := ReadWindow(frames, at);
      assert frames[..|frames|] == frames;
      EvolvedTwice(p1, n1, p3, n3, wal.Pending(), wal.cp.nextSeq);
      AddUp(t1, a1, t3, a3, trace, appended, Sent(frames[0]), s1, s3, script, |frames|);
    }

    /** One round: send the window, read the answers, and reconnect if they say from which frame to go on. */
    method PipelineRound(frames: seq<FrameData>, ghost start: nat) returns (again: Option<nat>, ghost at: nat)
      requires Valid() && Quiet(Conn()) && frames != [] && Block(wal.Pending(), start, frames) && Next(frames[0])
      modifies this`script, this`appended, this`live, this`trace, wal
      ensures Valid() && (Quiet(Conn()) || script == []) && |script| <= |old(script)|
      ensures Evolved(old(wal.Pending()), old(wal.cp.nextSeq), wal.Pending(), wal.cp.nextSeq)
      ensures again.Some? ==>
                && Quiet(Conn()) && |script| < |old(script)|
                && again.value < |frames| && Block(wal.Pending(), at, frames[again.value..])
                && Next(frames[again.value])
      ensures again.None? ==> Conn().owed.None? || script == []
      ensures Onward(old(trace), old(appended))
      ensures old(live) && old(script) != [] ==> Begins(old(trace), [Sent(frames[0])], trace)
      ensures old(live) && start == 0 && Smooth(old(script), 2 * |frames|) ==>
                && again.None? && Commits(trace) == old(Commits(trace)) + frames
                && live && Quiet(Conn()) && Used(old(script), 2 * |frames|, script)
    {
      hide Tidy, Commits, Replay, Disciplined, GoesBack, Beat, Journal.Queued, Journal.ReadAll, ViewOf, Grew, Block, Evolved,
        Extends, Begins, Used, Due, Smooth;
      ghost var t1, a1, p1, n1, s1 := trace, appended, wal.Pending(), wal.cp.nextSeq, script;
      var cancelled;
      again, cancelled, at := SendAndRead(frames, start);
      if again.None? {
        return;
      }
      ghost var t2, a2, p2, n2 := trace, appended, wal.Pending(), wal.cp.nextSeq;
      var _ := EnsureConnected();
      BlockGrows(a2, p2, n2, appended, wal.Pending(), wal.cp.nextSeq, at, frames[again.value..]);
      GrewEvolves(a2, p2, n2, appended, wal.Pending(), wal.cp.nextSeq);
      EvolvedTwice(p1, n1, p2, n2, wal.Pending(), wal.cp.nextSeq);
      AddUp(t1, a1, t2, a2, trace, appended, Sent(frames[0]), s1, s1, s1, 0);
    }

    /**
     Rounds over a shrinking window until every frame of it is answered. If nothing fails, the frames of
     a full window, or all there are, are committed, in order, and nothing else.
     */
    method RunPipeline(first: FrameData)
      requires Valid() && Quiet(Conn()) && wal.Pending() != [] && wal.Pending()[0] == first && Next(first)
      modifies this`script, this`appended, this`live, this`trace, wal
      ensures Valid() && (Quiet(Conn()) || script == []) && |script| <= |old(script)|
      ensures Evolved(old(wal.Pending()), old(wal.cp.nextSeq), wal.Pending(), wal.cp.nextSeq)
      ensures Conn().owed.None? || script == []
      ensures Onward(old(trace), old(appended))
      ensures old(live) && old(script) != [] ==> Begins(old(trace), [Sent(first)], trace)
      ensures var k := if 0 < window < |old(wal.Pending())| then window else |old(wal.Pending())|;
              old(live) && Smooth(old(script), 2 * k) ==>
                && Commits(trace) == old(Commits(trace)) + old(wal.Pending())[..k]
                && live && Quiet(Conn()) && Used(old(script), 2 * k, script)
    {
      hide Tidy, Commits, Replay, Disciplined, GoesBack, Beat, Journal.Queued, Journal.ReadAll, ViewOf, Grew, Block, Smooth;
      var frames := [first];
      var peek := wal.PeekBatch(window);
      if peek.Frames? {
        frames := peek.frames;
      }
      ghost var at: nat := 0;
      WindowIsBlock(wal.Pending(), window, frames);
      assert Evolved(wal.Pending(), wal.cp.nextSeq, wal.Pending(), wal.cp.nextSeq);
      hide Evolved;
      ghost var p0, n0, whole := wal.Pending(), wal.cp.nextSeq, frames;
      var again: Option<nat>;
      again, at := PipelineRound(frames, at);
      while again.Some?
        invariant Valid() && (Quiet(Conn()) || script == []) && |script| <= |old(script)|
        invariant Evolved(p0, n0, wal.Pending(), wal.cp.nextSeq) && Onward(old(trace), old(appended))
        invariant old(live) && old(script) != [] ==> Begins(old(trace), [Sent(first)], trace)
        invariant again.Some? ==>
                    && Quiet(Conn()) && again.value < |frames| && Block(wal.Pending(), at, frames[again.value..])
                    && Next(frames[again.value])
        invariant again.None? ==> Conn().owed.None? || script == []
        invariant old(live) && Smooth(old(script), 2 * |whole|) ==>
                    && again.None? && Commits(trace) == old(Commits(trace)) + whole
                    && live && Quiet(Conn()) && Used(old(script), 2 * |whole|, script)
        decreases |script|, again.Some?
      {
        ghost var p1, n1 := wal.Pending(), wal.cp.nextSeq;
        frames := frames[again.value..];
        again, at := PipelineRound(frames, at);
        EvolvedTwice(p0, n0, p1, n1, wal.Pending(), wal.cp.nextSeq);
      }
    }

    // -------------------------------------------------------------- the main loop

    /** A heartbeat is sent and answered like any frame; its answer is ignored. */
    method SendHeartbeat()
      requires Valid() && Quiet(Conn()) && Free()
      modifies this`script, this`appended, this`live, this`trace, wal
      ensures Valid() && Quiet(Conn()) && |script| <= |old(script)| && Free()
      ensures Onward(old(trace), old(appended))
      ensures Reaches(old(live), old(script)) ==> Begins(old(trace), Opening(old(live), Beat()), trace)
      ensures Grown(old(appended), old(wal.Pending()), old(wal.cp.nextSeq))
    {
      hide Tidy, Commits, Replay, Disciplined, GoesBack, Beat, Journal.Queued, Journal.ReadAll, ViewOf, Grew, Extends, Begins;
      ghost var t0, a0, p0, n0, up := trace, appended, wal.Pending(), wal.cp.nextSeq, live;
      var ok := EnsureConnected();
      if !ok {
        return;
      }
      ghost var t1, a1, p1, n1 := trace, appended, wal.Pending(), wal.cp.nextSeq;
      ok := SendFrame(Beat());
      GrewTwice(a0, p0, n0, a1, p1, n1, appended, wal.Pending(), wal.cp.nextSeq);
      Opens(t0, a0, t1, a1, trace, appended, up, Beat());
      if !ok {
        return;
      }
      ghost var t2, a2, p2, n2 := trace, appended, wal.Pending(), wal.cp.nextSeq;
      var _ := WaitAck();
      GrewTwice(a0, p0, n0, a2, p2, n2, appended, wal.Pending(), wal.cp.nextSeq);
      BeginsLonger(t0, Opening(up, Beat()), t2, a2, trace, appended);
      ExtendsTwice(t0, a0, t2, a2, trace, appended);
    }

    /** One stop-and-wait exchange for the head frame. */
    method StopAndWait(f: FrameData)
      requires Valid() && Quiet(Conn()) && live && wal.Pending() != [] && wal.Pending()[0] == f && Next(f)
      modifies this`script, this`appended, this`live, this`trace, wal
      ensures Valid() && Quiet(Conn()) && |script| <= |old(script)|
      ensures Evolved(old(wal.Pending()), old(wal.cp.nextSeq), wal.Pending(), wal.cp.nextSeq)
      ensures Conn().owed.None? || (wal.Pending() != [] && wal.Pending()[0] == f && Next(f))
      ensures Onward(old(trace), old(appended)) && Begins(old(trace), [Sent(f)], trace)
      ensures Smooth(old(script), 2) ==>
                Commits(trace) == old(Commits(trace)) + [f] && live && Used(old(script), 2, script)
    {
      hide Tidy, Commits, Replay, Disciplined, GoesBack, Beat, Journal.Queued, Journal.ReadAll, ViewOf, Grew, Block, Evolved;
      hide Extends, Begins, Used;
      WindowIsBlock(wal.Pending(), 1, [f]);
      ghost var t1, a1, p1, n1, s1 := trace, appended, wal.Pending(), wal.cp.nextSeq, script;
      var ok := SendFrame(f);
      BlockGrows(a1, p1, n1, appended, wal.Pending(), wal.cp.nextSeq, 0, [f]);
      GrewEvolves(a1, p1, n1, appended, wal.Pending(), wal.cp.nextSeq);
      BlockHead(wal.Pending(), 0, [f]);
      if !ok {
        return;
      }
      ghost var t2, a2, p2, n2, s2 := trace, appended, wal.Pending(), wal.cp.nextSeq, script;
      var ack := WaitAck();
      BlockGrows(a2, p2, n2, appended, wal.Pending(), wal.cp.nextSeq, 0, [f]);
      GrewEvolves(a2, p2, n2, appended, wal.Pending(), wal.cp.nextSeq);
      EvolvedTwice(p1, n1, p2, n2, wal.Pending(), wal.cp.nextSeq);
      BlockHead(wal.Pending(), 0, [f]);
      OneUsed(s1, s2);
      OneUsed(s2, script);
      AddUp(t1, a1, t2, a2, trace, appended, Sent(f), s1, s2, script, 1);
      if ack == Some(ACK_SUCCESS) {
        ghost var t3, p3, n3 := trace, wal.Pending(), wal.cp.nextSeq;
        var _ := CommitFrame(f, 0);
        PopEvolves(p3, n3, wal.Pending());
        EvolvedTwice(p1, n1, p3, n3, wal.Pending(), wal.cp.nextSeq);
        TraceOnly(t3, trace, appended);
        AddUp(t1, a1, t3, appended, trace, appended, Sent(f), s1, s1, s1, 0);
      }
    }

    /** One exchange in either mode. If nothing fails, `k` frames are committed, at least one. */
    method Exchange(head: FrameData) returns (ghost k: nat)
      requires Valid() && Quiet(Conn()) && live && wal.Pending() != [] && wal.Pending()[0] == head && Next(head)
      modifies this`script, this`appended, this`live, this`trace, wal
      ensures Valid() && (script == [] || (Quiet(Conn()) && Oriented())) && |script| <= |old(script)|
      ensures Evolved(old(wal.Pending()), old(wal.cp.nextSeq), wal.Pending(), wal.cp.nextSeq)
      ensures Onward(old(trace), old(appended))
      ensures old(script) != [] ==> Begins(old(trace), [Sent(head)], trace)
      ensures Smooth(old(script), 2 * Most()) ==>
                1 <= k <= Most() && live && Used(old(script), 2 * k, script) && |Commits(trace)| == |old(Commits(trace))| + k
    {
      hide Tidy, Commits, Replay, Disciplined, GoesBack, Beat, Journal.Queued, Journal.ReadAll, ViewOf, Evolved, Smooth, Extends,
        Begins, Used;
      if window > 1 {
        k := if window < |wal.Pending()| then window else |wal.Pending()|;
        SmoothLess(script, 2 * Most(), 2 * k);
        RunPipeline(head);
      } else {
        k := 1;
        StopAndWait(head);
      }
    }

    /** Whatever was interrupted is the head of the log, or a heartbeat. */
    ghost predicate Oriented()
      requires wal.Valid()
      reads this, wal
    {
      Free() || (wal.Pending() != [] && Next(wal.Pending()[0]))
    }

    /** The beginning of a turn: what is at the head of the log now. */
    method Look(cached: Option<FrameData>) returns (cache: Option<FrameData>, head: Option<FrameData>, idle: bool)
      requires Valid() && script != [] && Fresh(cached, wal.Pending(), wal.cp.nextSeq)
      modifies this`script, this`appended, wal
      ensures Valid() && Used(old(script), 1, script) && old(appended) <= appended && old(wal.Pending()) <= wal.Pending()
      ensures Fresh(cache, wal.Pending(), wal.cp.nextSeq)
      ensures head == if wal.Pending() == [] then None else Some(wal.Pending()[0])
      ensures idle == old(script)[0].elapsed && (old(script)[0].appended == [] ==> wal.Pending() == old(wal.Pending()))
    {
      hide Tidy, Commits, Replay, Disciplined, GoesBack, Beat, Journal.Queued, Journal.ReadAll, ViewOf, Grew, Evolved;
      ghost var a0, p0, n0 := appended, wal.Pending(), wal.cp.nextSeq;
      var o := Tick();
      GrewEvolves(a0, p0, n0, appended, wal.Pending(), wal.cp.nextSeq);
      FreshAfter(cached, p0, n0, wal.Pending(), wal.cp.nextSeq);
      HeadStays(a0, p0, n0, appended, wal.Pending(), wal.cp.nextSeq);
      cache, head, idle := cached, None, o.elapsed;
      var peek := wal.PeekBatch(1);
      if peek.Frames? {
        var first := peek.frames[0];
        CacheAgrees(wal, cache, first);
        if cache.Some? && cache.value.seqNo == first.seqNo {
          first := cache.value;
        } else {
          cache := Some(first);
        }
        head := Some(first);
      }
    }

    /** The rest of a turn with something to send: connect if need be, and exchange. */
    method Serve(head: FrameData) returns (ghost k: nat)
      requires Valid() && Quiet(Conn()) && wal.Pending() != [] && wal.Pending()[0] == head && Next(head)
      modifies this`script, this`appended, this`live, this`trace, wal
      ensures Valid() && (script == [] || (Quiet(Conn()) && Oriented())) && |script| <= |old(script)|
      ensures Evolved(old(wal.Pending()), old(wal.cp.nextSeq), wal.Pending(), wal.cp.nextSeq)
      ensures Onward(old(trace), old(appended))
      ensures Reaches(old(live), old(script)) ==> Begins(old(trace), Opening(old(live), head), trace)
      ensures var d := if old(live) then 0 else 1;
              Smooth(old(script), d + 2 * Most()) ==>
                && 1 <= k <= Most() && live && Used(old(script), d + 2 * k, script)
                && |Commits(trace)| == |old(Commits(trace))| + k
    {
      hide Tidy, Commits, Replay, Disciplined, GoesBack, Beat, Journal.Queued, Journal.ReadAll, ViewOf, Grew, Block, Evolved, Smooth,
        Extends, Begins, Used;
      k := 0;
      ghost var t0, a0, p0, n0, s0, up := trace, appended, wal.Pending(), wal.cp.nextSeq, script, live;
      WindowIsBlock(p0, 1, [head]);
      var ok := EnsureConnected();
      BlockGrows(a0, p0, n0, appended, wal.Pending(), wal.cp.nextSeq, 0, [head]);
      BlockHead(wal.Pending(), 0, [head]);
      GrewEvolves(a0, p0, n0, appended, wal.Pending(), wal.cp.nextSeq);
      Dials(s0, up, script, Most());
      if !ok {
        return;
      }
      ghost var t1, a1, p1, n1, s1 := trace, appended, wal.Pending(), wal.cp.nextSeq, script;
      k := Exchange(head);
      EvolvedTwice(p0, n0, p1, n1, wal.Pending(), wal.cp.nextSeq);
      Opens(t0, a0, t1, a1, trace, appended, up, head);
      if Used(s1, 2 * k, script) {
        AfterDial(s0, up, s1, 2 * k, script);
      }
    }

    /** The link is up, or the next dial works, with time left to send. */
    ghost predicate Reaches(up: bool, outcomes: seq<Outcome>) {
      if up then outcomes != [] else |outcomes| >= 2 && outcomes[0].ok
    }

    lemma Opens(t0: seq<Event<FrameData>>, a0: seq<FrameData>, t1: seq<Event<FrameData>>, a1: seq<FrameData>,
                t2: seq<Event<FrameData>>, a2: seq<FrameData>, up: bool, head: FrameData)
      requires Extends(t0, a0, t1, a1) && Extends(t1, a1, t2, a2) && t1 == t0 + if up then [] else [Dialed]
      ensures Extends(t0, a0, t2, a2)
      ensures Begins(t1, [Sent(head)], t2) ==> Begins(t0, Opening(up, head), t2)
    {
      assert t0 + Opening(up, head) == t1 + [Sent(head)];
    }

    /**
     One turn of the main loop: look at the head, connect, and exchange it, or in pipelined mode a window
     from it. If nothing fails, `k` frames are committed, at least one.
     */
    method Turn(cached: Option<FrameData>) returns (cache: Option<FrameData>, ghost k: nat)
      requires Valid() && Quiet(Conn()) && script != [] && Oriented() && Fresh(cached, wal.Pending(), wal.cp.nextSeq)
      modifies this`script, this`appended, this`live, this`trace, wal
      ensures Valid() && (script == [] || (Quiet(Conn()) && Oriented())) && |script| < |old(script)|
      ensures Fresh(cache, wal.Pending(), wal.cp.nextSeq) && Onward(old(trace), old(appended))
      ensures Starts(old(live), old(script), old(wal.Pending())) ==>
                Begins(old(trace), Opening(old(live), old(wal.Pending())[0]), trace)
      ensures Idles(old(live), old(script), old(wal.Pending())) ==> Begins(old(trace), Opening(old(live), Beat()), trace)
      ensures var d := if old(live) then 1 else 2;
              old(wal.Pending()) != [] && Smooth(old(script), d + 2 * Most()) ==>
                && 1 <= k <= Most() && live && Used(old(script), d + 2 * k, script)
                && |Commits(trace)| == |old(Commits(trace))| + k
    {
      hide Tidy, Commits, Replay, Disciplined, GoesBack, Beat, Journal.Queued, Journal.ReadAll, ViewOf, Grew, Evolved, Smooth, Begins,
        Fresh;
      k := 0;
      ghost var t0, a0, s0, up := trace, appended, script, live;
      var head, idle;
      cache, head, idle := Look(cached);
      AfterTick(s0, script, up, Most());
      ghost var a1, p1, n1, s1 := appended, wal.Pending(), wal.cp.nextSeq, script;
      if head.None? {
        if idle {
          SendHeartbeat();
          GrewEvolves(a1, p1, n1, appended, wal.Pending(), wal.cp.nextSeq);
          FreshAfter(cache, p1, n1, wal.Pending(), wal.cp.nextSeq);
        }
        return;
      }
      k := Serve(head.value);
      FreshAfter(cache, p1, n1, wal.Pending(), wal.cp.nextSeq);
      var d := if up then 0 else 1;
      if Used(s1, d + 2 * k, script) {
        UsedTwice(s0, 1, s1, d + 2 * k, script);
      }
    }

    /** The most frames one turn can commit. */
    ghost function Most(): nat {
      if window > 1 then window else 1
    }

    /** Nothing waits, nothing comes, the heartbeat is due, and the link works. */
    ghost predicate Idles(up: bool, outcomes: seq<Outcome>, pending: seq<FrameData>) {
      pending == [] && outcomes != [] && outcomes[0].appended == [] && outcomes[0].elapsed && Reaches(up, outcomes[1..])
    }

    /** A frame waits, and the link is up or the next dial works, with time left to send. */
    ghost predicate Starts(up: bool, outcomes: seq<Outcome>, pending: seq<FrameData>) {
      pending != [] && |outcomes| >= 3 && (up || outcomes[1].ok)
    }

    ghost function Opening(up: bool, head: FrameData): seq<Event<FrameData>> {
      if up then [Sent(head)] else [Dialed, Sent(head)]
    }

    /** Outcomes enough for either mode to commit that many frames. */
    ghost function Enough(pending: nat): nat {
      Cost(pending, Most()) + 1
    }

    /**
     The main loop, in either mode, over any environment script. At the end the trace is disciplined:
     each committed frame was answered by its own 0xff, and after an interruption the interrupted frame is
     sent next; and every frame that was pending or got appended is committed, in order, or still pending.
     If a frame waits and the link works, the head is what is sent first; if none does and a heartbeat is
     due, that is. If the first outcomes of a script
     long enough for either mode are good, every frame that was pending at the start is committed.
     */
    method Run()
      requires Valid() && Quiet(Conn()) && Oriented()
      modifies this`script, this`appended, this`live, this`trace, wal
      ensures Valid() && Disciplined(trace) && GoesBack(trace, Beat())
      ensures base + appended == Commits(trace) + wal.Pending()
      ensures tidy && wal.cp.nextSeq <= U64 ==> wal.Clean()
      ensures Starts(old(live), old(script), old(wal.Pending())) ==>
                Begins(old(trace), Opening(old(live), old(wal.Pending())[0]), trace)
      ensures Idles(old(live), old(script), old(wal.Pending())) ==> Begins(old(trace), Opening(old(live), Beat()), trace)
      ensures Smooth(old(script), Enough(|old(wal.Pending())|)) ==>
                old(Commits(trace)) + old(wal.Pending()) <= Commits(trace)
    {
      hide Tidy, Commits, Replay, Disciplined, GoesBack, Beat, Journal.Queued, Journal.ReadAll, ViewOf, Smooth, Fresh, Begins, Used, Pays,
        Extends;
      var cache: Option<FrameData> := None;
      NothingCached(wal.Pending(), wal.cp.nextSeq);
      ghost var t0, a0, p, c, m := trace, appended, |wal.Pending()|, |Commits(trace)|, Most();
      ghost var began, smooth := false, Smooth(script, Enough(p));
      PaysAtFirst(script, p, m, live);
      Same(trace, appended);
      while script != []
        invariant Valid() && (script == [] || (Quiet(Conn()) && Oriented()))
        invariant Fresh(cache, wal.Pending(), wal.cp.nextSeq) && Extends(t0, a0, trace, appended)
        invariant !began ==> script == old(script) && trace == t0 && live == old(live) && wal.Pending() == old(wal.Pending())
        invariant began && Starts(old(live), old(script), old(wal.Pending())) ==>
                    Begins(t0, Opening(old(live), old(wal.Pending())[0]), trace)
        invariant began && Idles(old(live), old(script), old(wal.Pending())) ==> Begins(t0, Opening(old(live), Beat()), trace)
        invariant smooth ==> Pays(script, c + p - |Commits(trace)|, m, live)
        decreases |script|
      {
        ghost var t1, a1, s1, up, left := trace, appended, script, live, c + p - |Commits(trace)|;
        Counts(base, a0, appended, Commits(trace), wal.Pending(), c, p, t0, trace);
        if smooth && left > 0 {
          PaysForTurn(script, left, m, live);
        }
        ghost var k;
        cache, k := Turn(cache);
        Grows(t0, a0, t1, a1, trace, appended);
        if smooth && left > 0 {
          PaysOn(s1, left, m, up, k, script);
        } else {
          NothingToPay(script, c + p - |Commits(trace)|, m, live);
        }
        if began && Starts(old(live), old(script), old(wal.Pending())) {
          BeginsLonger(t0, Opening(old(live), old(wal.Pending())[0]), t1, a1, trace, appended);
        }
        if began && Idles(old(live), old(script), old(wal.Pending())) {
          BeginsLonger(t0, Opening(old(live), Beat()), t1, a1, trace, appended);
        }
        began := true;
      }
      TidyRecovers();
      if smooth {
        PaidOff(script, c + p - |Commits(trace)|, m, live);
        EnoughCommitted(base, a0, appended, old(Commits(trace)), old(wal.Pending()), Commits(trace), wal.Pending(), t0, trace);
      }
      TraceFacts();
    }

    lemma TraceFacts()
      requires Valid()
      ensures Disciplined(trace) && GoesBack(trace, Beat())
    {
    }

    lemma PaysAtFirst(outcomes: seq<Outcome>, p: nat, m: nat, up: bool)
      requires m == Most()
      ensures Smooth(outcomes, Enough(p)) ==> Pays(outcomes, p, m, up)
    {
      SmoothLess(outcomes, Cost(p, m) + 1, Cost(p, m));
    }
  }
}
