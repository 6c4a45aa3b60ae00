/**
 The poller: which time window to export next, when to flush the source first, how to use a
 prefetched export, and in which order frames and cursor reach the log.
 */
module Poller {
  import opened Bytes
  import opened Codec
  import opened Records
  import opened WriteAheadLog
  import opened Lines
  import Journal
  import opened Queues

  // durations are in nanoseconds, timestamps in milliseconds
  const MS: int := 1_000_000
  const EMPTY_CAP: int := 3_600_000 * MS
  const LAG_FLOOR: int := 15_000 * MS

  datatype Config = Config(window: int, watermark: int, maxWindow: int, frameLines: int, frameBytes: int,
                           windowTarget: int, exportLag: int, compression: byte)

  function Max(a: int, b: int): int {
    if a < b then b else a
  }

  function Min(a: int, b: int): int {
    if a < b then a else b
  }

  function Or(x: int, default: int): int {
    if x <= 0 then default else x
  }

  /** Defaults and floors applied when the poller is created. */
  function Normalised(c: Config): (r: Config)
    ensures r.window > 0 && r.watermark > 0 && r.maxWindow > 0 && r.frameLines > 0 && r.frameBytes > 0
    ensures r.exportLag >= r.watermark && r.exportLag >= LAG_FLOOR && r.exportLag >= c.exportLag
    ensures r.exportLag == c.exportLag || r.exportLag == LAG_FLOOR || r.exportLag == r.watermark
    ensures (c.window > 0 ==> r.window == c.window) && (c.watermark > 0 ==> r.watermark == c.watermark)
    ensures (c.maxWindow > 0 ==> r.maxWindow == c.maxWindow) && (c.windowTarget > 0 ==> r.windowTarget == c.windowTarget)
    ensures (c.frameLines > 0 ==> r.frameLines == c.frameLines) && (c.frameBytes > 0 ==> r.frameBytes == c.frameBytes)
  {
    var watermark := Or(c.watermark, 1_000 * MS);
    var frameBytes := Or(c.frameBytes, 0x8_0000);
    Config(Or(c.window, 5_000 * MS), watermark, Or(c.maxWindow, 30_000 * MS), Or(c.frameLines, 5000), frameBytes,
           Or(c.windowTarget, frameBytes * 4), Max(Max(c.exportLag, LAG_FLOOR), watermark),
           if c.compression == 0 then TYPE_DATA_ZSTD else c.compression)
  }

  function Millis(d: int): int
    requires d >= 0
  {
    d / MS
  }

  function Pow2(n: nat): (p: nat)
    ensures p >= 1
  {
    if n == 0 then 1 else 2 * Pow2(n - 1)
  }

  /** The window length in closed form: halved per oversize failure down to 1 ms, or doubled up to a cap. */
  function WindowOf(c: Config, underfill: nat, allEmpty: bool, oversize: nat): (w: int)
    requires c.window > 0 && c.maxWindow > 0
    ensures w > 0
  {
    if oversize > 0 then
      if c.window < MS then c.window else Max(MS, c.window / Pow2(oversize))
    else Min(c.window * Pow2(underfill), if allEmpty then EMPTY_CAP else c.maxWindow)
  }

  // ---------------------------------------------------------------- halving and doubling

  lemma DivTwice(a: nat, b: nat)
    requires b > 0
    ensures a / (2 * b) == (a / b) / 2
  {
    var q, r := a / b, a % b;
    var q2, r2 := q / 2, q % 2;
    assert a == q * b + r;
    Regroup(q2, r2, b);
    Quotient(a, 2 * b, q2, r2 * b + r);
  }

  lemma Regroup(q: nat, r: nat, b: nat)
    requires r < 2
    ensures (2 * q + r) * b == q * (2 * b) + r * b && r * b <= b
  {
  }

  lemma Quotient(a: nat, b: nat, q: nat, r: nat)
    requires b > 0 && a == q * b + r && r < b
    ensures a / b == q
  {
    var q', r' := a / b, a % b;
    var d := q - q';
    assert d * b == q * b - q' * b && (-d) * b == -(d * b);
    if d >= 1 {
      AtLeastOnce(d, b);
    } else if d <= -1 {
      AtLeastOnce(-d, b);
    }
  }

  lemma AtLeastOnce(d: nat, b: nat)
    requires d >= 1
    ensures d * b >= b
  {
    assert d * b == (d - 1) * b + b;
  }

  lemma {:induction false} HalvesShrink(a: nat, i: nat, k: nat)
    requires i <= k
    ensures a / Pow2(k) <= a / Pow2(i)
  {
    if i < k {
      HalvesShrink(a, i, k - 1);
      DivTwice(a, Pow2(k - 1));
    }
  }

  lemma {:induction false} DoublesGrow(a: nat, i: nat, k: nat)
    requires i <= k
    ensures a * Pow2(i) <= a * Pow2(k)
  {
    if i < k {
      DoublesGrow(a, i, k - 1);
      assert a * Pow2(k) == 2 * (a * Pow2(k - 1));
    }
  }

  // ---------------------------------------------------------------- rounds

  /** An export request: its window, when it was sent, whether the source was flushed for it, its result. */
  datatype Export = Export(start: int, end: int, at: int, flushed: bool, raw: Option<bytes>)

  datatype Slot = Slot(cursor: int, end: int, raw: Option<bytes>)

  /** A stretch of time whose samples are in the log. */
  datatype Span = Span(start: int, end: int)

  /** What the outside world does during one round. */
  datatype Env = Env(now: int, flushOk: bool, exported: Option<bytes>, launch1: int, launch2: int,
                     prefetched: Option<bytes>, cancelled: bool)

  datatype Round =
    | NoWindow
    | Cancelled
    | ExportFailed
    | Oversize(width: int)
    | EncodeFailed
    | AppendFailed
    | Advanced(end: int)

  /** Everything written up to the window's end was visible to the export. */
  predicate Visible(c: Config, e: Export)
    requires c.exportLag >= 0 && c.watermark >= 0
  {
    e.end <= e.at - Millis(c.exportLag) || (e.flushed && e.end <= e.at - Millis(c.watermark))
  }

  /** Consecutive windows meet, none is empty. */
  ghost predicate Tiled(ws: seq<Span>) {
    && (forall i :: 0 <= i < |ws| ==> ws[i].start < ws[i].end)
    && (forall i :: 0 <= i < |ws| - 1 ==> ws[i].end == ws[i + 1].start)
  }

  /** The least of what the window length, the visibility margin and, outside growth, the plain cap allow. */
  function EndOf(c: Config, w: int, underfill: nat, cursor: int, now: int, flushOk: bool): int
    requires w >= 0 && c.watermark >= 0 && c.exportLag >= 0 && c.maxWindow >= 0
  {
    var wanted := Min(cursor + Millis(w), now - Millis(if flushOk then c.watermark else c.exportLag));
    if underfill == 0 then Min(wanted, cursor + Millis(c.maxWindow)) else wanted
  }

  /** What a prefetch from this cursor leaves: a slot for the next window, if all of it is visible by then. */
  function Ahead(c: Config, w: int, underfill: nat, cursor: int, env: Env): Option<Slot>
    requires w >= 0 && c.watermark >= 0 && c.exportLag >= 0 && c.maxWindow >= 0
  {
    var end := EndOf(c, w, underfill, cursor, env.launch1, true);
    if cursor < end <= env.launch2 - Millis(c.exportLag) then Some(Slot(cursor, end, env.prefetched)) else None
  }

  /** Whether the wanted window reaches into the zone where fresh samples may not be visible yet. */
  predicate Realtime(c: Config, w: int, cursor: int, now: int)
    requires w >= 0 && c.exportLag >= 0
  {
    cursor + Millis(w) > now - Millis(c.exportLag)
  }

  // ---------------------------------------------------------------- what the past rounds amount to

  /** How the processing of an export ended. */
  datatype Verdict = Through | TooBig | Stuck

  /** A past round: nothing exported, the export failed, or an export of this kind was processed. */
  datatype Past = Idle | Lost | Got(empty: bool, dense: bool, verdict: Verdict)

  function PastOf(r: Round, chunks: seq<bytes>, size: nat, target: int): Past {
    match r
    case NoWindow => Idle
    case Cancelled => Idle
    case ExportFailed => Lost
    case Advanced(_) => Got(chunks == [], size >= target, Through)
    case Oversize(_) => Got(chunks == [], size >= target, TooBig)
    case _ => Got(chunks == [], size >= target, Stuck)
  }

  /** The underfilled rounds since the last one that was dense or lost its export. */
  function Streak(h: seq<Past>): seq<Past> {
    if |h| == 0 then []
    else
      var before, last := Streak(h[..|h| - 1]), h[|h| - 1];
      match last
      case Idle => before
      case Lost => []
      case Got(empty, dense, _) => if dense && !empty then [] else before + [last]
  }

  /** The oversize failures since the last round that got through or lost its export. */
  function Failures(h: seq<Past>): nat {
    if |h| == 0 then 0
    else
      var before := Failures(h[..|h| - 1]);
      match h[|h| - 1]
      case Idle => before
      case Lost => 0
      case Got(_, _, verdict) => if verdict == Through then 0 else if verdict == TooBig then before + 1 else before
  }

  predicate OnlyEmpty(streak: seq<Past>) {
    forall p :: p in streak ==> p.Got? && p.empty
  }

  function Twice(w: int, k: nat): int {
    if k == 0 then w else 2 * Twice(w, k - 1)
  }

  function Half(w: int, k: nat): int {
    if k == 0 then w
    else if Half(w, k - 1) <= MS then Half(w, k - 1)
    else Max(MS, Half(w, k - 1) / 2)
  }

  /**
   How long a window should be after these rounds: halved once per oversize failure down to a
   millisecond, or else doubled once per underfilled round, up to one hour if all of them were empty and
   up to the configured maximum if not.
   */
  function Length(c: Config, streak: seq<Past>, failures: nat): int {
    if failures > 0 then Half(c.window, failures)
    else Min(Twice(c.window, |streak|), if OnlyEmpty(streak) then EMPTY_CAP else c.maxWindow)
  }

  /** `end` is the furthest a window from `cursor` may reach: its length, what is visible, and without a streak the maximum. */
  ghost predicate Furthest(c: Config, streak: seq<Past>, failures: nat, cursor: int, visible: int, end: int)
    requires Length(c, streak, failures) >= 0 && c.maxWindow >= 0
  {
    var full, cap := cursor + Millis(Length(c, streak, failures)), cursor + Millis(c.maxWindow);
    && end <= full && end <= visible && (streak == [] ==> end <= cap)
    && (end == full || end == visible || (streak == [] && end == cap))
  }

  /** Up to where samples are visible: behind the export lag, or behind the watermark if they need not or could be flushed. */
  function VisibleEnd(c: Config, full: int, now: int, flushOk: bool): int
    requires c.exportLag >= 0 && c.watermark >= 0
  {
    if full > now - Millis(c.exportLag) && !flushOk then now - Millis(c.exportLag) else now - Millis(c.watermark)
  }

  /** The counters are what the history says. */
  ghost predicate Agrees(h: seq<Past>, underfill: nat, allEmpty: bool, oversize: nat) {
    underfill == |Streak(h)| && (allEmpty <==> OnlyEmpty(Streak(h))) && oversize == Failures(h)
  }

  lemma HistoryGrows(h: seq<Past>, p: Past, underfill: nat, allEmpty: bool, oversize: nat)
    requires Agrees(h, underfill, allEmpty, oversize)
    ensures match p
            case Idle => Agrees(h + [p], underfill, allEmpty, oversize)
            case Lost => Agrees(h + [p], 0, true, 0)
            case Got(empty, dense, verdict) =>
              Agrees(h + [p], if empty || !dense then underfill + 1 else 0, if empty then allEmpty else dense,
                     if verdict == Through then 0 else if verdict == TooBig then oversize + 1 else oversize)
  {
    assert (h + [p])[..|h|] == h;
  }

  lemma {:induction false} TwiceIs(w: nat, k: nat)
    ensures Twice(w, k) == w * Pow2(k)
  {
    if k > 0 {
      TwiceIs(w, k - 1);
    }
  }

  lemma {:induction false} HalfIs(w: nat, k: nat)
    ensures Half(w, k) == if w < MS then w else Max(MS, w / Pow2(k))
  {
    if k > 0 {
      HalfIs(w, k - 1);
      DivTwice(w, Pow2(k - 1));
      HalvesShrink(w, k - 1, k);
    }
  }

  /** The length the poller computes is the one its history calls for. */
  lemma LengthIs(c: Config, streak: seq<Past>, failures: nat, underfill: nat, allEmpty: bool)
    requires c.window > 0 && c.maxWindow > 0 && underfill == |streak| && (allEmpty <==> OnlyEmpty(streak))
    ensures Length(c, streak, failures) == WindowOf(c, underfill, allEmpty, failures)
  {
    hide Pow2;
    TwiceIs(c.window, underfill);
    HalfIs(c.window, failures);
  }

  lemma EndIsFurthest(c: Config, streak: seq<Past>, failures: nat, w: int, cursor: int, now: int, flushOk: bool)
    requires w == Length(c, streak, failures) && w >= 0 && c.watermark >= 0 && c.exportLag >= 0 && c.maxWindow >= 0
    ensures Furthest(c, streak, failures, cursor, now - Millis(if flushOk then c.watermark else c.exportLag),
                     EndOf(c, w, |streak|, cursor, now, flushOk))
  {
    hide Length;
  }

  /** Halves a window once per oversize failure, not below one millisecond. */
  method Shrunk(window: int, oversize: nat) returns (w: int)
    requires window > 0
    ensures w == if window < MS then window else Max(MS, window / Pow2(oversize))
  {
    w := window;
    var i := 0;
    while i < oversize && w > MS
      invariant i <= oversize
      invariant if window < MS then w == window else w == Max(MS, window / Pow2(i))
    {
      DivTwice(window, Pow2(i));
      w := w / 2;
      if w < MS {
        w := MS;
      }
      i := i + 1;
    }
    HalvesShrink(window, i, oversize);
  }

  /** Doubles a window once per underfilled round, up to a cap. */
  method Doubled(window: int, underfill: nat, cap: int) returns (w: int)
    requires window > 0 && cap > 0
    ensures w == Min(window * Pow2(underfill), cap) && w > 0
  {
    w := window;
    var i := 0;
    while i < underfill && w < cap
      invariant i <= underfill && w > 0
      invariant w == window * Pow2(i)
    {
      assert window * Pow2(i + 1) == 2 * (window * Pow2(i));
      w := w * 2;
      i := i + 1;
    }
    DoublesGrow(window, i, underfill);
    if w > cap {
      w := cap;
    }
  }

  /** Every frame is long enough to carry a header. */
  ghost predicate Long(frames: seq<bytes>) {
    forall f :: f in frames ==> |f| >= HEADER_SIZE
  }

  /** The queue after these frames were appended and then the cursor moved to `end`. */
  ghost function Delivered(q: Queue<FrameData>, frames: seq<bytes>, end: int, fits: bool): Queue<FrameData>
    requires Long(frames)
  {
    MoveCursor(Append(q, Numbered(frames, q.nextSeq), false), end, fits)
  }

  lemma DeliversNothing(q: Queue<FrameData>, end: int, fits: bool)
    ensures Delivered(q, [], end, fits) == MoveCursor(q, end, fits)
  {
    assert q.pending + [] == q.pending;
  }

  lemma DeliversAll(q0: Queue<FrameData>, q1: Queue<FrameData>, q2: Queue<FrameData>, frames: seq<bytes>, end: int)
    requires Long(frames) && q1 == Append(q0, Numbered(frames, q0.nextSeq), q1.fits) && q2 == MoveCursor(q1, end, q2.fits)
    ensures q2 == Delivered(q0, frames, end, q2.fits)
  {
    hide Numbered;
  }

  lemma ShrinkIgnoresGrowth(c: Config, underfill: nat, allEmpty: bool, oversize: nat)
    requires c.window > 0 && c.maxWindow > 0
    ensures oversize > 0 ==> WindowOf(c, underfill, allEmpty, oversize) == WindowOf(c, 0, true, oversize)
  {
  }

  /** In a run of oversize failures each after the first had a window no longer than the shrunk one. */
  ghost predicate Shrinking(c: Config, failures: seq<int>)
    requires c.window > 0 && c.maxWindow > 0
  {
    forall k :: 1 <= k < |failures| ==> failures[k] <= Millis(WindowOf(c, 0, true, k))
  }

  /**
   If every failed window was longer than `d` milliseconds, a run of n >= 2 failures is possible
   only while d * 2^(n-1) milliseconds is less than the configured window.
   */
  lemma OversizeRunIsShort(c: Config, failures: seq<int>, d: nat)
    requires c.window > 0 && c.maxWindow > 0 && Shrinking(c, failures) && d >= 1
    requires forall w :: w in failures ==> w > d
    ensures |failures| >= 2 ==> d * MS * Pow2(|failures| - 1) < c.window
    ensures |failures| <= c.window + 1
  {
    if |failures| >= 2 {
      var k := |failures| - 1;
      assert failures[k] in failures;
      StillWide(c.window, d, k, WindowOf(c, 0, true, k));
      Pow2Grows(k);
      AtLeastOnce(d * MS, Pow2(k));
    }
  }

  lemma {:induction false} Pow2Grows(k: nat)
    ensures Pow2(k) > k
  {
    if k > 0 {
      Pow2Grows(k - 1);
    }
  }

  lemma StillWide(window: nat, d: nat, k: nat, w: int)
    requires d >= 1 && 0 < w && Millis(w) > d
    requires w == if window < MS then window else Max(MS, window / Pow2(k))
    ensures d * MS * Pow2(k) < window
  {
    hide Pow2;
    assert w >= (d + 1) * MS;
    assert w == window / Pow2(k);
    var p := Pow2(k);
    assert w * p <= window;
    TimesMono(d * MS, w, p);
  }

  lemma TimesMono(a: nat, b: nat, p: nat)
    requires a < b && p >= 1
    ensures a * p < b * p
  {
    assert (b - a) * p == b * p - a * p;
    AtLeastOnce(b - a, p);
  }

  /**
   A round has a window exactly when the window length is at least a millisecond and the source
   is visible beyond the cursor. With a configured window under a millisecond there is never one
   at the base length.
   */
  lemma WindowAvailableIff(c: Config, w: int, underfill: nat, cursor: int, now: int, flushOk: bool)
    requires w >= 0 && c.watermark >= 0 && c.exportLag >= 0 && c.maxWindow >= 0
    ensures EndOf(c, w, underfill, cursor, now, flushOk) > cursor <==>
              && w >= MS && (underfill == 0 ==> c.maxWindow >= MS)
              && now - Millis(if flushOk then c.watermark else c.exportLag) > cursor
  {
  }

  lemma WindowIsLong(c: Config, underfill: nat, allEmpty: bool, oversize: nat)
    requires c.window >= MS && c.maxWindow >= MS
    ensures WindowOf(c, underfill, allEmpty, oversize) >= MS
  {
    hide Pow2;
    AtLeastOnce(Pow2(underfill), c.window);
  }

  /** A piece of an export that could become a frame: some of its lines, within the limits. */
  ghost predicate Chunk(c: Config, f: bytes, raw: bytes) {
    FrameOk(f, c.frameLines, c.frameBytes) && forall l :: l in LinesOf(f) ==> l in LinesOf(raw)
  }

  lemma {:induction false} ChunksOf(c: Config, chunks: seq<bytes>, raw: bytes)
    requires forall l :: l in LinesOfAll(chunks) ==> l in LinesOf(raw)
    requires forall f :: f in chunks ==> FrameOk(f, c.frameLines, c.frameBytes)
    ensures forall f :: f in chunks ==> Chunk(c, f, raw)
  {
    hide LinesOf, FrameOk;
    if |chunks| > 0 {
      var n := |chunks| - 1;
      assert chunks == chunks[..n] + [chunks[n]];
      ChunksOf(c, chunks[..n], raw);
    }
  }

  class Poller {
    const cfg: Config
    const encode: bytes -> Result<bytes>
    const wal: Wal
    var underfill: nat
    var allEmpty: bool
    var oversize: nat
    var prefetch: Option<Slot>

    ghost var exports: seq<Export>
    ghost var windows: seq<Span>
    ghost var history: seq<Past>
    ghost var failures: seq<int>  // widths of the windows of the current run of oversize failures

    constructor (c: Config, enc: bytes -> Result<bytes>, w: Wal)
      requires w.Valid()
      ensures Valid() && cfg == Normalised(c) && encode == enc && wal == w && exports == [] && windows == [] && history == [] && Remembers()
    {
      cfg, encode, wal := Normalised(c), enc, w;
      underfill, allEmpty, oversize, prefetch := 0, true, 0, None;
      exports, windows, failures, history := [], [], [], [];
    }

    ghost predicate Configured() {
      cfg.window > 0 && cfg.watermark > 0 && cfg.maxWindow > 0 && cfg.exportLag >= cfg.watermark
    }

    /** A prefetched result is the answer to a logged export of a non-empty window. */
    ghost predicate SlotOk()
      reads this`prefetch, this`exports
    {
      prefetch.Some? ==>
        && prefetch.value.cursor < prefetch.value.end
        && exists at :: Export(prefetch.value.cursor, prefetch.value.end, at, false, prefetch.value.raw) in exports
    }

    ghost predicate ExportsOk()
      requires Configured()
      reads this`exports
    {
      forall e :: e in exports ==> Visible(cfg, e)
    }

    /** The successful windows tile the time up to the cursor. */
    ghost predicate TilesOk()
      reads this`windows, wal`cp
    {
      Tiled(windows) && (windows != [] ==> windows[|windows| - 1].end == wal.cp.cursor)
    }

    /** Each failure after the first of a run had a window no longer than the shrunk one. */
    ghost predicate RunOk()
      requires Configured()
      reads this`oversize, this`failures
    {
      |failures| == oversize && Shrinking(cfg, failures)
    }

    ghost predicate Valid()
      reads this, wal
    {
      && wal.Valid() && Configured() && SlotOk() && ExportsOk() && TilesOk() && RunOk()
      && (oversize > 0 ==> prefetch == None)
    }

    /** The counters are what the past rounds amount to. */
    ghost predicate Remembers()
      reads this`underfill, this`allEmpty, this`oversize, this`history
    {
      Agrees(history, underfill, allEmpty, oversize)
    }

    method WindowSize() returns (w: int)
      requires cfg.window > 0 && cfg.maxWindow > 0
      ensures w == WindowOf(cfg, underfill, allEmpty, oversize) && w > 0
    {
      hide Pow2;
      if oversize > 0 {
        w := Shrunk(cfg.window, oversize);
      } else {
        w := Doubled(cfg.window, underfill, if allEmpty then EMPTY_CAP else cfg.maxWindow);
      }
    }

    /** The end of this round's window. */
    method WindowEnd(cursor: int, now: int, flushOk: bool) returns (end: int)
      requires Valid()
      ensures end == EndOf(cfg, WindowOf(cfg, underfill, allEmpty, oversize), underfill, cursor, now, flushOk)
    {
      var w := WindowSize();
      end := cursor + Millis(w);
      var maxEnd := now - Millis(cfg.watermark);
      if !flushOk {
        var lagEnd := now - Millis(cfg.exportLag);
        if lagEnd < maxEnd {
          maxEnd := lagEnd;
        }
      }
      if end > maxEnd {
        end := maxEnd;
      }
      if underfill == 0 && end - cursor > Millis(cfg.maxWindow) {
        end := cursor + Millis(cfg.maxWindow);
      }
    }

    /** Requests the next window ahead of time, unless it would end in the realtime zone. */
    method LaunchPrefetch(cursor: int, env: Env)
      requires Valid()
      modifies this`prefetch, this`exports
      ensures ExportsOk() && SlotOk()
      ensures forall e :: e in old(exports) ==> e in exports
      ensures prefetch == if old(prefetch).Some? then old(prefetch)
                          else Ahead(cfg, WindowOf(cfg, underfill, allEmpty, oversize), underfill, cursor, env)
    {
      hide WindowOf;
      if prefetch.Some? {
        return;
      }
      var nw := WindowSize();
      if underfill == 0 && nw > cfg.maxWindow {
        nw := cfg.maxWindow;
      }
      var ne := cursor + Millis(nw);
      var maxEnd := env.launch1 - Millis(cfg.watermark);
      if ne > maxEnd {
        ne := maxEnd;
      }
      if env.launch2 - ne < Millis(cfg.exportLag) {
        return;
      }
      if ne <= cursor {
        return;
      }
      exports := exports + [Export(cursor, ne, env.launch2, false, env.prefetched)];
      prefetch := Some(Slot(cursor, ne, env.prefetched));
    }

    /** Chooses this round's window, flushing the source if it reaches into the realtime zone. */
    method ChooseWindow(env: Env) returns (end: int, flushed: bool)
      requires Valid()
      ensures end > wal.cp.cursor ==> Visible(cfg, Export(wal.cp.cursor, end, env.now, flushed, env.exported))
      ensures end - wal.cp.cursor <= Millis(WindowOf(cfg, underfill, allEmpty, oversize))
      ensures var w := WindowOf(cfg, underfill, allEmpty, oversize);
              var near := Realtime(cfg, w, wal.cp.cursor, env.now);
              end == EndOf(cfg, w, underfill, wal.cp.cursor, env.now, !near || env.flushOk) && (flushed <==> near && env.flushOk)
    {
      hide WindowOf;
      var w := WindowSize();
      var rawEnd := wal.cp.cursor + Millis(w);
      var flushOk := true;
      flushed := false;
      if rawEnd > env.now - Millis(cfg.exportLag) {
        flushOk := env.flushOk;
        flushed := env.flushOk;
      }
      end := WindowEnd(wal.cp.cursor, env.now, flushOk);
    }

    /** The prefetched window starts at the cursor. */
    ghost predicate SlotHits()
      reads this`prefetch, wal`cp
    {
      prefetch.Some? && prefetch.value.cursor == wal.cp.cursor
    }

    /** What this round's export returns. */
    ghost function Fetched(env: Env): Option<bytes>
      reads this`prefetch, wal`cp
    {
      if SlotHits() then prefetch.value.raw else env.exported
    }

    /** Where the window that this round works on ends. */
    ghost function FetchedEnd(env: Env): int
      requires Configured()
      reads this, wal`cp
    {
      if SlotHits() then prefetch.value.end else Wanted(env)
    }

    /** The window this round asks for if it cannot use a prefetched one. */
    ghost function Wanted(env: Env): int
      requires Configured()
      reads this, wal`cp
    {
      var w := WindowOf(cfg, underfill, allEmpty, oversize);
      EndOf(cfg, w, underfill, wal.cp.cursor, env.now, !Realtime(cfg, w, wal.cp.cursor, env.now) || env.flushOk)
    }

    /** Takes the prefetched result if it starts at the cursor, or exports now. */
    method Fetch(end: int, flushed: bool, env: Env) returns (raw: Option<bytes>, windowEnd: int, cancelled: bool)
      requires Valid() && end > wal.cp.cursor
      requires Visible(cfg, Export(wal.cp.cursor, end, env.now, flushed, env.exported))
      modifies this`prefetch, this`exports
      ensures Valid() && prefetch == None && windowEnd > wal.cp.cursor
      ensures forall e :: e in old(exports) ==> e in exports
      ensures !cancelled ==> exists at, fl :: Export(wal.cp.cursor, windowEnd, at, fl, raw) in exports
      ensures if old(SlotHits()) then raw == old(prefetch).value.raw && windowEnd == old(prefetch).value.end && cancelled == env.cancelled
              else raw == env.exported && windowEnd == end && !cancelled
    {
      hide WindowOf;
      var slot := prefetch;
      prefetch := None;
      if slot.Some? && slot.value.cursor == wal.cp.cursor {
        return slot.value.raw, slot.value.end, env.cancelled;
      }
      exports := exports + [Export(wal.cp.cursor, end, env.now, flushed, env.exported)];
      return env.exported, end, false;
    }

    /** Encodes every chunk, or reports the first failure. */
    method EncodeAll(chunks: seq<bytes>) returns (r: Result<seq<bytes>>)
      ensures r.Ok? ==> |r.value| == |chunks| && forall i :: 0 <= i < |chunks| ==> encode(chunks[i]) == Ok(r.value[i])
      ensures r.Err? ==> exists i :: FailsFirst(chunks, i) && encode(chunks[i]) == Err(r.error)
    {
      var enc := [];
      for i := 0 to |chunks|
        invariant |enc| == i && forall k :: 0 <= k < i ==> encode(chunks[k]) == Ok(enc[k])
      {
        var e := encode(chunks[i]);
        if e.Err? {
          assert FailsFirst(chunks, i);
          return Err(e.error);
        }
        enc := enc + [e.value];
      }
      return Ok(enc);
    }

    /** Growth and shrink streaks after a window of this size. */
    method CountStreaks(chunks: seq<bytes>, size: nat)
      modifies this`underfill, this`allEmpty
      ensures underfill == if chunks == [] || size < cfg.windowTarget then old(underfill) + 1 else 0
      ensures allEmpty == if chunks == [] then old(allEmpty) else size >= cfg.windowTarget
    {
      if chunks == [] {
        underfill := underfill + 1;
      } else if size < cfg.windowTarget {
        underfill := underfill + 1;
        allEmpty := false;
      } else {
        underfill := 0;
        allEmpty := true;
      }
    }

    /** What the encoder returns are frames of the configured type. */
    ghost predicate EncodesFrames() {
      forall f :: encode(f).Ok? ==> ValidFrame(encode(f).value) && encode(f).value[3] == cfg.compression
    }

    /** A round that fails after the export fails because of some chunk. */
    ghost predicate Explained(r: Round, chunks: seq<bytes>) {
      && (r.Oversize? ==> exists i :: FailsFirst(chunks, i) && encode(chunks[i]) == Err(TooLarge))
      && (r.EncodeFailed? ==> exists i :: FailsFirst(chunks, i) && encode(chunks[i]) != Err(TooLarge))
      && (r.AppendFailed? ==> exists f :: f in chunks && encode(f).Ok? && |encode(f).value| < HEADER_SIZE)
    }

    /** The first chunk that cannot be encoded. */
    ghost predicate FailsFirst(chunks: seq<bytes>, i: int) {
      0 <= i < |chunks| && encode(chunks[i]).Err? && forall j :: 0 <= j < i ==> encode(chunks[j]).Ok?
    }

    method CountFailure(width: int)
      requires Configured() && RunOk() && (oversize > 0 ==> width <= Millis(WindowOf(cfg, 0, true, oversize)))
      modifies this`oversize, this`failures, this`prefetch
      ensures RunOk() && SlotOk() && prefetch == None
      ensures oversize == old(oversize) + 1 && failures == old(failures) + [width]
    {
      hide WindowOf;
      oversize := oversize + 1;
      failures := failures + [width];
      prefetch := None;
    }

    method ResetShrink()
      requires Configured()
      modifies this`oversize, this`failures
      ensures RunOk() && oversize == 0
    {
      oversize := 0;
      failures := [];
    }

    /** Moves the cursor once everything of the window is in the log. */
    method Finish(end: int)
      requires wal.Valid() && Configured() && end > wal.cp.cursor && TilesOk()
      modifies this`oversize, this`failures, this`windows, wal
      ensures wal.Valid() && wal.View() == MoveCursor(old(wal.View()), end, wal.View().fits) && wal.cp.cursor == end
      ensures RunOk() && oversize == 0 && TilesOk()
      ensures windows == old(windows) + [Span(old(wal.cp.cursor), end)]
      ensures wal.cp.nextSeq == old(wal.cp.nextSeq) && (old(wal.Clean()) ==> wal.Clean())
    {
      hide Journal.Queued, Journal.ReadAll, ViewOf;
      ghost var start := wal.cp.cursor;
      var ok := wal.SetCursor(end);
      assert ok;  // the window ends after the cursor, so the move is never a regress
      ResetShrink();
      windows := windows + [Span(start, end)];
    }

    /** Encodes and appends the chunks of a window and then moves the cursor to its end. */
    method Deliver(chunks: seq<bytes>, end: int) returns (r: Round, ghost frames: seq<bytes>)
      requires wal.Valid() && Configured() && SlotOk() && ExportsOk() && TilesOk() && RunOk()
      requires end > wal.cp.cursor && (oversize > 0 ==> end - wal.cp.cursor <= Millis(WindowOf(cfg, 0, true, oversize)))
      modifies this`oversize, this`prefetch, this`windows, this`failures, wal
      ensures Valid()
      ensures r.Advanced? ==>
                && r.end == end && wal.cp.cursor == end && oversize == 0
                && |frames| == |chunks| && (forall i :: 0 <= i < |chunks| ==> encode(chunks[i]) == Ok(frames[i]))
                && Long(frames)
                && wal.View() == Delivered(old(wal.View()), frames, end, wal.View().fits)
                && windows == old(windows) + [Span(old(wal.cp.cursor), end)]
      ensures !r.Advanced? ==> wal.cp.cursor == old(wal.cp.cursor) && wal.saved == old(wal.saved) && windows == old(windows)
      ensures !r.Advanced? && !r.AppendFailed? ==> wal.View() == old(wal.View())
      ensures r.Oversize? ==> oversize == old(oversize) + 1 && failures == old(failures) + [r.width]
      ensures r.Advanced? || r.Oversize? || r.EncodeFailed? || r.AppendFailed?
      ensures r.EncodeFailed? || r.AppendFailed? ==> oversize == old(oversize)
      ensures prefetch == if r.Advanced? then old(prefetch) else None
      ensures Explained(r, chunks)
      ensures r.Oversize? ==> r.width == end - wal.cp.cursor
      ensures old(wal.Clean()) && EncodesFrames() && wal.cp.nextSeq <= U64 ==> wal.Clean()
    {
      hide WindowOf, Journal.Queued, Journal.ReadAll, ViewOf, Numbered, Tiled, RunOk, ExportsOk, Append, MoveCursor, Delivered, ParseHeader, FramesOnly, TilesOk, EncodesFrames;
      frames := [];
      var cursor := wal.cp.cursor;
      ghost var q := wal.View();
      if chunks == [] {
        Finish(end);
        DeliversNothing(q, end, wal.View().fits);
        return Advanced(end), frames;
      }
      var enc := EncodeAll(chunks);
      if enc.Err? {
        prefetch := None;
        if enc.error == TooLarge {
          CountFailure(end - cursor);
          return Oversize(end - cursor), frames;
        }
        return EncodeFailed, frames;
      }
      frames := enc.value;
      assert EncodesFrames() ==> FramesOnly(frames) by { Encoded(chunks, frames); }
      var ok := Land(enc.value, end);
      if !ok {
        prefetch := None;
        assert encode(chunks[LongEnough(frames)]) == Ok(frames[LongEnough(frames)]);
        return AppendFailed, frames;
      }
      return Advanced(end), frames;
    }

    lemma Encoded(chunks: seq<bytes>, frames: seq<bytes>)
      requires |frames| == |chunks| && forall i :: 0 <= i < |chunks| ==> encode(chunks[i]) == Ok(frames[i])
      ensures EncodesFrames() ==> FramesOnly(frames)
    {
      hide ParseHeader;
    }

    ghost predicate FramesOnly(frames: seq<bytes>) {
      forall f :: f in frames ==> ValidFrame(f) && f[3] == cfg.compression
    }

    /** Appends the frames and, only if the log took all of them, moves the cursor. */
    method Land(frames: seq<bytes>, end: int) returns (ok: bool)
      requires wal.Valid() && Configured() && end > wal.cp.cursor && TilesOk()
      modifies this`oversize, this`failures, this`windows, wal
      ensures wal.Valid() && TilesOk() && (ok <==> Long(frames)) && (ok <==> LongEnough(frames) == |frames|)
      ensures ok ==>
                && wal.View() == Delivered(old(wal.View()), frames, end, wal.View().fits) && wal.cp.cursor == end
                && RunOk() && oversize == 0
                && windows == old(windows) + [Span(old(wal.cp.cursor), end)]
      ensures !ok ==>
                && wal.cp.cursor == old(wal.cp.cursor) && wal.saved == old(wal.saved)
                && windows == old(windows) && oversize == old(oversize) && failures == old(failures)
      ensures old(wal.Clean()) && FramesOnly(frames) && wal.cp.nextSeq <= U64 ==> wal.Clean()
    {
      hide WindowOf, Journal.Queued, Journal.ReadAll, ViewOf, Numbered, Tiled, RunOk, ParseHeader, Append, MoveCursor, Delivered;
      ghost var q := wal.View();
      ok := Store(frames);
      if ok {
        ghost var q1 := wal.View();
        Finish(end);
        DeliversAll(q, q1, wal.View(), frames, end);
      }
    }

    /** Appends the frames of a window; only frames too short to be frames can be refused. */
    method Store(frames: seq<bytes>) returns (ok: bool)
      requires wal.Valid()
      modifies wal
      ensures wal.Valid() && wal.saved == old(wal.saved) && wal.cp.cursor == old(wal.cp.cursor)
      ensures ok <==> LongEnough(frames) == |frames|
      ensures ok <==> Long(frames)
      ensures ok ==> wal.View() == Append(old(wal.View()), Numbered(frames, old(wal.View()).nextSeq), wal.View().fits)
      ensures (&& old(wal.Clean()) && wal.cp.nextSeq <= U64
               && FramesOnly(frames)) ==> wal.Clean()
    {
      hide Journal.Queued, Journal.ReadAll, ViewOf, Numbered, ParseHeader;
      ghost var n := LongEnough(frames);
      var stored, _ := wal.AppendBatch(cfg.compression, frames);
      ok := stored;
      if n == |frames| {
        assert frames[..n] == frames;
      } else {
        assert frames[n] in frames;
      }
    }

    /** Adds a round that processed nothing to the history. */
    ghost method Note(p: Past)
      requires p.Idle? || p.Lost?
      modifies this`history
      ensures history == old(history) + [p]
      ensures old(Remembers()) && p.Idle? ==> Remembers()
      ensures old(Remembers()) && p.Lost? ==> Agrees(history, 0, true, 0)
    {
      hide Streak, Failures, OnlyEmpty;
      if Remembers() {
        HistoryGrows(history, p, underfill, allEmpty, oversize);
      }
      history := history + [p];
    }

    /** First half of a round: choose the window and obtain its export, or end the round early. */
    method Obtain(env: Env) returns (r: Round, raw: bytes, end: int)
      requires Valid()
      modifies this`underfill, this`allEmpty, this`oversize, this`prefetch, this`exports, this`failures, this`history
      ensures Valid()
      ensures r == Advanced(end) || r.NoWindow? || r.Cancelled? || r.ExportFailed?
      ensures r.NoWindow? <==> old(Wanted(env)) <= wal.cp.cursor
      ensures r.Cancelled? <==> old(Wanted(env)) > wal.cp.cursor && old(SlotHits()) && env.cancelled
      ensures r.ExportFailed? ==> old(Fetched(env)).None? && oversize == 0
      ensures history == (if r.Advanced? then old(history) else old(history) + [PastOf(r, [], 0, cfg.windowTarget)])
      ensures old(Remembers()) ==> Remembers()
      ensures r.Advanced? ==>
                && old(Fetched(env)) == Some(raw) && end == old(FetchedEnd(env)) && end > wal.cp.cursor && prefetch == None
                && oversize == old(oversize) && failures == old(failures)
                && underfill == old(underfill) && allEmpty == old(allEmpty)
                && (exists at, fl :: Export(wal.cp.cursor, end, at, fl, Some(raw)) in exports)
                && (oversize > 0 ==> end - wal.cp.cursor <= Millis(WindowOf(cfg, 0, true, oversize)))
    {
      hide WindowOf, EndOf, Journal.Queued, Journal.ReadAll, ViewOf, TilesOk, SlotOk, RunOk, ExportsOk, Visible, Agrees;
      raw := [];
      ShrinkIgnoresGrowth(cfg, underfill, allEmpty, oversize);
      var flushed;
      end, flushed := ChooseWindow(env);
      if end <= wal.cp.cursor {
        Note(Idle);
        return NoWindow, raw, end;
      }
      var got, windowEnd, cancelled := Fetch(end, flushed, env);
      if cancelled {
        Note(Idle);
        return Cancelled, raw, end;
      }
      if got.None? {
        Note(Lost);
        underfill, allEmpty := 0, true;
        ResetShrink();
        return ExportFailed, raw, end;
      }
      return Advanced(windowEnd), got.value, windowEnd;
    }

    /** Splits the export, counts its density and looks ahead to the next window. */
    method Prepare(got: bytes, end: int, env: Env) returns (parts: seq<bytes>)
      requires Valid() && prefetch == None
      modifies this`underfill, this`allEmpty, this`prefetch, this`exports
      ensures SlotOk() && ExportsOk() && TilesOk() && RunOk()
      ensures forall e :: e in old(exports) ==> e in exports
      ensures LinesOfAll(parts) == LinesOf(got) && (forall f :: f in parts ==> Chunk(cfg, f, got))
      ensures underfill == (if parts == [] || |got| < cfg.windowTarget then old(underfill) + 1 else 0)
      ensures allEmpty == if parts == [] then old(allEmpty) else |got| >= cfg.windowTarget
      ensures prefetch == Ahead(cfg, WindowOf(cfg, underfill, allEmpty, oversize), underfill, end, env)
    {
      hide WindowOf, EndOf, Ahead, Chunk, LinesOf, LinesOfAll, Tiled, SlotOk, RunOk, ExportsOk, FrameOk, TilesOk, Journal.Queued;
      parts := SplitFrames(got, cfg.frameLines, cfg.frameBytes);
      ChunksOf(cfg, parts, got);
      CountStreaks(parts, |got|);
      LaunchPrefetch(end, env);
    }

    /** Adds a round that processed an export to the history, with the counters as they now stand. */
    ghost method NoteGot(p: Past, u: nat, a: bool, o: nat, end: int, env: Env)
      requires Configured() && p.Got? && underfill == (if p.empty || !p.dense then u + 1 else 0)
      requires allEmpty == (if p.empty then a else p.dense)
      requires oversize == if p.verdict == Through then 0 else if p.verdict == TooBig then o + 1 else o
      modifies this`history
      ensures history == old(history) + [p]
      ensures Agrees(old(history), u, a, o) ==>
                && Remembers()
                && LooksAhead(Streak(history), Failures(old(history)), end, env,
                              Ahead(cfg, WindowOf(cfg, underfill, allEmpty, o), underfill, end, env))
    {
      hide Streak, Failures, OnlyEmpty, LooksAhead, WindowOf, Ahead;
      ghost var h := history;
      history := h + [p];
      if Agrees(h, u, a, o) {
        HistoryGrows(h, p, u, a, o);
        AheadIsRight(Streak(history), o, underfill, allEmpty, end, env);
      }
    }

    /** Second half of a round: split, count, look ahead, encode, append, move the cursor. */
    method Process(got: bytes, end: int, env: Env) returns (r: Round, ghost chunks: seq<bytes>, ghost frames: seq<bytes>)
      requires Valid() && end > wal.cp.cursor && prefetch == None
      requires oversize > 0 ==> end - wal.cp.cursor <= Millis(WindowOf(cfg, 0, true, oversize))
      modifies this`underfill, this`allEmpty, this`oversize, this`prefetch, this`exports, this`windows, this`failures, this`history, wal
      ensures Valid() && (r.Advanced? || r.Oversize? || r.EncodeFailed? || r.AppendFailed?)
      ensures history == old(history) + [PastOf(r, chunks, |got|, cfg.windowTarget)] && (old(Remembers()) ==> Remembers())
      ensures old(Remembers()) && r.Advanced? ==> LooksAhead(Streak(history), Failures(old(history)), end, env, prefetch)
      ensures forall e :: e in old(exports) ==> e in exports
      ensures r.Advanced? ==>
                && r.end == end && wal.cp.cursor == end && oversize == 0
                && |frames| == |chunks| && (forall i :: 0 <= i < |chunks| ==> encode(chunks[i]) == Ok(frames[i]))
                && Long(frames)
                && wal.View() == Delivered(old(wal.View()), frames, end, wal.View().fits)
                && windows == old(windows) + [Span(old(wal.cp.cursor), end)]
      ensures !r.Advanced? ==> wal.cp.cursor == old(wal.cp.cursor) && wal.saved == old(wal.saved) && windows == old(windows)
      ensures !r.Advanced? && !r.AppendFailed? ==> wal.View() == old(wal.View())
      ensures r.Oversize? ==> oversize == old(oversize) + 1 && failures == old(failures) + [r.width] && r.width == end - wal.cp.cursor
      ensures r.EncodeFailed? || r.AppendFailed? ==> oversize == old(oversize)
      ensures LinesOfAll(chunks) == LinesOf(got) && (forall f :: f in chunks ==> Chunk(cfg, f, got))
      ensures Explained(r, chunks)
      ensures underfill == (if chunks == [] || |got| < cfg.windowTarget then old(underfill) + 1 else 0)
      ensures allEmpty == if chunks == [] then old(allEmpty) else |got| >= cfg.windowTarget
      ensures prefetch == if r.Advanced? then Ahead(cfg, WindowOf(cfg, underfill, allEmpty, old(oversize)), underfill, end, env)
                          else None
      ensures old(wal.Clean()) && EncodesFrames() && wal.cp.nextSeq <= U64 ==> wal.Clean()
    {
      hide WindowOf, EndOf, Ahead, Delivered, EncodesFrames, FetchedEnd, Chunk, Journal.Queued, Journal.ReadAll, ViewOf,
        LinesOf, LinesOfAll, Numbered, Tiled, TilesOk, SlotOk, RunOk, ExportsOk, Visible, Explained, SlotHits, Fetched, Wanted, FrameOk,
        Streak, Failures, OnlyEmpty, LooksAhead, Agrees;
      var parts := Prepare(got, end, env);
      chunks := parts;
      r, frames := Deliver(parts, end);
      NoteGot(PastOf(r, chunks, |got|, cfg.windowTarget), old(underfill), old(allEmpty), old(oversize), end, env);
    }

    /**
     One round. It advances only by appending every frame of a window that starts at the cursor
     and then moving the cursor to that window's end; otherwise the cursor stays. The window is the
     furthest the past rounds, the margins and the caps allow.
     */
    method PollOnce(env: Env) returns (r: Round, ghost raw: bytes, ghost chunks: seq<bytes>, ghost frames: seq<bytes>)
      requires Valid()
      modifies this`underfill, this`allEmpty, this`oversize, this`prefetch, this`exports, this`windows, this`failures, this`history, wal
      ensures Valid() && (old(Remembers()) ==> Remembers())
      ensures history == old(history) + [PastOf(r, chunks, |raw|, cfg.windowTarget)]
      ensures old(Remembers()) ==> Asked(old(history), old(wal.cp.cursor), env, old(Wanted(env)))
      ensures old(Remembers()) && r.Advanced? ==> LooksAhead(Streak(history), Failures(old(history)), r.end, env, prefetch)
      ensures r.Advanced? ==>
                && r.end > old(wal.cp.cursor) && wal.cp.cursor == r.end && r.end == old(FetchedEnd(env))
                && (exists at, fl :: Export(old(wal.cp.cursor), r.end, at, fl, Some(raw)) in exports)
                && |frames| == |chunks| && (forall i :: 0 <= i < |chunks| ==> encode(chunks[i]) == Ok(frames[i]))
                && Long(frames)
                && wal.View() == Delivered(old(wal.View()), frames, r.end, wal.View().fits)
                && windows == old(windows) + [Span(old(wal.cp.cursor), r.end)]
      ensures !r.Advanced? ==> wal.cp.cursor == old(wal.cp.cursor) && wal.saved == old(wal.saved) && windows == old(windows)
      ensures !r.Advanced? && !r.AppendFailed? ==> wal.View() == old(wal.View())
      ensures r.Oversize? ==> oversize == old(oversize) + 1 && failures == old(failures) + [r.width]
      ensures r.Advanced? || r.ExportFailed? ==> oversize == 0
      ensures r.NoWindow? <==> old(Wanted(env)) <= old(wal.cp.cursor)
      ensures r.Cancelled? <==> old(Wanted(env)) > old(wal.cp.cursor) && old(SlotHits()) && env.cancelled
      ensures r.ExportFailed? ==> old(Fetched(env)).None?
      ensures Explained(r, chunks)
      ensures !r.NoWindow? && !r.Cancelled? && !r.ExportFailed? ==>
                && old(Fetched(env)) == Some(raw) && LinesOfAll(chunks) == LinesOf(raw)
                && underfill == (if chunks == [] || |raw| < cfg.windowTarget then old(underfill) + 1 else 0)
                && allEmpty == if chunks == [] then old(allEmpty) else |raw| >= cfg.windowTarget
      ensures r.Advanced? ==>
                prefetch == Ahead(cfg, WindowOf(cfg, underfill, allEmpty, old(oversize)), underfill, r.end, env)
      ensures r.Oversize? || r.EncodeFailed? || r.AppendFailed? ==> prefetch == None
      ensures r.EncodeFailed? || r.AppendFailed? ==> oversize == old(oversize)
      ensures r.Oversize? ==> r.width == old(FetchedEnd(env)) - old(wal.cp.cursor)
      ensures forall f :: f in chunks ==> Chunk(cfg, f, raw)
      ensures old(wal.Clean()) && EncodesFrames() && wal.cp.nextSeq <= U64 ==> wal.Clean()
    {
      hide WindowOf, EndOf, Ahead, Delivered, EncodesFrames, Chunk, Journal.Queued, Journal.ReadAll, ViewOf, LinesOf, LinesOfAll,
        Numbered, Tiled, TilesOk, SlotOk, RunOk, ExportsOk, Visible, Explained, Asked, LooksAhead, Agrees, Streak, Failures;
      raw, chunks, frames := [], [], [];
      var cursor := wal.cp.cursor;
      AskedRight(env);
      hide Wanted, FetchedEnd, SlotHits, Fetched;
      var got: bytes, end;
      r, got, end := Obtain(env);
      if !r.Advanced? {
        NothingToExplain(r);
        return;
      }
      raw := got;
      ghost var at, fl :| Export(cursor, end, at, fl, Some(raw)) in exports;
      r, chunks, frames := Process(got, end, env);
      assert Export(cursor, end, at, fl, Some(raw)) in exports;
    }

    lemma NothingToExplain(r: Round)
      requires !r.Oversize? && !r.EncodeFailed? && !r.AppendFailed?
      ensures Explained(r, [])
    {
    }

    /** This is the end a round must ask for, by the history before it. */
    ghost predicate Asked(h: seq<Past>, cursor: int, env: Env, end: int)
      requires Configured()
    {
      var w := Length(cfg, Streak(h), Failures(h));
      w >= 0 && Furthest(cfg, Streak(h), Failures(h), cursor, VisibleEnd(cfg, cursor + Millis(w), env.now, env.flushOk), end)
    }

    lemma AskedRight(env: Env)
      requires Configured()
      ensures Remembers() ==> Asked(history, wal.cp.cursor, env, Wanted(env))
    {
      hide WindowOf, EndOf, Streak, Failures, OnlyEmpty, Length, Furthest;
      if Remembers() {
        LengthIs(cfg, Streak(history), oversize, underfill, allEmpty);
        var w := WindowOf(cfg, underfill, allEmpty, oversize);
        EndIsFurthest(cfg, Streak(history), oversize, w, wal.cp.cursor, env.now,
                      !Realtime(cfg, w, wal.cp.cursor, env.now) || env.flushOk);
      }
    }

    /** A prefetch asks for the furthest window too, and is kept if all of that is visible without a flush. */
    ghost predicate LooksAhead(streak: seq<Past>, failures: nat, cursor: int, env: Env, slot: Option<Slot>)
      requires Configured()
    {
      Length(cfg, streak, failures) >= 0 && exists end :: SlotFor(streak, failures, cursor, env, end, slot)
    }

    ghost predicate SlotFor(streak: seq<Past>, failures: nat, cursor: int, env: Env, end: int, slot: Option<Slot>)
      requires Configured() && Length(cfg, streak, failures) >= 0
    {
      && Furthest(cfg, streak, failures, cursor, env.launch1 - Millis(cfg.watermark), end)
      && slot == if cursor < end <= env.launch2 - Millis(cfg.exportLag) then Some(Slot(cursor, end, env.prefetched)) else None
    }

    lemma AheadIsRight(streak: seq<Past>, failures: nat, under: nat, empty: bool, cursor: int, env: Env)
      requires Configured() && under == |streak| && (empty <==> OnlyEmpty(streak))
      ensures LooksAhead(streak, failures, cursor, env, Ahead(cfg, WindowOf(cfg, under, empty, failures), under, cursor, env))
    {
      hide WindowOf, EndOf, OnlyEmpty, Length, Furthest;
      LengthIs(cfg, streak, failures, under, empty);
      var w := WindowOf(cfg, under, empty, failures);
      EndIsFurthest(cfg, streak, failures, w, cursor, env.launch1, true);
      var end := EndOf(cfg, w, under, cursor, env.launch1, true);
      assert SlotFor(streak, failures, cursor, env, end, Ahead(cfg, w, under, cursor, env));
    }

    /** What a caller must know for rounds to get anywhere: the source answers, and encoding fails only on size. */
    ghost predicate Workable(source: (int, int) -> bytes, d: nat)
      reads this`prefetch
    {
      && cfg.window >= MS && cfg.maxWindow >= MS
      && (prefetch.Some? ==> prefetch.value.raw == Some(source(prefetch.value.cursor, prefetch.value.end)))
      && (forall f :: encode(f).Err? ==> encode(f) == Err(TooLarge))
      && (forall f :: encode(f).Ok? ==> |encode(f).value| >= HEADER_SIZE)
      && (forall f, a, b :: b - a <= d && Chunk(cfg, f, source(a, b)) ==> encode(f).Ok?)
    }

    /** A round under workable conditions advances, or fails on a window of more than `d` milliseconds. */
    method WorkableRound(e: Env, source: (int, int) -> bytes, ghost d: nat) returns (advanced: bool, ghost frames: seq<bytes>)
      requires Valid() && Workable(source, d) && (forall w :: w in failures ==> w > d)
      requires !e.cancelled && e.now - Millis(cfg.exportLag) > wal.cp.cursor
      modifies this`underfill, this`allEmpty, this`oversize, this`prefetch, this`exports, this`windows, this`failures, this`history, wal
      ensures Valid()
      ensures advanced ==>
                && oversize == 0 && wal.cp.cursor > old(wal.cp.cursor)
                && windows == old(windows) + [Span(old(wal.cp.cursor), wal.cp.cursor)]
                && Long(frames) && wal.View() == Delivered(old(wal.View()), frames, wal.cp.cursor, wal.View().fits)
      ensures !advanced ==>
                && Workable(source, d) && (forall w :: w in failures ==> w > d)
                && wal.View() == old(wal.View()) && wal.cp.cursor == old(wal.cp.cursor) && windows == old(windows)
                && oversize == old(oversize) + 1
    {
      hide WindowOf, EndOf, Ahead, Delivered, EncodesFrames, Chunk, Tiled, TilesOk, SlotOk, ExportsOk, RunOk, Shrinking,
        Journal.Queued, Journal.ReadAll, ViewOf, LinesOf, LinesOfAll, Realtime;
      var cursor := wal.cp.cursor;
      var w := WindowSize();
      var near := Realtime(cfg, w, cursor, e.now);
      WindowIsLong(cfg, underfill, allEmpty, oversize);
      WindowAvailableIff(cfg, w, underfill, cursor, e.now, !near || e.flushOk);
      assert Millis(cfg.watermark) <= Millis(cfg.exportLag);
      var end := EndOf(cfg, w, underfill, cursor, e.now, !near || e.flushOk);
      var env := e.(exported := Some(source(cursor, end)));
      assert Fetched(env) == Some(source(cursor, FetchedEnd(env)));
      ghost var fetchedEnd := FetchedEnd(env);
      hide Fetched, FetchedEnd, Wanted, SlotHits;
      ghost var raw, chunks;
      var r;
      r, raw, chunks, frames := PollOnce(env);
      advanced := r.Advanced?;
      assert r.Oversize? ==> r.width > d;
    }

    /**
     Progress. If the source answers, is visible beyond the cursor, and every chunk of a window of up
     to `d` milliseconds can be encoded, then after finitely many rounds, all of them oversize
     failures, one advances: n >= 2 failures need d * 2^(n-1) milliseconds below the configured window,
     so there are at most max(1, log2(window / d)) of them, rounded up.
     */
    method PollUntilAdvance(envs: nat -> Env, source: (int, int) -> bytes, ghost d: nat)
      returns (n: nat, ghost frames: seq<bytes>)
      requires Valid() && d >= 1 && Workable(source, d) && (forall w :: w in failures ==> w > d)
      requires forall i :: !envs(i).cancelled && envs(i).now - Millis(cfg.exportLag) > wal.cp.cursor
      modifies this`underfill, this`allEmpty, this`oversize, this`prefetch, this`exports, this`windows, this`failures, this`history, wal
      ensures Valid() && oversize == 0 && wal.cp.cursor > old(wal.cp.cursor)
      ensures windows == old(windows) + [Span(old(wal.cp.cursor), wal.cp.cursor)]
      ensures Long(frames) && wal.View() == Delivered(old(wal.View()), frames, wal.cp.cursor, wal.View().fits)
      ensures old(oversize) + n >= 2 ==> d * MS * Pow2(old(oversize) + n - 1) < cfg.window
    {
      hide WindowOf, EndOf, Delivered, Chunk, TilesOk, SlotOk, ExportsOk,
        Journal.Queued, Journal.ReadAll, ViewOf, LinesOf, LinesOfAll, Pow2, Shrinking;
      n := 0;
      ghost var k, v := oversize, wal.View();
      while true
        invariant Valid() && Workable(source, d) && (forall w :: w in failures ==> w > d)
        invariant wal.View() == v && wal.cp.cursor == old(wal.cp.cursor) && windows == old(windows)
        invariant oversize == k + n
        decreases cfg.window + 1 - oversize
      {
        OversizeRunIsShort(cfg, failures, d);
        var advanced;
        advanced, frames := WorkableRound(envs(n), source, d);
        if advanced {
          return;
        }
        OversizeRunIsShort(cfg, failures, d);
        n := n + 1;
      }
    }
  }
}
