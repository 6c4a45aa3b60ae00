/**
 What the sender may do on its connection. Acknowledgement bytes carry no sequence numbers, so
 everything depends on which frame a byte answers and on when the connection is dropped.
 */
module Link {
  import opened Bytes
  import opened Codec

  /** A connection is dropped while waiting for an answer, or otherwise: after a failed send or a nack. */
  datatype Event<F> = Dialed | Sent(f: F) | Read(ack: byte) | Dropped(waiting: bool) | Committed(f: F)

  /**
   The client's side of one connection: frames sent and bytes read on it. `unused` says that the
   last thing that happened was reading a byte, which has not justified a commit yet. `owed` is the
   frame that go-back-N has to continue with: the one whose send failed, or else the first one that
   was not answered with 0xff.
   */
  datatype Client<F> = Client(live: bool, sent: seq<F>, acks: seq<byte>, spoiled: bool, unused: bool, owed: Option<F>)

  function Start<F>(): Client<F> {
    Client(false, [], [], false, false, None)
  }

  /** The frame that the next byte answers. */
  function Awaited<F>(c: Client<F>): Option<F> {
    if |c.acks| < |c.sent| then Some(c.sent[|c.acks|]) else None
  }

  /** All bytes that can still arrive have been read. */
  predicate Quiet<F>(c: Client<F>) {
    c.live ==> |c.acks| == |c.sent| && !c.spoiled
  }

  /**
   A byte is read only while an answer is due; a nack with answers still due spoils the
   connection, which may then only be dropped; a frame is committed only right after the byte
   answering it was read and was 0xff.
   */
  predicate Allowed<F(==)>(c: Client<F>, e: Event<F>) {
    match e
    case Dialed => !c.live
    case Sent(_) => c.live && !c.spoiled
    case Read(_) => c.live && !c.spoiled && |c.acks| < |c.sent|
    case Dropped(_) => true
    case Committed(f) =>
      && c.live && c.unused && 0 < |c.acks| <= |c.sent|
      && c.acks[|c.acks| - 1] == ACK_SUCCESS && c.sent[|c.acks| - 1] == f
  }

  function Apply<F>(c: Client<F>, e: Event<F>): Client<F> {
    match e
    case Dialed => Client(true, [], [], false, false, c.owed)
    case Sent(f) => c.(sent := c.sent + [f], unused := false, owed := None)
    case Read(b) =>
      c.(acks := c.acks + [b], spoiled := b != ACK_SUCCESS && |c.acks| + 1 < |c.sent|, unused := true,
         owed := if b != ACK_SUCCESS then Awaited(c) else c.owed)
    case Dropped(waiting) =>
      c.(live := false, unused := false,
         owed := if c.owed.Some? || !c.live || c.sent == [] then c.owed
                 else if waiting then Awaited(c) else Some(c.sent[|c.sent| - 1]))
    case Committed(_) => c.(unused := false)
  }

  function Replay<F>(es: seq<Event<F>>): Client<F> {
    if |es| == 0 then Start() else Apply(Replay(es[..|es| - 1]), es[|es| - 1])
  }

  predicate Disciplined<F(==)>(es: seq<Event<F>>) {
    |es| > 0 ==> Disciplined(es[..|es| - 1]) && Allowed(Replay(es[..|es| - 1]), es[|es| - 1])
  }

  function Commits<F>(es: seq<Event<F>>): seq<F> {
    if |es| == 0 then []
    else Commits(es[..|es| - 1]) + if es[|es| - 1].Committed? then [es[|es| - 1].f] else []
  }

  lemma OneMore<F>(es: seq<Event<F>>, e: Event<F>)
    requires Disciplined(es) && Allowed(Replay(es), e)
    ensures Disciplined(es + [e]) && Replay(es + [e]) == Apply(Replay(es), e)
    ensures Commits(es + [e]) == Commits(es) + if e.Committed? then [e.f] else []
  {
    assert (es + [e])[..|es|] == es;
  }

  // ---------------------------------------------------------------- alignment

  /** The frames sent in a stretch of history, in order. */
  function Sents<F>(es: seq<Event<F>>): seq<F> {
    if |es| == 0 then []
    else Sents(es[..|es| - 1]) + if es[|es| - 1].Sent? then [es[|es| - 1].f] else []
  }

  /** The bytes read in a stretch of history, in order. */
  function Reads<F>(es: seq<Event<F>>): seq<byte> {
    if |es| == 0 then []
    else Reads(es[..|es| - 1]) + if es[|es| - 1].Read? then [es[|es| - 1].ack] else []
  }

  /** Position `d` dialed the connection that is still up at the end. */
  ghost predicate DialedAt<F(!new)>(es: seq<Event<F>>, d: nat) {
    && d < |es| && es[d].Dialed?
    && forall j :: d < j < |es| ==> !es[j].Dialed? && !es[j].Dropped?
  }

  /** What the client holds is what happened since it dialed. */
  lemma {:induction false} SinceDial<F(!new)>(es: seq<Event<F>>) returns (d: nat)
    requires Replay(es).live
    ensures DialedAt(es, d) && Sents(es[d + 1..]) == Replay(es).sent && Reads(es[d + 1..]) == Replay(es).acks
  {
    var n := |es| - 1;
    var e := es[n];
    if e.Dialed? {
      d := n;
    } else {
      d := SinceDial(es[..n]);
      assert es[d + 1..][..n - d - 1] == es[..n][d + 1..];
      assert forall j :: d < j < n ==> es[..n][j] == es[j];
    }
  }

  /**
   Alignment, by positions in the history: before a commit there is a dial with neither a drop nor
   another dial since; the byte read just before the commit is 0xff; and if that was the k-th byte
   read since the dial, then the committed frame was the k-th frame sent since the dial.
   */
  lemma CommitsAreAligned<F(!new)>(es: seq<Event<F>>, i: nat) returns (d: nat)
    requires Disciplined(es) && i < |es| && es[i].Committed?
    ensures DialedAt(es[..i], d) && es[i - 1] == Read(ACK_SUCCESS)
    ensures var k := |Reads(es[d + 1..i])|;
            0 < k <= |Sents(es[d + 1..i])| && Sents(es[d + 1..i])[k - 1] == es[i].f
  {
    AllowedAt(es, i);
    var before := es[..i];
    d := SinceDial(before);
    assert before[d + 1..] == es[d + 1..i];
    assert before[|before| - 1] == es[i - 1];
  }

  lemma {:induction false} AllowedAt<F>(es: seq<Event<F>>, i: nat)
    requires Disciplined(es) && i < |es|
    ensures Allowed(Replay(es[..i]), es[i])
  {
    if i < |es| - 1 {
      AllowedAt(es[..|es| - 1], i);
      assert es[..|es| - 1][..i] == es[..i];
    }
  }

  // ---------------------------------------------------------------- go-back-N

  /** Sending `f` now continues where the window was interrupted. Only heartbeats are never sent again. */
  predicate Follows<F(==)>(c: Client<F>, f: F, beat: F) {
    c.owed.Some? && c.owed.value != beat ==> f == c.owed.value
  }

  /** Every frame sent after an interruption is the one that is owed. */
  predicate GoesBack<F(==)>(es: seq<Event<F>>, beat: F) {
    |es| > 0 ==>
      && GoesBack(es[..|es| - 1], beat)
      && (es[|es| - 1].Sent? ==> Follows(Replay(es[..|es| - 1]), es[|es| - 1].f, beat))
  }

  lemma {:induction false} FollowsAt<F>(es: seq<Event<F>>, beat: F, j: nat)
    requires GoesBack(es, beat) && j < |es| && es[j].Sent?
    ensures Follows(Replay(es[..j]), es[j].f, beat)
  {
    if j < |es| - 1 {
      FollowsAt(es[..|es| - 1], beat, j);
      assert es[..|es| - 1][..j] == es[..j];
    }
  }

  /** After a nack nothing more is read before the next send, so the frame stays owed until then. */
  lemma {:induction false} StaysOwed<F(!new)>(es: seq<Event<F>>, i: nat, j: nat)
    requires Disciplined(es) && i < j <= |es| && es[i].Read? && es[i].ack != ACK_SUCCESS
    requires forall k :: i < k < j ==> !es[k].Sent?
    ensures Awaited(Replay(es[..i])).Some? && Replay(es[..j]).owed == Awaited(Replay(es[..i]))
    ensures Replay(es[..j]).spoiled || |Replay(es[..j]).acks| >= |Replay(es[..j]).sent|
  {
    hide Replay, Allowed, Apply, Disciplined;
    AllowedAt(es, j - 1);
    ReplayAt(es, j - 1);
    if i < j - 1 {
      StaysOwed(es, i, j - 1);
      OwedStays(Replay(es[..j - 1]), es[j - 1]);
    } else {
      NackOwes(Replay(es[..i]), es[i]);
    }
  }

  lemma ReplayAt<F>(es: seq<Event<F>>, i: nat)
    requires i < |es|
    ensures Replay(es[..i + 1]) == Apply(Replay(es[..i]), es[i])
  {
    hide Apply;
    assert es[..i + 1][..i] == es[..i];
  }

  lemma NackOwes<F>(c: Client<F>, e: Event<F>)
    requires Allowed(c, e) && e.Read? && e.ack != ACK_SUCCESS
    ensures Awaited(c).Some? && Apply(c, e).owed == Awaited(c)
    ensures Apply(c, e).spoiled || |Apply(c, e).acks| >= |Apply(c, e).sent|
  {
  }

  lemma OwedStays<F>(c: Client<F>, e: Event<F>)
    requires Allowed(c, e) && !e.Sent? && c.owed.Some? && (c.spoiled || |c.acks| >= |c.sent|)
    ensures Apply(c, e).owed == c.owed && (Apply(c, e).spoiled || |Apply(c, e).acks| >= |Apply(c, e).sent|)
  {
  }

  /**
   Go-back-N, by positions in the history: if the byte at `i` was a nack for a frame, then the next frame
   sent, on whatever connection, is that very frame. It was the k-th sent since the dial, and the nack the
   k-th byte read.
   */
  lemma NackedFrameIsSentNext<F(!new)>(es: seq<Event<F>>, beat: F, i: nat, j: nat) returns (d: nat)
    requires Disciplined(es) && GoesBack(es, beat) && i < j < |es|
    requires es[i].Read? && es[i].ack != ACK_SUCCESS && es[j].Sent? && forall k :: i < k < j ==> !es[k].Sent?
    ensures DialedAt(es[..i], d)
    ensures var k := |Reads(es[d + 1..i])|;
            k < |Sents(es[d + 1..i])| && (Sents(es[d + 1..i])[k] != beat ==> es[j].f == Sents(es[d + 1..i])[k])
  {
    AllowedAt(es, i);
    d := SinceDial(es[..i]);
    assert es[..i][d + 1..] == es[d + 1..i];
    StaysOwed(es, i, j);
    FollowsAt(es, beat, j);
  }

  lemma Longer<F>(a: seq<Event<F>>, b: seq<Event<F>>)
    requires a <= b
    ensures Commits(a) <= Commits(b)
    decreases |b|
  {
    if a != b {
      Longer(a, b[..|b| - 1]);
    }
  }
}
