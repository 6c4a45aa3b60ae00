/** Chunking of export output: JSON lines are regrouped into frames and never broken. */
module Lines {
  import opened Bytes

  const NL: byte := 10

  /** The pieces between newlines, as bytes.Split returns them. */
  function Split(raw: bytes): (ls: seq<bytes>)
    ensures |ls| >= 1
  {
    if |raw| == 0 then [[]]
    else
      var ls, b := Split(raw[..|raw| - 1]), raw[|raw| - 1];
      if b == NL then ls + [[]] else ls[..|ls| - 1] + [ls[|ls| - 1] + [b]]
  }

  function NonEmpty(ls: seq<bytes>): seq<bytes> {
    if |ls| == 0 then []
    else NonEmpty(ls[..|ls| - 1]) + if |ls[|ls| - 1]| == 0 then [] else [ls[|ls| - 1]]
  }

  /** The meaning of a chunk: its non-empty lines, in order. */
  function LinesOf(raw: bytes): seq<bytes> {
    NonEmpty(Split(raw))
  }

  function LinesOfAll(frames: seq<bytes>): seq<bytes> {
    if |frames| == 0 then [] else LinesOfAll(frames[..|frames| - 1]) + LinesOf(frames[|frames| - 1])
  }

  function Join(ls: seq<bytes>): bytes {
    if |ls| == 0 then []
    else if |ls| == 1 then ls[0]
    else Join(ls[..|ls| - 1]) + [NL] + ls[|ls| - 1]
  }

  /** A line that can stand in a frame: not empty, no newline inside. */
  predicate Line(l: bytes) {
    l != [] && NL !in l
  }

  predicate AllLines(ls: seq<bytes>) {
    forall l :: l in ls ==> Line(l)
  }

  // ---------------------------------------------------------------- splitting and joining

  lemma {:induction false} SplitOne(x: bytes)
    requires NL !in x
    ensures Split(x) == [x]
  {
    if |x| > 0 {
      var n := |x| - 1;
      SplitOne(x[..n]);
      assert x == x[..n] + [x[n]];
      assert x[n] in x;
    }
  }

  lemma {:induction false} SplitAfterLine(a: bytes, x: bytes)
    requires NL !in x
    ensures Split(a + [NL] + x) == Split(a) + [x]
  {
    var whole := a + [NL] + x;
    if |x| == 0 {
      assert whole[..|whole| - 1] == a && whole[|whole| - 1] == NL;
    } else {
      var n := |x| - 1;
      SplitAfterLine(a, x[..n]);
      assert x[n] in x && x == x[..n] + [x[n]];
      assert whole[..|whole| - 1] == a + [NL] + x[..n] && whole[|whole| - 1] == x[n];
      var ls := Split(a) + [x[..n]];
      assert ls[..|ls| - 1] == Split(a) && ls[|ls| - 1] == x[..n];
    }
  }

  lemma {:induction false} SplitOfJoin(ls: seq<bytes>)
    requires ls != [] && AllLines(ls)
    ensures Split(Join(ls)) == ls && Join(ls) != []
  {
    var n := |ls| - 1;
    assert ls[n] in ls;
    if n == 0 {
      SplitOne(ls[0]);
      assert ls == [ls[0]];
    } else {
      assert AllLines(ls[..n]);
      SplitOfJoin(ls[..n]);
      SplitAfterLine(Join(ls[..n]), ls[n]);
      assert ls == ls[..n] + [ls[n]];
    }
  }

  lemma {:induction false} SplitHasNoNewlines(raw: bytes)
    ensures forall l :: l in Split(raw) ==> NL !in l
  {
    if |raw| > 0 {
      SplitHasNoNewlines(raw[..|raw| - 1]);
    }
  }

  lemma {:induction false} NonEmptyOfLines(ls: seq<bytes>)
    requires AllLines(ls)
    ensures NonEmpty(ls) == ls
  {
    if |ls| > 0 {
      var n := |ls| - 1;
      assert ls[n] in ls;
      assert AllLines(ls[..n]);
      NonEmptyOfLines(ls[..n]);
      assert ls == ls[..n] + [ls[n]];
    }
  }

  lemma LinesOfJoin(ls: seq<bytes>)
    requires ls != [] && AllLines(ls)
    ensures LinesOf(Join(ls)) == ls && Join(ls) != []
  {
    SplitOfJoin(ls);
    NonEmptyOfLines(ls);
  }

  // ---------------------------------------------------------------- splitFrames

  function LineLimit(maxLines: int): nat {
    if maxLines < 1 then 1 else maxLines
  }

  /** A frame of at most `maxLines` lines that exceeds `maxBytes` only if it is a single line. */
  predicate FrameOk(f: bytes, maxLines: int, maxBytes: int) {
    && f != []
    && 1 <= |LinesOf(f)| <= LineLimit(maxLines)
    && (|f| > maxBytes ==> |LinesOf(f)| == 1)
  }

  /** The frame could not have taken this line as well. */
  ghost predicate Full(f: bytes, line: bytes, maxLines: int, maxBytes: int) {
    |LinesOf(f)| >= maxLines || |f| + 1 + |line| > maxBytes
  }

  /** No frame but the last could have taken the first line of the next one. */
  ghost predicate Packed(frames: seq<bytes>, maxLines: int, maxBytes: int) {
    forall i :: 0 <= i < |frames| - 1 && LinesOf(frames[i + 1]) != [] ==>
      Full(frames[i], LinesOf(frames[i + 1])[0], maxLines, maxBytes)
  }

  /** The last frame is closed to `group`, or if that is empty, to every line. */
  ghost predicate Closed(frames: seq<bytes>, group: seq<bytes>, maxLines: int, maxBytes: int) {
    frames != [] ==>
      if group == [] then |frames[|frames| - 1]| > maxBytes else Full(frames[|frames| - 1], group[0], maxLines, maxBytes)
  }

  /**
   Regroups the lines of an export into frames: taken together the frames hold exactly the
   non-empty lines of the input, in order, and no frame is closed before it has to be.
   */
  method SplitFrames(raw: bytes, maxLines: int, maxBytes: int) returns (frames: seq<bytes>)
    ensures LinesOfAll(frames) == LinesOf(raw)
    ensures forall f :: f in frames ==> FrameOk(f, maxLines, maxBytes)
    ensures Packed(frames, maxLines, maxBytes)
  {
    hide LinesOf, Join, Split, NonEmpty, FrameOk;
    frames := [];
    var cur: bytes := [];
    var curLines := 0;
    ghost var group: seq<bytes> := [];
    var lines := Split(raw);
    SplitHasNoNewlines(raw);
    Empties();
    for i := 0 to |lines|
      invariant LinesOfAll(frames) + group == NonEmpty(lines[..i])
      invariant forall f :: f in frames ==> FrameOk(f, maxLines, maxBytes)
      invariant Collecting(cur, curLines, group, maxLines, maxBytes)
      invariant Packed(frames, maxLines, maxBytes) && Closed(frames, group, maxLines, maxBytes)
    {
      var line := lines[i];
      assert line in lines;
      NonEmptySnoc(lines, i);
      if |line| == 0 {
        assert NonEmpty(lines[..i + 1]) == NonEmpty(lines[..i]);
        continue;
      }
      if curLines > 0 && (curLines >= maxLines || |cur| + |line| + 1 > maxBytes) {
        Flushed(frames, cur, curLines, group, maxLines, maxBytes);
        PackedMore(frames, cur, group, maxLines, maxBytes);
        frames := frames + [cur];
        cur, curLines, group := [], 0, [];
      }
      ghost var was := group;
      JoinSnoc(group, line);
      if curLines > 0 {
        cur := cur + [NL];
      }
      cur := cur + line;
      curLines := curLines + 1;
      group := group + [line];
      assert LinesOfAll(frames) + group == (LinesOfAll(frames) + was) + [line];
      if |cur| > maxBytes {
        Flushed(frames, cur, curLines, group, maxLines, maxBytes);
        PackedMore(frames, cur, group, maxLines, maxBytes);
        frames := frames + [cur];
        cur, curLines, group := [], 0, [];
        assert LinesOfAll(frames) + [] == LinesOfAll(frames);
      }
    }
    assert lines[..|lines|] == lines;
    LinesAreThese(raw);
    if |cur| > 0 {
      Flushed(frames, cur, curLines, group, maxLines, maxBytes);
      PackedMore(frames, cur, group, maxLines, maxBytes);
      frames := frames + [cur];
    } else {
      assert LinesOfAll(frames) + [] == LinesOfAll(frames);
    }
  }

  /** The frame being filled: its text, its line count and the lines themselves. */
  ghost predicate Collecting(cur: bytes, curLines: int, group: seq<bytes>, maxLines: int, maxBytes: int) {
    && cur == Join(group) && curLines == |group| && AllLines(group)
    && (group == [] <==> cur == [])
    && |group| <= LineLimit(maxLines)
    && (|cur| > maxBytes ==> |group| <= 1)
  }

  lemma Empties()
    ensures Join([]) == [] && NonEmpty([]) == [] && LinesOfAll([]) == []
  {
  }

  lemma LinesAreThese(raw: bytes)
    ensures LinesOf(raw) == NonEmpty(Split(raw))
  {
  }

  lemma NonEmptySnoc(ls: seq<bytes>, i: nat)
    requires i < |ls|
    ensures NonEmpty(ls[..i + 1]) == NonEmpty(ls[..i]) + if |ls[i]| == 0 then [] else [ls[i]]
  {
    assert ls[..i + 1][..i] == ls[..i];
  }

  lemma JoinSnoc(group: seq<bytes>, line: bytes)
    ensures Join(group + [line]) == if group == [] then line else Join(group) + [NL] + line
  {
    assert (group + [line])[..|group|] == group;
  }

  lemma PackedMore(frames: seq<bytes>, cur: bytes, group: seq<bytes>, maxLines: int, maxBytes: int)
    requires Packed(frames, maxLines, maxBytes) && Closed(frames, group, maxLines, maxBytes)
    requires group != [] && LinesOf(cur) == group
    ensures Packed(frames + [cur], maxLines, maxBytes)
  {
    hide LinesOf;
  }

  lemma Flushed(frames: seq<bytes>, cur: bytes, curLines: int, group: seq<bytes>, maxLines: int, maxBytes: int)
    requires Collecting(cur, curLines, group, maxLines, maxBytes) && group != []
    ensures LinesOfAll(frames + [cur]) == LinesOfAll(frames) + group && LinesOf(cur) == group
    ensures FrameOk(cur, maxLines, maxBytes)
  {
    LinesOfJoin(group);
    assert (frames + [cur])[..|frames|] == frames;
  }
}
