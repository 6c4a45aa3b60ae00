/** Byte strings and the big-endian integer coding used by frame headers and WAL record heads. */
module Bytes {

  type byte = x: int | 0 <= x < 256

  type bytes = seq<byte>

  const U32: nat := 0x1_0000_0000
  const U64: nat := 0x1_0000_0000_0000_0000

  type u32 = x: int | 0 <= x < U32
  type u64 = x: int | 0 <= x < U64

  datatype Option<+T> = None | Some(value: T)

  function Pow256(w: nat): (p: nat)
    ensures p > 0
  {
    if w == 0 then 1 else 256 * Pow256(w - 1)
  }

  /** The `w` low-order bytes of `v`, most significant byte first. */
  function Be(v: nat, w: nat): (s: bytes)
    ensures |s| == w
  {
    if w == 0 then [] else Be(v / 256, w - 1) + [v % 256]
  }

  function UnBe(s: bytes): (v: nat)
    ensures v < Pow256(|s|)
  {
    if |s| == 0 then 0 else UnBe(s[..|s| - 1]) * 256 + s[|s| - 1]
  }

  lemma {:induction false} UnBeOfBe(v: nat, w: nat)
    requires v < Pow256(w)
    ensures UnBe(Be(v, w)) == v
  {
    if w > 0 {
      UnBeOfBe(v / 256, w - 1);
      assert Be(v, w)[..w - 1] == Be(v / 256, w - 1);
    }
  }

  lemma {:induction false} BeOfUnBe(s: bytes)
    ensures Be(UnBe(s), |s|) == s
  {
    if |s| > 0 {
      BeOfUnBe(s[..|s| - 1]);
      assert UnBe(s) / 256 == UnBe(s[..|s| - 1]);
      assert s == s[..|s| - 1] + [s[|s| - 1]];
    }
  }

  lemma Widths()
    ensures Pow256(2) == 0x1_0000 && Pow256(4) == U32 && Pow256(8) == U64
  {
    assert Pow256(4) == 256 * 256 * Pow256(2);
    assert Pow256(8) == 256 * 256 * 256 * 256 * Pow256(4);
  }

  /** Writes `v` big-endian into `w` bytes of `dst` starting at `at`, leaving the rest alone. */
  method PutBe(dst: array<byte>, at: nat, v: nat, w: nat)
    requires at + w <= dst.Length
    modifies dst
    ensures dst[at..at + w] == Be(v, w)
    ensures forall i :: 0 <= i < dst.Length && !(at <= i < at + w) ==> dst[i] == old(dst[i])
  {
    var i, rest := w, v;
    while i > 0
      invariant 0 <= i <= w
      invariant forall j :: 0 <= j < dst.Length && !(at + i <= j < at + w) ==> dst[j] == old(dst[j])
      invariant Be(v, w) == Be(rest, i) + dst[at + i..at + w]
    {
      i := i - 1;
      ghost var done := dst[at + i + 1..at + w];
      dst[at + i] := rest % 256;
      rest := rest / 256;
      assert dst[at + i..at + w] == [dst[at + i]] + done;
    }
  }
}
