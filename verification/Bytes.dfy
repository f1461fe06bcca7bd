/** Bytes and the little-endian integers every page and record format is built from. */
module Bytes {

  type byte = x: int | 0 <= x < 256

  datatype Option<+T> = None | Some(value: T)

  function Zeros(n: nat): seq<byte> { seq(n, _ => 0) }

  /** 256 to the power `w`: one more than the largest integer of `w` bytes. */
  function Pow256(w: nat): (r: nat)
    ensures r > 0
  {
    if w == 0 then 1 else 256 * Pow256(w - 1)
  }

  /** `n` as `w` bytes, least significant first. */
  function ToLE(n: nat, w: nat): (s: seq<byte>)
    ensures |s| == w
    decreases w
  {
    if w == 0 then [] else [(n % 256) as byte] + ToLE(n / 256, w - 1)
  }

  function FromLE(s: seq<byte>): (n: nat)
    ensures n < Pow256(|s|)
    decreases |s|
  {
    if s == [] then 0 else
      var tail := FromLE(s[1..]);
      assert s[0] < 256 && tail + 1 <= Pow256(|s| - 1);
      s[0] + 256 * tail
  }

  lemma {:induction false} FromToLE(n: nat, w: nat)
    requires n < Pow256(w)
    ensures FromLE(ToLE(n, w)) == n
    decreases w
  {
    if w > 0 {
      assert ToLE(n, w)[1..] == ToLE(n / 256, w - 1);
      FromToLE(n / 256, w - 1);
    }
  }

  lemma LowByte(b: byte, n: nat)
    ensures (b + 256 * n) % 256 == b && (b + 256 * n) / 256 == n
  {
  }

  lemma {:induction false} ToFromLE(s: seq<byte>)
    ensures ToLE(FromLE(s), |s|) == s
    decreases |s|
  {
    hide Pow256;
    if s != [] {
      ToFromLE(s[1..]);
      LowByte(s[0], FromLE(s[1..]));
      assert s == [s[0]] + s[1..];
    }
  }

  /** `n` without its `i` least significant bytes. */
  function Shifted(n: nat, i: nat): nat {
    if i == 0 then n else Shifted(n / 256, i - 1)
  }

  /** Least significant first: the byte at `i` is the lowest of `n` shifted by `i` bytes. */
  lemma {:induction false} ByteOf(n: nat, w: nat, i: nat)
    requires i < w
    ensures ToLE(n, w)[i] == Shifted(n, i) % 256
    decreases w
  {
    if i > 0 { ByteOf(n / 256, w - 1, i - 1); }
  }

  /** The ranges of the integer fields the formats use. */
  lemma Widths()
    ensures Pow256(2) == 0x1_0000
    ensures Pow256(4) == 0x1_0000_0000
    ensures Pow256(8) == 0x1_0000_0000_0000_0000
  {
    assert Pow256(3) == 0x100_0000;
    assert Pow256(5) == 0x100_0000_0000;
    assert Pow256(6) == 0x1_0000_0000_0000;
    assert Pow256(7) == 0x100_0000_0000_0000;
  }
}
