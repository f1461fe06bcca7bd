/** A page as bytes: reading and overwriting parts of it. */
module PageBytes {
  import opened Bytes
  import opened Sequences

  /** `s` with `b` written over it from `at`. */
  function Splice(s: seq<byte>, at: nat, b: seq<byte>): (r: seq<byte>)
    requires at + |b| <= |s|
    ensures |r| == |s|
    ensures forall k {:trigger r[k]} :: 0 <= k < |s| ==> r[k] == if at <= k < at + |b| then b[k - at] else s[k]
  {
    s[..at] + b + s[at + |b|..]
  }

  function U16(s: seq<byte>, at: nat): nat
    requires at + 2 <= |s|
  {
    (s[at] as int) + 256 * (s[at + 1] as int)
  }

  function Bytes16(v: nat): seq<byte>
    requires v < 0x1_0000
  {
    [v % 256, v / 256]
  }

  /** A field outside what is overwritten reads as before. */
  lemma Apart16(s: seq<byte>, at: nat, b: seq<byte>, f: nat)
    requires at + |b| <= |s| && f + 2 <= |s| && (f + 2 <= at || at + |b| <= f)
    ensures U16(Splice(s, at, b), f) == U16(s, f)
  {
  }

  lemma ApartRange(s: seq<byte>, at: nat, b: seq<byte>, lo: nat, hi: nat)
    requires at + |b| <= |s| && lo <= hi <= |s| && (hi <= at || at + |b| <= lo)
    ensures Splice(s, at, b)[lo..hi] == s[lo..hi]
  {
  }

  method WriteBytes(page: array<byte>, at: nat, b: seq<byte>)
    requires at + |b| <= page.Length
    modifies page
    ensures page[..] == Splice(old(page[..]), at, b)
  {
    ghost var s := page[..];
    for i := 0 to |b|
      invariant forall k {:trigger page[k]} :: 0 <= k < page.Length ==> page[k] == if at <= k < at + i then b[k - at] else s[k]
    {
      page[at + i] := b[i];
    }
  }

  /** Move the bytes `from..to` to `dest`, which may overlap them. */
  method CopyWithin(page: array<byte>, from: nat, to: nat, dest: nat)
    requires from <= to <= page.Length && dest + (to - from) <= page.Length
    modifies page
    ensures page[..] == Splice(old(page[..]), dest, old(page[..])[from..to])
  {
    var moved := page[..][from..to];
    WriteBytes(page, dest, moved);
  }

  method Write16(page: array<byte>, at: nat, v: nat)
    requires at + 2 <= page.Length && v < 0x1_0000
    modifies page
    ensures page[..] == Splice(old(page[..]), at, Bytes16(v))
  {
    WriteBytes(page, at, Bytes16(v));
  }
}
