/** The fields log records are made of. An encoder puts a value in front of the bytes that follow
    it; a decoder takes one off the front, or fails. */
module WalBytes {
  import opened Bytes

  const U32_MAX: nat := 0xFFFF_FFFF

  type u16 = x: nat | x < 0x1_0000
  type u32 = x: nat | x < 0x1_0000_0000
  type u64 = x: nat | x < 0x1_0000_0000_0000_0000
  type i64 = x: int | -0x8000_0000_0000_0000 <= x < 0x8000_0000_0000_0000

  /** What a decoder returns: the value and the bytes after it, or that there is none. */
  datatype Parse<+T> = Fail | Ok(value: T, rest: seq<byte>) {
    predicate IsFailure() { Fail? }
    function PropagateFailure<U>(): Parse<U> requires Fail? { Fail }
    function Extract(): (T, seq<byte>) requires Ok? { (value, rest) }
  }

  // Integers -------------------------------------------------------------------------------------

  function ReadByte(b: seq<byte>): Parse<byte> {
    if b == [] then Fail else Ok(b[0], b[1..])
  }

  function PushInt(x: nat, w: nat, rest: seq<byte>): seq<byte> { ToLE(x, w) + rest }

  /** An unsigned little-endian integer of `w` bytes. */
  function ReadInt(w: nat, b: seq<byte>): Parse<nat> {
    if |b| < w then Fail else Ok(FromLE(b[..w]), b[w..])
  }

  lemma IntRound(x: nat, w: nat, rest: seq<byte>)
    requires x < Pow256(w)
    ensures ReadInt(w, PushInt(x, w, rest)) == Ok(x, rest)
  {
    FromToLE(x, w);
    assert PushInt(x, w, rest)[..w] == ToLE(x, w);
    assert PushInt(x, w, rest)[w..] == rest;
  }

  function TwosComplement(x: i64): u64 { if x < 0 then x + 0x1_0000_0000_0000_0000 else x }

  function Signed(x: u64): i64 { if x < 0x8000_0000_0000_0000 then x else x - 0x1_0000_0000_0000_0000 }

  function PushU16(x: u16, rest: seq<byte>): seq<byte> { PushInt(x, 2, rest) }

  function PushU32(x: u32, rest: seq<byte>): seq<byte> { PushInt(x, 4, rest) }

  function PushU64(x: u64, rest: seq<byte>): seq<byte> { PushInt(x, 8, rest) }

  function PushI64(x: i64, rest: seq<byte>): seq<byte> { PushU64(TwosComplement(x), rest) }

  function ReadU16(b: seq<byte>): Parse<u16> {
    Widths();
    var (x, b) :- ReadInt(2, b);
    Ok(x, b)
  }

  function ReadU32(b: seq<byte>): Parse<u32> {
    Widths();
    var (x, b) :- ReadInt(4, b);
    Ok(x, b)
  }

  function ReadU64(b: seq<byte>): Parse<u64> {
    Widths();
    var (x, b) :- ReadInt(8, b);
    Ok(x, b)
  }

  function ReadI64(b: seq<byte>): Parse<i64> {
    var (x, b) :- ReadU64(b);
    Ok(Signed(x), b)
  }

  lemma U16Round(x: u16, rest: seq<byte>)
    ensures ReadU16(PushU16(x, rest)) == Ok(x, rest)
  {
    hide ToLE, FromLE;
    Widths();
    IntRound(x, 2, rest);
  }

  lemma U32Round(x: u32, rest: seq<byte>)
    ensures ReadU32(PushU32(x, rest)) == Ok(x, rest)
  {
    hide ToLE, FromLE;
    Widths();
    IntRound(x, 4, rest);
  }

  lemma U64Round(x: u64, rest: seq<byte>)
    ensures ReadU64(PushU64(x, rest)) == Ok(x, rest)
  {
    hide ToLE, FromLE;
    Widths();
    IntRound(x, 8, rest);
  }

  lemma I64Round(x: i64, rest: seq<byte>)
    ensures ReadI64(PushI64(x, rest)) == Ok(x, rest)
  {
    hide PushU64, ReadU64;
    U64Round(TwosComplement(x), rest);
  }

  // Flags ----------------------------------------------------------------------------------------

  function PushBool(x: bool, rest: seq<byte>): seq<byte> { [if x then 1 else 0] + rest }

  /** A flag byte must be 0 or 1. */
  function ReadBool(b: seq<byte>): Parse<bool> {
    var (x, b) :- ReadByte(b);
    if x == 0 then Ok(false, b) else if x == 1 then Ok(true, b) else Fail
  }

  /** A flag byte of which any but 0 is set. */
  function ReadSet(b: seq<byte>): Parse<bool> {
    var (x, b) :- ReadByte(b);
    Ok(x != 0, b)
  }

  lemma BoolRound(x: bool, rest: seq<byte>)
    ensures ReadBool(PushBool(x, rest)) == Ok(x, rest) && ReadSet(PushBool(x, rest)) == Ok(x, rest)
  {
  }

  // Counted bytes --------------------------------------------------------------------------------

  /** A length as its field holds it: one too large for the field is written as the largest. */
  function Length32(n: nat): u32 { if n <= U32_MAX then n else U32_MAX }

  function PushBytes(x: seq<byte>, rest: seq<byte>): seq<byte> { PushU32(Length32(|x|), x + rest) }

  function ReadBytes(b: seq<byte>): Parse<seq<byte>> {
    var (n, b) :- ReadU32(b);
    if |b| < n then Fail else Ok(b[..n], b[n..])
  }

  lemma BytesRound(x: seq<byte>, rest: seq<byte>)
    requires |x| <= U32_MAX
    ensures ReadBytes(PushBytes(x, rest)) == Ok(x, rest)
  {
    hide PushU32, ReadU32;
    U32Round(Length32(|x|), x + rest);
    assert (x + rest)[..|x|] == x && (x + rest)[|x|..] == rest;
  }

  // Text -----------------------------------------------------------------------------------------

  predicate Continues(b: byte) { 0x80 <= b < 0xC0 }

  /** How many bytes the character at the front takes in well-formed UTF-8, by the table of section
      4 of RFC 3629; 0 if there is none. */
  function CharLength(s: seq<byte>): (n: nat)
    ensures n <= |s|
  {
    if s == [] then 0
    else if s[0] < 0x80 then 1
    else if |s| >= 2 && 0xC2 <= s[0] < 0xE0 && Continues(s[1]) then 2
    else if |s| >= 3 && 0xE0 <= s[0] < 0xF0 && Continues(s[1]) && Continues(s[2])
            && (s[0] == 0xE0 ==> s[1] >= 0xA0) && (s[0] == 0xED ==> s[1] < 0xA0) then 3
    else if |s| >= 4 && 0xF0 <= s[0] < 0xF5 && Continues(s[1]) && Continues(s[2]) && Continues(s[3])
            && (s[0] == 0xF0 ==> s[1] >= 0x90) && (s[0] == 0xF4 ==> s[1] < 0x90) then 4
    else 0
  }

  predicate Utf8(s: seq<byte>) {
    s == [] || (CharLength(s) > 0 && Utf8(s[CharLength(s)..]))
  }

  /** A string, as the bytes that spell it. */
  type Text = s: seq<byte> | Utf8(s) witness []

  function PushStr(x: Text, rest: seq<byte>): seq<byte> { PushBytes(x, rest) }

  function ReadStr(b: seq<byte>): Parse<Text> {
    var (x, b) :- ReadBytes(b);
    if Utf8(x) then Ok(x, b) else Fail
  }

  lemma StrRound(x: Text, rest: seq<byte>)
    requires |x| <= U32_MAX
    ensures ReadStr(PushStr(x, rest)) == Ok(x, rest)
  {
    hide PushBytes, ReadBytes;
    BytesRound(x, rest);
  }

  // Optional and repeated fields -----------------------------------------------------------------

  function PushOption<T>(push: (T, seq<byte>) -> seq<byte>, x: Option<T>, rest: seq<byte>): seq<byte> {
    match x
    case None => [0] + rest
    case Some(v) => [1] + push(v, rest)
  }

  function ReadOption<T>(read: seq<byte> -> Parse<T>, b: seq<byte>): Parse<Option<T>> {
    var (flag, b) :- ReadByte(b);
    if flag == 0 then Ok(None, b)
    else if flag == 1 then
      var (v, b) :- read(b);
      Ok(Some(v), b)
    else Fail
  }

  lemma OptionRound<T>(push: (T, seq<byte>) -> seq<byte>, read: seq<byte> -> Parse<T>, x: Option<T>, rest: seq<byte>)
    requires x.Some? ==> read(push(x.value, rest)) == Ok(x.value, rest)
    ensures ReadOption(read, PushOption(push, x, rest)) == Ok(x, rest)
  {
    if x.Some? { assert ([1] + push(x.value, rest))[1..] == push(x.value, rest); }
  }

  function PushAll<T>(push: (T, seq<byte>) -> seq<byte>, xs: seq<T>, rest: seq<byte>): seq<byte> {
    if xs == [] then rest else push(xs[0], PushAll(push, xs[1..], rest))
  }

  function ReadAll<T>(read: seq<byte> -> Parse<T>, n: nat, b: seq<byte>): Parse<seq<T>> {
    if n == 0 then Ok([], b)
    else
      var (x, b) :- read(b);
      var (xs, b) :- ReadAll(read, n - 1, b);
      Ok([x] + xs, b)
  }

  function PushList<T>(push: (T, seq<byte>) -> seq<byte>, xs: seq<T>, rest: seq<byte>): seq<byte> {
    PushU32(Length32(|xs|), PushAll(push, xs, rest))
  }

  function ReadList<T>(read: seq<byte> -> Parse<T>, b: seq<byte>): Parse<seq<T>> {
    var (n, b) :- ReadU32(b);
    ReadAll(read, n, b)
  }

  /** What is read of a value is the value, whatever follows it. */
  ghost predicate Reads<T>(push: (T, seq<byte>) -> seq<byte>, read: seq<byte> -> Parse<T>, x: T) {
    forall rest {:trigger push(x, rest)} :: read(push(x, rest)) == Ok(x, rest)
  }

  lemma {:induction false} AllRound<T>(push: (T, seq<byte>) -> seq<byte>, read: seq<byte> -> Parse<T>, xs: seq<T>, rest: seq<byte>)
    requires forall i {:trigger xs[i]} :: 0 <= i < |xs| ==> Reads(push, read, xs[i])
    ensures ReadAll(read, |xs|, PushAll(push, xs, rest)) == Ok(xs, rest)
    decreases |xs|
  {
    if xs != [] {
      AllRound(push, read, xs[1..], rest);
      assert Reads(push, read, xs[0]);
      assert xs == [xs[0]] + xs[1..];
    }
  }

  lemma ListRound<T>(push: (T, seq<byte>) -> seq<byte>, read: seq<byte> -> Parse<T>, xs: seq<T>, rest: seq<byte>)
    requires |xs| <= U32_MAX
    requires forall i {:trigger xs[i]} :: 0 <= i < |xs| ==> Reads(push, read, xs[i])
    ensures ReadList(read, PushList(push, xs, rest)) == Ok(xs, rest)
  {
    hide PushU32, ReadU32, ReadAll, PushAll;
    U32Round(Length32(|xs|), PushAll(push, xs, rest));
    AllRound(push, read, xs, rest);
  }

  /** Texts whose lengths fit their fields. */
  predicate ShortTexts(xs: seq<Text>) {
    |xs| <= U32_MAX && forall i {:trigger xs[i]} :: 0 <= i < |xs| ==> |xs[i]| <= U32_MAX
  }

  lemma TextsRound(xs: seq<Text>, rest: seq<byte>)
    requires ShortTexts(xs)
    ensures ReadList(ReadStr, PushList(PushStr, xs, rest)) == Ok(xs, rest)
  {
    forall i | 0 <= i < |xs| ensures Reads(PushStr, ReadStr, xs[i]) { TextReads(xs[i]); }
    ListRound(PushStr, ReadStr, xs, rest);
  }

  lemma TextReads(x: Text)
    requires |x| <= U32_MAX
    ensures Reads(PushStr, ReadStr, x)
  {
    forall rest ensures ReadStr(PushStr(x, rest)) == Ok(x, rest) { StrRound(x, rest); }
  }
}
