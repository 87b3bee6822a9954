/** Shared vocabulary: failure-compatible results, bytes, big-endian integers,
    single bits of a bitmap, and strings as their UTF-8 bytes. */
module Bytes {

  datatype Option<+T> = None | Some(value: T)

  /** Why a codec refuses its input. */
  datatype CodecError = Truncated | BadLength | BadField | BadVersion | TooLarge | Trailing

  datatype Result<+T> = Ok(value: T) | Err(error: CodecError) {
    predicate IsFailure() { Err? }
    function PropagateFailure<U>(): Result<U> { Err(if Err? then error else Truncated) }
    function Extract(): T requires Ok? { value }
  }

  type Byte = b: int | 0 <= b < 256
  type U16 = n: int | 0 <= n < 0x1_0000
  type U32 = n: int | 0 <= n < 0x1_0000_0000
  type U64 = n: int | 0 <= n < 0x1_0000_0000_0000_0000

  /** A 16-byte identifier. */
  type Id16 = s: seq<Byte> | |s| == 16 witness ZERO_ID
  const ZERO_ID: seq<Byte> := [0, 0, 0, 0, 0, 0, 0, 0, 0, 0, 0, 0, 0, 0, 0, 0]

  /** A SHA-256 digest. */
  type Sha32 = s: seq<Byte> | |s| == 32 witness ZERO_ID + ZERO_ID

  /** The hash function, a parameter of everything that checks one. */
  type Hash = seq<Byte> -> Sha32

  // ---- big-endian integers ----

  function U16be(v: U16): (s: seq<Byte>)
    ensures |s| == 2
  {
    [v / 256, v % 256]
  }

  function U32be(v: U32): (s: seq<Byte>)
    ensures |s| == 4
  {
    U16be(v / 0x1_0000) + U16be(v % 0x1_0000)
  }

  function U64be(v: U64): (s: seq<Byte>)
    ensures |s| == 8
  {
    U32be(v / 0x1_0000_0000) + U32be(v % 0x1_0000_0000)
  }

  /** The integer written by U16be, U32be and U64be. */
  function FromBe16(s: seq<Byte>): (v: U16)
    requires |s| == 2
    ensures U16be(v) == s
  {
    s[0] as int * 256 + s[1] as int
  }

  function FromBe32(s: seq<Byte>): (v: U32)
    requires |s| == 4
    ensures U32be(v) == s
  {
    var h, l := FromBe16(s[..2]), FromBe16(s[2..]);
    assert s == s[..2] + s[2..];
    assert (h * 0x1_0000 + l) / 0x1_0000 == h && (h * 0x1_0000 + l) % 0x1_0000 == l;
    h * 0x1_0000 + l
  }

  function FromBe64(s: seq<Byte>): (v: U64)
    requires |s| == 8
    ensures U64be(v) == s
  {
    var h, l := FromBe32(s[..4]), FromBe32(s[4..]);
    assert s == s[..4] + s[4..];
    assert (h * 0x1_0000_0000 + l) / 0x1_0000_0000 == h && (h * 0x1_0000_0000 + l) % 0x1_0000_0000 == l;
    h * 0x1_0000_0000 + l
  }

  lemma U16Injective(a: U16, b: U16)
    requires U16be(a) == U16be(b)
    ensures a == b
  {
    assert U16be(a)[0] == U16be(b)[0] && U16be(a)[1] == U16be(b)[1];
  }

  lemma U32Injective(a: U32, b: U32)
    requires U32be(a) == U32be(b)
    ensures a == b
  {
    assert U32be(a)[..2] == U16be(a / 0x1_0000) && U32be(b)[..2] == U16be(b / 0x1_0000);
    assert U32be(a)[2..] == U16be(a % 0x1_0000) && U32be(b)[2..] == U16be(b % 0x1_0000);
    U16Injective(a / 0x1_0000, b / 0x1_0000);
    U16Injective(a % 0x1_0000, b % 0x1_0000);
  }

  lemma U64Injective(a: U64, b: U64)
    requires U64be(a) == U64be(b)
    ensures a == b
  {
    assert U64be(a)[..4] == U32be(a / 0x1_0000_0000) && U64be(b)[..4] == U32be(b / 0x1_0000_0000);
    assert U64be(a)[4..] == U32be(a % 0x1_0000_0000) && U64be(b)[4..] == U32be(b % 0x1_0000_0000);
    U32Injective(a / 0x1_0000_0000, b / 0x1_0000_0000);
    U32Injective(a % 0x1_0000_0000, b % 0x1_0000_0000);
  }

  // ---- LSB-first bitmaps ----

  /** `1 << k` on one byte. */
  function Mask(k: nat): bv8
    requires k < 8
  {
    if k == 0 then 1 else if k == 1 then 2 else if k == 2 then 4 else if k == 3 then 8
    else if k == 4 then 16 else if k == 5 then 32 else if k == 6 then 64 else 128
  }

  predicate BitOfByte(b: bv8, k: nat)
    requires k < 8
  {
    b & Mask(k) != 0
  }

  /** Bit `i` of an LSB-first bitmap; bits past the last byte are clear. */
  predicate Bit(bitmap: seq<bv8>, i: nat) {
    i / 8 < |bitmap| && BitOfByte(bitmap[i / 8], i % 8)
  }

  function SetBit(bitmap: seq<bv8>, i: nat): (r: seq<bv8>)
    requires i / 8 < |bitmap|
    ensures |r| == |bitmap|
  {
    bitmap[i / 8 := bitmap[i / 8] | Mask(i % 8)]
  }

  lemma ByteSetBit(b: bv8, k: nat, j: nat)
    requires k < 8 && j < 8
    ensures BitOfByte(b | Mask(k), j) <==> BitOfByte(b, j) || j == k
  {
  }

  lemma SetBitSpec(bitmap: seq<bv8>, i: nat)
    requires i / 8 < |bitmap|
    ensures forall j: nat :: Bit(SetBit(bitmap, i), j) <==> Bit(bitmap, j) || j == i
  {
    forall j: nat ensures Bit(SetBit(bitmap, i), j) <==> Bit(bitmap, j) || j == i {
      if j / 8 == i / 8 {
        ByteSetBit(bitmap[i / 8], i % 8, j % 8);
      }
    }
  }

  // ---- strings ----

  predicate Continuation(b: Byte) { 0x80 <= b < 0xC0 }

  /** Length in bytes of the well-formed scalar at the front of `s`, 0 if there is none
      (the Unicode Standard, table 3-7). */
  function ScalarLen(s: seq<Byte>): (n: nat)
    ensures n <= |s| && n <= 4
  {
    if |s| == 0 then 0
    else if s[0] < 0x80 then 1
    else if |s| >= 2 && 0xC2 <= s[0] < 0xE0 && Continuation(s[1]) then 2
    else if |s| >= 3 && 0xE0 <= s[0] < 0xF0 && Continuation(s[1]) && Continuation(s[2])
      && (s[0] == 0xE0 ==> s[1] >= 0xA0) && (s[0] == 0xED ==> s[1] < 0xA0) then 3
    else if |s| >= 4 && 0xF0 <= s[0] < 0xF5 && Continuation(s[1]) && Continuation(s[2]) && Continuation(s[3])
      && (s[0] == 0xF0 ==> s[1] >= 0x90) && (s[0] == 0xF4 ==> s[1] < 0x90) then 4
    else 0
  }

  predicate ValidUtf8(s: seq<Byte>)
    decreases |s|
  {
    s == [] || (ScalarLen(s) > 0 && ValidUtf8(s[ScalarLen(s)..]))
  }

  /** A string is its UTF-8 bytes. */
  type Str = s: seq<Byte> | ValidUtf8(s)

  /** Number of Unicode scalars in a string. */
  function CharCount(s: Str): nat
    decreases |s|
  {
    if s == [] then 0 else 1 + CharCount(s[ScalarLen(s)..])
  }

  predicate Ascii(s: seq<Byte>) {
    forall i :: 0 <= i < |s| ==> s[i] < 0x80
  }

  lemma {:induction false} AsciiIsUtf8(s: seq<Byte>)
    requires Ascii(s)
    ensures ValidUtf8(s)
    decreases |s|
  {
    if s != [] {
      assert ScalarLen(s) == 1;
      AsciiIsUtf8(s[1..]);
    }
  }
}
