/** The 28-byte CHAT_POLICY payload. */
module PolicyWire {
  import opened Bytes
  import opened Bin
  import opened PolicyMachine

  const VERSION: Byte := 1
  const SIZE: nat := 28

  function Bit01(on: bool): nat { if on then 1 else 0 }

  /** A word from its bits, lowest first. */
  function Pack(bits: seq<bool>): nat {
    if bits == [] then 0 else Bit01(bits[0]) + 2 * Pack(bits[1..])
  }

  function FlagBits(cp: ChatPolicy): seq<bool> {
    [cp.rules.screenshot, cp.rules.attachDownload, cp.wantAttach, cp.wantEmoji, cp.wantPresence, cp.wantTyping,
     cp.wantReceipts]
  }

  function Flags(cp: ChatPolicy): (f: U32)
  {
    PackBound(FlagBits(cp));
    Pack(FlagBits(cp))
  }

  lemma {:induction false} PackBound(bits: seq<bool>)
    requires |bits| <= 7
    ensures Pack(bits) < [1, 2, 4, 8, 16, 32, 64, 128][|bits|]
  {
    if bits != [] {
      PackBound(bits[1..]);
    }
  }

  /** `flags & (1 << k) != 0`. */
  predicate HasFlag(flags: nat, k: nat) {
    if k == 0 then flags % 2 == 1 else HasFlag(flags / 2, k - 1)
  }

  function Fields(cp: ChatPolicy, flags: U32): seq<Byte> {
    [VERSION] + ([cp.op] + (U32be(cp.rules.ttl) + (U32be(flags) + ([cp.capId]
    + ([Bit01(cp.capOn)] + (cp.proposeId + []))))))
  }

  function Encoding(cp: ChatPolicy): Result<seq<Byte>> {
    if ValidPayload(cp) then Ok(Fields(cp, Flags(cp))) else Err(BadField)
  }

  function FromFields(op: Byte, ttl: U32, flags: U32, capId: Byte, capOn: bool, id: Id16): ChatPolicy {
    ChatPolicy(op, Rules(ttl, HasFlag(flags, 0), HasFlag(flags, 1)),
               HasFlag(flags, 2), HasFlag(flags, 3), HasFlag(flags, 4), HasFlag(flags, 5), HasFlag(flags, 6),
               capId, capOn, id)
  }

  function Decoding(bytes: seq<Byte>): (r: Result<ChatPolicy>)
    ensures r.Ok? ==> ValidPayload(r.value)
  {
    if |bytes| != SIZE then Err(BadLength) else
    var (version, s1) :- ReadU8(bytes);
    if version != VERSION then Err(BadVersion) else
    var (op, s2) :- ReadU8(s1);
    var (ttl, s3) :- ReadU32(s2);
    var (flags, s4) :- ReadU32(s3);
    var (capId, s5) :- ReadU8(s4);
    var (capOn, s6) :- ReadU8(s5);
    if capOn > 1 then Err(BadField) else
    var (id, s7) :- TakeN(s6, 16);
    if s7 != [] then Err(Trailing) else
    var cp := FromFields(op, ttl, flags, capId, capOn == 1, id);
    if ValidPayload(cp) then Ok(cp) else Err(BadField)
  }

  method FlagsWord(cp: ChatPolicy) returns (flags: U32)
    ensures flags == Flags(cp)
  {
    var bits := FlagBits(cp);
    var f: nat := 0;
    var k := 7;
    while k > 0
      invariant k <= 7 == |bits| && f == Pack(bits[k..])
    {
      assert bits[k - 1..][1..] == bits[k..];
      k := k - 1;
      f := Bit01(bits[k]) + 2 * f;
    }
    assert bits[0..] == bits;
    PackBound(bits);
    flags := f;
  }

  method WriteFields(cp: ChatPolicy, flags: U32) returns (r: Result<seq<Byte>>)
    ensures r == Ok(Fields(cp, flags))
  {
    ghost var s5 := [Bit01(cp.capOn)] + (cp.proposeId + []);
    ghost var s3 := U32be(flags) + ([cp.capId] + s5);
    var w := new Writer();
    w.U8(VERSION);
    w.U8(cp.op);
    w.U32(cp.rules.ttl);
    assert w.buf + s3 == Fields(cp, flags);
    w.U32(flags);
    w.U8(cp.capId);
    assert w.buf + s5 == Fields(cp, flags);
    w.U8(if cp.capOn then 1 else 0);
    w.Raw(cp.proposeId);
    assert w.buf == Fields(cp, flags);
    return Ok(w.buf);
  }

  method Encode(cp: ChatPolicy) returns (r: Result<seq<Byte>>)
    ensures r == Encoding(cp)
  {
    if !ValidPayload(cp) {
      return Err(BadField);
    }
    var flags := FlagsWord(cp);
    r := WriteFields(cp, flags);
  }

  method Decode(bytes: seq<Byte>) returns (r: Result<ChatPolicy>)
    ensures r == Decoding(bytes)
  {
    if |bytes| != SIZE {
      return Err(BadLength);
    }
    var rd := new Reader(bytes);
    var version :- rd.U8();
    if version != VERSION {
      return Err(BadVersion);
    }
    var op :- rd.U8();
    var ttl :- rd.U32();
    var flags :- rd.U32();
    var capId :- rd.U8();
    var capOn :- rd.U8();
    if capOn > 1 {
      return Err(BadField);
    }
    var id :- rd.Take(16);
    var _ :- rd.ExpectEnd();
    var cp := FromFields(op, ttl, flags, capId, capOn == 1, id);
    if !ValidPayload(cp) {
      return Err(BadField);
    }
    return Ok(cp);
  }

  lemma {:induction false} PackBit(bits: seq<bool>, k: nat)
    requires k < |bits|
    ensures HasFlag(Pack(bits), k) <==> bits[k]
  {
    assert Pack(bits) / 2 == Pack(bits[1..]) && Pack(bits) % 2 == Bit01(bits[0]);
    if k > 0 {
      PackBit(bits[1..], k - 1);
    }
  }

  lemma FlagsBack(cp: ChatPolicy)
    ensures FromFields(cp.op, cp.rules.ttl, Flags(cp), cp.capId, cp.capOn, cp.proposeId) == cp
  {
    var bits := FlagBits(cp);
    forall k | 0 <= k < 7 ensures HasFlag(Pack(bits), k) <==> bits[k] {
      PackBit(bits, k);
    }
  }

  /** What one side sends is what the other side reads. */
  lemma RoundTrip(cp: ChatPolicy)
    requires Encoding(cp).Ok?
    ensures Decoding(Encoding(cp).value) == Ok(cp)
  {
    var s6 := cp.proposeId + [];
    var s5 := [Bit01(cp.capOn)] + s6;
    var s4 := [cp.capId] + s5;
    var s3 := U32be(Flags(cp)) + s4;
    var s2 := U32be(cp.rules.ttl) + s3;
    var s1 := [cp.op] + s2;
    ReadU8Back(VERSION, s1);
    ReadU8Back(cp.op, s2);
    ReadU32Back(cp.rules.ttl, s3);
    ReadU32Back(Flags(cp), s4);
    ReadU8Back(cp.capId, s5);
    ReadU8Back(Bit01(cp.capOn), s6);
    TakeBack(cp.proposeId, []);
    FlagsBack(cp);
  }
}
