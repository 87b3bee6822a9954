/** The signed pairing payload. */
module Pairing {
  import opened Bytes
  import opened Bin

  /** The ASCII bytes of "SPAIR7". */
  const QR_LABEL: seq<Byte> := [0x53, 0x50, 0x41, 0x49, 0x52, 0x37]
  const QR_VERSION: Byte := 1
  const MAX_FIELD: nat := 4096
  const MAX_QR_PAYLOAD_BYTES: nat := 8192
  const ONION_RAW_BYTES: nat := 35

  /** Identity key, registration id and the optional one-time pre-key. */
  datatype Front = Front(identityKey: seq<Byte>, registrationId: U32, preKey: Option<(U32, seq<Byte>)>)

  /** A signed or Kyber pre-key: its id, its public part, its signature. */
  datatype SignedKey = SignedKey(id: U32, public: seq<Byte>, sig: seq<Byte>)

  /** Where and until when the persona can be reached. */
  datatype Reach = Reach(onion: seq<Byte>, clientAuthPublic: seq<Byte>, nonce: seq<Byte>, expiresAt: U64)

  datatype PairingPayload = PairingPayload(
    front: Front, signedPreKey: SignedKey, kyberPreKey: SignedKey, reach: Reach, signature: seq<Byte>)

  // ---- encoding ----

  /** Length prefix as written: the low 16 bits of the length. */
  function Lp16(v: seq<Byte>): seq<Byte> {
    U16be(|v| % 0x1_0000) + v
  }

  function PreKeyBytes(k: Option<(U32, seq<Byte>)>): seq<Byte> {
    match k
    case None => [0]
    case Some((id, pk)) => [1] + (U32be(id) + Lp16(pk))
  }

  function FrontBytes(f: Front): seq<Byte> {
    QR_LABEL + ([QR_VERSION] + (Lp16(f.identityKey) + (U32be(f.registrationId) + PreKeyBytes(f.preKey))))
  }

  function KeyBytes(k: SignedKey): seq<Byte> {
    U32be(k.id) + (Lp16(k.public) + Lp16(k.sig))
  }

  function ReachBytes(r: Reach): seq<Byte> {
    Lp16(r.onion) + (Lp16(r.clientAuthPublic) + (Lp16(r.nonce) + U64be(r.expiresAt)))
  }

  function SignedBody(p: PairingPayload): seq<Byte> {
    FrontBytes(p.front) + (KeyBytes(p.signedPreKey) + (KeyBytes(p.kyberPreKey) + ReachBytes(p.reach)))
  }

  function SignatureField(p: PairingPayload): seq<Byte> { Lp16(p.signature) }

  function Encode(p: PairingPayload): seq<Byte> { SignedBody(p) + SignatureField(p) }

  predicate FieldOk(v: seq<Byte>, max: nat) { 1 <= |v| <= max }

  predicate FrontOk(f: Front) { FieldOk(f.identityKey, 64) && (f.preKey.Some? ==> FieldOk(f.preKey.value.1, 64)) }

  predicate KeyOk(k: SignedKey, max: nat) { FieldOk(k.public, max) && FieldOk(k.sig, 64) }

  predicate ReachOk(r: Reach) { |r.onion| == ONION_RAW_BYTES && |r.clientAuthPublic| == 32 && |r.nonce| == 32 }

  predicate InRange(p: PairingPayload) {
    && FrontOk(p.front) && KeyOk(p.signedPreKey, 64) && KeyOk(p.kyberPreKey, MAX_FIELD)
    && ReachOk(p.reach) && FieldOk(p.signature, 64)
  }

  // ---- decoding ----

  lemma Three(a: seq<Byte>, b: seq<Byte>, c: seq<Byte>, rest: seq<Byte>)
    ensures (a + (b + c)) + rest == a + (b + (c + rest))
  {
  }

  lemma Four(a: seq<Byte>, b: seq<Byte>, c: seq<Byte>, d: seq<Byte>, rest: seq<Byte>)
    ensures (a + (b + (c + d))) + rest == a + (b + (c + (d + rest)))
  {
  }

  function ReadLp16(s: seq<Byte>, max: nat): (r: Read<seq<Byte>>)
    ensures r.Ok? ==> 1 <= |r.value.0| <= max && |r.value.0| < 0x1_0000 && s == Lp16(r.value.0) + r.value.1
  {
    var (n, s1) :- ReadU16(s);
    if n == 0 || n > max then Err(BadLength) else
    var (v, rest) :- TakeN(s1, n);
    assert s == U16be(n) + (v + rest);
    Ok((v, rest))
  }

  function ReadFixed(s: seq<Byte>, n: nat): (r: Read<seq<Byte>>)
    ensures r.Ok? ==> |r.value.0| == n && s == Lp16(r.value.0) + r.value.1
  {
    var (v, rest) :- ReadLp16(s, n);
    if |v| == n then Ok((v, rest)) else Err(BadLength)
  }

  function ReadPreKey(s: seq<Byte>): (r: Read<Option<(U32, seq<Byte>)>>)
    ensures r.Ok? ==> s == PreKeyBytes(r.value.0) + r.value.1
    ensures r.Ok? && r.value.0.Some? ==> FieldOk(r.value.0.value.1, 64)
  {
    var (has, s1) :- ReadU8(s);
    if has == 0 then Ok((None, s1))
    else if has == 1 then
      var (id, s2) :- ReadU32(s1);
      var (pk, s3) :- ReadLp16(s2, 64);
      Three([1], U32be(id), Lp16(pk), s3);
      Ok((Some((id, pk)), s3))
    else Err(BadField)
  }

  function ReadFront(s: seq<Byte>): (r: Read<Front>)
    ensures r.Ok? ==> FrontOk(r.value.0) && s == FrontBytes(r.value.0) + r.value.1
  {
    var (tag, s1) :- TakeN(s, |QR_LABEL|);
    if tag != QR_LABEL then Err(BadField) else
    var (version, s2) :- ReadU8(s1);
    if version != QR_VERSION then Err(BadVersion) else
    var (identityKey, s3) :- ReadLp16(s2, 64);
    var (registrationId, s4) :- ReadU32(s3);
    var (preKey, s5) :- ReadPreKey(s4);
    AppendFive(QR_LABEL, [QR_VERSION], Lp16(identityKey), U32be(registrationId), PreKeyBytes(preKey), s5);
    Ok((Front(identityKey, registrationId, preKey), s5))
  }

  function ReadKey(s: seq<Byte>, max: nat): (r: Read<SignedKey>)
    ensures r.Ok? ==> KeyOk(r.value.0, max) && s == KeyBytes(r.value.0) + r.value.1
  {
    var (id, s1) :- ReadU32(s);
    var (public, s2) :- ReadLp16(s1, max);
    var (sig, s3) :- ReadLp16(s2, 64);
    Three(U32be(id), Lp16(public), Lp16(sig), s3);
    Ok((SignedKey(id, public, sig), s3))
  }

  function ReadReach(s: seq<Byte>): (r: Read<Reach>)
    ensures r.Ok? ==> ReachOk(r.value.0) && s == ReachBytes(r.value.0) + r.value.1
  {
    var (onion, s1) :- ReadFixed(s, ONION_RAW_BYTES);
    var (clientAuth, s2) :- ReadFixed(s1, 32);
    var (nonce, s3) :- ReadFixed(s2, 32);
    var (expiresAt, s4) :- ReadU64(s3);
    Four(Lp16(onion), Lp16(clientAuth), Lp16(nonce), U64be(expiresAt), s4);
    Ok((Reach(onion, clientAuth, nonce, expiresAt), s4))
  }

  function Decode(bytes: seq<Byte>): (r: Result<PairingPayload>)
    ensures r.Ok? ==> InRange(r.value) && bytes == Encode(r.value)
  {
    if |bytes| > MAX_QR_PAYLOAD_BYTES then Err(TooLarge) else
    var (front, s1) :- ReadFront(bytes);
    var (spk, s2) :- ReadKey(s1, 64);
    var (kyber, s3) :- ReadKey(s2, MAX_FIELD);
    var (reach, s4) :- ReadReach(s3);
    var (signature, s5) :- ReadLp16(s4, 64);
    if s5 != [] then Err(Trailing) else
    assert s4 == Lp16(signature);
    Four(FrontBytes(front), KeyBytes(spk), KeyBytes(kyber), ReachBytes(reach), s4);
    Ok(PairingPayload(front, spk, kyber, reach, signature))
  }

  /** Every accepted payload re-encodes to its input, so the body whose signature is checked is
      exactly the received bytes without the signature field. */
  lemma AcceptedIsCanonical(bytes: seq<Byte>)
    ensures Decode(bytes).Ok? ==>
      var p := Decode(bytes).value;
      && Encode(p) == bytes
      && SignedBody(p) == bytes[..|bytes| - |SignatureField(p)|]
      && SignatureField(p) == bytes[|bytes| - |SignatureField(p)|..]
  {
    if Decode(bytes).Ok? {
      Cut(SignedBody(Decode(bytes).value), SignatureField(Decode(bytes).value));
    }
  }

  lemma Cut(a: seq<Byte>, b: seq<Byte>)
    ensures a == (a + b)[..|a + b| - |b|] && b == (a + b)[|a + b| - |b|..]
  {
  }

  // ---- which payloads survive the wire ----

  lemma ReadLp16Back(v: seq<Byte>, max: nat, rest: seq<Byte>)
    requires 1 <= |v| <= max && max < 0x1_0000
    ensures ReadLp16(Lp16(v) + rest, max) == Ok((v, rest))
  {
    assert Lp16(v) + rest == U16be(|v|) + (v + rest);
    ReadU16Back(|v|, v + rest);
    TakeBack(v, rest);
  }

  lemma ReadPreKeyBack(k: Option<(U32, seq<Byte>)>, rest: seq<Byte>)
    requires k.Some? ==> FieldOk(k.value.1, 64)
    ensures ReadPreKey(PreKeyBytes(k) + rest) == Ok((k, rest))
  {
    if k.None? {
      ReadU8Back(0, rest);
    } else {
      var (id, pk) := k.value;
      Three([1], U32be(id), Lp16(pk), rest);
      ReadU8Back(1, U32be(id) + (Lp16(pk) + rest));
      ReadU32Back(id, Lp16(pk) + rest);
      ReadLp16Back(pk, 64, rest);
    }
  }

  lemma ReadFrontBack(f: Front, rest: seq<Byte>)
    requires FrontOk(f)
    ensures ReadFront(FrontBytes(f) + rest) == Ok((f, rest))
  {
    var s4 := PreKeyBytes(f.preKey) + rest;
    var s3 := U32be(f.registrationId) + s4;
    var s2 := Lp16(f.identityKey) + s3;
    AppendFive(QR_LABEL, [QR_VERSION], Lp16(f.identityKey), U32be(f.registrationId), PreKeyBytes(f.preKey), rest);
    TakeBack(QR_LABEL, [QR_VERSION] + s2);
    ReadU8Back(QR_VERSION, s2);
    ReadLp16Back(f.identityKey, 64, s3);
    ReadU32Back(f.registrationId, s4);
    ReadPreKeyBack(f.preKey, rest);
  }

  lemma ReadKeyBack(k: SignedKey, max: nat, rest: seq<Byte>)
    requires KeyOk(k, max) && max < 0x1_0000
    ensures ReadKey(KeyBytes(k) + rest, max) == Ok((k, rest))
  {
    var s2 := Lp16(k.sig) + rest;
    Three(U32be(k.id), Lp16(k.public), Lp16(k.sig), rest);
    ReadU32Back(k.id, Lp16(k.public) + s2);
    ReadLp16Back(k.public, max, s2);
    ReadLp16Back(k.sig, 64, rest);
  }

  lemma ReadReachBack(r: Reach, rest: seq<Byte>)
    requires ReachOk(r)
    ensures ReadReach(ReachBytes(r) + rest) == Ok((r, rest))
  {
    var s3 := U64be(r.expiresAt) + rest;
    var s2 := Lp16(r.nonce) + s3;
    Four(Lp16(r.onion), Lp16(r.clientAuthPublic), Lp16(r.nonce), U64be(r.expiresAt), rest);
    ReadLp16Back(r.onion, ONION_RAW_BYTES, Lp16(r.clientAuthPublic) + s2);
    ReadLp16Back(r.clientAuthPublic, 32, s2);
    ReadLp16Back(r.nonce, 32, s3);
    ReadU64Back(r.expiresAt, rest);
  }

  /** Fields in range never trip the cap on the whole payload. */
  lemma InRangeFits(p: PairingPayload)
    requires InRange(p)
    ensures |Encode(p)| <= MAX_QR_PAYLOAD_BYTES
  {
    assert |FrontBytes(p.front)| <= 7 + 66 + 4 + 71;
    assert |KeyBytes(p.signedPreKey)| <= 136 && |KeyBytes(p.kyberPreKey)| <= 4 + 4098 + 66;
    assert |ReachBytes(p.reach)| == 113;
  }

  lemma InRangeRoundTrip(p: PairingPayload)
    requires InRange(p)
    ensures Decode(Encode(p)) == Ok(p)
  {
    InRangeFits(p);
    var sig := SignatureField(p);
    var s3 := ReachBytes(p.reach) + sig;
    var s2 := KeyBytes(p.kyberPreKey) + s3;
    Four(FrontBytes(p.front), KeyBytes(p.signedPreKey), KeyBytes(p.kyberPreKey), ReachBytes(p.reach), sig);
    ReadFrontBack(p.front, KeyBytes(p.signedPreKey) + s2);
    ReadKeyBack(p.signedPreKey, 64, s2);
    ReadKeyBack(p.kyberPreKey, MAX_FIELD, s3);
    ReadReachBack(p.reach, sig);
    ReadLp16Back(p.signature, 64, []);
    assert sig + [] == sig;
  }

  /** A payload survives the wire exactly when its fields are in range. */
  lemma RoundTripIff(p: PairingPayload)
    ensures Decode(Encode(p)) == Ok(p) <==> InRange(p)
  {
    if InRange(p) {
      InRangeRoundTrip(p);
    }
  }

  // ---- the cursor code ----

  method WriteLp16(w: Writer, v: seq<Byte>)
    modifies w
    ensures w.buf == old(w.buf) + Lp16(v)
  {
    w.U16(|v| % 0x1_0000);
    w.Raw(v);
    assert old(w.buf) + U16be(|v| % 0x1_0000) + v == old(w.buf) + Lp16(v);
  }

  /** Fields appended one by one are one stretch. */
  lemma Nest(before: seq<Byte>, a: seq<Byte>, b: seq<Byte>, c: seq<Byte>)
    ensures before + a + b + c == before + (a + (b + c))
  {
  }

  method WritePreKey(w: Writer, k: Option<(U32, seq<Byte>)>)
    modifies w
    ensures w.buf == old(w.buf) + PreKeyBytes(k)
  {
    match k {
      case Some((id, pk)) =>
        w.U8(1);
        w.U32(id);
        WriteLp16(w, pk);
        Nest(old(w.buf), [1], U32be(id), Lp16(pk));
      case None =>
        w.U8(0);
    }
  }

  method WriteFront(w: Writer, f: Front)
    modifies w
    ensures w.buf == old(w.buf) + FrontBytes(f)
  {
    w.Raw(QR_LABEL);
    w.U8(QR_VERSION);
    ghost var half := w.buf;
    WriteLp16(w, f.identityKey);
    w.U32(f.registrationId);
    WritePreKey(w, f.preKey);
    ghost var tail := Lp16(f.identityKey) + (U32be(f.registrationId) + PreKeyBytes(f.preKey));
    Nest(half, Lp16(f.identityKey), U32be(f.registrationId), PreKeyBytes(f.preKey));
    Nest(old(w.buf), QR_LABEL, [QR_VERSION], tail);
  }

  method WriteKey(w: Writer, k: SignedKey)
    modifies w
    ensures w.buf == old(w.buf) + KeyBytes(k)
  {
    w.U32(k.id);
    WriteLp16(w, k.public);
    WriteLp16(w, k.sig);
    Nest(old(w.buf), U32be(k.id), Lp16(k.public), Lp16(k.sig));
  }

  method WriteReach(w: Writer, r: Reach)
    modifies w
    ensures w.buf == old(w.buf) + ReachBytes(r)
  {
    WriteLp16(w, r.onion);
    ghost var first := w.buf;
    WriteLp16(w, r.clientAuthPublic);
    WriteLp16(w, r.nonce);
    w.Raw(U64be(r.expiresAt));
    Nest(first, Lp16(r.clientAuthPublic), Lp16(r.nonce), U64be(r.expiresAt));
    Assoc(old(w.buf), Lp16(r.onion), Lp16(r.clientAuthPublic) + (Lp16(r.nonce) + U64be(r.expiresAt)));
  }

  /** The bytes the identity key signs. */
  method WriteSignedBody(p: PairingPayload) returns (body: seq<Byte>)
    ensures body == SignedBody(p)
  {
    var w := new Writer();
    WriteFront(w, p.front);
    ghost var front := w.buf;
    WriteKey(w, p.signedPreKey);
    WriteKey(w, p.kyberPreKey);
    WriteReach(w, p.reach);
    Nest(front, KeyBytes(p.signedPreKey), KeyBytes(p.kyberPreKey), ReachBytes(p.reach));
    assert front == FrontBytes(p.front);
    return w.buf;
  }

  method EncodePayload(p: PairingPayload) returns (bytes: seq<Byte>)
    ensures bytes == Encode(p)
  {
    var body := WriteSignedBody(p);
    var w := new Writer();
    w.Raw(body);
    WriteLp16(w, p.signature);
    return w.buf;
  }

  method TakeLp16(rd: Reader, max: nat) returns (r: Result<seq<Byte>>)
    requires rd.Valid()
    modifies rd`pos
    ensures rd.Valid() && Follows(r, rd.Rest(), ReadLp16(old(rd.Rest()), max))
  {
    var n :- rd.U16();
    if n == 0 || n > max {
      return Err(BadLength);
    }
    r := rd.Take(n);
  }

  method TakeFixed(rd: Reader, n: nat) returns (r: Result<seq<Byte>>)
    requires rd.Valid()
    modifies rd`pos
    ensures rd.Valid() && Follows(r, rd.Rest(), ReadFixed(old(rd.Rest()), n))
  {
    var v :- TakeLp16(rd, n);
    return if |v| == n then Ok(v) else Err(BadLength);
  }

  method TakePreKey(rd: Reader) returns (r: Result<Option<(U32, seq<Byte>)>>)
    requires rd.Valid()
    modifies rd`pos
    ensures rd.Valid() && Follows(r, rd.Rest(), ReadPreKey(old(rd.Rest())))
  {
    var has :- rd.U8();
    if has == 0 {
      return Ok(None);
    }
    if has != 1 {
      return Err(BadField);
    }
    var id :- rd.U32();
    var pk :- TakeLp16(rd, 64);
    return Ok(Some((id, pk)));
  }

  method TakeFront(rd: Reader) returns (r: Result<Front>)
    requires rd.Valid()
    modifies rd`pos
    ensures rd.Valid() && Follows(r, rd.Rest(), ReadFront(old(rd.Rest())))
  {
    var tag :- rd.Take(|QR_LABEL|);
    if tag != QR_LABEL {
      return Err(BadField);
    }
    var version :- rd.U8();
    if version != QR_VERSION {
      return Err(BadVersion);
    }
    var identityKey :- TakeLp16(rd, 64);
    var registrationId :- rd.U32();
    var preKey :- TakePreKey(rd);
    return Ok(Front(identityKey, registrationId, preKey));
  }

  method TakeKey(rd: Reader, max: nat) returns (r: Result<SignedKey>)
    requires rd.Valid()
    modifies rd`pos
    ensures rd.Valid() && Follows(r, rd.Rest(), ReadKey(old(rd.Rest()), max))
  {
    var id :- rd.U32();
    var public :- TakeLp16(rd, max);
    var sig :- TakeLp16(rd, 64);
    return Ok(SignedKey(id, public, sig));
  }

  method TakeReach(rd: Reader) returns (r: Result<Reach>)
    requires rd.Valid()
    modifies rd`pos
    ensures rd.Valid() && Follows(r, rd.Rest(), ReadReach(old(rd.Rest())))
  {
    var onion :- TakeFixed(rd, ONION_RAW_BYTES);
    var clientAuth :- TakeFixed(rd, 32);
    var nonce :- TakeFixed(rd, 32);
    var expiresAt :- rd.U64();
    return Ok(Reach(onion, clientAuth, nonce, expiresAt));
  }

  /** Structural decode, field by field. */
  method DecodePayload(bytes: seq<Byte>) returns (r: Result<PairingPayload>)
    ensures r == Decode(bytes)
  {
    if |bytes| > MAX_QR_PAYLOAD_BYTES {
      return Err(TooLarge);
    }
    var rd := new Reader(bytes);
    var front :- TakeFront(rd);
    var spk :- TakeKey(rd, 64);
    var kyber :- TakeKey(rd, MAX_FIELD);
    var reach :- TakeReach(rd);
    var signature :- TakeLp16(rd, 64);
    var _ :- rd.ExpectEnd();
    return Ok(PairingPayload(front, spk, kyber, reach, signature));
  }
}
