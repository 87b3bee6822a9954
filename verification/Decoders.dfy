/** Exactly which bytes the decoders take, beyond what the encoders write. */
module Decoders {
  import opened Bytes
  import opened Bin
  import opened AttachWire
  import Layouts
  import PolicyEffects
  import PolicyMachine
  import PolicyWire
  import PackDoc
  import AttachPlan
  import Framing
  import Pairing

  // ---- CHAT_POLICY ----

  predicate Raised(flags: nat, w: nat)
    requires w > 0
  {
    flags / w % 2 == 1
  }

  function Power(k: nat): (w: nat)
    ensures w > 0
  {
    if k == 0 then 1 else 2 * Power(k - 1)
  }

  lemma HalfThen(n: nat, w: nat)
    requires w in {1, 2, 4, 8, 16, 32}
    ensures n / 2 / w == n / (2 * w)
  {
    assert n / 2 / 1 == n / 2 && n / 2 / 2 == n / 4 && n / 2 / 4 == n / 8;
    assert n / 2 / 8 == n / 16 && n / 2 / 16 == n / 32 && n / 2 / 32 == n / 64;
  }

  lemma {:induction false} FlagAt(flags: nat, k: nat)
    requires k <= 6
    ensures PolicyWire.HasFlag(flags, k) == Raised(flags, Power(k))
    decreases k
  {
    if k > 0 {
      FlagAt(flags / 2, k - 1);
      Powers();
      HalfThen(flags, Power(k - 1));
    }
  }

  lemma {:induction false} FlagIs(flags: nat)
    ensures PolicyWire.HasFlag(flags, 0) == Raised(flags, 1) && PolicyWire.HasFlag(flags, 1) == Raised(flags, 2)
    ensures PolicyWire.HasFlag(flags, 2) == Raised(flags, 4) && PolicyWire.HasFlag(flags, 3) == Raised(flags, 8)
    ensures PolicyWire.HasFlag(flags, 4) == Raised(flags, 16) && PolicyWire.HasFlag(flags, 5) == Raised(flags, 32)
    ensures PolicyWire.HasFlag(flags, 6) == Raised(flags, 64)
  {
    Powers();
    FlagAt(flags, 0);
    FlagAt(flags, 1);
    FlagAt(flags, 2);
    FlagAt(flags, 3);
    FlagAt(flags, 4);
    FlagAt(flags, 5);
    FlagAt(flags, 6);
  }

  lemma Powers()
    ensures Power(0) == 1 && Power(1) == 2 && Power(2) == 4 && Power(3) == 8 && Power(4) == 16 && Power(5) == 32 && Power(6) == 64
  {
    assert Power(3) == 2 * Power(2) && Power(4) == 2 * Power(3) && Power(5) == 2 * Power(4);
  }

  /** The fields of a payload of 28 bytes. */
  ghost predicate ReadsAs(s: seq<Byte>, cp: PolicyMachine.ChatPolicy)
    requires |s| == 28
  {
    var flags := Layouts.Number(s[6..10]);
    && cp.op == s[1] && cp.rules.ttl == Layouts.Number(s[2..6]) && cp.capId == s[10] && cp.capOn == (s[11] == 1)
    && cp.proposeId == s[12..28]
    && cp.rules.screenshot == Raised(flags, 1) && cp.rules.attachDownload == Raised(flags, 2)
    && cp.wantAttach == Raised(flags, 4) && cp.wantEmoji == Raised(flags, 8) && cp.wantPresence == Raised(flags, 16)
    && cp.wantTyping == Raised(flags, 32) && cp.wantReceipts == Raised(flags, 64)
  }

  /** Version 1, a known op, a capability state of 0 or 1, and an allowed TTL or, for CAP_SET, a known capability. */
  predicate PolicyFits(s: seq<Byte>) {
    && |s| == 28 && s[0] == 1 && 1 <= s[1] <= 4 && s[11] <= 1
    && if s[1] == 3 then s[10] <= 4 else Layouts.Number(s[2..6]) in PolicyEffects.ALLOWED_TTLS
  }

  /** The raw fields at their offsets. */
  lemma FieldsAt(s: seq<Byte>)
    requires |s| == 28
    ensures
      PolicyWire.Decoding(s) ==
        if s[0] != 1 then Err(BadVersion) else if s[11] > 1 then Err(BadField)
        else var cp := PolicyWire.FromFields(s[1], FromBe32(s[2..6]), FromBe32(s[6..10]), s[10], s[11] == 1, s[12..28]);
             if PolicyMachine.ValidPayload(cp) then Ok(cp) else Err(BadField)
  {
    var s1, s2, s3, s4, s5, s6 := s[1..], s[2..], s[6..], s[10..], s[11..], s[12..];
    assert s1[1..] == s2 && s2[4..] == s3 && s3[4..] == s4 && s4[1..] == s5 && s5[1..] == s6;
    assert s2[..4] == s[2..6] && s3[..4] == s[6..10];
    assert s6[..16] == s[12..28] && s6[16..] == [];
  }

  lemma {:induction false} ReadNumber(s: seq<Byte>)
    requires |s| == 4
    ensures FromBe32(s) == Layouts.Number(s)
  {
    Layouts.Number32(FromBe32(s));
  }

  /** A payload is accepted if and only if it fits, and then it says what its fields say. */
  lemma PolicyAcceptedIff(s: seq<Byte>)
    ensures PolicyWire.Decoding(s).Ok? <==> PolicyFits(s)
    ensures PolicyFits(s) ==> ReadsAs(s, PolicyWire.Decoding(s).value)
  {
    if |s| == 28 {
      FieldsAt(s);
      ReadNumber(s[2..6]);
      ReadNumber(s[6..10]);
      FlagIs(FromBe32(s[6..10]));
    }
  }

  // ---- attachment heads ----

  /** How the caption and the flags may be written in a chunked head. Only the first form and the shortest of the
      others are ever written. */
  ghost predicate ChunkedTail(t: seq<Byte>, caption: seq<Byte>, flags: Byte) {
    |caption| <= MAX_CAPTION && (
      || (t == [] && caption == [] && flags == 0)
      || (t == Lp(caption) && caption != [] && flags == 0)
      || t == Lp(caption) + [flags])
  }

  lemma TailAcceptedIff(t: seq<Byte>, caption: Str, flags: Byte)
    ensures ReadTail(t) == Ok((caption, flags)) <==> ChunkedTail(t, caption, flags)
  {
    if ChunkedTail(t, caption, flags) && t != [] {
      ReadLpBack(caption, MAX_CAPTION, []);
      ReadLpBack(caption, MAX_CAPTION, [flags]);
      assert Lp(caption) + [] == Lp(caption);
    }
    if ReadTail(t) == Ok((caption, flags)) && t != [] {
      var (cap, rest) := ReadLp(t, MAX_CAPTION).value;
      if rest == [] {
        assert t == Lp(cap);
      } else {
        assert rest == [rest[0]];
      }
    }
  }

  lemma LeadRead(s: seq<Byte>)
    requires ReadLead(s).Ok?
    ensures
      var (lead, rest) := ReadLead(s).value;
      && |lead.mime| <= MAX_MIME && |lead.ext| <= MAX_EXT && Ascii(lead.mime) && Ascii(lead.ext)
      && s == [lead.mediaClass] + (Lp(lead.mime) + (Lp(lead.ext) + (U32be(lead.n) + rest)))
  {
  }

  /** The head with its tail in any accepted form. */
  ghost predicate ChunkedForm(bytes: seq<Byte>, h: AttachHead, t: seq<Byte>) {
    && ValidCommon(h) && ValidPlan(h) && Ascii(h.mime) && Ascii(h.ext) && ChunkedTail(t, h.caption, h.flags)
    && bytes == Prefix(1, h, U16be(h.count) + (U16be(h.bucket) + (h.sha + t)))
  }

  lemma ChunkedTaken(bytes: seq<Byte>, h: AttachHead, t: seq<Byte>)
    requires ChunkedForm(bytes, h, t)
    ensures DecodeSpec(bytes) == Ok((h, None))
  {
    var s2 := U16be(h.bucket) + (h.sha + t);
    var s1 := U16be(h.count) + s2;
    ReadU8Back(1, [h.mediaClass] + (Lp(h.mime) + (Lp(h.ext) + (U32be(h.n) + s1))));
    ReadLeadBack(h, s1);
    ReadU16Back(h.count, s2);
    ReadU16Back(h.bucket, h.sha + t);
    TakeBack(h.sha, t);
    TailAcceptedIff(t, h.caption, h.flags);
  }

  /** What follows the lead of an accepted chunked head. */
  lemma PlanRead(s: seq<Byte>, h: AttachHead) returns (t: seq<Byte>)
    requires DecodeChunked(s) == Ok(h)
    ensures ReadLead(s).Ok? && ReadLead(s).value.0 == Lead(h.mediaClass, h.mime, h.ext, h.n) && ValidCommon(h) && ValidPlan(h)
    ensures ReadTail(t) == Ok((h.caption, h.flags))
    ensures ReadLead(s).value.1 == U16be(h.count) + (U16be(h.bucket) + (h.sha + t))
  {
    assert ReadLead(s).Ok?;
    var (lead, s1) := ReadLead(s).value;
    assert ReadU16(s1).Ok?;
    var (count, s2) := ReadU16(s1).value;
    assert ReadU16(s2).Ok?;
    var (bucket, s3) := ReadU16(s2).value;
    assert TakeN(s3, 32).Ok?;
    var (sha, s4) := TakeN(s3, 32).value;
    assert ReadTail(s4).Ok?;
    var (caption, flags) := ReadTail(s4).value;
    assert h == AttachHead(lead.mediaClass, lead.mime, lead.ext, lead.n, count, bucket, sha, caption, flags);
    t := s4;
  }

  lemma ChunkedGiven(bytes: seq<Byte>, h: AttachHead) returns (t: seq<Byte>)
    requires DecodeSpec(bytes) == Ok((h, None))
    ensures ChunkedForm(bytes, h, t)
  {
    var s := ReadU8(bytes).value.1;
    assert ReadU8(bytes).value.0 == VERSION && DecodeChunked(s) == Ok(h);
    t := PlanRead(s, h);
    TailAcceptedIff(t, h.caption, h.flags);
    LeadRead(s);
  }

  /** A chunked head is accepted if and only if it is valid, with ASCII names, and written in order with one of the
      accepted tails. */
  lemma ChunkedAcceptedIff(bytes: seq<Byte>, h: AttachHead)
    ensures DecodeSpec(bytes) == Ok((h, None)) <==> exists t :: ChunkedForm(bytes, h, t)
  {
    if DecodeSpec(bytes) == Ok((h, None)) {
      var t := ChunkedGiven(bytes, h);
    }
    forall t | ChunkedForm(bytes, h, t) ensures DecodeSpec(bytes) == Ok((h, None)) {
      ChunkedTaken(bytes, h, t);
    }
  }

  /** In an inline head the empty caption may also be written out. */
  ghost predicate InlineTail(t: seq<Byte>, caption: seq<Byte>, flags: Byte) {
    |caption| <= MAX_CAPTION && (
      || (t == [] && caption == [] && flags == 0)
      || (t == Lp(caption) && flags == 0)
      || t == Lp(caption) + [flags])
  }

  lemma CaptionIsNoBlob(caption: seq<Byte>, rest: seq<Byte>, n: nat)
    requires |caption| < LP_LIMIT && |rest| > 0 && n > 0
    ensures !IsLastBlob(Lp(caption) + rest, n)
  {
    var s := Lp(caption) + rest;
    assert s[..4] == U32be(|caption|);
    U32Injective(FromBe32(s[..4]), |caption|);
  }

  lemma FlagsBlobTaken(flags: Byte, blob: seq<Byte>)
    requires 0 < |blob| < LP_LIMIT
    ensures ReadFlagsBlob(Lp(blob), |blob|) == Ok((0, blob))
    ensures ReadFlagsBlob([flags] + Lp(blob), |blob|) == Ok((flags, blob))
  {
    LastBlob(blob);
    ReadU8Back(flags, Lp(blob));
    ReadU32Back(|blob|, blob);
  }

  lemma InlineTailTaken(t: seq<Byte>, caption: Str, flags: Byte, blob: seq<Byte>)
    requires InlineTail(t, caption, flags) && 0 < |blob| < LP_LIMIT
    ensures ReadInlineTail(t + Lp(blob), |blob|) == Ok((caption, flags, blob))
  {
    if t == [] {
      assert [] + Lp(blob) == Lp(blob);
      LastBlob(blob);
    } else {
      var rest := if t == Lp(caption) then Lp(blob) else [flags] + Lp(blob);
      assert t + Lp(blob) == Lp(caption) + rest;
      CaptionIsNoBlob(caption, rest, |blob|);
      ReadLpBack(caption, MAX_CAPTION, rest);
      FlagsBlobTaken(flags, blob);
    }
  }

  lemma BlobGiven(s: seq<Byte>, n: nat)
    requires IsLastBlob(s, n) && n < LP_LIMIT
    ensures s == Lp(s[4..])
  {
    assert s == s[..4] + s[4..];
  }

  lemma FlagsBlobGiven(s: seq<Byte>, n: nat)
    requires n < LP_LIMIT && ReadFlagsBlob(s, n).Ok?
    ensures
      var (flags, blob) := ReadFlagsBlob(s, n).value;
      |blob| == n && ((flags == 0 && s == Lp(blob)) || s == [flags] + Lp(blob))
  {
    if IsLastBlob(s, n) {
      BlobGiven(s, n);
    }
  }

  lemma Assoc(a: seq<Byte>, b: seq<Byte>, c: seq<Byte>)
    ensures (a + b) + c == a + (b + c)
  {
  }

  lemma InlineTailGiven(s: seq<Byte>, n: nat) returns (t: seq<Byte>)
    requires 0 < n < LP_LIMIT && ReadInlineTail(s, n).Ok?
    ensures
      var (caption, flags, blob) := ReadInlineTail(s, n).value;
      |blob| == n && InlineTail(t, caption, flags) && s == t + Lp(blob)
  {
    if IsLastBlob(s, n) {
      BlobGiven(s, n);
      t := [];
      assert s == [] + Lp(s[4..]);
    } else {
      var (cap, rest) := ReadLp(s, MAX_CAPTION).value;
      FlagsBlobGiven(rest, n);
      var (flags, blob) := ReadFlagsBlob(rest, n).value;
      if flags == 0 && rest == Lp(blob) {
        t := Lp(cap);
      } else {
        t := Lp(cap) + [flags];
        Assoc(Lp(cap), [flags], Lp(blob));
      }
    }
  }

  ghost predicate InlineForm(bytes: seq<Byte>, h: AttachHead, blob: seq<Byte>, t: seq<Byte>) {
    && ValidCommon(h) && h.count == 0 && h.bucket == 0 && |blob| == h.n && Ascii(h.mime) && Ascii(h.ext)
    && InlineTail(t, h.caption, h.flags) && bytes == Prefix(2, h, h.sha + (t + Lp(blob)))
  }

  lemma InlineTaken(bytes: seq<Byte>, h: AttachHead, blob: seq<Byte>, t: seq<Byte>)
    requires InlineForm(bytes, h, blob, t)
    ensures DecodeSpec(bytes) == Ok((h, Some(blob)))
  {
    var s1 := h.sha + (t + Lp(blob));
    ReadU8Back(2, [h.mediaClass] + (Lp(h.mime) + (Lp(h.ext) + (U32be(h.n) + s1))));
    ReadLeadBack(h, s1);
    TakeBack(h.sha, t + Lp(blob));
    InlineTailTaken(t, h.caption, h.flags, blob);
  }

  lemma InlineGiven(bytes: seq<Byte>, h: AttachHead, blob: seq<Byte>) returns (t: seq<Byte>)
    requires DecodeSpec(bytes) == Ok((h, Some(blob)))
    ensures InlineForm(bytes, h, blob, t)
  {
    var s := ReadU8(bytes).value.1;
    assert ReadU8(bytes).value.0 == VERSION_INLINE && DecodeInline(s) == Ok((h, blob));
    LeadRead(s);
    var (lead, s1) := ReadLead(s).value;
    var s2 := TakeN(s1, 32).value.1;
    t := InlineTailGiven(s2, lead.n);
  }

  /** An inline head is accepted if and only if it is valid, with ASCII names, and written in order with one of the
      accepted tails and content of the announced length. */
  lemma InlineAcceptedIff(bytes: seq<Byte>, h: AttachHead, blob: seq<Byte>)
    ensures DecodeSpec(bytes) == Ok((h, Some(blob))) <==> exists t :: InlineForm(bytes, h, blob, t)
  {
    if DecodeSpec(bytes) == Ok((h, Some(blob))) {
      var t := InlineGiven(bytes, h, blob);
    }
    forall t | InlineForm(bytes, h, blob, t) ensures DecodeSpec(bytes) == Ok((h, Some(blob))) {
      InlineTaken(bytes, h, blob, t);
    }
  }

  // ---- limits ----

  /** Exactly which heads are written: an image or a video, short names, 1 byte to 25 MiB, a caption of at most
      16 KiB, and either a plan of at most 1024 chunks or the content itself. */
  lemma HeadLimits(h: AttachHead, inline: Option<seq<Byte>>)
    ensures EncodeSpec(h, inline).Ok? <==>
      && 1 <= h.mediaClass <= 2 && |h.mime| <= 64 && |h.ext| <= 8 && 1 <= h.n <= 26_214_400 && |h.caption| <= 16_384
      && |h.sha| == 32
      && match inline
         case None => 1 <= h.count <= h.bucket <= 1_024
         case Some(blob) => h.count == 0 && h.bucket == 0 && |blob| == h.n
  {
  }

  /** Exactly which chunks are written: at most 27,900 bytes, and none in a pad. */
  lemma ChunkLimits(c: AttachChunk)
    ensures EncodeChunk(c).Ok? <==> |c.data| <= 27_900 && (c.pad ==> c.data == [])
  {
  }

  /** Exactly which frames go on a stream: one of six sizes, version 2, an intro of at most 8 KiB. */
  lemma FrameLimits(f: Framing.OpaqueFrame)
    ensures Framing.PackSpec(f).Ok? <==>
      && |f.frame| in {256, 512, 1_024, 4_096, 16_384, 32_768} && f.frame[0] == 2
      && (f.intro.Some? ==> 1 <= |f.intro.value| <= 8_192)
  {
  }

  predicate Within(v: seq<Byte>, max: nat) { 1 <= |v| <= max }

  predicate KeyWithin(k: Pairing.SignedKey, max: nat) { Within(k.public, max) && Within(k.sig, 64) }

  /** Every field present and within its limit. */
  predicate PairingFits(p: Pairing.PairingPayload) {
    && Within(p.front.identityKey, 64) && (p.front.preKey.Some? ==> Within(p.front.preKey.value.1, 64))
    && KeyWithin(p.signedPreKey, 64) && KeyWithin(p.kyberPreKey, 4_096) && Within(p.signature, 64)
    && |p.reach.onion| == 35 && |p.reach.clientAuthPublic| == 32 && |p.reach.nonce| == 32
  }

  lemma InRangeMeans(p: Pairing.PairingPayload)
    ensures Pairing.InRange(p) <==> PairingFits(p)
  {
  }

  /** Exactly which pairing payloads read back: those that fit, all of which stay below 8 KiB. */
  lemma PairingLimits(p: Pairing.PairingPayload)
    ensures Pairing.Decode(Pairing.Encode(p)) == Ok(p) <==> PairingFits(p)
  {
    Pairing.RoundTripIff(p);
    InRangeMeans(p);
  }

  // ---- packs and plans ----

  /** An emoji is square, at most 160 wide and 64 KiB; a sticker at most three times as long as wide or as wide as
      long, at most 512 either way and 512 KiB. Neither is empty. */
  predicate ItemFits(kind: Byte, w: nat, h: nat, n: nat) {
    && n > 0 && w > 0 && h > 0
    && if kind == 1 then w == h && w <= 160 && n <= 65_536
       else w <= 3 * h && h <= 3 * w && w <= 512 && h <= 512 && n <= 524_288
  }

  /** An acceptable pack: emoji or sticker, private or public, a title of at most 32 characters, 1 to 64 emoji or 1
      to 50 stickers that fit, under different ids, with matching hashes, one of them the icon. */
  lemma PackMeans(d: PackDoc.Doc, hash: Hash)
    ensures PackDoc.WellFormed(d, hash) <==>
      && 1 <= d.kind <= 2 && 1 <= d.visibility <= 2 && CharCount(d.title) <= 32
      && 1 <= |d.items| <= (if d.kind == 1 then 64 else 50)
      && (forall i, j :: 0 <= i < j < |d.items| ==> d.items[i].itemId != d.items[j].itemId)
      && (forall i :: 0 <= i < |d.items| ==>
            && ItemFits(d.kind, d.items[i].w, d.items[i].h, |d.items[i].bytes|)
            && hash(d.items[i].bytes) == d.items[i].sha)
      && exists i :: 0 <= i < |d.items| && d.items[i].itemId == d.iconItemId
  {
    forall i | 0 <= i < |d.items| && 1 <= d.kind <= 2
      ensures PackDoc.ItemOk(d.kind, d.items[i]) <==> ItemFits(d.kind, d.items[i].w, d.items[i].h, |d.items[i].bytes|)
    {
    }
  }

  /** The partial scan says nothing of more than 28 MiB. */
  lemma ScanLimit(partial: seq<Byte>)
    ensures PackDoc.Scan(partial).Some? ==> |partial| <= 29_360_128
  {
  }

  /** The bucket is the smallest multiple of eight that holds the chunks. */
  lemma BucketIsLeast(count: nat, m: nat)
    ensures AttachPlan.BucketOf(count) % 8 == 0 && count <= AttachPlan.BucketOf(count)
    ensures count <= 8 * m ==> AttachPlan.BucketOf(count) <= 8 * m
  {
  }
}
