/** ATTACH_HEAD and ATTACH_CHUNK payloads: the chunked head, the inline head whose caption and
    blob are told apart by peeking, and the chunk. */
module AttachWire {
  import opened Bytes
  import opened Bin

  const CLASS_IMAGE: Byte := 1
  const CLASS_VIDEO: Byte := 2
  const MAX_ATTACH: nat := 26_214_400
  const CHUNK_DATA_MAX: nat := 27_900
  const MAX_MIME: nat := 64
  const MAX_EXT: nat := 8
  const MAX_CAPTION: nat := 16_384
  const MAX_CHUNKS: nat := 1024
  const VERSION: Byte := 1
  const VERSION_INLINE: Byte := 2

  datatype AttachHead = AttachHead(
    mediaClass: Byte, mime: Str, ext: Str, n: U32, count: U16, bucket: U16,
    sha: seq<Byte>, caption: Str, flags: Byte)

  predicate ValidCommon(h: AttachHead) {
    && (h.mediaClass == CLASS_IMAGE || h.mediaClass == CLASS_VIDEO)
    && |h.mime| <= MAX_MIME && |h.ext| <= MAX_EXT
    && 1 <= h.n <= MAX_ATTACH
    && |h.caption| <= MAX_CAPTION
    && |h.sha| == 32
  }

  predicate ValidPlan(h: AttachHead) {
    1 <= h.count <= h.bucket <= MAX_CHUNKS
  }

  // ---- encoding ----

  /** The caption/flags tail; absent when there is nothing to say. */
  function Tail(caption: seq<Byte>, flags: Byte): seq<Byte>
    requires |caption| <= MAX_CAPTION
  {
    if caption == [] && flags == 0 then []
    else if flags == 0 then Lp(caption)
    else Lp(caption) + [flags]
  }

  /** The fields both head versions start with, in front of `rest`. */
  function Prefix(version: Byte, h: AttachHead, rest: seq<Byte>): seq<Byte>
    requires |h.mime| <= MAX_MIME && |h.ext| <= MAX_EXT
  {
    [version] + ([h.mediaClass] + (Lp(h.mime) + (Lp(h.ext) + (U32be(h.n) + rest))))
  }

  function ChunkedBytes(h: AttachHead): seq<Byte>
    requires ValidCommon(h)
  {
    Prefix(VERSION, h, U16be(h.count) + (U16be(h.bucket) + (h.sha + Tail(h.caption, h.flags))))
  }

  function InlineBytes(h: AttachHead, blob: seq<Byte>): seq<Byte>
    requires ValidCommon(h) && |blob| == h.n
  {
    Prefix(VERSION_INLINE, h, h.sha + (Tail(h.caption, h.flags) + Lp(blob)))
  }

  function EncodeSpec(h: AttachHead, inline: Option<seq<Byte>>): Result<seq<Byte>> {
    if !ValidCommon(h) then Err(BadField)
    else if inline.None? then
      if ValidPlan(h) then Ok(ChunkedBytes(h)) else Err(BadField)
    else if h.count != 0 || h.bucket != 0 then Err(BadField)
    else if |inline.value| != h.n then Err(BadLength)
    else Ok(InlineBytes(h, inline.value))
  }

  // ---- decoding ----

  datatype Lead = Lead(mediaClass: Byte, mime: Str, ext: Str, n: U32)

  function ReadAscii(s: seq<Byte>, max: nat): (r: Read<Str>)
    ensures r.Ok? ==> Ascii(r.value.0) && |r.value.0| <= max
  {
    var (v, rest) :- ReadLp(s, max);
    if Ascii(v) then AsciiIsUtf8(v); Ok((v, rest)) else Err(BadField)
  }

  function ReadLead(s: seq<Byte>): Read<Lead> {
    var (mediaClass, s1) :- ReadU8(s);
    var (mime, s2) :- ReadAscii(s1, MAX_MIME);
    var (ext, s3) :- ReadAscii(s2, MAX_EXT);
    var (n, s4) :- ReadU32(s3);
    Ok((Lead(mediaClass, mime, ext, n), s4))
  }

  function AsString(v: seq<Byte>): Result<Str> {
    if ValidUtf8(v) then Ok(v) else Err(BadField)
  }

  /** Caption and flags of a chunked head, which end it. */
  function ReadTail(s: seq<Byte>): Result<(Str, Byte)> {
    if s == [] then Ok(([], 0))
    else
      var (cap, rest) :- ReadLp(s, MAX_CAPTION);
      if rest == [] then
        if cap == [] then Err(BadLength) else
        var caption :- AsString(cap);
        Ok((caption, 0))
      else if |rest| == 1 then
        var caption :- AsString(cap);
        Ok((caption, rest[0]))
      else Err(Trailing)
  }

  function DecodeChunked(s: seq<Byte>): (r: Result<AttachHead>)
    ensures r.Ok? ==> ValidPlan(r.value)
  {
    var (lead, s1) :- ReadLead(s);
    var (count, s2) :- ReadU16(s1);
    var (bucket, s3) :- ReadU16(s2);
    var (sha, s4) :- TakeN(s3, 32);
    var (caption, flags) :- ReadTail(s4);
    var h := AttachHead(lead.mediaClass, lead.mime, lead.ext, lead.n, count, bucket, sha, caption, flags);
    if ValidCommon(h) && ValidPlan(h) then Ok(h) else Err(BadField)
  }

  /** The next length prefix is `n` and its blob is everything that is left. */
  predicate IsLastBlob(s: seq<Byte>, n: nat) {
    |s| >= 4 && FromBe32(s[..4]) == n && |s| == 4 + n
  }

  /** Caption, flags and blob of an inline head. */
  function ReadInlineTail(s: seq<Byte>, n: nat): Result<(Str, Byte, seq<Byte>)> {
    if |s| < 4 then Err(Truncated)
    else if IsLastBlob(s, n) then Ok(([], 0, s[4..]))
    else
      var (cap, rest) :- ReadLp(s, MAX_CAPTION);
      var caption :- AsString(cap);
      var (flags, blob) :- ReadFlagsBlob(rest, n);
      Ok((caption, flags, blob))
  }

  /** What follows the caption of an inline head. */
  function ReadFlagsBlob(s: seq<Byte>, n: nat): Result<(Byte, seq<Byte>)> {
    if |s| < 4 then Err(Truncated)
    else if IsLastBlob(s, n) then Ok((0, s[4..]))
    else
      var (flags, r1) :- ReadU8(s);
      var (len, r2) :- ReadU32(r1);
      if len != n || |r2| != len then Err(BadLength) else
      Ok((flags, r2))
  }

  lemma InlineLength(s: seq<Byte>, n: nat)
    requires ReadInlineTail(s, n).Ok?
    ensures |ReadInlineTail(s, n).value.2| == n
  {
  }

  function DecodeInline(s: seq<Byte>): (r: Result<(AttachHead, seq<Byte>)>)
    ensures r.Ok? ==> r.value.0.count == 0 && |r.value.1| == r.value.0.n
  {
    var (lead, s1) :- ReadLead(s);
    var (sha, s2) :- TakeN(s1, 32);
    var (caption, flags, blob) :- ReadInlineTail(s2, lead.n);
    InlineLength(s2, lead.n);
    var h := AttachHead(lead.mediaClass, lead.mime, lead.ext, lead.n, 0, 0, sha, caption, flags);
    if ValidCommon(h) then Ok((h, blob)) else Err(BadField)
  }

  function DecodeSpec(bytes: seq<Byte>): Result<(AttachHead, Option<seq<Byte>>)> {
    var (version, s) :- ReadU8(bytes);
    if version == VERSION then
      var h :- DecodeChunked(s);
      Ok((h, None))
    else if version == VERSION_INLINE then
      var (h, blob) :- DecodeInline(s);
      Ok((h, Some(blob)))
    else Err(BadVersion)
  }

  // ---- round trip ----

  lemma ReadAsciiBack(v: Str, max: nat, rest: seq<Byte>)
    requires |v| <= max && max < LP_LIMIT
    ensures ReadAscii(Lp(v) + rest, max) == if Ascii(v) then Ok((v, rest)) else Err(BadField)
  {
    ReadLpBack(v, max, rest);
  }

  lemma ReadLeadBack(h: AttachHead, rest: seq<Byte>)
    requires |h.mime| <= MAX_MIME && |h.ext| <= MAX_EXT
    ensures
      ReadLead([h.mediaClass] + (Lp(h.mime) + (Lp(h.ext) + (U32be(h.n) + rest)))) ==
      if Ascii(h.mime) && Ascii(h.ext) then Ok((Lead(h.mediaClass, h.mime, h.ext, h.n), rest)) else Err(BadField)
  {
    var s3 := U32be(h.n) + rest;
    var s2 := Lp(h.ext) + s3;
    ReadU8Back(h.mediaClass, Lp(h.mime) + s2);
    ReadAsciiBack(h.mime, MAX_MIME, s2);
    ReadAsciiBack(h.ext, MAX_EXT, s3);
    ReadU32Back(h.n, rest);
  }

  lemma ReadTailBack(caption: Str, flags: Byte)
    requires |caption| <= MAX_CAPTION
    ensures ReadTail(Tail(caption, flags)) == Ok((caption, flags))
  {
    if caption != [] || flags != 0 {
      var rest := if flags == 0 then [] else [flags];
      ReadLpBack(caption, MAX_CAPTION, rest);
      assert Lp(caption) + [] == Lp(caption);
    }
  }

  lemma LastBlob(blob: seq<Byte>)
    requires |blob| < LP_LIMIT
    ensures IsLastBlob(Lp(blob), |blob|) && Lp(blob)[4..] == blob
  {
    assert Lp(blob)[..4] == U32be(|blob|);
    U32Injective(FromBe32(Lp(blob)[..4]), |blob|);
  }

  /** The peek never takes a caption for the blob, even when both have the same length, nor a
      flags byte for the blob's length prefix. */
  lemma PeekNeverConfuses(caption: seq<Byte>, flags: Byte, blob: seq<Byte>)
    requires |caption| <= MAX_CAPTION && |blob| < LP_LIMIT && (caption != [] || flags != 0)
    ensures !IsLastBlob(Tail(caption, flags) + Lp(blob), |blob|)
    ensures flags != 0 ==> !IsLastBlob([flags] + Lp(blob), |blob|)
  {
    var s := Tail(caption, flags) + Lp(blob);
    assert s[..4] == U32be(|caption|);
    U32Injective(FromBe32(s[..4]), |caption|);
  }

  lemma ReadFlagsBlobBack(caption: Str, flags: Byte, blob: seq<Byte>)
    requires |caption| <= MAX_CAPTION && |blob| < LP_LIMIT && (caption != [] || flags != 0)
    ensures ReadFlagsBlob((if flags == 0 then [] else [flags]) + Lp(blob), |blob|) == Ok((flags, blob))
  {
    if flags == 0 {
      assert [] + Lp(blob) == Lp(blob);
      LastBlob(blob);
    } else {
      PeekNeverConfuses(caption, flags, blob);
      ReadU8Back(flags, Lp(blob));
      ReadU32Back(|blob|, blob);
    }
  }

  lemma ReadInlineTailBack(caption: Str, flags: Byte, blob: seq<Byte>)
    requires |caption| <= MAX_CAPTION && |blob| < LP_LIMIT
    ensures ReadInlineTail(Tail(caption, flags) + Lp(blob), |blob|) == Ok((caption, flags, blob))
  {
    if caption == [] && flags == 0 {
      assert [] + Lp(blob) == Lp(blob);
      LastBlob(blob);
    } else {
      var rest := (if flags == 0 then [] else [flags]) + Lp(blob);
      assert Tail(caption, flags) + Lp(blob) == Lp(caption) + rest;
      PeekNeverConfuses(caption, flags, blob);
      ReadLpBack(caption, MAX_CAPTION, rest);
      ReadFlagsBlobBack(caption, flags, blob);
    }
  }

  lemma ChunkedRoundTrip(h: AttachHead)
    requires ValidCommon(h) && ValidPlan(h)
    ensures DecodeSpec(ChunkedBytes(h)) == if Ascii(h.mime) && Ascii(h.ext) then Ok((h, None)) else Err(BadField)
  {
    var t := Tail(h.caption, h.flags);
    var s2 := U16be(h.bucket) + (h.sha + t);
    var s1 := U16be(h.count) + s2;
    ReadU8Back(VERSION, [h.mediaClass] + (Lp(h.mime) + (Lp(h.ext) + (U32be(h.n) + s1))));
    ReadLeadBack(h, s1);
    ReadU16Back(h.count, s2);
    ReadU16Back(h.bucket, h.sha + t);
    TakeBack(h.sha, t);
    ReadTailBack(h.caption, h.flags);
  }

  lemma InlineRoundTrip(h: AttachHead, blob: seq<Byte>)
    requires ValidCommon(h) && |blob| == h.n && h.count == 0 && h.bucket == 0
    ensures DecodeSpec(InlineBytes(h, blob))
         == if Ascii(h.mime) && Ascii(h.ext) then Ok((h, Some(blob))) else Err(BadField)
  {
    var t := Tail(h.caption, h.flags) + Lp(blob);
    var s1 := h.sha + t;
    ReadU8Back(VERSION_INLINE, [h.mediaClass] + (Lp(h.mime) + (Lp(h.ext) + (U32be(h.n) + s1))));
    ReadLeadBack(h, s1);
    TakeBack(h.sha, t);
    ReadInlineTailBack(h.caption, h.flags, blob);
  }

  /** Every head that encodes decodes back to itself, inline bytes included, exactly when its
      mime and extension are ASCII. */
  lemma HeadRoundTrip(h: AttachHead, inline: Option<seq<Byte>>)
    requires EncodeSpec(h, inline).Ok?
    ensures DecodeSpec(EncodeSpec(h, inline).value) == Ok((h, inline)) <==> Ascii(h.mime) && Ascii(h.ext)
  {
    if inline.None? {
      ChunkedRoundTrip(h);
    } else {
      InlineRoundTrip(h, inline.value);
    }
  }

  // ---- the cursor code ----

  method EncodeTail(w: Writer, caption: seq<Byte>, flags: Byte)
    requires |caption| <= MAX_CAPTION
    modifies w
    ensures w.buf == old(w.buf) + Tail(caption, flags)
  {
    if caption == [] && flags == 0 {
      return;
    }
    w.LpField(caption);
    if flags != 0 {
      w.U8(flags);
    }
  }

  method EncodeLead(w: Writer, version: Byte, h: AttachHead)
    requires ValidCommon(h) && w.buf == []
    modifies w
    ensures w.buf == Prefix(version, h, [])
  {
    w.U8(version);
    w.U8(h.mediaClass);
    w.LpField(h.mime);
    w.LpField(h.ext);
    w.U32(h.n);
    NestFive([version], [h.mediaClass], Lp(h.mime), Lp(h.ext), U32be(h.n));
  }

  lemma NestFive(a: seq<Byte>, b: seq<Byte>, c: seq<Byte>, d: seq<Byte>, e: seq<Byte>)
    ensures [] + a + b + c + d + e == a + (b + (c + (d + (e + []))))
  {
    assert [] + a + b + c == a + (b + c);
  }

  lemma PrefixThen(version: Byte, h: AttachHead, rest: seq<Byte>)
    requires |h.mime| <= MAX_MIME && |h.ext| <= MAX_EXT
    ensures Prefix(version, h, []) + rest == Prefix(version, h, rest)
  {
  }

  lemma AppendThree(a: seq<Byte>, b: seq<Byte>, c: seq<Byte>, d: seq<Byte>)
    ensures a + b + c + d == a + (b + (c + d))
  {
  }

  method EncodeChunked(h: AttachHead) returns (r: Result<seq<Byte>>)
    ensures r == EncodeSpec(h, None)
  {
    if !ValidCommon(h) || !ValidPlan(h) {
      return Err(BadField);
    }
    var w := new Writer();
    EncodeLead(w, VERSION, h);
    ghost var lead := w.buf;
    w.U16(h.count);
    w.U16(h.bucket);
    w.Raw(h.sha);
    EncodeTail(w, h.caption, h.flags);
    ghost var rest := U16be(h.count) + (U16be(h.bucket) + (h.sha + Tail(h.caption, h.flags)));
    assert w.buf == lead + rest;
    PrefixThen(VERSION, h, rest);
    return Ok(w.buf);
  }

  method EncodeInline(h: AttachHead, blob: seq<Byte>) returns (r: Result<seq<Byte>>)
    ensures r == EncodeSpec(h, Some(blob))
  {
    if !ValidCommon(h) || h.count != 0 || h.bucket != 0 {
      return Err(BadField);
    }
    if |blob| != h.n {
      return Err(BadLength);
    }
    var w := new Writer();
    EncodeLead(w, VERSION_INLINE, h);
    ghost var lead, tail := w.buf, Tail(h.caption, h.flags);
    w.Raw(h.sha);
    EncodeTail(w, h.caption, h.flags);
    w.LpField(blob);
    AppendThree(lead, h.sha, tail, Lp(blob));
    PrefixThen(VERSION_INLINE, h, h.sha + (tail + Lp(blob)));
    return Ok(w.buf);
  }

  method ReadAsciiField(rd: Reader, max: nat) returns (r: Result<Str>)
    requires rd.Valid()
    modifies rd`pos
    ensures rd.Valid() && Follows(r, rd.Rest(), ReadAscii(old(rd.Rest()), max))
  {
    var v :- rd.LpField(max);
    if !Ascii(v) {
      return Err(BadField);
    }
    AsciiIsUtf8(v);
    return Ok(v);
  }

  method ReadLeadFields(rd: Reader) returns (r: Result<Lead>)
    requires rd.Valid()
    modifies rd`pos
    ensures rd.Valid() && Follows(r, rd.Rest(), ReadLead(old(rd.Rest())))
  {
    var mediaClass :- rd.U8();
    var mime :- ReadAsciiField(rd, MAX_MIME);
    var ext :- ReadAsciiField(rd, MAX_EXT);
    var n :- rd.U32();
    return Ok(Lead(mediaClass, mime, ext, n));
  }

  method ReadTailFields(rd: Reader) returns (r: Result<(Str, Byte)>)
    requires rd.Valid()
    modifies rd`pos
    ensures r == ReadTail(old(rd.Rest()))
  {
    var left := rd.Remaining();
    if left == 0 {
      return Ok(([], 0));
    }
    var cap :- rd.LpField(MAX_CAPTION);
    left := rd.Remaining();
    if left == 0 {
      if cap == [] {
        return Err(BadLength);
      }
      var caption :- AsString(cap);
      return Ok((caption, 0));
    }
    if left == 1 {
      var caption :- AsString(cap);
      var flags :- rd.U8();
      return Ok((caption, flags));
    }
    return Err(Trailing);
  }

  method PeekIsLastBlob(rd: Reader, n: nat) returns (r: Result<bool>)
    requires rd.Valid()
    ensures r == if |rd.Rest()| < 4 then Err(Truncated) else Ok(IsLastBlob(rd.Rest(), n))
  {
    var peek :- rd.PeekU32();
    var left := rd.Remaining();
    assert rd.Rest() == U32be(peek) + rd.Rest()[4..];
    U32Injective(FromBe32(rd.Rest()[..4]), peek);
    return Ok(peek == n && left == 4 + n);
  }

  method TakeLastBlob(rd: Reader, n: nat) returns (r: Result<seq<Byte>>)
    requires rd.Valid() && IsLastBlob(rd.Rest(), n)
    modifies rd`pos
    ensures r == Ok(old(rd.Rest())[4..])
  {
    var len :- rd.U32();
    var blob :- rd.Take(n);
    assert blob == old(rd.Rest())[4..];
    return Ok(blob);
  }

  method ReadFlagsBlobFields(rd: Reader, n: nat) returns (r: Result<(Byte, seq<Byte>)>)
    requires rd.Valid()
    modifies rd`pos
    ensures r == ReadFlagsBlob(old(rd.Rest()), n)
  {
    var blobNext :- PeekIsLastBlob(rd, n);
    if blobNext {
      var blob :- TakeLastBlob(rd, n);
      return Ok((0, blob));
    }
    var flags :- rd.U8();
    var len :- rd.U32();
    var left := rd.Remaining();
    if len != n || left != len {
      return Err(BadLength);
    }
    ghost var rest := rd.Rest();
    var blob :- rd.Take(len);
    assert blob == rest;
    return Ok((flags, blob));
  }

  method ReadInlineTailFields(rd: Reader, n: nat) returns (r: Result<(Str, Byte, seq<Byte>)>)
    requires rd.Valid()
    modifies rd`pos
    ensures r == ReadInlineTail(old(rd.Rest()), n)
  {
    var blobNext :- PeekIsLastBlob(rd, n);
    if blobNext {
      var blob :- TakeLastBlob(rd, n);
      return Ok(([], 0, blob));
    }
    var cap :- rd.LpField(MAX_CAPTION);
    var caption :- AsString(cap);
    var tail :- ReadFlagsBlobFields(rd, n);
    return Ok((caption, tail.0, tail.1));
  }

  method DecodeWithInline(bytes: seq<Byte>) returns (r: Result<(AttachHead, Option<seq<Byte>>)>)
    ensures r == DecodeSpec(bytes)
  {
    var rd := new Reader(bytes);
    var version :- rd.U8();
    if version == VERSION {
      var lead :- ReadLeadFields(rd);
      var count :- rd.U16();
      var bucket :- rd.U16();
      var sha :- rd.Take(32);
      var tail :- ReadTailFields(rd);
      var h := AttachHead(lead.mediaClass, lead.mime, lead.ext, lead.n, count, bucket, sha, tail.0, tail.1);
      return if ValidCommon(h) && ValidPlan(h) then Ok((h, None)) else Err(BadField);
    } else if version == VERSION_INLINE {
      var lead :- ReadLeadFields(rd);
      var sha :- rd.Take(32);
      var tail :- ReadInlineTailFields(rd, lead.n);
      var h := AttachHead(lead.mediaClass, lead.mime, lead.ext, lead.n, 0, 0, sha, tail.0, tail.1);
      return if ValidCommon(h) then Ok((h, Some(tail.2))) else Err(BadField);
    }
    return Err(BadVersion);
  }

  // ---- chunks ----

  datatype AttachChunk = AttachChunk(headId: Id16, index: U16, pad: bool, data: seq<Byte>)

  predicate ValidChunk(c: AttachChunk) {
    |c.data| <= CHUNK_DATA_MAX && (c.pad ==> c.data == [])
  }

  function EncodeChunk(c: AttachChunk): Result<seq<Byte>> {
    if ValidChunk(c) then Ok(c.headId + (U16be(c.index) + ([if c.pad then 1 else 0] + (Lp(c.data) + []))))
    else Err(TooLarge)
  }

  function DecodeChunk(bytes: seq<Byte>): Result<AttachChunk> {
    var (id, s1) :- TakeN(bytes, 16);
    var (index, s2) :- ReadU16(s1);
    var (pad, s3) :- ReadU8(s2);
    if pad > 1 then Err(BadField) else
    var (data, s4) :- ReadLp(s3, CHUNK_DATA_MAX);
    if s4 != [] then Err(Trailing)
    else if pad == 1 && data != [] then Err(BadField)
    else Ok(AttachChunk(id, index, pad == 1, data))
  }

  /** Chunks round trip, and every accepted payload is the encoding of the chunk it yields. */
  lemma ChunkCanonical(bytes: seq<Byte>, c: AttachChunk)
    ensures DecodeChunk(bytes) == Ok(c) <==> EncodeChunk(c) == Ok(bytes)
  {
    if EncodeChunk(c) == Ok(bytes) {
      var s3 := Lp(c.data) + [];
      var s2 := [if c.pad then 1 else 0] + s3;
      TakeBack(c.headId, U16be(c.index) + s2);
      ReadU16Back(c.index, s2);
      ReadU8Back(if c.pad then 1 else 0, s3);
      ReadLpBack(c.data, CHUNK_DATA_MAX, []);
    }
  }
}
