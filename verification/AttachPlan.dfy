/** Planning an outbound attachment: data chunks, bucket padding, and the head that announces them. */
module AttachPlan {
  import opened Bytes
  import opened Pieces
  import opened AttachWire

  const INLINE_MAX: nat := 27_000
  const BUCKET_GRANULARITY: nat := 8
  const FLAG_VIEW_ONCE: Byte := 1

  datatype ChunkOut = Data(bytes: seq<Byte>) | Pad

  datatype Plan = Plan(head: AttachHead, chunks: seq<ChunkOut>)

  datatype Spec = Spec(mediaClass: Byte, mime: Str, ext: Str, bytes: seq<Byte>, caption: Str, viewOnce: bool)

  function PiecesOf(b: seq<Byte>): seq<seq<Byte>> { Split(b, CHUNK_DATA_MAX) }

  /** Rounded up to a whole number of buckets. */
  function BucketOf(count: nat): nat { (count + 7) / 8 * 8 }

  function AsData(p: seq<seq<Byte>>): (c: seq<ChunkOut>)
    ensures |c| == |p| && forall i :: 0 <= i < |p| ==> c[i] == Data(p[i])
  {
    if p == [] then [] else AsData(p[..|p| - 1]) + [Data(p[|p| - 1])]
  }

  lemma {:induction false} AsDataAppend(p: seq<seq<Byte>>, piece: seq<Byte>)
    ensures AsData(p + [piece]) == AsData(p) + [Data(piece)]
  {
    assert (p + [piece])[..|p|] == p;
  }

  /** The data pieces in order, and pads in every other place of the bucket. */
  ghost predicate Fills(chunks: seq<ChunkOut>, p: seq<seq<Byte>>) {
    && |p| <= |chunks| == BucketOf(|p|)
    && forall i :: 0 <= i < |chunks| ==> chunks[i] == if i < |p| then Data(p[i]) else Pad
  }

  lemma PieceCountBound(b: seq<Byte>)
    requires INLINE_MAX < |b| <= MAX_ATTACH
    ensures 1 <= |PiecesOf(b)| <= 940 && BucketOf(|PiecesOf(b)|) <= MAX_CHUNKS
    ensures |PiecesOf(b)| == (|b| + CHUNK_DATA_MAX - 1) / CHUNK_DATA_MAX
  {
    SplitCount(b, CHUNK_DATA_MAX);
  }

  method PlanTransfer(spec: Spec, hash: Hash) returns (r: Result<Plan>)
    ensures r.Err? <==> spec.bytes == [] || |spec.bytes| > MAX_ATTACH
    ensures r.Ok? ==>
      var h := r.value.head;
      && h.n == |spec.bytes| && h.sha == hash(spec.bytes)
      && h.mediaClass == spec.mediaClass && h.mime == spec.mime && h.ext == spec.ext && h.caption == spec.caption
      && h.flags == (if spec.viewOnce then FLAG_VIEW_ONCE else 0)
      && if |spec.bytes| <= INLINE_MAX then h.count == h.bucket == 0 && r.value.chunks == []
         else h.count == |PiecesOf(spec.bytes)| && h.bucket == BucketOf(h.count) && Fills(r.value.chunks, PiecesOf(spec.bytes))
  {
    var bytes := spec.bytes;
    if |bytes| == 0 || |bytes| > MAX_ATTACH {
      return Err(TooLarge);
    }
    var inline := |bytes| <= INLINE_MAX;
    var count, bucket := 0, 0;
    var chunks: seq<ChunkOut> := [];
    if !inline {
      PieceCountBound(bytes);
      count := (|bytes| + CHUNK_DATA_MAX - 1) / CHUNK_DATA_MAX;
      bucket := (count + BUCKET_GRANULARITY - 1) / BUCKET_GRANULARITY * BUCKET_GRANULARITY;
      chunks := DataChunks(bytes);
      while |chunks| < bucket
        invariant count <= |chunks| <= bucket
        invariant forall i :: 0 <= i < |chunks| ==> chunks[i] == if i < count then Data(PiecesOf(bytes)[i]) else Pad
      {
        chunks := chunks + [Pad];
      }
    }
    var flags: Byte := if spec.viewOnce then FLAG_VIEW_ONCE else 0;
    var head := AttachHead(spec.mediaClass, spec.mime, spec.ext, |bytes|, count, bucket, hash(bytes), spec.caption, flags);
    return Ok(Plan(head, chunks));
  }

  method DataChunks(bytes: seq<Byte>) returns (chunks: seq<ChunkOut>)
    ensures chunks == AsData(PiecesOf(bytes))
  {
    chunks := [];
    var pieces: seq<seq<Byte>> := [];
    var rest := bytes;
    while rest != []
      invariant PiecesOf(bytes) == pieces + PiecesOf(rest)
      invariant chunks == AsData(pieces)
      decreases |rest|
    {
      var k := if |rest| <= CHUNK_DATA_MAX then |rest| else CHUNK_DATA_MAX;
      var piece := rest[..k];
      SplitStep(rest, CHUNK_DATA_MAX);
      assert pieces + ([piece] + PiecesOf(rest[k..])) == pieces + [piece] + PiecesOf(rest[k..]);
      AsDataAppend(pieces, piece);
      chunks := chunks + [Data(piece)];
      pieces, rest := pieces + [piece], rest[k..];
    }
    assert pieces == PiecesOf(bytes);
  }

  /** A planned head is one the wire accepts, so it reaches the peer unchanged. */
  lemma PlannedHeadTravels(spec: Spec, head: AttachHead, inline: Option<seq<Byte>>)
    requires spec.mediaClass == CLASS_IMAGE || spec.mediaClass == CLASS_VIDEO
    requires Ascii(spec.mime) && |spec.mime| <= MAX_MIME && Ascii(spec.ext) && |spec.ext| <= MAX_EXT
    requires |spec.caption| <= MAX_CAPTION && 0 < |spec.bytes| <= MAX_ATTACH
    requires
      && head.mediaClass == spec.mediaClass && head.mime == spec.mime && head.ext == spec.ext
      && head.caption == spec.caption && head.n == |spec.bytes| && |head.sha| == 32
    requires
      if |spec.bytes| <= INLINE_MAX then head.count == head.bucket == 0 && inline == Some(spec.bytes)
      else head.count == |PiecesOf(spec.bytes)| && head.bucket == BucketOf(head.count) && inline.None?
    ensures EncodeSpec(head, inline).Ok? && DecodeSpec(EncodeSpec(head, inline).value) == Ok((head, inline))
  {
    if |spec.bytes| > INLINE_MAX {
      PieceCountBound(spec.bytes);
    }
    HeadRoundTrip(head, inline);
  }
}
