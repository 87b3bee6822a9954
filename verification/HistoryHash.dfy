/** The history hash: a fingerprint of a receive view and of the seqs just below its horizon.
    SHA-256 is a parameter. */
module HistoryHash {
  import opened Bytes
  import opened ReceiveView

  const DEEP_WINDOW: nat := 4096
  /** The ASCII bytes of "S7HIST1". */
  const HASH_DOMAIN: seq<Byte> := [0x53, 0x37, 0x48, 0x49, 0x53, 0x54, 0x31]

  type Digest = seq<Byte> -> seq<Byte>

  /** First of the last 4096 seqs up to `max`; 1 when there are fewer. */
  function DeepBase(max: nat): (base: nat)
    ensures 1 <= base <= max + 1 && max + 1 - base <= DEEP_WINDOW
    ensures max <= DEEP_WINDOW ==> base == 1
    ensures max > DEEP_WINDOW ==> max + 1 - base == DEEP_WINDOW
  {
    (if max > DEEP_WINDOW then max - DEEP_WINDOW else 0) + 1
  }

  /** `deep` answers the query for seen seqs in `[base, max]`. */
  ghost predicate IsDeepQuery(seen: set<nat>, base: nat, max: nat, deep: seq<nat>) {
    Ascending(deep) && forall q: nat :: q in deep <==> q in seen && base <= q <= max
  }

  ghost predicate AllU64(seqs: seq<nat>) {
    forall i :: 0 <= i < |seqs| ==> seqs[i] < 0x1_0000_0000_0000_0000
  }

  function SeqBytes(seqs: seq<nat>): (s: seq<Byte>)
    requires AllU64(seqs)
    ensures |s| == 8 * |seqs|
  {
    if seqs == [] then [] else SeqBytes(seqs[..|seqs| - 1]) + U64be(seqs[|seqs| - 1])
  }

  function BitmapBytes(bitmap: seq<bv8>): (s: seq<Byte>)
    ensures |s| == |bitmap|
  {
    seq(|bitmap|, i requires 0 <= i < |bitmap| => bitmap[i] as int)
  }

  /** The bytes fed to the outer digest, given the inner one. */
  function Preimage(max: U64, bitmap: seq<bv8>, deepDigest: seq<Byte>): seq<Byte>
    requires |bitmap| <= MAX_BITMAP_BYTES
  {
    HASH_DOMAIN + U64be(max) + U32be(|bitmap|) + BitmapBytes(bitmap) + deepDigest
  }

  function Fingerprint(sha: Digest, max: U64, bitmap: seq<bv8>, deep: seq<nat>): seq<Byte>
    requires AllU64(deep) && |bitmap| <= MAX_BITMAP_BYTES
  {
    sha(Preimage(max, bitmap, sha(SeqBytes(deep))))
  }

  /** `[base, base + 1, ..., max]`. */
  function Range(base: nat, max: nat): (r: seq<nat>)
    requires base <= max + 1
    ensures |r| == max + 1 - base
    ensures forall i :: 0 <= i < |r| ==> r[i] == base + i
  {
    seq(max + 1 - base, i requires 0 <= i => base + i)
  }

  lemma SeqBytesSnoc(seqs: seq<nat>, k: nat)
    requires AllU64(seqs) && k < |seqs|
    ensures SeqBytes(seqs[..k + 1]) == SeqBytes(seqs[..k]) + U64be(seqs[k])
  {
    assert seqs[..k + 1][..k] == seqs[..k];
  }

  lemma RangeStep(base: nat, s: U64, max: U64)
    requires base <= s <= max
    ensures SeqBytes(Range(base, max)[..s - base + 1]) == SeqBytes(Range(base, max)[..s - base]) + U64be(s)
  {
    SeqBytesSnoc(Range(base, max), s - base);
  }

  method FinishHash(sha: Digest, max: U64, bitmap: seq<bv8>, deepDigest: seq<Byte>) returns (r: seq<Byte>)
    requires |bitmap| <= MAX_BITMAP_BYTES
    ensures r == sha(Preimage(max, bitmap, deepDigest))
  {
    var md := HASH_DOMAIN;
    md := md + U64be(max);
    md := md + U32be(|bitmap|);
    md := md + BitmapBytes(bitmap);
    md := md + deepDigest;
    r := sha(md);
  }

  method HistoryHash(sha: Digest, max: U64, bitmap: seq<bv8>, deep: seq<nat>) returns (r: seq<Byte>)
    requires AllU64(deep) && |bitmap| <= MAX_BITMAP_BYTES
    ensures r == Fingerprint(sha, max, bitmap, deep)
  {
    var fed: seq<Byte> := [];
    for i := 0 to |deep|
      invariant fed == SeqBytes(deep[..i])
    {
      SeqBytesSnoc(deep, i);
      fed := fed + U64be(deep[i]);
    }
    assert deep[..|deep|] == deep;
    r := FinishHash(sha, max, bitmap, sha(fed));
  }

  method FeedRange(base: nat, max: U64) returns (fed: seq<Byte>)
    requires base <= max + 1
    ensures fed == SeqBytes(Range(base, max))
  {
    fed := [];
    var s := base;
    while s <= max
      invariant base <= s <= max + 1
      invariant fed == SeqBytes(Range(base, max)[..s - base])
    {
      RangeStep(base, s, max);
      fed := fed + U64be(s);
      s := s + 1;
    }
    assert Range(base, max)[..max + 1 - base] == Range(base, max);
  }

  method HashContiguous(sha: Digest, max: U64, bitmap: seq<bv8>) returns (r: seq<Byte>)
    requires |bitmap| <= MAX_BITMAP_BYTES
    ensures r == Fingerprint(sha, max, bitmap, Range(DeepBase(max), max))
  {
    var fed := FeedRange(DeepBase(max), max);
    r := FinishHash(sha, max, bitmap, sha(fed));
  }

  ghost predicate SameElements(a: seq<nat>, b: seq<nat>) { forall q: nat :: q in a <==> q in b }

  /** Two ascending sequences with the same elements are equal. */
  lemma {:induction false} AscendingUnique(a: seq<nat>, b: seq<nat>)
    requires Ascending(a) && Ascending(b) && SameElements(a, b)
    ensures a == b
    decreases |a|
  {
    assert b != [] ==> b[0] in a;
    if a != [] {
      assert a[0] in b;
      var x, a', b' := a[|a| - 1], a[..|a| - 1], b[..|b| - 1];
      SameLast(a, b);
      assert a == a' + [x] && b == b' + [x];
      SameFront(a', b', x);
      AscendingUnique(a', b');
    }
  }

  lemma SameFront(a: seq<nat>, b: seq<nat>, x: nat)
    requires Ascending(a + [x]) && Ascending(b + [x]) && SameElements(a + [x], b + [x])
    ensures SameElements(a, b) && Ascending(a) && Ascending(b)
  {
    forall q: nat ensures q in a <==> q in b {
      WithoutLast(a, x, q);
      WithoutLast(b, x, q);
    }
    PrefixAscends(a, x);
    PrefixAscends(b, x);
  }

  lemma PrefixAscends(a: seq<nat>, x: nat)
    requires Ascending(a + [x])
    ensures Ascending(a)
  {
    forall i, j | 0 <= i < j < |a| ensures a[i] < a[j] {
      assert (a + [x])[i] < (a + [x])[j];
    }
  }

  lemma SameLast(a: seq<nat>, b: seq<nat>)
    requires Ascending(a) && Ascending(b) && a != [] && b != [] && SameElements(a, b)
    ensures a[|a| - 1] == b[|b| - 1]
  {
    assert a[|a| - 1] in b && b[|b| - 1] in a;
  }

  lemma WithoutLast(a: seq<nat>, x: nat, q: nat)
    requires Ascending(a + [x])
    ensures q in a <==> q in a + [x] && q != x
  {
    if q in a {
      var i :| 0 <= i < |a| && a[i] == q;
      assert (a + [x])[i] < (a + [x])[|a|];
    }
  }

  /** For every seen set, the deep window the store returns is the whole range below the
      horizon, so the stored-seq hash and the hole-free hash agree. */
  lemma HashesAgree(sha: Digest, seen: set<nat>, v: View, deep: seq<nat>)
    requires v.max < 0x1_0000_0000_0000_0000
    requires IsReceiveView(seen, v)
    requires IsDeepQuery(seen, DeepBase(v.max), v.max, deep)
    ensures deep == Range(DeepBase(v.max), v.max) && |deep| <= DEEP_WINDOW
    ensures Fingerprint(sha, v.max, v.bitmap, deep)
         == Fingerprint(sha, v.max, v.bitmap, Range(DeepBase(v.max), v.max))
  {
    var rows :| IsScan(seen, rows) && Summarises(rows, v);
    var all := Range(DeepBase(v.max), v.max);
    forall q: nat ensures q in all <==> q in deep {
      if DeepBase(v.max) <= q <= v.max {
        assert all[q - DeepBase(v.max)] == q;
      }
    }
    AscendingUnique(deep, all);
  }

  lemma {:induction false} SeqBytesInjective(a: seq<nat>, b: seq<nat>)
    requires AllU64(a) && AllU64(b) && SeqBytes(a) == SeqBytes(b)
    ensures a == b
    decreases |a|
  {
    assert |a| == |b|;
    if a != [] {
      var a', b' := a[..|a| - 1], b[..|b| - 1];
      var n := 8 * |a'|;
      assert SeqBytes(a)[..n] == SeqBytes(a') && SeqBytes(b)[..n] == SeqBytes(b');
      assert SeqBytes(a)[n..] == U64be(a[|a| - 1]) && SeqBytes(b)[n..] == U64be(b[|b| - 1]);
      U64Injective(a[|a| - 1], b[|b| - 1]);
      SeqBytesInjective(a', b');
      assert a == a' + [a[|a| - 1]] && b == b' + [b[|b| - 1]];
    }
  }

  lemma BitmapBytesInjective(a: seq<bv8>, b: seq<bv8>)
    requires BitmapBytes(a) == BitmapBytes(b)
    ensures a == b
  {
    assert |a| == |b|;
    forall i | 0 <= i < |a| ensures a[i] == b[i] {
      assert BitmapBytes(a)[i] == BitmapBytes(b)[i];
      assert (a[i] as int) as bv8 == a[i] && (b[i] as int) as bv8 == b[i];
    }
  }

  lemma PreimageInjective(m1: U64, b1: seq<bv8>, d1: seq<Byte>, m2: U64, b2: seq<bv8>, d2: seq<Byte>)
    requires |b1| <= MAX_BITMAP_BYTES && |b2| <= MAX_BITMAP_BYTES
    requires Preimage(m1, b1, d1) == Preimage(m2, b2, d2)
    ensures m1 == m2 && b1 == b2 && d1 == d2
  {
    var p1, p2 := Preimage(m1, b1, d1), Preimage(m2, b2, d2);
    assert p1[7..15] == U64be(m1) && p2[7..15] == U64be(m2);
    U64Injective(m1, m2);
    assert p1[15..19] == U32be(|b1|) && p2[15..19] == U32be(|b2|);
    U32Injective(|b1|, |b2|);
    assert p1[19..19 + |b1|] == BitmapBytes(b1) && p2[19..19 + |b2|] == BitmapBytes(b2);
    BitmapBytesInjective(b1, b2);
    assert p1[19 + |b1|..] == d1 && p2[19 + |b2|..] == d2;
  }

  /** Equal fingerprints mean equal receive views, unless SHA-256 collides on the two pairs
      of inputs named here. */
  lemma {:induction false} EqualHashesMeanInSync(sha: Digest, v1: View, deep1: seq<nat>, v2: View, deep2: seq<nat>)
    requires v1.max < 0x1_0000_0000_0000_0000 && v2.max < 0x1_0000_0000_0000_0000
    requires |v1.bitmap| <= MAX_BITMAP_BYTES && |v2.bitmap| <= MAX_BITMAP_BYTES
    requires AllU64(deep1) && AllU64(deep2)
    requires Fingerprint(sha, v1.max, v1.bitmap, deep1) == Fingerprint(sha, v2.max, v2.bitmap, deep2)
    ensures
      var in1, in2 := SeqBytes(deep1), SeqBytes(deep2);
      var out1, out2 := Preimage(v1.max, v1.bitmap, sha(in1)), Preimage(v2.max, v2.bitmap, sha(in2));
      || (v1 == v2 && deep1 == deep2)
      || (out1 != out2 && sha(out1) == sha(out2))
      || (in1 != in2 && sha(in1) == sha(in2))
  {
    var in1, in2 := SeqBytes(deep1), SeqBytes(deep2);
    if Preimage(v1.max, v1.bitmap, sha(in1)) == Preimage(v2.max, v2.bitmap, sha(in2)) {
      PreimageInjective(v1.max, v1.bitmap, sha(in1), v2.max, v2.bitmap, sha(in2));
      if in1 == in2 {
        SeqBytesInjective(deep1, deep2);
      }
    }
  }
}
