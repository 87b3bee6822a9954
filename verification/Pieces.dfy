/** Cutting a blob into fixed-size pieces and putting a table of pieces back together. */
module Pieces {
  import opened Bytes

  /** Index to chunk. */
  type Chunks = map<nat, seq<Byte>>

  /** `slice::chunks`: full pieces, then a shorter last one. */
  function Split(b: seq<Byte>, size: nat): (p: seq<seq<Byte>>)
    requires size > 0
    ensures forall i :: 0 <= i < |p| ==> 0 < |p[i]| <= size
    ensures b == [] <==> p == []
    decreases |b|
  {
    if b == [] then [] else if |b| <= size then [b] else [b[..size]] + Split(b[size..], size)
  }

  lemma {:induction false} SplitStep(b: seq<Byte>, size: nat)
    requires size > 0 && b != []
    ensures
      var k := if |b| <= size then |b| else size;
      Split(b, size) == [b[..k]] + Split(b[k..], size)
  {
    if |b| <= size {
      assert b[..|b|] == b && b[|b|..] == [];
    }
  }

  function Flatten(p: seq<seq<Byte>>): seq<Byte> {
    if p == [] then [] else Flatten(p[..|p| - 1]) + p[|p| - 1]
  }

  lemma {:induction false} FlattenFront(first: seq<Byte>, p: seq<seq<Byte>>)
    ensures Flatten([first] + p) == first + Flatten(p)
    decreases |p|
  {
    var all := [first] + p;
    if p == [] {
      assert all[..0] == [] && first + [] == first && [] + first == first;
    } else {
      assert all[..|all| - 1] == [first] + p[..|p| - 1];
      FlattenFront(first, p[..|p| - 1]);
    }
  }

  lemma {:induction false} SplitFlattens(b: seq<Byte>, size: nat)
    requires size > 0
    ensures Flatten(Split(b, size)) == b
    decreases |b|
  {
    if 0 < |b| <= size {
      assert [b][..0] == [] && [] + b == b;
    } else if |b| > size {
      SplitFlattens(b[size..], size);
      FlattenFront(b[..size], Split(b[size..], size));
    }
  }

  lemma {:induction false} FullPieces(b: seq<Byte>, size: nat, i: nat)
    requires size > 0 && i < |Split(b, size)|
    ensures i + 1 < |Split(b, size)| ==> |Split(b, size)[i]| == size
    decreases |b|
  {
    if |b| > size && i > 0 {
      FullPieces(b[size..], size, i - 1);
    }
  }

  /** The number of pieces is the length over the size, rounded up. */
  lemma {:induction false} SplitCount(b: seq<Byte>, size: nat)
    requires size > 0
    ensures |b| <= |Split(b, size)| * size < |b| + size
    decreases |b|
  {
    if |b| > size {
      var rest := Split(b[size..], size);
      SplitCount(b[size..], size);
      assert (|rest| + 1) * size == |rest| * size + size;
    }
  }

  // ---- tables of chunks ----

  /** Bytes held at indices below `n`. */
  function SumLen(chunks: Chunks, n: nat): nat {
    if n == 0 then 0 else SumLen(chunks, n - 1) + if n - 1 in chunks then |chunks[n - 1]| else 0
  }

  predicate Covers(chunks: Chunks, n: nat) {
    forall i :: 0 <= i < n ==> i in chunks
  }

  function Joined(chunks: Chunks, n: nat): seq<Byte>
    requires Covers(chunks, n)
  {
    if n == 0 then [] else Joined(chunks, n - 1) + chunks[n - 1]
  }

  /** Every chunk held is the piece of that index. */
  predicate Drawn(chunks: Chunks, p: seq<seq<Byte>>) {
    forall i :: i in chunks ==> i < |p| && chunks[i] == p[i]
  }

  lemma {:induction false} SumLenPut(chunks: Chunks, i: nat, data: seq<Byte>, n: nat)
    requires i !in chunks
    ensures SumLen(chunks[i := data], n) == SumLen(chunks, n) + if i < n then |data| else 0
    decreases n
  {
    if n > 0 {
      SumLenPut(chunks, i, data, n - 1);
    }
  }

  lemma {:induction false} SumLenEmpty(n: nat)
    ensures SumLen(map[], n) == 0
    decreases n
  {
    if n > 0 {
      SumLenEmpty(n - 1);
    }
  }

  lemma {:induction false} SumLenDrawn(chunks: Chunks, p: seq<seq<Byte>>, n: nat, missing: nat)
    requires Drawn(chunks, p) && n <= |p| && missing !in chunks
    ensures SumLen(chunks, n) + (if missing < n then |p[missing]| else 0) <= |Flatten(p[..n])|
    decreases n
  {
    if n > 0 {
      SumLenDrawn(chunks, p, n - 1, missing);
      assert p[..n][..n - 1] == p[..n - 1];
    }
  }

  lemma {:induction false} SumLenCapped(chunks: Chunks, n: nat, missing: nat, size: nat)
    requires missing !in chunks && forall i :: i in chunks ==> |chunks[i]| <= size
    ensures SumLen(chunks, n) + (if missing < n then size else 0) <= n * size
    decreases n
  {
    if n > 0 {
      SumLenCapped(chunks, n - 1, missing, size);
      assert (n - 1) * size + size == n * size;
    }
  }

  lemma {:induction false} JoinedDrawn(chunks: Chunks, p: seq<seq<Byte>>, n: nat)
    requires Drawn(chunks, p) && n <= |p| && Covers(chunks, n)
    ensures Joined(chunks, n) == Flatten(p[..n])
    decreases n
  {
    if n > 0 {
      JoinedDrawn(chunks, p, n - 1);
      assert p[..n][..n - 1] == p[..n - 1];
    }
  }

  lemma {:induction false} JoinedLen(chunks: Chunks, n: nat)
    requires Covers(chunks, n)
    ensures |Joined(chunks, n)| == SumLen(chunks, n)
    decreases n
  {
    if n > 0 {
      JoinedLen(chunks, n - 1);
    }
  }

  /** A full table of a blob's pieces joins to the blob. */
  lemma {:induction false} JoinedIsBlob(chunks: Chunks, b: seq<Byte>, size: nat)
    requires size > 0 && Drawn(chunks, Split(b, size)) && Covers(chunks, |Split(b, size)|)
    ensures Joined(chunks, |Split(b, size)|) == b
  {
    var p := Split(b, size);
    JoinedDrawn(chunks, p, |p|);
    assert p[..|p|] == p;
    SplitFlattens(b, size);
  }

  // ---- counting ----

  /** Every index below `n` is there. */
  predicate Full(have: set<nat>, n: nat) { forall i :: 0 <= i < n ==> i in have }

  lemma {:induction false} RangeCard(s: set<nat>, n: nat)
    requires forall i :: i in s ==> i < n
    ensures |s| <= n
    ensures |s| == n <==> forall i :: 0 <= i < n ==> i in s
    decreases n
  {
    if n > 0 {
      var less := s - {n - 1};
      RangeCard(less, n - 1);
      if n - 1 in s {
        assert |s| == |less| + 1;
        assert (forall i :: 0 <= i < n ==> i in s) <==> (forall i :: 0 <= i < n - 1 ==> i in less) by {
          if forall i :: 0 <= i < n - 1 ==> i in less {
            forall i | 0 <= i < n ensures i in s {
              assert i < n - 1 ==> i in less;
            }
          }
        }
      } else {
        assert s == less;
        assert 0 <= n - 1 < n;
      }
    } else {
      assert s == {};
    }
  }

  /** With every index below `n`, the table covers `n` exactly when it holds `n` chunks. */
  lemma CoversIffCount(chunks: Chunks, n: nat)
    requires forall i :: i in chunks ==> i < n
    ensures |chunks| == n <==> Covers(chunks, n)
    ensures |chunks| <= n
  {
    assert |chunks| == |chunks.Keys|;
    RangeCard(chunks.Keys, n);
    if Covers(chunks, n) {
      assert forall i :: 0 <= i < n ==> i in chunks.Keys;
    }
  }
}
