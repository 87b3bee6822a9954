/** The receive view: the set of inbound sequence numbers, compressed to a contiguous
    horizon and a 4096-bit repair bitmap. */
module ReceiveView {
  import opened Bytes

  const BITMAP_BITS: nat := 4096
  const MAX_BITMAP_BYTES: nat := 512
  const VIEW_SCAN_LIMIT: nat := 65_536

  datatype View = View(max: nat, bitmap: seq<bv8>)

  ghost predicate Ascending(rows: seq<nat>) {
    forall i, j :: 0 <= i < j < |rows| ==> rows[i] < rows[j]
  }

  /** `rows` answers the query over the seen table: ascending, at most VIEW_SCAN_LIMIT rows,
      nothing below the last row left out. */
  ghost predicate IsScan(seen: set<nat>, rows: seq<nat>) {
    && Ascending(rows)
    && |rows| <= VIEW_SCAN_LIMIT
    && (forall q :: q in rows ==> q in seen)
    && (forall q :: q in seen ==> q in rows || (|rows| == VIEW_SCAN_LIMIT && rows[|rows| - 1] < q))
  }

  /** What a view says about the scanned rows. A row 0 is folded into bit 0 and stops the
      horizon at 0. */
  ghost predicate Summarises(rows: seq<nat>, v: View) {
    && (if 0 in rows then v.max == 0
        else (forall q :: 1 <= q <= v.max ==> q in rows) && v.max + 1 !in rows)
    && (forall o: nat :: Bit(v.bitmap, o) <==>
          o < BITMAP_BITS && (v.max + 1 + o in rows || (o == 0 && 0 in rows)))
    && |v.bitmap| <= MAX_BITMAP_BYTES
    && (v.bitmap != [] ==> v.bitmap[|v.bitmap| - 1] != 0)
  }

  ghost predicate IsReceiveView(seen: set<nat>, v: View) {
    exists rows :: IsScan(seen, rows) && Summarises(rows, v)
  }

  predicate IsMissing(max: nat, bitmap: seq<bv8>, appSeq: nat) {
    if appSeq == 0 || appSeq <= max then appSeq == 0
    else
      var offset := appSeq - max - 1;
      offset >= BITMAP_BITS || !Bit(bitmap, offset)
  }

  predicate OpensGap(v: View, appSeq: nat) {
    appSeq > 1 && appSeq > v.max + 1
  }

  ghost predicate IsHorizon(seen: set<nat>, h: nat) {
    (forall q :: 1 <= q <= h ==> q in seen) && h + 1 !in seen
  }

  // ---- building the view ----

  lemma MinExists(s: set<nat>) returns (m: nat)
    requires s != {}
    ensures m in s && forall x :: x in s ==> m <= x
  {
    var y :| y in s;
    if s == {y} {
      m := y;
    } else {
      var m' := MinExists(s - {y});
      m := if m' < y then m' else y;
      assert forall x :: x in s ==> x == y || x in s - {y};
    }
  }

  lemma AppendAscends(rows: seq<nat>, m: nat)
    requires Ascending(rows) && forall q :: q in rows ==> q < m
    ensures Ascending(rows + [m])
  {
    assert forall i :: 0 <= i < |rows| ==> rows[i] in rows;
  }

  method SelectSeqs(seen: set<nat>) returns (rows: seq<nat>)
    ensures IsScan(seen, rows)
  {
    rows := [];
    var rest := seen;
    while rest != {} && |rows| < VIEW_SCAN_LIMIT
      invariant rest <= seen && |rows| <= VIEW_SCAN_LIMIT
      invariant Ascending(rows)
      invariant forall q :: q in seen <==> q in rest || q in rows
      invariant forall q, r :: q in rows && r in rest ==> q < r
      decreases |rest|
    {
      ghost var w := MinExists(rest);
      var m :| m in rest && forall x :: x in rest ==> m <= x;
      rest := rest - {m};
      assert forall q :: q in rows + [m] <==> q in rows || q == m;
      AppendAscends(rows, m);
      rows := rows + [m];
    }
    assert rows != [] ==> rows[|rows| - 1] in rows;
  }

  /** Saturating distance of a row above the horizon. */
  function Offset(max: nat, row: nat): nat {
    if row > max then row - (max + 1) else 0
  }

  lemma TruncateKeepsBits(bitmap: seq<bv8>, n: nat)
    requires n <= |bitmap|
    requires forall o: nat :: Bit(bitmap, o) ==> o / 8 < n
    ensures forall o: nat :: Bit(bitmap[..n], o) <==> Bit(bitmap, o)
  {
  }

  /** Some row in `rows[start..stop]` sits at offset `o` above the horizon. */
  ghost predicate Marked(rows: seq<nat>, max: nat, start: nat, stop: nat, o: nat)
    requires start <= stop <= |rows|
  {
    exists k :: start <= k < stop && Offset(max, rows[k]) == o
  }

  /** The bits of the bitmap are the offsets of the rows. */
  ghost predicate Shows(bitmap: seq<bv8>, rows: seq<nat>, max: nat, start: nat, stop: nat)
    requires start <= stop <= |rows|
  {
    forall o: nat :: Bit(bitmap, o) <==> Marked(rows, max, start, stop, o)
  }

  lemma MarkedStep(rows: seq<nat>, max: nat, start: nat, i: nat, o: nat)
    requires start <= i < |rows|
    ensures Marked(rows, max, start, i + 1, o) <==> Marked(rows, max, start, i, o) || o == Offset(max, rows[i])
  {
  }

  lemma MarkOne(bitmap: seq<bv8>, rows: seq<nat>, max: nat, start: nat, i: nat)
    requires start <= i < |rows| && Offset(max, rows[i]) / 8 < |bitmap| && Shows(bitmap, rows, max, start, i)
    ensures Shows(SetBit(bitmap, Offset(max, rows[i])), rows, max, start, i + 1)
  {
    SetBitSpec(bitmap, Offset(max, rows[i]));
    forall o: nat
      ensures Bit(SetBit(bitmap, Offset(max, rows[i])), o) <==> Marked(rows, max, start, i + 1, o)
    {
      MarkedStep(rows, max, start, i, o);
    }
  }

  /** Cutting the bitmap after the byte of the last row loses nothing and ends it on a set bit. */
  lemma TrimKeeps(bitmap: seq<bv8>, rows: seq<nat>, max: nat, start: nat, stop: nat)
    requires Ascending(rows) && start < stop <= |rows| && Shows(bitmap, rows, max, start, stop)
    requires Offset(max, rows[stop - 1]) / 8 < |bitmap|
    ensures
      var kept := Offset(max, rows[stop - 1]) / 8 + 1;
      Shows(bitmap[..kept], rows, max, start, stop) && bitmap[kept - 1] != 0
  {
    var last := Offset(max, rows[stop - 1]);
    assert Marked(rows, max, start, stop, last);
    forall o: nat | Bit(bitmap, o) ensures o / 8 < last / 8 + 1 {
      var k :| start <= k < stop && Offset(max, rows[k]) == o;
      assert k < stop - 1 ==> rows[k] < rows[stop - 1];
    }
    TruncateKeepsBits(bitmap, last / 8 + 1);
  }

  method WalkHorizon(rows: seq<nat>) returns (max: nat)
    requires Ascending(rows)
    ensures max <= |rows| && forall k :: 0 <= k < max ==> rows[k] == k + 1
    ensures max < |rows| ==> rows[max] != max + 1
  {
    max := 0;
    var i := 0;
    while i < |rows| && rows[i] == max + 1
      invariant i == max <= |rows|
      invariant forall k :: 0 <= k < i ==> rows[k] == k + 1
    {
      max := rows[i];
      i := i + 1;
    }
  }

  method MarkRows(rows: seq<nat>, max: nat, start: nat) returns (bitmap: seq<bv8>, last: Option<nat>, ghost stop: nat)
    requires Ascending(rows) && start <= |rows|
    ensures start <= stop <= |rows| && |bitmap| == MAX_BITMAP_BYTES && Shows(bitmap, rows, max, start, stop)
    ensures stop < |rows| ==> Offset(max, rows[stop]) >= BITMAP_BITS
    ensures forall k :: start <= k < stop ==> Offset(max, rows[k]) < BITMAP_BITS
    ensures last == if stop == start then None else Some(Offset(max, rows[stop - 1]))
  {
    bitmap := seq(MAX_BITMAP_BYTES, _ => 0);
    last := None;
    var i := start;
    while i < |rows| && Offset(max, rows[i]) < BITMAP_BITS
      invariant start <= i <= |rows| && |bitmap| == MAX_BITMAP_BYTES && Shows(bitmap, rows, max, start, i)
      invariant forall k :: start <= k < i ==> Offset(max, rows[k]) < BITMAP_BITS
      invariant last == if i == start then None else Some(Offset(max, rows[i - 1]))
    {
      var offset := Offset(max, rows[i]);
      MarkOne(bitmap, rows, max, start, i);
      bitmap := SetBit(bitmap, offset);
      last := Some(offset);
      i := i + 1;
    }
    stop := i;
  }

  method MarkWindow(rows: seq<nat>, max: nat, start: nat) returns (bitmap: seq<bv8>, ghost stop: nat)
    requires Ascending(rows) && start <= |rows|
    ensures start <= stop <= |rows| && |bitmap| <= MAX_BITMAP_BYTES
    ensures stop < |rows| ==> Offset(max, rows[stop]) >= BITMAP_BITS
    ensures forall k :: start <= k < stop ==> Offset(max, rows[k]) < BITMAP_BITS
    ensures Shows(bitmap, rows, max, start, stop)
    ensures bitmap != [] ==> bitmap[|bitmap| - 1] != 0
  {
    var last;
    bitmap, last, stop := MarkRows(rows, max, start);
    if last.None? {
      return [], stop;
    }
    TrimKeeps(bitmap, rows, max, start, stop);
    bitmap := bitmap[..last.value / 8 + 1];
  }

  method BuildView(rows: seq<nat>) returns (v: View)
    requires Ascending(rows)
    ensures Summarises(rows, v)
  {
    var max := WalkHorizon(rows);
    var bitmap, stop := MarkWindow(rows, max, max);
    v := View(max, bitmap);
    WindowCovered(rows, max, stop, v);
  }

  lemma WindowCovered(rows: seq<nat>, max: nat, stop: nat, v: View)
    requires Ascending(rows) && max <= stop <= |rows|
    requires forall k :: 0 <= k < max ==> rows[k] == k + 1
    requires max < |rows| ==> rows[max] != max + 1
    requires stop < |rows| ==> Offset(max, rows[stop]) >= BITMAP_BITS
    requires forall k :: max <= k < stop ==> Offset(max, rows[k]) < BITMAP_BITS
    requires v.max == max
    requires Shows(v.bitmap, rows, max, max, stop)
    ensures if 0 in rows then max == 0 else max + 1 !in rows && forall q :: 1 <= q <= max ==> q in rows
    ensures forall o: nat :: Bit(v.bitmap, o) <==>
              o < BITMAP_BITS && (max + 1 + o in rows || (o == 0 && 0 in rows))
  {
    forall q | 1 <= q <= max ensures q in rows {
      assert rows[q - 1] == q;
    }
    forall k | max <= k < |rows| ensures rows[k] > max + 1 || (k == 0 && rows[k] == 0) || k > max {
      if k > 0 {
        assert rows[k - 1] < rows[k];
      }
    }
    forall k | max < k < |rows| ensures rows[k] > max + 1 || (max == 0 && rows[0] == 0) {
      assert rows[max] < rows[k];
    }
    forall o: nat ensures Bit(v.bitmap, o) <==>
      o < BITMAP_BITS && (max + 1 + o in rows || (o == 0 && 0 in rows))
    {
      MarkedIffPresent(rows, max, stop, o);
    }
  }

  lemma MarkedIffPresent(rows: seq<nat>, max: nat, stop: nat, o: nat)
    requires Ascending(rows) && max <= stop <= |rows|
    requires forall k :: 0 <= k < max ==> rows[k] == k + 1
    requires max < |rows| ==> rows[max] != max + 1
    requires stop < |rows| ==> Offset(max, rows[stop]) >= BITMAP_BITS
    requires forall k :: max <= k < stop ==> Offset(max, rows[k]) < BITMAP_BITS
    ensures Marked(rows, max, max, stop, o) <==>
              o < BITMAP_BITS && (max + 1 + o in rows || (o == 0 && 0 in rows))
  {
    if o < BITMAP_BITS && max + 1 + o in rows {
      var k :| 0 <= k < |rows| && rows[k] == max + 1 + o;
      assert Offset(max, rows[k]) == o;
    }
    if o == 0 && 0 in rows {
      var k :| 0 <= k < |rows| && rows[k] == 0;
      assert Offset(max, rows[k]) == 0;
    }
    if Marked(rows, max, max, stop, o) {
      var k :| max <= k < stop && Offset(max, rows[k]) == o;
      assert rows[k] in rows;
      if max > 0 {
        assert rows[max - 1] < rows[k];
      }
    }
  }

  method ReceiveView(seen: set<nat>) returns (v: View)
    ensures IsReceiveView(seen, v)
  {
    var rows := SelectSeqs(seen);
    v := BuildView(rows);
  }

  // ---- the view refines the set ----

  /** A covered seq was received: the view never claims a seq outside the seen set, exactly
      when a noted seq 0 does not stand in for an absent seq 1. */
  lemma ViewSound(seen: set<nat>, v: View)
    requires IsReceiveView(seen, v)
    ensures (forall q: nat :: !IsMissing(v.max, v.bitmap, q) ==> q in seen) <==> (0 in seen ==> 1 in seen)
  {
    var rows :| IsScan(seen, rows) && Summarises(rows, v);
    if 0 in seen {
      ZeroIsScanned(seen, rows);
      assert Bit(v.bitmap, 0);
      assert !IsMissing(v.max, v.bitmap, 1);
    }
    if 0 in seen ==> 1 in seen {
      forall q: nat | !IsMissing(v.max, v.bitmap, q) ensures q in seen {
        if q > v.max {
          assert Bit(v.bitmap, q - v.max - 1);
        }
      }
    }
  }

  lemma ZeroIsScanned(seen: set<nat>, rows: seq<nat>)
    requires IsScan(seen, rows) && 0 in seen
    ensures 0 in rows
  {
  }

  lemma {:induction false} RowsAtLeast(rows: seq<nat>, k: nat)
    requires Ascending(rows) && 0 !in rows && k < |rows|
    ensures rows[k] >= k + 1
  {
    if k > 0 {
      RowsAtLeast(rows, k - 1);
      assert rows[k - 1] < rows[k];
    }
  }

  lemma {:induction false} PrefixIsContiguous(rows: seq<nat>, m: nat)
    requires Ascending(rows) && 0 !in rows
    requires forall q: nat :: 1 <= q <= m ==> q in rows
    ensures m <= |rows| && forall k :: 0 <= k < m ==> rows[k] == k + 1
  {
    if m > 0 {
      PrefixIsContiguous(rows, m - 1);
      assert m in rows;
      var k :| 0 <= k < |rows| && rows[k] == m;
      RowsAtLeast(rows, k);
      assert k >= m - 1;
    }
  }

  /** The horizon of the view is the horizon of the set, cut at the scan limit. */
  lemma ViewHorizon(seen: set<nat>, v: View, h: nat)
    requires IsReceiveView(seen, v) && 0 !in seen && IsHorizon(seen, h)
    ensures v.max == if h <= VIEW_SCAN_LIMIT then h else VIEW_SCAN_LIMIT
  {
    var rows :| IsScan(seen, rows) && Summarises(rows, v);
    PrefixIsContiguous(rows, v.max);
    assert v.max <= h;
    if v.max < h {
      assert v.max + 1 in seen;
      RowsAtLeast(rows, |rows| - 1);
      assert rows[|rows| - 1] < v.max + 1;
    }
  }

  ghost function SeenBelow(seen: set<nat>, q: nat): set<nat> {
    set p | p in seen && p < q
  }

  lemma ScannedBelow(seen: set<nat>, rows: seq<nat>, k: nat)
    requires IsScan(seen, rows) && k < |rows|
    ensures SeenBelow(seen, rows[k]) == RowSet(rows[..k])
  {
    forall p | p in SeenBelow(seen, rows[k]) ensures p in rows[..k] {
      assert rows[k] <= rows[|rows| - 1];
      var i :| 0 <= i < |rows| && rows[i] == p;
      assert rows[..k][i] == p;
    }
    assert forall i :: 0 <= i < k ==> rows[..k][i] == rows[i] && rows[i] in rows;
  }

  /** The scan reaches a noted seq exactly when fewer than VIEW_SCAN_LIMIT noted seqs lie below it. */
  lemma ScannedIff(seen: set<nat>, rows: seq<nat>, q: nat)
    requires IsScan(seen, rows) && q in seen
    ensures q in rows <==> |SeenBelow(seen, q)| < VIEW_SCAN_LIMIT
  {
    if q in rows {
      var k :| 0 <= k < |rows| && rows[k] == q;
      ScannedBelow(seen, rows, k);
      RowsAreDistinct(rows[..k]);
    } else {
      assert forall r :: r in rows ==> r <= rows[|rows| - 1];
      RowsAreDistinct(rows);
      SubsetSize(RowSet(rows), SeenBelow(seen, q));
    }
  }

  /** A received seq within 4096 of the horizon is covered if and only if fewer than VIEW_SCAN_LIMIT received
      seqs lie below it. */
  lemma ViewComplete(seen: set<nat>, v: View, q: nat)
    requires IsReceiveView(seen, v) && 0 !in seen
    requires q in seen && q <= v.max + BITMAP_BITS
    ensures !IsMissing(v.max, v.bitmap, q) <==> |SeenBelow(seen, q)| < VIEW_SCAN_LIMIT
  {
    var rows :| IsScan(seen, rows) && Summarises(rows, v);
    ScannedIff(seen, rows, q);
    assert 0 !in rows && q != 0;
    if q > v.max {
      assert Bit(v.bitmap, q - v.max - 1) <==> q in rows;
    }
  }

  ghost function RowSet(rows: seq<nat>): set<nat> {
    set r: nat | r in rows
  }

  lemma {:induction false} RowsAreDistinct(rows: seq<nat>)
    requires Ascending(rows)
    ensures |RowSet(rows)| == |rows|
  {
    if rows != [] {
      var init, last := rows[..|rows| - 1], rows[|rows| - 1];
      RowsAreDistinct(init);
      assert rows == init + [last];
      assert forall r: nat :: r in rows <==> r in init || r == last;
      assert RowSet(rows) == RowSet(init) + {last};
    }
  }

  lemma {:induction false} SubsetSize<T>(a: set<T>, b: set<T>)
    requires a <= b
    ensures |a| <= |b|
  {
    if a != {} {
      var x :| x in a;
      SubsetSize(a - {x}, b - {x});
    }
  }

  /** Gap detection is exact, for every seq, as long as the true horizon does not pass the
      scan limit; past it, gap-free seqs are reported as gaps. */
  lemma OpensGapExact(seen: set<nat>, v: View, h: nat)
    requires IsReceiveView(seen, v) && 0 !in seen && IsHorizon(seen, h)
    ensures (forall q: nat :: OpensGap(v, q) <==> exists p :: 1 <= p < q && p !in seen)
       <==> h <= VIEW_SCAN_LIMIT
  {
    ViewHorizon(seen, v, h);
    forall q: nat ensures OpensGap(v, q) ==> h <= VIEW_SCAN_LIMIT ==> exists p :: 1 <= p < q && p !in seen {
      assert h + 1 !in seen;
    }
    assert OpensGap(v, h + 1) <==> h > VIEW_SCAN_LIMIT;
  }

  ghost predicate IsFirstSeqs(seen: set<nat>, n: nat) {
    forall q :: q in seen <==> 1 <= q <= n
  }

  /** One contiguous seq past the limit is enough: with 1..65537 received, every view calls 65538 a gap. */
  lemma FalseGap(seen: set<nat>, v: View)
    requires IsFirstSeqs(seen, VIEW_SCAN_LIMIT + 1) && IsReceiveView(seen, v)
    ensures OpensGap(v, VIEW_SCAN_LIMIT + 2) && forall p :: 1 <= p < VIEW_SCAN_LIMIT + 2 ==> p in seen
  {
    ViewHorizon(seen, v, VIEW_SCAN_LIMIT + 1);
  }
}
