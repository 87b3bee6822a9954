/** Inbound attachments: stored chunks, the completion bitmap, orphans and reassembly. */
module AttachStore {
  import opened Bytes
  import opened Pieces
  import opened AttachPlan

  /** Chunk indices are 16-bit. */
  const INDEX_LIMIT: nat := 0x1_0000
  const MAX_ORPHAN_CHUNKS_PER_HEAD: nat := 1024
  const MAX_ORPHAN_BYTES_PER_HEAD: nat := 25 * 1024 * 1024
  const MAX_ORPHAN_CHUNKS_PER_REL: nat := 4096
  const MAX_ORPHAN_BYTES_PER_REL: nat := 64 * 1024 * 1024

  datatype ChunkRow = ChunkRow(head: Id16, index: U16, data: seq<Byte>)

  datatype Row = Row(n: nat, count: U16, sha: seq<Byte>, bitmap: seq<bv8>, complete: bool, consumed: bool)

  /** The chunk table in row order, and the attachment rows of one relationship. */
  datatype Store = Store(chunks: seq<ChunkRow>, rows: map<Id16, Row>)

  datatype Event =
    | Complete(head: Id16)
    | Failed(head: Id16)
    | Dropped(head: Id16)
    | Progress(head: Id16, received: nat, total: nat)

  /** The store afterwards, the events raised, and whether the handler returned an error. */
  datatype Outcome = Outcome(store: Store, events: seq<Event>, ok: bool)

  // ---- the chunk table ----

  function ChunksOf(chunks: seq<ChunkRow>, head: Id16): Chunks {
    if chunks == [] then map[] else
    var m := ChunksOf(chunks[..|chunks| - 1], head);
    var r := chunks[|chunks| - 1];
    if r.head == head then m[r.index as nat := r.data] else m
  }

  /** A row the statistics query counts: of one head, or of any head without a row. */
  predicate Counted(r: ChunkRow, rows: map<Id16, Row>, only: Option<Id16>) {
    match only case Some(head) => r.head == head case None => r.head !in rows
  }

  function Count(chunks: seq<ChunkRow>, rows: map<Id16, Row>, only: Option<Id16>): nat {
    if chunks == [] then 0 else
    Count(chunks[..|chunks| - 1], rows, only) + if Counted(chunks[|chunks| - 1], rows, only) then 1 else 0
  }

  function Size(chunks: seq<ChunkRow>, rows: map<Id16, Row>, only: Option<Id16>): nat {
    if chunks == [] then 0 else
    var r := chunks[|chunks| - 1];
    Size(chunks[..|chunks| - 1], rows, only) + if Counted(r, rows, only) then |r.data| else 0
  }

  function Without(chunks: seq<ChunkRow>, head: Id16): seq<ChunkRow> {
    if chunks == [] then [] else
    var front := Without(chunks[..|chunks| - 1], head);
    var r := chunks[|chunks| - 1];
    if r.head == head then front else front + [r]
  }

  /** The chunks held, in index order. */
  function StoredList(c: Chunks, n: nat): seq<seq<Byte>> {
    if n == 0 then [] else StoredList(c, n - 1) + if n - 1 in c then [c[n - 1]] else []
  }

  function Stored(s: Store, head: Id16): seq<seq<Byte>> {
    StoredList(ChunksOf(s.chunks, head), INDEX_LIMIT)
  }

  /** A second chunk for an index must carry the same bytes. */
  predicate Conflicts(s: Store, head: Id16, index: U16, data: seq<Byte>) {
    var c := ChunksOf(s.chunks, head);
    index in c && c[index] != data
  }

  function PutChunk(s: Store, head: Id16, index: U16, data: seq<Byte>): Store {
    if index in ChunksOf(s.chunks, head) then s
    else s.(chunks := s.chunks + [ChunkRow(head, index, data)])
  }

  // ---- the bitmap ----

  function BitCount(b: bv8, k: nat): nat
    requires k <= 8
  {
    if k == 0 then 0 else BitCount(b, k - 1) + if BitOfByte(b, k - 1) then 1 else 0
  }

  function Ones(b: bv8): nat { BitCount(b, 8) }

  function PopCount(bitmap: seq<bv8>): nat {
    if bitmap == [] then 0 else PopCount(bitmap[..|bitmap| - 1]) + Ones(bitmap[|bitmap| - 1])
  }

  function Need(count: nat): nat { (count + 7) / 8 }

  function Resized(bitmap: seq<bv8>, need: nat): (r: seq<bv8>)
    ensures |r| == need
  {
    if need <= |bitmap| then bitmap[..need] else bitmap + seq(need - |bitmap|, _ => 0)
  }

  function Noted(row: Row, index: U16): Row
    requires index < row.count
  {
    row.(bitmap := SetBit(Resized(row.bitmap, Need(row.count)), index))
  }

  /** The low `k` bits. */
  function LowBits(k: nat): bv8
    requires k < 8
  {
    if k == 0 then 0 else if k == 1 then 1 else if k == 2 then 3 else if k == 3 then 7
    else if k == 4 then 15 else if k == 5 then 31 else if k == 6 then 63 else 127
  }

  function FullBitmap(count: nat): seq<bv8> {
    var all := seq(Need(count), _ => 255);
    if count % 8 == 0 then all else all[Need(count) - 1 := LowBits(count % 8)]
  }

  // ---- the handlers ----

  function TryComplete(s: Store, head: Id16, hash: Hash): Outcome {
    if head !in s.rows || s.rows[head].complete || |Stored(s, head)| < s.rows[head].count then Outcome(s, [], true) else
    var row, bytes := s.rows[head], Flatten(Stored(s, head));
    if |bytes| != row.n || hash(bytes) != row.sha then
      Outcome(Store(Without(s.chunks, head), s.rows - {head}), [Failed(head)], true)
    else
      Outcome(s.(rows := s.rows[head := row.(bitmap := FullBitmap(row.count), complete := true)]), [Complete(head)], true)
  }

  datatype Head = Head(id: Id16, n: nat, count: U16, sha: seq<Byte>, inline: Option<seq<Byte>>)

  function OnHead(s: Store, h: Head, allowed: bool, hash: Hash): Outcome {
    if !allowed || h.id in s.rows then Outcome(s, [], true) else
    var row := Row(h.n, h.count, h.sha, [], false, false);
    var s1 := s.(rows := s.rows[h.id := row]);
    if h.inline.None? then TryComplete(s1, h.id, hash)
    else if hash(h.inline.value) != h.sha then Outcome(s1.(rows := s1.rows - {h.id}), [Failed(h.id)], true)
    else if Conflicts(s1, h.id, 0, h.inline.value) then Outcome(s1, [], false)
    else
      var s2 := PutChunk(s1, h.id, 0, h.inline.value);
      Outcome(s2.(rows := s2.rows[h.id := row.(complete := true)]), [Complete(h.id)], true)
  }

  datatype Chunk = Chunk(head: Id16, index: U16, pad: bool, data: seq<Byte>)

  /** The orphan caps, per head and per relationship. */
  predicate OverOrphanCaps(s: Store, c: Chunk) {
    || Count(s.chunks, s.rows, Some(c.head)) >= MAX_ORPHAN_CHUNKS_PER_HEAD
    || Size(s.chunks, s.rows, Some(c.head)) + |c.data| > MAX_ORPHAN_BYTES_PER_HEAD
    || Count(s.chunks, s.rows, None) >= MAX_ORPHAN_CHUNKS_PER_REL
    || Size(s.chunks, s.rows, None) + |c.data| > MAX_ORPHAN_BYTES_PER_REL
  }

  predicate Refused(s: Store, c: Chunk) {
    if c.head in s.rows then c.index >= s.rows[c.head].count else OverOrphanCaps(s, c)
  }

  /** A chunk for a known head: stored, and its bit set. */
  function Received(s: Store, c: Chunk): Store
    requires c.head in s.rows && c.index < s.rows[c.head].count
  {
    var s1 := PutChunk(s, c.head, c.index, c.data);
    s1.(rows := s1.rows[c.head := Noted(s1.rows[c.head], c.index)])
  }

  function OnChunk(s: Store, c: Chunk, hash: Hash): Outcome {
    if c.pad then Outcome(s, [], true)
    else if Refused(s, c) then Outcome(s, [Dropped(c.head)], true)
    else if Conflicts(s, c.head, c.index, c.data) then Outcome(s, [], false)
    else if c.head !in s.rows then Outcome(PutChunk(s, c.head, c.index, c.data), [], true)
    else Advance(Received(s, c), c.head, hash)
  }

  /** Completion is only tried on a full bitmap; before that the client sees progress. */
  function Advance(s: Store, head: Id16, hash: Hash): Outcome
    requires head in s.rows
  {
    var row := s.rows[head];
    if PopCount(row.bitmap) >= row.count then TryComplete(s, head, hash)
    else Outcome(s, [Progress(head, PopCount(row.bitmap), row.count)], true)
  }

  /** The reassembled bytes for the client. */
  function BytesOf(s: Store, head: Id16): Option<seq<Byte>> {
    if head !in s.rows || !s.rows[head].complete || s.rows[head].consumed || Stored(s, head) == [] then None
    else Some(Flatten(Stored(s, head)))
  }

  // ---- facts about the tables ----

  lemma {:induction false} ChunksOfAppend(chunks: seq<ChunkRow>, r: ChunkRow, head: Id16)
    ensures ChunksOf(chunks + [r], head)
         == if r.head == head then ChunksOf(chunks, head)[r.index as nat := r.data] else ChunksOf(chunks, head)
  {
    assert (chunks + [r])[..|chunks|] == chunks;
  }

  lemma {:induction false} StatsAppend(chunks: seq<ChunkRow>, r: ChunkRow, rows: map<Id16, Row>, only: Option<Id16>)
    ensures Count(chunks + [r], rows, only) == Count(chunks, rows, only) + (if Counted(r, rows, only) then 1 else 0)
    ensures Size(chunks + [r], rows, only) == Size(chunks, rows, only) + (if Counted(r, rows, only) then |r.data| else 0)
  {
    assert (chunks + [r])[..|chunks|] == chunks;
  }

  lemma {:induction false} IndicesBelowLimit(chunks: seq<ChunkRow>, head: Id16)
    ensures forall i :: i in ChunksOf(chunks, head) ==> i < INDEX_LIMIT
    decreases |chunks|
  {
    if chunks != [] {
      IndicesBelowLimit(chunks[..|chunks| - 1], head);
    }
  }

  lemma {:induction false} StoredCount(c: Chunks, n: nat)
    ensures |StoredList(c, n)| == |set i | i in c && i < n|
    decreases n
  {
    var below := set i | i in c && i < n;
    if n == 0 {
      assert below == {};
    } else {
      StoredCount(c, n - 1);
      var before := set i | i in c && i < n - 1;
      if n - 1 in c {
        assert below == before + {n - 1};
      } else {
        assert below == before;
      }
    }
  }

  /** As many rows as indices held. */
  lemma {:induction false} StoredLen(s: Store, head: Id16)
    ensures |Stored(s, head)| == |ChunksOf(s.chunks, head)|
  {
    var c := ChunksOf(s.chunks, head);
    IndicesBelowLimit(s.chunks, head);
    StoredCount(c, INDEX_LIMIT);
    assert (set i | i in c && i < INDEX_LIMIT) == c.Keys;
  }

  lemma {:induction false} StoredDense(c: Chunks, p: seq<seq<Byte>>, n: nat)
    requires Drawn(c, p) && Covers(c, |p|)
    ensures StoredList(c, n) == if n <= |p| then p[..n] else p
    decreases n
  {
    if n > 0 {
      StoredDense(c, p, n - 1);
      if n <= |p| {
        assert p[..n] == p[..n - 1] + [p[n - 1]];
      } else {
        assert p[..|p|] == p;
      }
    }
  }

  // ---- facts about the bitmap ----

  function BitsSet(bitmap: seq<bv8>, n: nat): nat {
    if n == 0 then 0 else BitsSet(bitmap, n - 1) + if Bit(bitmap, n - 1) then 1 else 0
  }

  lemma {:induction false} ByteBits(bitmap: seq<bv8>, i: nat, k: nat)
    requires i < |bitmap| && k <= 8
    ensures BitsSet(bitmap, 8 * i + k) == BitsSet(bitmap, 8 * i) + BitCount(bitmap[i], k)
    decreases k
  {
    if k > 0 {
      ByteBits(bitmap, i, k - 1);
      assert (8 * i + k - 1) / 8 == i && (8 * i + k - 1) % 8 == k - 1;
    }
  }

  lemma {:induction false} PrefixBits(bitmap: seq<bv8>, m: nat, n: nat)
    requires m <= |bitmap| && n <= 8 * m
    ensures BitsSet(bitmap[..m], n) == BitsSet(bitmap, n)
    decreases n
  {
    if n > 0 {
      PrefixBits(bitmap, m, n - 1);
    }
  }

  lemma {:induction false} PopCountIsBits(bitmap: seq<bv8>)
    ensures PopCount(bitmap) == BitsSet(bitmap, 8 * |bitmap|)
    decreases |bitmap|
  {
    if bitmap != [] {
      var m := |bitmap| - 1;
      PopCountIsBits(bitmap[..m]);
      PrefixBits(bitmap, m, 8 * m);
      ByteBits(bitmap, m, 8);
    }
  }

  lemma {:induction false} BitsSetBound(bitmap: seq<bv8>, n: nat)
    ensures BitsSet(bitmap, n) <= n
    ensures BitsSet(bitmap, n) == n <==> forall j :: 0 <= j < n ==> Bit(bitmap, j)
    decreases n
  {
    if n > 0 {
      BitsSetBound(bitmap, n - 1);
      if Bit(bitmap, n - 1) {
        if forall j :: 0 <= j < n - 1 ==> Bit(bitmap, j) {
          forall j | 0 <= j < n ensures Bit(bitmap, j) {
            assert j < n - 1 || j == n - 1;
          }
        }
      } else {
        assert 0 <= n - 1 < n;
      }
    }
  }

  ghost function SetBits(bitmap: seq<bv8>, n: nat): set<nat> {
    set j | 0 <= j < n && Bit(bitmap, j)
  }

  lemma {:induction false} BitsSetCard(bitmap: seq<bv8>, n: nat)
    ensures BitsSet(bitmap, n) == |SetBits(bitmap, n)|
    decreases n
  {
    if n == 0 {
      assert SetBits(bitmap, 0) == {};
    } else {
      BitsSetCard(bitmap, n - 1);
      assert SetBits(bitmap, n) == SetBits(bitmap, n - 1) + if Bit(bitmap, n - 1) then {n - 1} else {};
    }
  }

  lemma {:induction false} BitsSetTail(bitmap: seq<bv8>, count: nat, n: nat)
    requires count <= n && forall j: nat :: Bit(bitmap, j) ==> j < count
    ensures BitsSet(bitmap, n) == BitsSet(bitmap, count)
    decreases n
  {
    if count < n {
      BitsSetTail(bitmap, count, n - 1);
    }
  }

  /** The population count reaches the chunk count exactly when every bit below it is set. */
  lemma {:induction false} PopCountFull(bitmap: seq<bv8>, count: nat)
    requires |bitmap| == Need(count) && forall j: nat :: Bit(bitmap, j) ==> j < count
    ensures PopCount(bitmap) >= count <==> forall j :: 0 <= j < count ==> Bit(bitmap, j)
  {
    PopCountIsBits(bitmap);
    BitsSetTail(bitmap, count, 8 * |bitmap|);
    BitsSetBound(bitmap, count);
  }

  lemma ResizedBits(bitmap: seq<bv8>, need: nat)
    requires |bitmap| <= need
    ensures forall j: nat :: Bit(Resized(bitmap, need), j) <==> Bit(bitmap, j)
  {
    forall j: nat ensures Bit(Resized(bitmap, need), j) <==> Bit(bitmap, j) {
      ZeroByte(j % 8);
    }
  }

  lemma ZeroByte(k: nat)
    requires k < 8
    ensures !BitOfByte(0, k)
  {
  }

  lemma LowBitsSpec(k: nat, j: nat)
    requires k < 8 && j < 8
    ensures BitOfByte(LowBits(k), j) <==> j < k
    ensures BitOfByte(255, j)
  {
  }

  lemma FullBitmapSpec(count: nat)
    ensures |FullBitmap(count)| == Need(count)
    ensures forall j: nat :: Bit(FullBitmap(count), j) <==> j < count
  {
    forall j: nat ensures Bit(FullBitmap(count), j) <==> j < count {
      LowBitsSpec(count % 8, j % 8);
    }
  }

  lemma {:induction false} WithoutHead(chunks: seq<ChunkRow>, gone: Id16, head: Id16)
    ensures ChunksOf(Without(chunks, gone), head) == if head == gone then map[] else ChunksOf(chunks, head)
    decreases |chunks|
  {
    if chunks != [] {
      var front, r := chunks[..|chunks| - 1], chunks[|chunks| - 1];
      WithoutHead(front, gone, head);
      if r.head != gone {
        ChunksOfAppend(Without(front, gone), r, head);
      }
    }
  }

  lemma {:induction false} StoredSize(c: Chunks, n: nat)
    ensures |Flatten(StoredList(c, n))| == SumLen(c, n)
    decreases n
  {
    if n > 0 {
      StoredSize(c, n - 1);
      var front := StoredList(c, n - 1);
      if n - 1 in c {
        assert (front + [c[n - 1]])[..|front|] == front;
      } else {
        assert front + [] == front;
      }
    }
  }

  // ---- the tables as an object ----

  method CountOnes(bitmap: seq<bv8>) returns (n: nat)
    ensures n == PopCount(bitmap)
  {
    n := 0;
    for i := 0 to |bitmap|
      invariant n == PopCount(bitmap[..i])
    {
      assert bitmap[..i + 1][..i] == bitmap[..i];
      n := n + Ones(bitmap[i]);
    }
    assert bitmap[..|bitmap|] == bitmap;
  }

  method Concat(stored: seq<seq<Byte>>) returns (bytes: seq<Byte>)
    ensures bytes == Flatten(stored)
  {
    bytes := [];
    for i := 0 to |stored|
      invariant bytes == Flatten(stored[..i])
    {
      assert stored[..i + 1][..i] == stored[..i];
      bytes := bytes + stored[i];
    }
    assert stored[..|stored|] == stored;
  }

  class AttachmentTables {
    var chunks: seq<ChunkRow>
    var rows: map<Id16, Row>

    ghost function State(): Store reads this { Store(chunks, rows) }

    constructor ()
      ensures State() == Store([], map[])
    {
      chunks, rows := [], map[];
    }

    /** Re-puts of the same bytes are idempotent; a rewrite is refused. */
    method Put(head: Id16, index: U16, data: seq<Byte>) returns (ok: bool)
      modifies this`chunks
      ensures ok <==> !Conflicts(old(State()), head, index, data)
      ensures State() == if ok then PutChunk(old(State()), head, index, data) else old(State())
    {
      var existing := ChunksOf(chunks, head);
      if index in existing {
        return existing[index] == data;
      }
      chunks := chunks + [ChunkRow(head, index, data)];
      return true;
    }

    /** Marks a chunk done; tells whether that filled the bitmap, or nothing for an unknown head or index. */
    method Note(head: Id16, index: U16) returns (done: Option<bool>)
      modifies this`rows
      ensures if head !in old(rows) || index >= old(rows)[head].count then done == None && rows == old(rows)
        else && rows == old(rows)[head := Noted(old(rows)[head], index)]
             && done == Some(PopCount(rows[head].bitmap) >= rows[head].count)
    {
      if head !in rows {
        return None;
      }
      var row := rows[head];
      if index >= row.count {
        return None;
      }
      var bitmap := SetBit(Resized(row.bitmap, Need(row.count)), index);
      var ones := CountOnes(bitmap);
      rows := rows[head := row.(bitmap := bitmap)];
      return Some(ones >= row.count);
    }

    /** Reassemble and verify once every chunk is in; a mismatch erases the transfer. */
    method Finish(head: Id16, hash: Hash) returns (events: seq<Event>)
      modifies this
      ensures Outcome(State(), events, true) == TryComplete(old(State()), head, hash)
    {
      if head !in rows {
        return [];
      }
      var row := rows[head];
      if row.complete {
        return [];
      }
      var stored := StoredList(ChunksOf(chunks, head), INDEX_LIMIT);
      if |stored| < row.count {
        return [];
      }
      var bytes := Concat(stored);
      if |bytes| != row.n || hash(bytes) != row.sha {
        chunks := Without(chunks, head);
        rows := rows - {head};
        return [Failed(head)];
      }
      var need := (row.count + 7) / 8;
      var bitmap: seq<bv8> := seq(need, _ => 255);
      if row.count % 8 != 0 {
        bitmap := bitmap[need - 1 := LowBits(row.count % 8)];
      }
      rows := rows[head := row.(bitmap := bitmap, complete := true)];
      return [Complete(head)];
    }

    method HandleHead(h: Head, allowed: bool, hash: Hash) returns (events: seq<Event>, ok: bool)
      modifies this
      ensures Outcome(State(), events, ok) == OnHead(old(State()), h, allowed, hash)
    {
      if !allowed {
        return [], true;
      }
      if h.id in rows {
        return [], true;
      }
      var row := Row(h.n, h.count, h.sha, [], false, false);
      rows := rows[h.id := row];
      if h.inline.Some? {
        var bytes := h.inline.value;
        if hash(bytes) != h.sha {
          rows := rows - {h.id};
          return [Failed(h.id)], true;
        }
        var stored := Put(h.id, 0, bytes);
        if !stored {
          return [], false;
        }
        rows := rows[h.id := row.(complete := true)];
        return [Complete(h.id)], true;
      }
      events := Finish(h.id, hash);
      return events, true;
    }

    method HandleChunk(c: Chunk, hash: Hash) returns (events: seq<Event>, ok: bool)
      modifies this
      ensures Outcome(State(), events, ok) == OnChunk(old(State()), c, hash)
    {
      if c.pad {
        return [], true;
      }
      if c.head !in rows {
        if OverOrphanCaps(Store(chunks, rows), c) {
          return [Dropped(c.head)], true;
        }
      } else if c.index >= rows[c.head].count {
        return [Dropped(c.head)], true;
      }
      var stored := Put(c.head, c.index, c.data);
      if !stored {
        return [], false;
      }
      var done := Note(c.head, c.index);
      if done == None {
        return [], true;
      }
      if done.value {
        events := Finish(c.head, hash);
      } else {
        var received := CountOnes(rows[c.head].bitmap);
        events := [Progress(c.head, received, rows[c.head].count)];
      }
      return events, true;
    }

    method AttachmentBytes(head: Id16) returns (r: Option<seq<Byte>>)
      ensures r == BytesOf(State(), head)
    {
      if head !in rows {
        return None;
      }
      var row := rows[head];
      if !row.complete || row.consumed {
        return None;
      }
      var stored := StoredList(ChunksOf(chunks, head), INDEX_LIMIT);
      if stored == [] {
        return None;
      }
      var bytes := Concat(stored);
      return Some(bytes);
    }
  }
}
