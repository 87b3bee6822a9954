/** A whole transfer: the planned chunks and the head, in any order and with any repeats. */
module AttachTransfer {
  import opened Bytes
  import opened Pieces
  import opened AttachWire
  import opened AttachPlan
  import opened AttachStore
  import opened AttachIntegrity

  function HeadOf(id: Id16, b: seq<Byte>, hash: Hash): Head
    requires INLINE_MAX < |b| <= MAX_ATTACH
  {
    PieceCountBound(b);
    Head(id, |b|, |PiecesOf(b)|, hash(b), None)
  }

  /** A chunk of the plan: a data piece under its index, or a pad. */
  predicate Planned(c: Chunk, id: Id16, b: seq<Byte>) {
    c.head == id && (c.pad || (c.index < |PiecesOf(b)| && c.data == PiecesOf(b)[c.index]))
  }

  predicate AllPlanned(cs: seq<Chunk>, id: Id16, b: seq<Byte>) {
    forall i :: 0 <= i < |cs| ==> Planned(cs[i], id, b)
  }

  /** The data indices among some chunks. */
  function Indices(cs: seq<Chunk>): set<nat> {
    if cs == [] then {} else
    var c := cs[|cs| - 1];
    Indices(cs[..|cs| - 1]) + if c.pad then {} else {c.index as nat}
  }

  function Deliver(s: Store, cs: seq<Chunk>, hash: Hash): Outcome {
    if cs == [] then Outcome(s, [], true) else
    var o := Deliver(s, cs[..|cs| - 1], hash);
    var q := OnChunk(o.store, cs[|cs| - 1], hash);
    Outcome(q.store, o.events + q.events, o.ok && q.ok)
  }

  /** Chunks, the head, and more chunks. */
  function Transfer(s: Store, id: Id16, b: seq<Byte>, hash: Hash, pre: seq<Chunk>, post: seq<Chunk>): Outcome
    requires INLINE_MAX < |b| <= MAX_ATTACH
  {
    var o := Deliver(s, pre, hash);
    var h := OnHead(o.store, HeadOf(id, b, hash), true, hash);
    var q := Deliver(h.store, post, hash);
    Outcome(q.store, o.events + h.events + q.events, o.ok && h.ok && q.ok)
  }

  function Completions(events: seq<Event>, id: Id16): nat {
    if events == [] then 0 else
    Completions(events[..|events| - 1], id) + if events[|events| - 1] == Complete(id) then 1 else 0
  }

  // ---- before the head ----

  /** The head is unknown and exactly the pieces `have` are stored. */
  ghost predicate Held(s: Store, id: Id16, b: seq<Byte>, have: set<nat>) {
    var c := ChunksOf(s.chunks, id);
    id !in s.rows && c.Keys == have && Drawn(c, PiecesOf(b))
  }

  /** No trace of the transfer. */
  predicate Absent(s: Store, id: Id16) {
    id !in s.rows && ChunksOf(s.chunks, id) == map[]
  }

  /** Beside the orphans already held, the relationship's caps have room for every piece. */
  predicate Roomy(s: Store, b: seq<Byte>) {
    && Count(s.chunks, s.rows, None) + |PiecesOf(b)| <= MAX_ORPHAN_CHUNKS_PER_REL
    && Size(s.chunks, s.rows, None) + |b| <= MAX_ORPHAN_BYTES_PER_REL
  }

  /** A relationship without other orphans has room. */
  lemma {:induction false} NoOrphansIsRoomy(chunks: seq<ChunkRow>, rows: map<Id16, Row>, b: seq<Byte>)
    requires INLINE_MAX < |b| <= MAX_ATTACH && forall i :: 0 <= i < |chunks| ==> chunks[i].head in rows
    ensures Count(chunks, rows, None) == 0 && Size(chunks, rows, None) == 0 && Roomy(Store(chunks, rows), b)
    decreases |chunks|
  {
    PieceCountBound(b);
    if chunks != [] {
      assert chunks[|chunks| - 1].head in rows;
      NoOrphansIsRoomy(chunks[..|chunks| - 1], rows, b);
    }
  }

  /** The statistics over what the transfer itself has added to the orphans of `s0`. */
  ghost predicate Tallied(s0: Store, s: Store, id: Id16, n: nat) {
    var c := ChunksOf(s.chunks, id);
    && s.rows == s0.rows
    && Count(s.chunks, s.rows, Some(id)) == |c| && Size(s.chunks, s.rows, Some(id)) == SumLen(c, n)
    && Count(s.chunks, s.rows, None) == Count(s0.chunks, s0.rows, None) + |c|
    && Size(s.chunks, s.rows, None) == Size(s0.chunks, s0.rows, None) + SumLen(c, n)
  }

  lemma {:induction false} NothingCounted(chunks: seq<ChunkRow>, rows: map<Id16, Row>, id: Id16)
    requires ChunksOf(chunks, id) == map[]
    ensures Count(chunks, rows, Some(id)) == 0 && Size(chunks, rows, Some(id)) == 0
    decreases |chunks|
  {
    if chunks != [] {
      var front, r := chunks[..|chunks| - 1], chunks[|chunks| - 1];
      var index: nat := r.index;
      assert r.head == id ==> index in ChunksOf(chunks, id);
      NothingCounted(front, rows, id);
    }
  }

  lemma AbsentWaits(s: Store, id: Id16, b: seq<Byte>)
    requires Absent(s, id)
    ensures Held(s, id, b, {}) && Tallied(s, s, id, |PiecesOf(b)|)
  {
    NothingCounted(s.chunks, s.rows, id);
    SumLenEmpty(|PiecesOf(b)|);
  }

  /** No first delivery trips an orphan cap. */
  lemma FirstFits(s0: Store, s: Store, id: Id16, b: seq<Byte>, have: set<nat>, c: Chunk)
    requires INLINE_MAX < |b| <= MAX_ATTACH && Roomy(s0, b)
    requires Held(s, id, b, have) && Tallied(s0, s, id, |PiecesOf(b)|)
    requires Planned(c, id, b) && !c.pad && c.index !in have
    ensures !OverOrphanCaps(s, c)
  {
    var p, m := PiecesOf(b), ChunksOf(s.chunks, id);
    PieceCountBound(b);
    CoversIffCount(m, |p|);
    var index: nat := c.index;
    assert |m| == |p| ==> index in m;
    SumLenDrawn(m, p, |p|, c.index);
    assert p[..|p|] == p;
    SplitFlattens(b, CHUNK_DATA_MAX);
  }

  lemma FirstHeld(s: Store, id: Id16, b: seq<Byte>, have: set<nat>, c: Chunk)
    requires Held(s, id, b, have) && Planned(c, id, b) && !c.pad && c.index !in have
    ensures Held(PutChunk(s, id, c.index, c.data), id, b, have + {c.index as nat})
  {
    ChunksOfAppend(s.chunks, ChunkRow(id, c.index, c.data), id);
  }

  lemma {:induction false} FirstTallied(s0: Store, s: Store, id: Id16, n: nat, index: U16, data: seq<Byte>)
    requires id !in s.rows && index < n && index !in ChunksOf(s.chunks, id) && Tallied(s0, s, id, n)
    ensures Tallied(s0, PutChunk(s, id, index, data), id, n)
  {
    var r, m := ChunkRow(id, index, data), ChunksOf(s.chunks, id);
    ChunksOfAppend(s.chunks, r, id);
    StatsAppend(s.chunks, r, s.rows, Some(id));
    StatsAppend(s.chunks, r, s.rows, None);
    SumLenPut(m, index, data, n);
    OneMoreKey(m, index, data);
  }

  lemma OneMoreKey(m: Chunks, i: nat, data: seq<Byte>)
    requires i !in m
    ensures |m[i := data]| == |m| + 1
  {
    assert m[i := data].Keys == m.Keys + {i};
    assert |m[i := data]| == |m[i := data].Keys| && |m| == |m.Keys|;
  }

  lemma OrphanStep(s0: Store, s: Store, id: Id16, b: seq<Byte>, hash: Hash, have: set<nat>, c: Chunk)
    requires INLINE_MAX < |b| <= MAX_ATTACH && Roomy(s0, b)
    requires Held(s, id, b, have) && Tallied(s0, s, id, |PiecesOf(b)|) && Planned(c, id, b)
    ensures
      var o := OnChunk(s, c, hash);
      && Held(o.store, id, b, have + (if c.pad then {} else {c.index as nat})) && Tallied(s0, o.store, id, |PiecesOf(b)|)
      && o.ok && Silent(o.events, id) && (o.events != [] ==> c.index in have)
  {
    if c.pad {
      assert have + {} == have;
    } else if c.index in have {
      assert have + {c.index as nat} == have;
    } else {
      FirstFits(s0, s, id, b, have, c);
      FirstHeld(s, id, b, have, c);
      FirstTallied(s0, s, id, |PiecesOf(b)|, c.index, c.data);
    }
  }

  lemma {:induction false} OrphansWait(s: Store, id: Id16, b: seq<Byte>, hash: Hash, cs: seq<Chunk>)
    requires INLINE_MAX < |b| <= MAX_ATTACH && Absent(s, id) && Roomy(s, b) && AllPlanned(cs, id, b)
    ensures
      var o := Deliver(s, cs, hash);
      && Held(o.store, id, b, Indices(cs)) && Tallied(s, o.store, id, |PiecesOf(b)|)
      && o.ok && Silent(o.events, id)
    decreases |cs|
  {
    if cs == [] {
      AbsentWaits(s, id, b);
    } else {
      var front := cs[..|cs| - 1];
      OrphansWait(s, id, b, hash, front);
      OrphanStep(s, Deliver(s, front, hash).store, id, b, hash, Indices(front), cs[|cs| - 1]);
    }
  }

  lemma {:induction false} PadsVanish(s: Store, hash: Hash, cs: seq<Chunk>)
    requires Indices(cs) == {}
    ensures Deliver(s, cs, hash) == Outcome(s, [], true)
    decreases |cs|
  {
    if cs != [] {
      var front, c := cs[..|cs| - 1], cs[|cs| - 1];
      var index: nat := c.index;
      assert !c.pad ==> index in Indices(cs);
      assert Indices(front) == Indices(cs);
      PadsVanish(s, hash, front);
    }
  }

  /** Before the head: with room for orphans every data chunk is held; without data chunks no room is needed. */
  lemma {:induction false} BeforeHead(s: Store, id: Id16, b: seq<Byte>, hash: Hash, cs: seq<Chunk>)
    requires INLINE_MAX < |b| <= MAX_ATTACH && Absent(s, id) && AllPlanned(cs, id, b)
    requires Indices(cs) == {} || Roomy(s, b)
    ensures
      var o := Deliver(s, cs, hash);
      Held(o.store, id, b, Indices(cs)) && o.ok && Silent(o.events, id)
  {
    if Indices(cs) == {} {
      PadsVanish(s, hash, cs);
      AbsentWaits(s, id, b);
    } else {
      OrphansWait(s, id, b, hash, cs);
    }
  }

  // ---- the head, and after it ----

  /** The head is known: completeness is exactly "all before it, or all after it", and until then the
      bitmap shows what came after it. */
  ghost predicate Arriving(s: Store, id: Id16, b: seq<Byte>, hash: Hash, pre: set<nat>, post: set<nat>) {
    var c, n := ChunksOf(s.chunks, id), |PiecesOf(b)|;
    && id in s.rows && Announced(s.rows[id], b, hash)
    && c.Keys == pre + post && Drawn(c, PiecesOf(b))
    && (s.rows[id].complete <==> Full(pre, n) || Full(post, n))
    && (!s.rows[id].complete ==> Shows(s.rows[id].bitmap, post, n))
  }

  ghost predicate Announced(row: Row, b: seq<Byte>, hash: Hash) {
    row.n == |b| && row.count == |PiecesOf(b)| && row.sha == hash(b) && !row.consumed
  }

  ghost predicate Shows(bitmap: seq<bv8>, got: set<nat>, n: nat) {
    && |bitmap| <= Need(n) && (forall i :: i in got ==> i < n)
    && forall j: nat :: Bit(bitmap, j) <==> j in got
  }

  lemma {:induction false} StoredIsBlob(s: Store, id: Id16, b: seq<Byte>)
    requires Drawn(ChunksOf(s.chunks, id), PiecesOf(b)) && |PiecesOf(b)| <= INDEX_LIMIT
    ensures Covers(ChunksOf(s.chunks, id), |PiecesOf(b)|) <==> |Stored(s, id)| >= |PiecesOf(b)|
    ensures Covers(ChunksOf(s.chunks, id), |PiecesOf(b)|) ==> Flatten(Stored(s, id)) == b && |Stored(s, id)| == |PiecesOf(b)|
  {
    var c, p := ChunksOf(s.chunks, id), PiecesOf(b);
    StoredLen(s, id);
    CoversIffCount(c, |p|);
    if Covers(c, |p|) {
      StoredDense(c, p, INDEX_LIMIT);
      assert p[..|p|] == p;
      SplitFlattens(b, CHUNK_DATA_MAX);
    }
  }

  lemma CoversIsFull(c: Chunks, n: nat)
    ensures Covers(c, n) <==> Full(c.Keys, n)
  {
  }

  /** Completion succeeds exactly when every piece is stored. */
  lemma {:induction false} TryExact(s: Store, id: Id16, b: seq<Byte>, hash: Hash)
    requires INLINE_MAX < |b| <= MAX_ATTACH && id in s.rows && Announced(s.rows[id], b, hash) && !s.rows[id].complete
    requires Drawn(ChunksOf(s.chunks, id), PiecesOf(b))
    ensures
      var o := TryComplete(s, id, hash);
      && o.ok && o.store.chunks == s.chunks
      && if Covers(ChunksOf(s.chunks, id), |PiecesOf(b)|) then
           && o.events == [Complete(id)] && id in o.store.rows && o.store.rows[id].complete
           && Announced(o.store.rows[id], b, hash)
         else o.store == s && o.events == []
  {
    PieceCountBound(b);
    StoredIsBlob(s, id, b);
  }

  lemma HeadLands(s: Store, id: Id16, b: seq<Byte>, hash: Hash, pre: set<nat>)
    requires INLINE_MAX < |b| <= MAX_ATTACH && Held(s, id, b, pre)
    ensures
      var o := OnHead(s, HeadOf(id, b, hash), true, hash);
      && Arriving(o.store, id, b, hash, pre, {}) && o.ok && Failed(id) !in o.events
      && o.events == if Full(pre, |PiecesOf(b)|) then [Complete(id)] else []
  {
    var n := |PiecesOf(b)|;
    PieceCountBound(b);
    var s1 := s.(rows := s.rows[id := Row(|b|, n, hash(b), [], false, false)]);
    TryExact(s1, id, b, hash);
    CoversIsFull(ChunksOf(s.chunks, id), n);
    assert pre + {} == pre;
    NotFull(n);
  }

  lemma BitLands(row: Row, got: set<nat>, index: U16)
    requires index < row.count && Shows(row.bitmap, got, row.count)
    ensures Shows(Noted(row, index).bitmap, got + {index as nat}, row.count)
    ensures PopCount(Noted(row, index).bitmap) >= row.count <==> Full(got + {index as nat}, row.count)
  {
    var need := Need(row.count);
    var r := Resized(row.bitmap, need);
    ResizedBits(row.bitmap, need);
    SetBitSpec(r, index);
    var bitmap := SetBit(r, index);
    PopCountFull(bitmap, row.count);
  }

  lemma LateChunk(s: Store, id: Id16, b: seq<Byte>, hash: Hash, pre: set<nat>, post: set<nat>, c: Chunk)
    requires INLINE_MAX < |b| <= MAX_ATTACH && Arriving(s, id, b, hash, pre, post) && !s.rows[id].complete
    requires Planned(c, id, b) && !c.pad
    ensures
      var o := OnChunk(s, c, hash);
      var post' := post + {c.index as nat};
      && Arriving(o.store, id, b, hash, pre, post') && o.ok && Failed(id) !in o.events && Dropped(id) !in o.events
      && (if Full(post', |PiecesOf(b)|) then o.events == [Complete(id)] else Complete(id) !in o.events && |o.events| == 1)
  {
    var s1 := Received(s, c);
    ReceivedDraws(s, id, b, c);
    BitLands(s.rows[id], post, c.index);
    assert ChunksOf(s.chunks, id).Keys + {c.index as nat} == pre + (post + {c.index as nat});
    if Full(post + {c.index as nat}, |PiecesOf(b)|) {
      LastChunk(s1, id, b, hash, pre, post + {c.index as nat});
    }
  }

  /** The chunk that fills the bitmap completes the transfer. */
  lemma {:induction false} LastChunk(s: Store, id: Id16, b: seq<Byte>, hash: Hash, pre: set<nat>, post: set<nat>)
    requires INLINE_MAX < |b| <= MAX_ATTACH && id in s.rows && Announced(s.rows[id], b, hash) && !s.rows[id].complete
    requires Drawn(ChunksOf(s.chunks, id), PiecesOf(b)) && ChunksOf(s.chunks, id).Keys == pre + post
    requires Full(post, |PiecesOf(b)|)
    ensures
      var o := TryComplete(s, id, hash);
      Arriving(o.store, id, b, hash, pre, post) && o.ok && o.events == [Complete(id)]
  {
    CoversIsFull(ChunksOf(s.chunks, id), |PiecesOf(b)|);
    TryExact(s, id, b, hash);
  }

  lemma {:induction false} ReceivedDraws(s: Store, id: Id16, b: seq<Byte>, c: Chunk)
    requires id in s.rows && s.rows[id].count == |PiecesOf(b)| && Drawn(ChunksOf(s.chunks, id), PiecesOf(b))
    requires Planned(c, id, b) && !c.pad
    ensures !Refused(s, c) && !Conflicts(s, id, c.index, c.data)
    ensures
      var s1 := Received(s, c);
      && ChunksOf(s1.chunks, id).Keys == ChunksOf(s.chunks, id).Keys + {c.index as nat}
      && Drawn(ChunksOf(s1.chunks, id), PiecesOf(b)) && id in s1.rows && s1.rows[id] == Noted(s.rows[id], c.index)
  {
    ChunksOfAppend(s.chunks, ChunkRow(id, c.index, c.data), id);
  }

  /** After completion every further chunk is a repeat and changes nothing. */
  lemma RepeatAfter(s: Store, id: Id16, b: seq<Byte>, hash: Hash, pre: set<nat>, post: set<nat>, c: Chunk)
    requires Arriving(s, id, b, hash, pre, post) && s.rows[id].complete && Planned(c, id, b) && !c.pad
    ensures
      var o := OnChunk(s, c, hash);
      && Arriving(o.store, id, b, hash, pre, post + {c.index as nat}) && o.ok
      && Complete(id) !in o.events && Failed(id) !in o.events && Dropped(id) !in o.events
  {
    var m := ChunksOf(s.chunks, id);
    var n := |PiecesOf(b)|;
    assert Full(m.Keys, n);
    CoversIsFull(m, n);
    SettledOwn(s, c, hash);
    ReceivedDraws(s, id, b, c);
    assert pre + (post + {c.index as nat}) == pre + post;
    if Full(post + {c.index as nat}, n) && !Full(pre, n) {
      assert Full(post, n);
    }
  }

  lemma {:induction false} LateStep(s: Store, id: Id16, b: seq<Byte>, hash: Hash, pre: set<nat>, post: set<nat>, c: Chunk)
    requires INLINE_MAX < |b| <= MAX_ATTACH && Arriving(s, id, b, hash, pre, post) && Planned(c, id, b)
    ensures
      var o := OnChunk(s, c, hash);
      var post' := post + (if c.pad then {} else {c.index as nat});
      && Arriving(o.store, id, b, hash, pre, post') && o.ok && Failed(id) !in o.events
      && Completions(o.events, id) == if o.store.rows[id].complete && !s.rows[id].complete then 1 else 0
  {
    if c.pad {
      assert post + {} == post;
    } else if s.rows[id].complete {
      RepeatAfter(s, id, b, hash, pre, post, c);
      NoCompletions(OnChunk(s, c, hash).events, id);
    } else {
      LateChunk(s, id, b, hash, pre, post, c);
      var o := OnChunk(s, c, hash);
      if Full(post + {c.index as nat}, |PiecesOf(b)|) {
        assert [Complete(id)][..0] == [];
      } else {
        NoCompletions(o.events, id);
      }
    }
  }

  lemma {:induction false} NoCompletions(events: seq<Event>, id: Id16)
    requires Complete(id) !in events
    ensures Completions(events, id) == 0
    decreases |events|
  {
    if events != [] {
      NoCompletions(events[..|events| - 1], id);
    }
  }

  lemma {:induction false} CompletionsAdd(e: seq<Event>, f: seq<Event>, id: Id16)
    ensures Completions(e + f, id) == Completions(e, id) + Completions(f, id)
    decreases |f|
  {
    if f == [] {
      assert e + f == e;
    } else {
      assert (e + f)[..|e + f| - 1] == e + f[..|f| - 1];
      CompletionsAdd(e, f[..|f| - 1], id);
    }
  }

  lemma {:induction false} LateChunks(s: Store, id: Id16, b: seq<Byte>, hash: Hash, pre: set<nat>, cs: seq<Chunk>)
    requires INLINE_MAX < |b| <= MAX_ATTACH && Arriving(s, id, b, hash, pre, {}) && AllPlanned(cs, id, b)
    ensures
      var o := Deliver(s, cs, hash);
      && Arriving(o.store, id, b, hash, pre, Indices(cs)) && o.ok && Failed(id) !in o.events
      && Completions(o.events, id) == if o.store.rows[id].complete && !s.rows[id].complete then 1 else 0
    decreases |cs|
  {
    if cs != [] {
      var front, c := cs[..|cs| - 1], cs[|cs| - 1];
      LateChunks(s, id, b, hash, pre, front);
      var o := Deliver(s, front, hash);
      LateStep(o.store, id, b, hash, pre, Indices(front), c);
      CompletionsAdd(o.events, OnChunk(o.store, c, hash).events, id);
    }
  }

  /** The transfer theorem. For every file above the inline limit and every interleaving of its planned
      chunks, repeats and pads with its head: the transfer is complete exactly when all data chunks came
      before the head or all came after it; it is announced once then and never otherwise; it never fails;
      no first delivery is lost; and the bytes read back are the file. Other orphans of the relationship do
      not matter when no data chunk precedes the head, and otherwise as long as the caps have room. */
  lemma {:induction false} TransferExact(s: Store, id: Id16, b: seq<Byte>, hash: Hash, pre: seq<Chunk>, post: seq<Chunk>)
    requires INLINE_MAX < |b| <= MAX_ATTACH && Absent(s, id) && AllPlanned(pre, id, b) && AllPlanned(post, id, b)
    requires Indices(pre) == {} || Roomy(s, b)
    ensures
      var o := Transfer(s, id, b, hash, pre, post);
      var n := |PiecesOf(b)|;
      var done := Full(Indices(pre), n) || Full(Indices(post), n);
      && o.ok && id in o.store.rows && (o.store.rows[id].complete <==> done)
      && Completions(o.events, id) == (if done then 1 else 0) && Failed(id) !in o.events
      && ChunksOf(o.store.chunks, id).Keys == Indices(pre) + Indices(post)
      && BytesOf(o.store, id) == if done then Some(b) else None
  {
    BeforeHead(s, id, b, hash, pre);
    var o := Deliver(s, pre, hash);
    FromHead(o.store, id, b, hash, Indices(pre), post);
    var h := OnHead(o.store, HeadOf(id, b, hash), true, hash);
    var q := Deliver(h.store, post, hash);
    NoCompletions(o.events, id);
    CompletionsAdd(o.events, h.events, id);
    CompletionsAdd(o.events + h.events, q.events, id);
  }

  /** The head and everything after it. */
  lemma {:induction false} FromHead(s: Store, id: Id16, b: seq<Byte>, hash: Hash, pre: set<nat>, post: seq<Chunk>)
    requires INLINE_MAX < |b| <= MAX_ATTACH && Held(s, id, b, pre) && AllPlanned(post, id, b)
    ensures
      var h := OnHead(s, HeadOf(id, b, hash), true, hash);
      var q := Deliver(h.store, post, hash);
      var done := Full(pre, |PiecesOf(b)|) || Full(Indices(post), |PiecesOf(b)|);
      && h.ok && q.ok && Failed(id) !in h.events && Failed(id) !in q.events
      && id in q.store.rows && (q.store.rows[id].complete <==> done)
      && Completions(h.events, id) + Completions(q.events, id) == (if done then 1 else 0)
      && ChunksOf(q.store.chunks, id).Keys == pre + Indices(post)
      && BytesOf(q.store, id) == if done then Some(b) else None
  {
    HeadLands(s, id, b, hash, pre);
    var h := OnHead(s, HeadOf(id, b, hash), true, hash);
    LateChunks(h.store, id, b, hash, pre, post);
    HeadCompletions(id);
    NotFull(|PiecesOf(b)|);
    ReadBack(Deliver(h.store, post, hash).store, id, b, hash, pre, Indices(post));
  }

  lemma NotFull(n: nat)
    ensures n > 0 ==> !Full({}, n)
  {
    var none: set<nat> := {};
    assert 0 !in none;
  }

  lemma {:induction false} HeadCompletions(id: Id16)
    ensures Completions([Complete(id)], id) == 1 && Completions([], id) == 0
  {
    assert [Complete(id)][..0] == [];
  }

  lemma ReadBack(s: Store, id: Id16, b: seq<Byte>, hash: Hash, pre: set<nat>, post: set<nat>)
    requires INLINE_MAX < |b| <= MAX_ATTACH && Arriving(s, id, b, hash, pre, post)
    ensures BytesOf(s, id) == if s.rows[id].complete then Some(b) else None
  {
    PieceCountBound(b);
    StoredIsBlob(s, id, b);
    CoversIsFull(ChunksOf(s.chunks, id), |PiecesOf(b)|);
  }
}
