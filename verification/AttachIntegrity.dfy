/** Whether the bytes handed out for an attachment are the bytes its head announced, whatever a peer sends. */
module AttachIntegrity {
  import opened Bytes
  import opened Pieces
  import opened AttachStore
  import AttachWire

  datatype Op = HeadOp(h: Head, allowed: bool) | ChunkOp(c: Chunk)

  function Step(s: Store, op: Op, hash: Hash): Outcome {
    match op
    case HeadOp(h, allowed) => OnHead(s, h, allowed, hash)
    case ChunkOp(c) => OnChunk(s, c, hash)
  }

  function After(s: Store, ops: seq<Op>, hash: Hash): Store {
    if ops == [] then s else Step(After(s, ops[..|ops| - 1], hash), ops[|ops| - 1], hash).store
  }

  /** What the codec lets in: a chunked head plans at least one chunk, an inline head plans none and carries
      its announced length. */
  predicate ValidHead(h: Head) {
    match h.inline
    case None => h.count >= 1
    case Some(bytes) => h.count == 0 && |bytes| == h.n
  }

  lemma DecodedIsValid(bytes: seq<Byte>, id: Id16)
    ensures AttachWire.DecodeSpec(bytes).Ok? ==>
      var (h, inline) := AttachWire.DecodeSpec(bytes).value;
      ValidHead(Head(id, h.n, h.count, h.sha, inline))
  {
  }

  // ---- what one step does to other transfers ----

  ghost predicate Same(s: Store, s': Store, id: Id16) {
    && ChunksOf(s'.chunks, id) == ChunksOf(s.chunks, id) && id in s.rows && id in s'.rows
    && s'.rows[id] == s.rows[id]
  }

  /** Raises neither completion nor failure of the transfer. */
  ghost predicate Silent(events: seq<Event>, id: Id16) {
    Complete(id) !in events && Failed(id) !in events
  }

  lemma {:induction false} PutKeeps(s: Store, c: Chunk, id: Id16)
    requires c.head != id || c.index in ChunksOf(s.chunks, id)
    ensures ChunksOf(PutChunk(s, c.head, c.index, c.data).chunks, id) == ChunksOf(s.chunks, id)
  {
    ChunksOfAppend(s.chunks, ChunkRow(c.head, c.index, c.data), id);
  }

  lemma TryKeepsOthers(s: Store, other: Id16, id: Id16, hash: Hash)
    requires other != id && id in s.rows
    ensures Same(s, TryComplete(s, other, hash).store, id) && Silent(TryComplete(s, other, hash).events, id)
  {
    WithoutHead(s.chunks, other, id);
  }

  lemma ReceivedKeepsOthers(s: Store, c: Chunk, id: Id16)
    requires c.head in s.rows && c.index < s.rows[c.head].count && id in s.rows && c.head != id
    ensures Same(s, Received(s, c), id)
  {
    PutKeeps(s, c, id);
  }

  lemma AdvanceKeepsOthers(s: Store, other: Id16, id: Id16, hash: Hash)
    requires other in s.rows && id in s.rows && other != id
    ensures Same(s, Advance(s, other, hash).store, id) && Silent(Advance(s, other, hash).events, id)
  {
    TryKeepsOthers(s, other, id, hash);
  }

  lemma ChunkKeepsOthers(s: Store, c: Chunk, id: Id16, hash: Hash)
    requires id in s.rows && c.head != id
    ensures Same(s, OnChunk(s, c, hash).store, id) && Silent(OnChunk(s, c, hash).events, id)
  {
    if c.head in s.rows {
      if c.index < s.rows[c.head].count {
        ReceivedKeepsOthers(s, c, id);
        AdvanceKeepsOthers(Received(s, c), c.head, id, hash);
      }
    } else {
      PutKeeps(s, c, id);
    }
  }

  lemma HeadKeepsOthers(s: Store, h: Head, allowed: bool, id: Id16, hash: Hash)
    requires id in s.rows && h.id != id
    ensures Same(s, OnHead(s, h, allowed, hash).store, id) && Silent(OnHead(s, h, allowed, hash).events, id)
  {
    if h.inline.None? {
      var row := Row(h.n, h.count, h.sha, [], false, false);
      TryKeepsOthers(s.(rows := s.rows[h.id := row]), h.id, id, hash);
    } else {
      ChunksOfAppend(s.chunks, ChunkRow(h.id, 0, h.inline.value), id);
    }
  }

  // ---- settled transfers ----

  /** Complete, with every index the head planned in place. */
  ghost predicate Settled(s: Store, id: Id16) {
    id in s.rows && s.rows[id].complete && Covers(ChunksOf(s.chunks, id), s.rows[id].count)
  }

  /** The transfer's chunks and its row, but for the bitmap, are as they were. */
  ghost predicate Untouched(s: Store, s': Store, id: Id16) {
    && ChunksOf(s'.chunks, id) == ChunksOf(s.chunks, id) && id in s.rows && id in s'.rows
    && s'.rows[id].(bitmap := []) == s.rows[id].(bitmap := [])
  }

  lemma SettledOwn(s: Store, c: Chunk, hash: Hash)
    requires Settled(s, c.head)
    ensures Untouched(s, OnChunk(s, c, hash).store, c.head) && Silent(OnChunk(s, c, hash).events, c.head)
  {
    if c.index < s.rows[c.head].count {
      PutKeeps(s, c, c.head);
    }
  }

  lemma SettledStep(s: Store, op: Op, id: Id16, hash: Hash)
    requires Settled(s, id)
    ensures Untouched(s, Step(s, op, hash).store, id) && Silent(Step(s, op, hash).events, id)
  {
    match op {
      case HeadOp(h, allowed) =>
        if h.id != id {
          HeadKeepsOthers(s, h, allowed, id, hash);
        }
      case ChunkOp(c) =>
        if c.head == id {
          SettledOwn(s, c, hash);
        } else {
          ChunkKeepsOthers(s, c, id, hash);
        }
    }
  }

  lemma {:induction false} SettledRun(s: Store, ops: seq<Op>, id: Id16, hash: Hash)
    requires Settled(s, id)
    ensures Untouched(s, After(s, ops, hash), id)
    decreases |ops|
  {
    if ops != [] {
      SettledRun(s, ops[..|ops| - 1], id, hash);
      SettledStep(After(s, ops[..|ops| - 1], hash), ops[|ops| - 1], id, hash);
    }
  }

  /** No continuation removes the transfer or changes a byte of it. */
  ghost predicate Frozen(s: Store, id: Id16, hash: Hash) {
    forall ops: seq<Op> :: KeepsBytes(s, After(s, ops, hash), id)
  }

  ghost predicate KeepsBytes(s: Store, s': Store, id: Id16) {
    id in s'.rows && s'.rows[id].complete && Flatten(Stored(s', id)) == Flatten(Stored(s, id))
  }

  /** A chunk at an index the head planned and nobody sent yet. */
  function Filler(id: Id16, index: U16): Chunk { Chunk(id, index, false, [0]) }

  lemma {:induction false} FillerGrows(s: Store, id: Id16, index: U16, hash: Hash)
    requires id in s.rows && s.rows[id].complete && index < s.rows[id].count && index !in ChunksOf(s.chunks, id)
    ensures
      var s' := After(s, [ChunkOp(Filler(id, index))], hash);
      && id in s'.rows && s'.rows[id].(bitmap := []) == s.rows[id].(bitmap := [])
      && |Flatten(Stored(s', id))| == |Flatten(Stored(s, id))| + 1
  {
    var c, op := ChunksOf(s.chunks, id), ChunkOp(Filler(id, index));
    assert [op][..0] == [];
    assert After(s, [], hash) == s;
    ChunksOfAppend(s.chunks, ChunkRow(id, index, [0]), id);
    StoredSize(c, INDEX_LIMIT);
    StoredSize(c[index as nat := [0]], INDEX_LIMIT);
    SumLenPut(c, index, [0], INDEX_LIMIT);
  }

  /** A complete transfer is frozen, under every later traffic, exactly when every planned index is stored. */
  lemma {:induction false} FrozenIff(s: Store, id: Id16, hash: Hash)
    requires id in s.rows && s.rows[id].complete
    ensures Frozen(s, id, hash) <==> Covers(ChunksOf(s.chunks, id), s.rows[id].count)
  {
    if Covers(ChunksOf(s.chunks, id), s.rows[id].count) {
      forall ops: seq<Op> ensures KeepsBytes(s, After(s, ops, hash), id) {
        SettledRun(s, ops, id, hash);
      }
    } else {
      var index: nat :| index < s.rows[id].count && index !in ChunksOf(s.chunks, id);
      FillerGrows(s, id, index, hash);
      assert !KeepsBytes(s, After(s, [ChunkOp(Filler(id, index))], hash), id);
    }
  }

  // ---- verified bytes ----

  /** What the client is handed has the announced length and hash. */
  ghost predicate HandsOutVerified(s: Store, id: Id16, hash: Hash) {
    id in s.rows && BytesOf(s, id).Some? ==> Matches(BytesOf(s, id).value, s.rows[id], hash)
  }

  ghost predicate Matches(bytes: seq<Byte>, row: Row, hash: Hash) {
    |bytes| == row.n && hash(bytes) == row.sha
  }

  /** The row is there after every operation. */
  ghost predicate Stands(s: Store, ops: seq<Op>, id: Id16, hash: Hash)
    decreases |ops|
  {
    id in After(s, ops, hash).rows && (ops != [] ==> Stands(s, ops[..|ops| - 1], id, hash))
  }

  /** As long as the row stands, under any traffic, the bytes handed out are the announced ones. */
  ghost predicate AlwaysVerified(s: Store, id: Id16, hash: Hash) {
    forall ops: seq<Op> :: Stands(s, ops, id, hash) ==> HandsOutVerified(After(s, ops, hash), id, hash)
  }

  /** What a row keeps from a sound arrival on: complete with every planned index and the announced bytes,
      or incomplete with a bitmap that shows stored chunks only. */
  ghost predicate Good(s: Store, id: Id16, hash: Hash)
    requires id in s.rows
  {
    var row, c := s.rows[id], ChunksOf(s.chunks, id);
    if row.complete then Covers(c, row.count) && Matches(Flatten(Stored(s, id)), row, hash)
    else ShowsStored(row.bitmap, c, row.count)
  }

  ghost predicate ShowsStored(bitmap: seq<bv8>, c: Chunks, count: nat) {
    |bitmap| <= Need(count) && forall j: nat :: Bit(bitmap, j) ==> j < count && j in c
  }

  lemma GoodMeans(s: Store, id: Id16, hash: Hash)
    requires id in s.rows && Good(s, id, hash)
    ensures HandsOutVerified(s, id, hash)
  {
  }

  lemma SameIsGood(s: Store, s': Store, id: Id16, hash: Hash)
    requires Same(s, s', id) && Good(s, id, hash)
    ensures Good(s', id, hash)
  {
  }

  lemma NotedShows(row: Row, c: Chunks, index: U16)
    requires index < row.count && index in c && ShowsStored(row.bitmap, c, row.count)
    ensures ShowsStored(Noted(row, index).bitmap, c, row.count)
    ensures PopCount(Noted(row, index).bitmap) >= row.count ==> Covers(c, row.count)
  {
    var need := Need(row.count);
    var r := Resized(row.bitmap, need);
    ResizedBits(row.bitmap, need);
    SetBitSpec(r, index);
    PopCountFull(SetBit(r, index), row.count);
  }

  lemma ReceivedIsGood(s: Store, c: Chunk, hash: Hash)
    requires c.head in s.rows && c.index < s.rows[c.head].count && !s.rows[c.head].complete && Good(s, c.head, hash)
    ensures
      var s1 := Received(s, c);
      && c.head in s1.rows && !s1.rows[c.head].complete && Good(s1, c.head, hash)
      && (PopCount(s1.rows[c.head].bitmap) >= s1.rows[c.head].count ==>
            Covers(ChunksOf(s1.chunks, c.head), s1.rows[c.head].count))
  {
    ChunksOfAppend(s.chunks, ChunkRow(c.head, c.index, c.data), c.head);
    var s1 := Received(s, c);
    NotedShows(s.rows[c.head], ChunksOf(s1.chunks, c.head), c.index);
  }

  /** Completion on a table that covers the plan leaves a good row, or none. */
  lemma {:induction false} TryIsGood(s: Store, id: Id16, hash: Hash)
    requires id in s.rows && !s.rows[id].complete && Good(s, id, hash)
    requires |Stored(s, id)| >= s.rows[id].count ==>
      Covers(ChunksOf(s.chunks, id), s.rows[id].count) || !Matches(Flatten(Stored(s, id)), s.rows[id], hash)
    ensures
      var s' := TryComplete(s, id, hash).store;
      id in s'.rows ==> Good(s', id, hash)
  {
  }

  lemma OwnChunkIsGood(s: Store, c: Chunk, hash: Hash)
    requires c.head in s.rows && Good(s, c.head, hash)
    ensures
      var s' := OnChunk(s, c, hash).store;
      c.head in s'.rows ==> Good(s', c.head, hash)
  {
    if s.rows[c.head].complete {
      SettledOwn(s, c, hash);
    } else if !c.pad && !Refused(s, c) && !Conflicts(s, c.head, c.index, c.data) {
      ReceivedIsGood(s, c, hash);
      var s1 := Received(s, c);
      if PopCount(s1.rows[c.head].bitmap) >= s1.rows[c.head].count {
        TryIsGood(s1, c.head, hash);
      }
    }
  }

  lemma StepIsGood(s: Store, op: Op, id: Id16, hash: Hash)
    requires id in s.rows && Good(s, id, hash)
    ensures
      var s' := Step(s, op, hash).store;
      id in s'.rows ==> Good(s', id, hash)
  {
    match op {
      case HeadOp(h, allowed) =>
        if h.id != id {
          HeadKeepsOthers(s, h, allowed, id, hash);
          SameIsGood(s, Step(s, op, hash).store, id, hash);
        }
      case ChunkOp(c) =>
        if c.head == id {
          OwnChunkIsGood(s, c, hash);
        } else {
          ChunkKeepsOthers(s, c, id, hash);
          SameIsGood(s, Step(s, op, hash).store, id, hash);
        }
    }
  }

  lemma {:induction false} StandingIsGood(s: Store, ops: seq<Op>, id: Id16, hash: Hash)
    requires Stands(s, ops, id, hash) && id in s.rows && Good(s, id, hash)
    ensures Good(After(s, ops, hash), id, hash)
    decreases |ops|
  {
    if ops != [] {
      var front := ops[..|ops| - 1];
      StandingIsGood(s, front, id, hash);
      StepIsGood(After(s, front, hash), ops[|ops| - 1], id, hash);
    }
  }

  // ---- the arrival of a head ----

  /** The chunks stored beside index 0 carry nothing. */
  predicate StraysEmpty(c: Chunks) {
    forall i :: i in c && i != 0 ==> c[i] == []
  }

  /** The one test a head arrival has to pass. A chunked head must not find stored bytes that match its
      announcement while an index it planned is missing; an inline head that is about to complete must not
      find bytes under another index. */
  predicate SoundArrival(s: Store, h: Head, hash: Hash) {
    var c, bytes := ChunksOf(s.chunks, h.id), Flatten(Stored(s, h.id));
    match h.inline
    case None =>
      |Stored(s, h.id)| >= h.count && |bytes| == h.n && hash(bytes) == h.sha ==> Covers(c, h.count)
    case Some(inline) =>
      hash(inline) == h.sha && !Conflicts(s, h.id, 0, inline) ==> StraysEmpty(c)
  }

  lemma {:induction false} StoredOne(c: Chunks, bytes: seq<Byte>, n: nat)
    requires 0 in c && c[0] == bytes && StraysEmpty(c)
    ensures Flatten(StoredList(c, n)) == if n == 0 then [] else bytes
    decreases n
  {
    if n > 0 {
      StoredOne(c, bytes, n - 1);
      var front := StoredList(c, n - 1);
      if n - 1 in c {
        assert (front + [c[n - 1]])[..|front|] == front;
        assert [] + bytes == bytes && bytes + [] == bytes;
      } else {
        assert front + [] == front;
      }
    }
  }

  lemma {:induction false} StrayAdds(c: Chunks, n: nat, i: nat)
    requires 0 in c && 0 < i < n && i in c
    ensures SumLen(c, n) >= |c[0]| + |c[i]|
    decreases n
  {
    if i < n - 1 {
      StrayAdds(c, n - 1, i);
    } else {
      AtLeastFirst(c, n - 1);
    }
  }

  lemma {:induction false} AtLeastFirst(c: Chunks, n: nat)
    requires 0 in c && n > 0
    ensures SumLen(c, n) >= |c[0]|
    decreases n
  {
    if n > 1 {
      AtLeastFirst(c, n - 1);
    }
  }

  /** The table an inline head leaves, and whether its bytes are the announced ones. */
  lemma InlineBytes(s: Store, h: Head, hash: Hash)
    requires h.id !in s.rows && h.inline.Some? && ValidHead(h)
    requires hash(h.inline.value) == h.sha && !Conflicts(s, h.id, 0, h.inline.value)
    ensures
      var s' := OnHead(s, h, true, hash).store;
      && h.id in s'.rows && s'.rows[h.id].complete && s'.rows[h.id].count == 0
      && BytesOf(s', h.id) == Some(Flatten(Stored(s', h.id)))
      && (StraysEmpty(ChunksOf(s.chunks, h.id)) <==> Matches(Flatten(Stored(s', h.id)), s'.rows[h.id], hash))
  {
    var inline := h.inline.value;
    var s' := OnHead(s, h, true, hash).store;
    var c, c' := ChunksOf(s.chunks, h.id), ChunksOf(s'.chunks, h.id);
    ChunksOfAppend(s.chunks, ChunkRow(h.id, 0, inline), h.id);
    assert c' == c[0 := inline];
    StoredLen(s', h.id);
    StoredSize(c', INDEX_LIMIT);
    if StraysEmpty(c) {
      StoredOne(c', inline, INDEX_LIMIT);
    } else {
      var i :| i in c && i != 0 && c[i] != [];
      IndicesBelowLimit(s.chunks, h.id);
      StrayAdds(c', INDEX_LIMIT, i);
    }
  }

  lemma SoundInlineIsGood(s: Store, h: Head, hash: Hash)
    requires h.id !in s.rows && ValidHead(h) && SoundArrival(s, h, hash) && h.inline.Some?
    ensures
      var s' := OnHead(s, h, true, hash).store;
      h.id in s'.rows ==> Good(s', h.id, hash)
  {
    if hash(h.inline.value) == h.sha {
      if !Conflicts(s, h.id, 0, h.inline.value) {
        InlineBytes(s, h, hash);
      }
    }
  }

  lemma SoundIsGood(s: Store, h: Head, hash: Hash)
    requires h.id !in s.rows && ValidHead(h) && SoundArrival(s, h, hash)
    ensures
      var s' := OnHead(s, h, true, hash).store;
      h.id in s'.rows ==> Good(s', h.id, hash)
  {
    if h.inline.Some? {
      SoundInlineIsGood(s, h, hash);
    } else {
      TryIsGood(s.(rows := s.rows[h.id := Row(h.n, h.count, h.sha, [], false, false)]), h.id, hash);
    }
  }

  lemma UnsoundChunked(s: Store, h: Head, hash: Hash)
    requires h.id !in s.rows && h.inline.None? && ValidHead(h) && !SoundArrival(s, h, hash)
    ensures !AlwaysVerified(OnHead(s, h, true, hash).store, h.id, hash)
  {
    var s1 := OnHead(s, h, true, hash).store;
    var index: nat :| index < h.count && index !in ChunksOf(s.chunks, h.id);
    var ops := [ChunkOp(Filler(h.id, index))];
    FillerGrows(s1, h.id, index, hash);
    assert ops[..0] == [] && After(s1, [], hash) == s1;
    assert Stands(s1, [], h.id, hash);
    assert Stands(s1, ops, h.id, hash);
    StoredLen(After(s1, ops, hash), h.id);
    NotEmpty(After(s1, ops, hash), h.id);
    assert !HandsOutVerified(After(s1, ops, hash), h.id, hash);
  }

  lemma NotEmpty(s: Store, id: Id16)
    requires Flatten(Stored(s, id)) != []
    ensures Stored(s, id) != []
  {
  }

  lemma UnsoundInline(s: Store, h: Head, hash: Hash)
    requires h.id !in s.rows && h.inline.Some? && ValidHead(h) && !SoundArrival(s, h, hash)
    ensures !AlwaysVerified(OnHead(s, h, true, hash).store, h.id, hash)
  {
    var s1 := OnHead(s, h, true, hash).store;
    InlineBytes(s, h, hash);
    assert After(s1, [], hash) == s1 && Stands(s1, [], h.id, hash);
  }

  /** Over every continuation of traffic, while the transfer's row stands, the bytes handed out have the
      announced length and hash if and only if the head passes the arrival test. */
  lemma ArrivalIff(s: Store, h: Head, hash: Hash)
    requires h.id !in s.rows && ValidHead(h)
    ensures AlwaysVerified(OnHead(s, h, true, hash).store, h.id, hash) <==> SoundArrival(s, h, hash)
  {
    var s1 := OnHead(s, h, true, hash).store;
    if SoundArrival(s, h, hash) {
      SoundIsGood(s, h, hash);
      forall ops: seq<Op> | Stands(s1, ops, h.id, hash) ensures HandsOutVerified(After(s1, ops, hash), h.id, hash) {
        StoodFirst(s1, ops, h.id, hash);
        StandingIsGood(s1, ops, h.id, hash);
        GoodMeans(After(s1, ops, hash), h.id, hash);
      }
    } else if h.inline.None? {
      UnsoundChunked(s, h, hash);
    } else {
      UnsoundInline(s, h, hash);
    }
  }

  lemma {:induction false} StoodFirst(s: Store, ops: seq<Op>, id: Id16, hash: Hash)
    ensures Stands(s, ops, id, hash) ==> id in s.rows
    decreases |ops|
  {
    if ops != [] {
      StoodFirst(s, ops[..|ops| - 1], id, hash);
    }
  }

  /** With no chunk of the transfer stored at an index the head does not plan, the arrival is sound. */
  lemma NoStrayIsSound(s: Store, h: Head, hash: Hash)
    requires forall i :: i in ChunksOf(s.chunks, h.id) ==> i < (if h.inline.None? then h.count as nat else 1)
    ensures SoundArrival(s, h, hash)
  {
    if h.inline.None? {
      StoredLen(s, h.id);
      CoversIffCount(ChunksOf(s.chunks, h.id), h.count);
    }
  }

  // ---- whole runs ----

  /** Every head that is taken in passes the codec and the arrival test. */
  ghost predicate SoundRun(ops: seq<Op>, hash: Hash)
    decreases |ops|
  {
    ops != [] ==>
      var front, op := ops[..|ops| - 1], ops[|ops| - 1];
      var s := After(Store([], map[]), front, hash);
      && SoundRun(front, hash)
      && (op.HeadOp? && op.allowed && op.h.id !in s.rows ==> ValidHead(op.h) && SoundArrival(s, op.h, hash))
  }

  lemma {:induction false} RunIsGood(ops: seq<Op>, id: Id16, hash: Hash)
    requires SoundRun(ops, hash)
    ensures
      var s := After(Store([], map[]), ops, hash);
      id in s.rows ==> Good(s, id, hash)
    decreases |ops|
  {
    if ops != [] {
      var front, op := ops[..|ops| - 1], ops[|ops| - 1];
      var s := After(Store([], map[]), front, hash);
      RunIsGood(front, id, hash);
      if id in s.rows {
        StepIsGood(s, op, id, hash);
      } else if id in Step(s, op, hash).store.rows {
        NewRow(s, op, id, hash);
        SoundIsGood(s, op.h, hash);
      }
    }
  }

  /** Only its own head creates a row. */
  lemma NewRow(s: Store, op: Op, id: Id16, hash: Hash)
    requires id !in s.rows && id in Step(s, op, hash).store.rows
    ensures op.HeadOp? && op.allowed && op.h.id == id
  {
  }

  /** In every state of every run whose heads pass the arrival test, every attachment handed out has the
      length and hash its head announced. */
  lemma {:induction false} RunVerified(ops: seq<Op>, id: Id16, hash: Hash)
    requires SoundRun(ops, hash)
    ensures HandsOutVerified(After(Store([], map[]), ops, hash), id, hash)
  {
    var s := After(Store([], map[]), ops, hash);
    RunIsGood(ops, id, hash);
    if id in s.rows {
      GoodMeans(s, id, hash);
    }
  }

  // ---- completion and failure events ----

  /** Completion is announced with matching bytes, except that an inline head does not look at chunks stored
      beside its own. A chunked failure leaves neither row nor chunk; an inline mismatch removes the row and
      leaves the chunks. */
  lemma {:induction false} EventsMean(s: Store, op: Op, id: Id16, hash: Hash)
    requires op.HeadOp? ==> ValidHead(op.h)
    ensures
      var o := Step(s, op, hash);
      var inline := op.HeadOp? && op.h.inline.Some?;
      && (Complete(id) in o.events ==>
            && id in o.store.rows && o.store.rows[id].complete
            && (Matches(Flatten(Stored(o.store, id)), o.store.rows[id], hash) <==>
                  !inline || StraysEmpty(ChunksOf(s.chunks, id))))
      && (Failed(id) in o.events ==>
            id !in o.store.rows && ChunksOf(o.store.chunks, id) == if inline then ChunksOf(s.chunks, id) else map[])
  {
    match op {
      case HeadOp(h, allowed) =>
        if allowed && h.id !in s.rows {
          if h.inline.Some? {
            if hash(h.inline.value) == h.sha && !Conflicts(s, h.id, 0, h.inline.value) {
              InlineBytes(s, h, hash);
            }
          } else {
            TryMeans(s.(rows := s.rows[h.id := Row(h.n, h.count, h.sha, [], false, false)]), h.id, id, hash);
          }
        }
      case ChunkOp(c) =>
        if c.head in s.rows && c.index < s.rows[c.head].count {
          TryMeans(Received(s, c), c.head, id, hash);
        }
    }
  }

  lemma {:induction false} TryMeans(s: Store, head: Id16, id: Id16, hash: Hash)
    ensures
      var o := TryComplete(s, head, hash);
      && (Complete(id) in o.events ==>
            && id in o.store.rows && o.store.rows[id].complete
            && Matches(Flatten(Stored(o.store, id)), o.store.rows[id], hash))
      && (Failed(id) in o.events ==> id !in o.store.rows && ChunksOf(o.store.chunks, id) == map[])
  {
    WithoutHead(s.chunks, head, id);
  }

  // ---- two runs that fail the test ----

  function Orphan(id: Id16, index: U16, b: Byte): Op { ChunkOp(Chunk(id, index, false, [b])) }

  lemma {:induction false} OrphanStored(s: Store, id: Id16, index: U16, b: Byte, hash: Hash)
    requires s.rows == map[] && |s.chunks| <= 1 && (forall i :: 0 <= i < |s.chunks| ==> |s.chunks[i].data| == 1)
    requires index !in ChunksOf(s.chunks, id)
    ensures Step(s, Orphan(id, index, b), hash).store == Store(s.chunks + [ChunkRow(id, index, [b])], map[])
  {
    SmallStats(s.chunks, s.rows, Some(id));
    SmallStats(s.chunks, s.rows, None);
  }

  lemma {:induction false} SmallStats(chunks: seq<ChunkRow>, rows: map<Id16, Row>, only: Option<Id16>)
    requires |chunks| <= 1 && forall i :: 0 <= i < |chunks| ==> |chunks[i].data| == 1
    ensures Count(chunks, rows, only) <= 1 && Size(chunks, rows, only) <= 1
  {
    if chunks != [] {
      assert chunks[..0] == [];
    }
  }

  /** An inline head over an orphan at index 1: complete, and the bytes handed out are the inline bytes with
      the orphan's behind them. */
  lemma InlineOverOrphan(id: Id16, x: Byte, e: Byte, hash: Hash)
    ensures
      var s := Store([ChunkRow(id, 1, [e])], map[]);
      var o := OnHead(s, Head(id, 1, 0, hash([x]), Some([x])), true, hash);
      && Step(Store([], map[]), Orphan(id, 1, e), hash).store == s
      && o.events == [Complete(id)] && BytesOf(o.store, id) == Some([x, e])
  {
    var s := Store([ChunkRow(id, 1, [e])], map[]);
    OrphanStored(Store([], map[]), id, 1, e, hash);
    assert [] + [ChunkRow(id, 1, [e])] == [ChunkRow(id, 1, [e])];
    ChunksOfAppend([], ChunkRow(id, 1, [e]), id);
    ChunksOfAppend(s.chunks, ChunkRow(id, 0, [x]), id);
    var o := OnHead(s, Head(id, 1, 0, hash([x]), Some([x])), true, hash);
    var p := [[x], [e]];
    assert ChunksOf(o.store.chunks, id) == map[0 := [x], 1 := [e]];
    StoredDense(ChunksOf(o.store.chunks, id), p, INDEX_LIMIT);
    assert p[..2] == p == [[x]] + [[e]];
    FlattenFront([x], [[e]]);
    FlattenSingle(e);
    assert [x] + [e] == [x, e];
  }

  lemma {:induction false} TwoOrphans(id: Id16, x: Byte, e: Byte, hash: Hash)
    ensures
      var chunks := [ChunkRow(id, 0, [x]), ChunkRow(id, 5, [e])];
      && After(Store([], map[]), [Orphan(id, 0, x), Orphan(id, 5, e)], hash) == Store(chunks, map[])
      && ChunksOf(chunks, id) == map[0 := [x], 5 := [e]]
  {
    var empty, r0, r5 := Store([], map[]), ChunkRow(id, 0, [x]), ChunkRow(id, 5, [e]);
    var ops := [Orphan(id, 0, x), Orphan(id, 5, e)];
    assert ops[..1] == [Orphan(id, 0, x)] && ops[..1][..0] == [];
    assert [] + [r0] == [r0] && [r0] + [r5] == [r0, r5];
    ChunksOfAppend([], r0, id);
    ChunksOfAppend([r0], r5, id);
    OrphanStored(empty, id, 0, x, hash);
    OrphanStored(Store([r0], map[]), id, 5, e, hash);
    assert After(empty, ops[..1][..0], hash) == empty;
    assert After(empty, ops[..1], hash) == Store([r0], map[]);
  }

  /** A chunked head over orphans at indices 0 and 5 that match its announcement: complete, and the missing
      chunk 1 changes the bytes handed out afterwards. */
  lemma GapThenChunk(id: Id16, x: Byte, y: Byte, e: Byte, hash: Hash)
    ensures
      var s := Store([ChunkRow(id, 0, [x]), ChunkRow(id, 5, [e])], map[]);
      var o := OnHead(s, Head(id, 2, 2, hash([x, e]), None), true, hash);
      && After(Store([], map[]), [Orphan(id, 0, x), Orphan(id, 5, e)], hash) == s
      && o.events == [Complete(id)] && BytesOf(o.store, id) == Some([x, e])
      && BytesOf(Step(o.store, Orphan(id, 1, y), hash).store, id) == Some([x, y, e])
  {
    var s := Store([ChunkRow(id, 0, [x]), ChunkRow(id, 5, [e])], map[]);
    TwoOrphans(id, x, e, hash);
    StoredSparse(map[0 := [x], 5 := [e]], x, None, e, INDEX_LIMIT);
    LateFiller(OnHead(s, Head(id, 2, 2, hash([x, e]), None), true, hash).store, id, x, y, e, hash);
  }

  lemma {:induction false} LateFiller(s: Store, id: Id16, x: Byte, y: Byte, e: Byte, hash: Hash)
    requires id in s.rows && s.rows[id].complete && !s.rows[id].consumed && s.rows[id].count == 2
    requires ChunksOf(s.chunks, id) == map[0 := [x], 5 := [e]]
    ensures BytesOf(Step(s, Orphan(id, 1, y), hash).store, id) == Some([x, y, e])
  {
    ChunksOfAppend(s.chunks, ChunkRow(id, 1, [y]), id);
    var c: Chunks := map[0 := [x], 1 := [y], 5 := [e]];
    assert ChunksOf(s.chunks + [ChunkRow(id, 1, [y])], id) == c;
    StoredSparse(c, x, Some(y), e, INDEX_LIMIT);
  }

  /** What is stored under indices 0, perhaps 1, and 5. */
  lemma {:induction false} StoredSparse(c: Chunks, x: Byte, y: Option<Byte>, e: Byte, n: nat)
    requires c == if y.Some? then map[0 := [x], 1 := [y.value], 5 := [e]] else map[0 := [x], 5 := [e]]
    requires n >= 6
    ensures StoredList(c, n) == if y.Some? then [[x], [y.value], [e]] else [[x], [e]]
    ensures Flatten(StoredList(c, n)) == if y.Some? then [x, y.value, e] else [x, e]
    decreases n
  {
    if n == 6 {
      assert StoredList(c, 1) == [[x]];
      assert StoredList(c, 2) == if y.Some? then [[x], [y.value]] else [[x]];
      assert StoredList(c, 3) == StoredList(c, 4) == StoredList(c, 5) == StoredList(c, 2);
      FlattenSingle(e);
      if y.Some? {
        FlattenFront([y.value], [[e]]);
        FlattenFront([x], [[y.value]] + [[e]]);
        assert StoredList(c, 6) == [[x]] + ([[y.value]] + [[e]]);
        assert [x] + ([y.value] + [e]) == [x, y.value, e];
      } else {
        FlattenFront([x], [[e]]);
        assert StoredList(c, 6) == [[x]] + [[e]];
      }
    } else {
      StoredSparse(c, x, y, e, n - 1);
    }
  }

  lemma FlattenSingle(e: Byte)
    ensures Flatten([[e]]) == [e]
  {
    var one: seq<seq<Byte>> := [[e]];
    assert one[..0] == [] && [] + [e] == [e];
  }

  /** A stray chunk alone does no harm: a head that still waits for chunks arrives soundly over it. */
  lemma StrayMayWait(id: Id16, e: Byte, n: nat, sha: seq<Byte>, hash: Hash)
    ensures SoundArrival(Store([ChunkRow(id, 5, [e])], map[]), Head(id, n, 2, sha, None), hash)
  {
    var s := Store([ChunkRow(id, 5, [e])], map[]);
    ChunksOfAppend([], ChunkRow(id, 5, [e]), id);
    assert [] + [ChunkRow(id, 5, [e])] == s.chunks;
    StoredLen(s, id);
    var c := ChunksOf(s.chunks, id);
    assert c.Keys == {5} && |c| == |c.Keys|;
  }

  // ---- progress ----

  /** The bitmap shows indices of the plan only. */
  ghost predicate BitmapFits(row: Row) {
    |row.bitmap| <= Need(row.count) && forall j: nat :: Bit(row.bitmap, j) ==> j < row.count
  }

  ghost predicate RowsFit(s: Store) {
    forall id :: id in s.rows ==> BitmapFits(s.rows[id])
  }

  lemma NotedFits(row: Row, index: U16)
    requires BitmapFits(row) && index < row.count
    ensures BitmapFits(Noted(row, index)) && |Noted(row, index).bitmap| == Need(row.count)
    ensures forall j: nat :: Bit(Noted(row, index).bitmap, j) <==> Bit(row.bitmap, j) || j == index
  {
    var r := Resized(row.bitmap, Need(row.count));
    ResizedBits(row.bitmap, Need(row.count));
    SetBitSpec(r, index);
  }

  lemma FullFits(row: Row)
    ensures BitmapFits(row.(bitmap := FullBitmap(row.count), complete := true))
  {
    FullBitmapSpec(row.count);
  }

  lemma TryFits(s: Store, head: Id16, hash: Hash)
    requires RowsFit(s)
    ensures RowsFit(TryComplete(s, head, hash).store)
  {
    if head in s.rows {
      FullFits(s.rows[head]);
    }
  }

  lemma StepFits(s: Store, op: Op, hash: Hash)
    requires RowsFit(s)
    ensures RowsFit(Step(s, op, hash).store)
  {
    match op {
      case HeadOp(h, _) =>
        if h.id !in s.rows {
          TryFits(s.(rows := s.rows[h.id := Row(h.n, h.count, h.sha, [], false, false)]), h.id, hash);
        }
      case ChunkOp(c) =>
        if c.head in s.rows && c.index < s.rows[c.head].count {
          NotedFits(s.rows[c.head], c.index);
          TryFits(Received(s, c), c.head, hash);
        }
    }
  }

  lemma {:induction false} RunFits(ops: seq<Op>, hash: Hash)
    ensures RowsFit(After(Store([], map[]), ops, hash))
    decreases |ops|
  {
    if ops != [] {
      RunFits(ops[..|ops| - 1], hash);
      StepFits(After(Store([], map[]), ops[..|ops| - 1], hash), ops[|ops| - 1], hash);
    }
  }

  /** The indices of the plan that came after the head, this one included. */
  ghost function Arrived(row: Row, index: nat): set<nat> {
    set j | 0 <= j < row.count && (j == index || Bit(row.bitmap, j))
  }

  lemma NotedCount(row: Row, index: U16)
    requires BitmapFits(row) && index < row.count
    ensures PopCount(Noted(row, index).bitmap) == |Arrived(row, index)|
  {
    var b := Noted(row, index).bitmap;
    NotedFits(row, index);
    PopCountIsBits(b);
    BitsSetTail(b, row.count, 8 * |b|);
    BitsSetCard(b, row.count);
    assert SetBits(b, row.count) == Arrived(row, index);
  }

  /** In every state any traffic leads to, a data chunk of a known head that is in its plan and contradicts nothing
      raises progress, with the number of different indices that came since the head and the number planned,
      exactly while some are missing. */
  lemma {:induction false} ProgressExact(ops: seq<Op>, c: Chunk, hash: Hash)
    requires
      var s := After(Store([], map[]), ops, hash);
      !c.pad && c.head in s.rows && c.index < s.rows[c.head].count && !Conflicts(s, c.head, c.index, c.data)
    ensures
      var s := After(Store([], map[]), ops, hash);
      var row, events := s.rows[c.head], OnChunk(s, c, hash).events;
      if |Arrived(row, c.index)| < row.count then events == [Progress(c.head, |Arrived(row, c.index)|, row.count)]
      else forall k, n :: Progress(c.head, k, n) !in events
  {
    RunFits(ops, hash);
    var s := After(Store([], map[]), ops, hash);
    NotedCount(s.rows[c.head], c.index);
  }
}
