/** Chunks without a head are bounded, whatever a peer sends: per head and over all heads, in number and in bytes. */
module OrphanCaps {
  import opened Bytes
  import opened Pieces
  import opened AttachStore
  import AttachIntegrity
  import AttachRetention

  // ---- the sums ----

  /** What is stored for one head. */
  function ChunksHeld(s: Store, head: Id16): nat { |ChunksOf(s.chunks, head)| }

  function BytesHeld(s: Store, head: Id16): nat { SumLen(ChunksOf(s.chunks, head), INDEX_LIMIT) }

  function AllChunks(s: Store, heads: seq<Id16>): nat {
    if heads == [] then 0 else AllChunks(s, heads[..|heads| - 1]) + ChunksHeld(s, heads[|heads| - 1])
  }

  function AllBytes(s: Store, heads: seq<Id16>): nat {
    if heads == [] then 0 else AllBytes(s, heads[..|heads| - 1]) + BytesHeld(s, heads[|heads| - 1])
  }

  predicate Distinct(heads: seq<Id16>) {
    forall i, j :: 0 <= i < j < |heads| ==> heads[i] != heads[j]
  }

  /** Different heads, none of which has a row. */
  predicate Headless(s: Store, heads: seq<Id16>) {
    Distinct(heads) && forall h :: h in heads ==> h !in s.rows
  }

  /** All heads of stored chunks that have no row. */
  predicate ListsOrphans(s: Store, heads: seq<Id16>) {
    Headless(s, heads) && forall k :: 0 <= k < |s.chunks| && s.chunks[k].head !in s.rows ==> s.chunks[k].head in heads
  }

  // ---- the table holds one chunk per head and index ----

  predicate NoRepeats(chunks: seq<ChunkRow>) {
    chunks == [] ||
    (NoRepeats(chunks[..|chunks| - 1])
     && chunks[|chunks| - 1].index as nat !in ChunksOf(chunks[..|chunks| - 1], chunks[|chunks| - 1].head))
  }

  lemma {:induction false} NoRepeatsPut(chunks: seq<ChunkRow>, r: ChunkRow)
    requires NoRepeats(chunks) && r.index as nat !in ChunksOf(chunks, r.head)
    ensures NoRepeats(chunks + [r])
  {
    assert (chunks + [r])[..|chunks|] == chunks;
  }

  lemma {:induction false} NoRepeatsWithout(chunks: seq<ChunkRow>, head: Id16)
    requires NoRepeats(chunks)
    ensures NoRepeats(Without(chunks, head))
    decreases |chunks|
  {
    if chunks != [] {
      var front, r := chunks[..|chunks| - 1], chunks[|chunks| - 1];
      NoRepeatsWithout(front, head);
      if r.head != head {
        WithoutHead(front, head, r.head);
        NoRepeatsPut(Without(front, head), r);
      }
    }
  }

  lemma {:induction false} NoRepeatsWithoutAll(chunks: seq<ChunkRow>, heads: set<Id16>)
    requires NoRepeats(chunks)
    ensures NoRepeats(AttachRetention.WithoutAll(chunks, heads))
    decreases |chunks|
  {
    if chunks != [] {
      var front, r := chunks[..|chunks| - 1], chunks[|chunks| - 1];
      NoRepeatsWithoutAll(front, heads);
      if r.head !in heads {
        AttachRetention.WithoutAllOf(front, heads, r.head);
        NoRepeatsPut(AttachRetention.WithoutAll(front, heads), r);
      }
    }
  }

  // ---- the statistics queries are those sums ----

  lemma {:induction false} CountIsHeld(chunks: seq<ChunkRow>, rows: map<Id16, Row>, head: Id16)
    requires NoRepeats(chunks)
    ensures Count(chunks, rows, Some(head)) == |ChunksOf(chunks, head)|
    ensures Size(chunks, rows, Some(head)) == SumLen(ChunksOf(chunks, head), INDEX_LIMIT)
    decreases |chunks|
  {
    if chunks == [] {
      SumLenEmpty(INDEX_LIMIT);
    } else {
      var front, r := chunks[..|chunks| - 1], chunks[|chunks| - 1];
      CountIsHeld(front, rows, head);
      if r.head == head {
        SumLenPut(ChunksOf(front, head), r.index, r.data, INDEX_LIMIT);
      }
    }
  }

  /** One more chunk of a listed head adds one to the sums; of another head, nothing. */
  lemma {:induction false} SumsPut(s: Store, r: ChunkRow, heads: seq<Id16>)
    requires Distinct(heads) && r.index as nat !in ChunksOf(s.chunks, r.head)
    ensures
      var s' := s.(chunks := s.chunks + [r]);
      && AllChunks(s', heads) == AllChunks(s, heads) + (if r.head in heads then 1 else 0)
      && AllBytes(s', heads) == AllBytes(s, heads) + (if r.head in heads then |r.data| else 0)
    decreases |heads|
  {
    if heads != [] {
      var front, last := heads[..|heads| - 1], heads[|heads| - 1];
      SumsPut(s, r, front);
      ChunksOfAppend(s.chunks, r, last);
      if r.head == last {
        SumLenPut(ChunksOf(s.chunks, last), r.index, r.data, INDEX_LIMIT);
      }
      assert heads == front + [last];
    }
  }

  lemma {:induction false} SumsEmpty(rows: map<Id16, Row>, heads: seq<Id16>)
    ensures AllChunks(Store([], rows), heads) == 0 && AllBytes(Store([], rows), heads) == 0
    decreases |heads|
  {
    if heads != [] {
      SumsEmpty(rows, heads[..|heads| - 1]);
      SumLenEmpty(INDEX_LIMIT);
    }
  }

  /** Any different heads without rows hold at most what the query counts; all of them hold exactly that. */
  lemma {:induction false} CountIsAll(chunks: seq<ChunkRow>, rows: map<Id16, Row>, heads: seq<Id16>)
    requires NoRepeats(chunks) && Headless(Store(chunks, rows), heads)
    ensures AllChunks(Store(chunks, rows), heads) <= Count(chunks, rows, None)
    ensures AllBytes(Store(chunks, rows), heads) <= Size(chunks, rows, None)
    ensures ListsOrphans(Store(chunks, rows), heads) ==>
      && AllChunks(Store(chunks, rows), heads) == Count(chunks, rows, None)
      && AllBytes(Store(chunks, rows), heads) == Size(chunks, rows, None)
    decreases |chunks|
  {
    if chunks == [] {
      SumsEmpty(rows, heads);
    } else {
      var front, r := chunks[..|chunks| - 1], chunks[|chunks| - 1];
      CountIsAll(front, rows, heads);
      SumsPut(Store(front, rows), r, heads);
      assert chunks == front + [r];
      if ListsOrphans(Store(chunks, rows), heads) {
        assert chunks[|front|] == r;
        assert ListsOrphans(Store(front, rows), heads) by {
          assert forall k :: 0 <= k < |front| ==> front[k] == chunks[k];
        }
      }
    }
  }

  // ---- every operation keeps the caps ----

  /** The caps, as the queries see them. */
  ghost predicate Capped(s: Store) {
    && NoRepeats(s.chunks)
    && (forall head :: head !in s.rows ==> HeadCapped(s, head))
    && Count(s.chunks, s.rows, None) <= MAX_ORPHAN_CHUNKS_PER_REL && Size(s.chunks, s.rows, None) <= MAX_ORPHAN_BYTES_PER_REL
  }

  ghost predicate HeadCapped(s: Store, head: Id16) {
    && Count(s.chunks, s.rows, Some(head)) <= MAX_ORPHAN_CHUNKS_PER_HEAD
    && Size(s.chunks, s.rows, Some(head)) <= MAX_ORPHAN_BYTES_PER_HEAD
  }

  lemma {:induction false} CountPut(chunks: seq<ChunkRow>, r: ChunkRow, rows: map<Id16, Row>, only: Option<Id16>)
    ensures Count(chunks + [r], rows, only) == Count(chunks, rows, only) + if Counted(r, rows, only) then 1 else 0
    ensures Size(chunks + [r], rows, only) == Size(chunks, rows, only) + if Counted(r, rows, only) then |r.data| else 0
  {
    assert (chunks + [r])[..|chunks|] == chunks;
  }

  /** Fewer chunks of which none lost its row, or rows for more heads: no query counts more. */
  lemma {:induction false} CountRows(chunks: seq<ChunkRow>, rows: map<Id16, Row>, rows': map<Id16, Row>, only: Option<Id16>)
    requires rows.Keys <= rows'.Keys
    ensures Count(chunks, rows', only) <= Count(chunks, rows, only) && Size(chunks, rows', only) <= Size(chunks, rows, only)
    decreases |chunks|
  {
    if chunks != [] {
      CountRows(chunks[..|chunks| - 1], rows, rows', only);
    }
  }

  lemma {:induction false} CountWithout(
      chunks: seq<ChunkRow>, head: Id16, rows: map<Id16, Row>, rows': map<Id16, Row>, only: Option<Id16>)
    requires forall h :: h in rows && h != head ==> h in rows'
    ensures Count(Without(chunks, head), rows', only) <= Count(chunks, rows, only)
    ensures Size(Without(chunks, head), rows', only) <= Size(chunks, rows, only)
    decreases |chunks|
  {
    if chunks != [] {
      var front, r := chunks[..|chunks| - 1], chunks[|chunks| - 1];
      CountWithout(front, head, rows, rows', only);
      if r.head != head {
        CountPut(Without(front, head), r, rows', only);
        assert Counted(r, rows', only) ==> Counted(r, rows, only);
      }
    }
  }

  lemma {:induction false} CountWithoutAll(chunks: seq<ChunkRow>, heads: set<Id16>, rows: map<Id16, Row>, only: Option<Id16>)
    ensures Count(AttachRetention.WithoutAll(chunks, heads), rows - heads, only) <= Count(chunks, rows, only)
    ensures Size(AttachRetention.WithoutAll(chunks, heads), rows - heads, only) <= Size(chunks, rows, only)
    decreases |chunks|
  {
    if chunks != [] {
      var front, r := chunks[..|chunks| - 1], chunks[|chunks| - 1];
      CountWithoutAll(front, heads, rows, only);
      if r.head !in heads {
        CountPut(AttachRetention.WithoutAll(front, heads), r, rows - heads, only);
      }
    }
  }

  lemma {:induction false} CountNone(chunks: seq<ChunkRow>, head: Id16, rows: map<Id16, Row>)
    ensures Count(Without(chunks, head), rows, Some(head)) == 0 && Size(Without(chunks, head), rows, Some(head)) == 0
    decreases |chunks|
  {
    if chunks != [] {
      var front, r := chunks[..|chunks| - 1], chunks[|chunks| - 1];
      CountNone(front, head, rows);
      if r.head != head {
        CountPut(Without(front, head), r, rows, Some(head));
      }
    }
  }

  lemma PutKnown(s: Store, head: Id16, index: U16, data: seq<Byte>)
    requires Capped(s) && head in s.rows
    ensures Capped(PutChunk(s, head, index, data))
  {
    if index as nat !in ChunksOf(s.chunks, head) {
      var r := ChunkRow(head, index, data);
      NoRepeatsPut(s.chunks, r);
      CountPut(s.chunks, r, s.rows, None);
      forall h | h !in s.rows ensures HeadCapped(PutChunk(s, head, index, data), h) {
        assert HeadCapped(s, h);
        CountPut(s.chunks, r, s.rows, Some(h));
      }
    }
  }

  lemma PutOrphan(s: Store, c: Chunk)
    requires Capped(s) && c.head !in s.rows && !OverOrphanCaps(s, c)
    ensures Capped(PutChunk(s, c.head, c.index, c.data))
  {
    if c.index as nat !in ChunksOf(s.chunks, c.head) {
      var r := ChunkRow(c.head, c.index, c.data);
      NoRepeatsPut(s.chunks, r);
      CountPut(s.chunks, r, s.rows, None);
      forall h | h !in s.rows ensures HeadCapped(PutChunk(s, c.head, c.index, c.data), h) {
        assert HeadCapped(s, h);
        CountPut(s.chunks, r, s.rows, Some(h));
      }
    }
  }

  /** A row more, or other contents in a row. */
  lemma RowsMore(s: Store, rows: map<Id16, Row>)
    requires Capped(s) && s.rows.Keys <= rows.Keys
    ensures Capped(s.(rows := rows))
  {
    CountRows(s.chunks, s.rows, rows, None);
    forall h | h !in rows ensures HeadCapped(s.(rows := rows), h) {
      assert HeadCapped(s, h);
      CountRows(s.chunks, s.rows, rows, Some(h));
    }
  }

  /** A transfer erased with its row, or its chunks alone. */
  lemma {:induction false} HeadGone(s: Store, head: Id16, rows: map<Id16, Row>)
    requires Capped(s) && forall h :: h in s.rows && h != head ==> h in rows
    ensures Capped(Store(Without(s.chunks, head), rows))
  {
    var s' := Store(Without(s.chunks, head), rows);
    NoRepeatsWithout(s.chunks, head);
    CountWithout(s.chunks, head, s.rows, rows, None);
    forall h | h !in rows ensures HeadCapped(s', h) {
      if h == head {
        CountNone(s.chunks, head, rows);
      } else {
        assert HeadCapped(s, h);
        CountWithout(s.chunks, head, s.rows, rows, Some(h));
      }
    }
  }

  lemma TryKeepsCaps(s: Store, head: Id16, hash: Hash)
    requires Capped(s)
    ensures Capped(TryComplete(s, head, hash).store)
  {
    if head in s.rows {
      HeadGone(s, head, s.rows - {head});
      RowsMore(s, s.rows[head := s.rows[head].(bitmap := FullBitmap(s.rows[head].count), complete := true)]);
    }
  }

  lemma ChunkKeepsCaps(s: Store, c: Chunk, hash: Hash)
    requires Capped(s)
    ensures Capped(OnChunk(s, c, hash).store)
  {
    if !c.pad && !Refused(s, c) && !Conflicts(s, c.head, c.index, c.data) {
      if c.head !in s.rows {
        PutOrphan(s, c);
      } else {
        PutKnown(s, c.head, c.index, c.data);
        var s1 := PutChunk(s, c.head, c.index, c.data);
        RowsMore(s1, s1.rows[c.head := Noted(s1.rows[c.head], c.index)]);
        TryKeepsCaps(Received(s, c), c.head, hash);
      }
    }
  }

  lemma HeadKeepsCaps(s: Store, h: Head, allowed: bool, hash: Hash)
    requires Capped(s)
    ensures Capped(OnHead(s, h, allowed, hash).store)
  {
    if allowed && h.id !in s.rows {
      var row := Row(h.n, h.count, h.sha, [], false, false);
      var s1 := s.(rows := s.rows[h.id := row]);
      RowsMore(s, s1.rows);
      if h.inline.None? {
        TryKeepsCaps(s1, h.id, hash);
      } else {
        assert s1.rows - {h.id} == s.rows;
        PutKnown(s1, h.id, 0, h.inline.value);
        var s2 := PutChunk(s1, h.id, 0, h.inline.value);
        RowsMore(s2, s2.rows[h.id := row.(complete := true)]);
      }
    }
  }

  lemma StepKeepsCaps(s: Store, op: AttachIntegrity.Op, hash: Hash)
    requires Capped(s)
    ensures Capped(AttachIntegrity.Step(s, op, hash).store)
  {
    match op {
      case HeadOp(h, allowed) => HeadKeepsCaps(s, h, allowed, hash);
      case ChunkOp(c) => ChunkKeepsCaps(s, c, hash);
    }
  }

  lemma DropKeepsCaps(s: Store, heads: set<Id16>)
    requires Capped(s)
    ensures Capped(AttachRetention.DropAll(s, heads))
  {
    var s' := AttachRetention.DropAll(s, heads);
    NoRepeatsWithoutAll(s.chunks, heads);
    CountWithoutAll(s.chunks, heads, s.rows, None);
    forall h | h !in s'.rows ensures HeadCapped(s', h) {
      if h in heads {
        NoneLeft(s.chunks, heads, s'.rows, h);
      } else {
        assert HeadCapped(s, h);
        CountWithoutAll(s.chunks, heads, s.rows, Some(h));
      }
    }
  }

  lemma {:induction false} NoneLeft(chunks: seq<ChunkRow>, heads: set<Id16>, rows: map<Id16, Row>, h: Id16)
    requires h in heads
    ensures Count(AttachRetention.WithoutAll(chunks, heads), rows, Some(h)) == 0
    ensures Size(AttachRetention.WithoutAll(chunks, heads), rows, Some(h)) == 0
    decreases |chunks|
  {
    if chunks != [] {
      var front, r := chunks[..|chunks| - 1], chunks[|chunks| - 1];
      NoneLeft(front, heads, rows, h);
      if r.head !in heads {
        CountPut(AttachRetention.WithoutAll(front, heads), r, rows, Some(h));
      }
    }
  }

  lemma VaultKeepsCaps(v: AttachRetention.Vault, t: AttachRetention.Step, hash: Hash)
    requires Capped(v.store)
    ensures Capped(AttachRetention.Next(v, t, hash).store)
  {
    match t {
      case Act(a) => DropKeepsCaps(v.store, AttachRetention.Erased(v, a));
      case Media(_, op, _) => StepKeepsCaps(v.store, op, hash);
      case Viewed(id) =>
        if id in v.store.rows {
          HeadGone(v.store, id, v.store.rows[id := v.store.rows[id].(consumed := true)]);
        }
      case BurnClosed => DropKeepsCaps(v.store, v.store.rows.Keys);
    }
  }

  // ---- the caps hold ----

  /** Each head without a row holds at most 1024 chunks and 25 MiB, any set of such heads together at most 4096
      chunks and 64 MiB. */
  ghost predicate WithinCaps(s: Store) {
    && (forall head :: head !in s.rows ==> ChunksHeld(s, head) <= 1_024 && BytesHeld(s, head) <= 26_214_400)
    && (forall heads :: Headless(s, heads) ==> AllChunks(s, heads) <= 4_096 && AllBytes(s, heads) <= 67_108_864)
  }

  lemma CappedMeans(s: Store)
    requires Capped(s)
    ensures WithinCaps(s)
  {
    forall head | head !in s.rows ensures ChunksHeld(s, head) <= 1_024 && BytesHeld(s, head) <= 26_214_400 {
      assert HeadCapped(s, head);
      CountIsHeld(s.chunks, s.rows, head);
    }
    forall heads | Headless(s, heads) ensures AllChunks(s, heads) <= 4_096 && AllBytes(s, heads) <= 67_108_864 {
      CountIsAll(s.chunks, s.rows, heads);
    }
  }

  lemma EmptyIsCapped()
    ensures Capped(Store([], map[]))
  {
  }

  /** After every sequence of heads and chunks a peer may send, the caps hold. */
  lemma {:induction false} TrafficWithinCaps(ops: seq<AttachIntegrity.Op>, hash: Hash)
    ensures Capped(AttachIntegrity.After(Store([], map[]), ops, hash))
    ensures WithinCaps(AttachIntegrity.After(Store([], map[]), ops, hash))
    decreases |ops|
  {
    if ops == [] {
      EmptyIsCapped();
    } else {
      var front := ops[..|ops| - 1];
      TrafficWithinCaps(front, hash);
      StepKeepsCaps(AttachIntegrity.After(Store([], map[]), front, hash), ops[|ops| - 1], hash);
    }
    CappedMeans(AttachIntegrity.After(Store([], map[]), ops, hash));
  }

  lemma VaultStepKeepsCaps(trace: seq<AttachRetention.Vault>, steps: seq<AttachRetention.Step>, hash: Hash, k: nat)
    requires AttachRetention.IsPath(trace, steps, hash) && k < |steps| && Capped(trace[k].store)
    ensures Capped(trace[k + 1].store)
  {
    assert AttachRetention.IsStep(trace, steps, k, hash);
    VaultKeepsCaps(trace[k], steps[k], hash);
  }

  /** They also hold in every run of the vault, through deletions, erasures, viewings and burns. */
  lemma {:induction false} RunWithinCaps(trace: seq<AttachRetention.Vault>, steps: seq<AttachRetention.Step>, hash: Hash, i: nat)
    requires AttachRetention.IsPath(trace, steps, hash) && i < |trace| && trace[0].store == Store([], map[])
    ensures Capped(trace[i].store) && WithinCaps(trace[i].store)
  {
    if i == 0 {
      EmptyIsCapped();
    } else {
      RunWithinCaps(trace, steps, hash, i - 1);
      VaultStepKeepsCaps(trace, steps, hash, i - 1);
    }
    CappedMeans(trace[i].store);
  }

  /** One of the four sums leaves no room for `n` more bytes in one more chunk of `head`. */
  predicate NoRoom(s: Store, head: Id16, n: nat, orphans: seq<Id16>) {
    || ChunksHeld(s, head) >= 1_024 || BytesHeld(s, head) + n > 26_214_400
    || AllChunks(s, orphans) >= 4_096 || AllBytes(s, orphans) + n > 67_108_864
  }

  /** After any traffic, a data chunk of an unknown head is dropped, with its event, exactly when one of the four
      sums leaves no room; then nothing changes. Otherwise it raises nothing and is in the table, unless other
      bytes are already there under its index. */
  lemma {:induction false} DroppedIff(ops: seq<AttachIntegrity.Op>, c: Chunk, orphans: seq<Id16>, hash: Hash)
    requires
      var s := AttachIntegrity.After(Store([], map[]), ops, hash);
      !c.pad && c.head !in s.rows && ListsOrphans(s, orphans)
    ensures
      var s := AttachIntegrity.After(Store([], map[]), ops, hash);
      var o := OnChunk(s, c, hash);
      && (Dropped(c.head) in o.events <==> NoRoom(s, c.head, |c.data|, orphans))
      && (Dropped(c.head) in o.events ==> o.store == s && o.events == [Dropped(c.head)])
      && (Dropped(c.head) !in o.events ==> o.events == [] && c.index as nat in ChunksOf(o.store.chunks, c.head))
      && (Dropped(c.head) !in o.events && c.index as nat !in ChunksOf(s.chunks, c.head) ==>
            o.ok && ChunksOf(o.store.chunks, c.head)[c.index as nat] == c.data)
  {
    var s := AttachIntegrity.After(Store([], map[]), ops, hash);
    TrafficWithinCaps(ops, hash);
    CountIsHeld(s.chunks, s.rows, c.head);
    CountIsAll(s.chunks, s.rows, orphans);
    ChunksOfAppend(s.chunks, ChunkRow(c.head, c.index, c.data), c.head);
  }

  /** The list of orphans that the last theorem speaks of always exists. */
  lemma {:induction false} OrphansListed(chunks: seq<ChunkRow>, rows: map<Id16, Row>) returns (heads: seq<Id16>)
    ensures ListsOrphans(Store(chunks, rows), heads)
    decreases |chunks|
  {
    if chunks == [] {
      heads := [];
    } else {
      var front, r := chunks[..|chunks| - 1], chunks[|chunks| - 1];
      var some := OrphansListed(front, rows);
      heads := if r.head in rows || r.head in some then some else some + [r.head];
      forall k | 0 <= k < |chunks| && chunks[k].head !in rows ensures chunks[k].head in heads {
        assert k < |front| ==> front[k] == chunks[k];
      }
    }
  }
}
