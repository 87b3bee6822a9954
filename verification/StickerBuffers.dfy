/** The RAM reassembly buffers for chunked sticker items, pack documents and thumbnail documents. */
module StickerBuffers {
  import opened Bytes
  import opened Pieces
  import PackDoc

  /** ITEM_CHUNK_MAX and PACK_CHUNK_MAX. */
  const CHUNK_MAX: nat := 27_500
  const PENDING_CHUNK_TTL_SEC: nat := 600

  type Key = string

  datatype Pending = Pending(count: nat, chunks: Chunks, total: nat, createdAt: nat)

  type Table = map<Key, Pending>

  /** Entries per table and bytes per entry. */
  datatype Quota = Quota(entries: nat, bytes: nat)

  const ITEM_QUOTA := Quota(64, 8 * 1024 * 1024)
  const PACK_QUOTA := Quota(4, PackDoc.MAX_PACK_DOC_BYTES)
  const THUMBS_QUOTA := Quota(4, 512 * 1024)

  // ---- one entry ----

  predicate Ignored(p: Pending, index: nat) { index >= p.count || index in p.chunks }

  function Added(p: Pending, index: nat, data: seq<Byte>): Pending {
    if Ignored(p, index) then p else p.(chunks := p.chunks[index := data], total := p.total + |data|)
  }

  /** The blob, when the chunk is the last one missing. */
  function AddOutcome(p: Pending, index: nat, data: seq<Byte>): Option<seq<Byte>> {
    var chunks := p.chunks[index := data];
    if !Ignored(p, index) && Covers(chunks, p.count) then Some(Joined(chunks, p.count)) else None
  }

  // ---- one table ----

  function Feed(t: Table, quota: Quota, key: Key, index: nat, count: nat, data: seq<Byte>, now: nat)
    : (Table, Option<seq<Byte>>)
  {
    if key !in t && |t| >= quota.entries then (t, None) else
    var p := if key in t then t[key] else Pending(count, map[], 0, now);
    if p.count != count then (t, None) else Put(t, quota, key, p, index, data)
  }

  /** Add a chunk to entry `p` of the table; over the byte cap the entry is dropped, when complete it is
      taken out. */
  function Put(t: Table, quota: Quota, key: Key, p: Pending, index: nat, data: seq<Byte>): (Table, Option<seq<Byte>>) {
    if p.total + |data| > quota.bytes then (t - {key}, None)
    else if AddOutcome(p, index, data).Some? then (t - {key}, AddOutcome(p, index, data))
    else (t[key := Added(p, index, data)], None)
  }

  function Sweep(t: Table, now: nat): Table {
    map k | k in t && now < t[k].createdAt + PENDING_CHUNK_TTL_SEC :: t[k]
  }

  datatype Event =
    | FeedChunk(key: Key, index: nat, count: nat, data: seq<Byte>, now: nat)
    | SweepAt(now: nat)
    | Forget

  function Apply(t: Table, quota: Quota, e: Event): Table {
    match e
    case FeedChunk(key, index, count, data, now) => Feed(t, quota, key, index, count, data, now).0
    case SweepAt(now) => Sweep(t, now)
    case Forget => map[]
  }

  function Output(t: Table, quota: Quota, e: Event): Option<seq<Byte>> {
    match e
    case FeedChunk(key, index, count, data, now) => Feed(t, quota, key, index, count, data, now).1
    case _ => None
  }

  function After(t: Table, quota: Quota, events: seq<Event>): Table {
    if events == [] then t else Apply(After(t, quota, events[..|events| - 1]), quota, events[|events| - 1])
  }

  // ---- what every run keeps ----

  ghost predicate PendingOk(p: Pending) {
    && (forall i :: i in p.chunks ==> i < p.count)
    && p.total == SumLen(p.chunks, p.count)
  }

  /** Indices in range, the byte total exact and capped, and never a complete entry. */
  ghost predicate EntryOk(p: Pending, quota: Quota) {
    PendingOk(p) && p.total <= quota.bytes && (p.count > 0 ==> !Covers(p.chunks, p.count))
  }

  ghost predicate TableOk(t: Table, quota: Quota) {
    |t| <= quota.entries && forall k :: k in t ==> EntryOk(t[k], quota)
  }

  lemma AddedOk(p: Pending, index: nat, data: seq<Byte>, quota: Quota)
    requires EntryOk(p, quota) && p.total + |data| <= quota.bytes && AddOutcome(p, index, data).None?
    ensures EntryOk(Added(p, index, data), quota)
  {
    if !Ignored(p, index) {
      SumLenPut(p.chunks, index, data, p.count);
    }
  }

  lemma FreshOk(quota: Quota, count: nat, now: nat)
    ensures EntryOk(Pending(count, map[], 0, now), quota)
  {
    SumLenEmpty(count);
    var none: Chunks := map[];
    assert 0 !in none;
  }

  lemma PutCard(t: Table, key: Key, p: Pending)
    ensures |t[key := p]| == if key in t then |t| else |t| + 1
  {
    var u := t[key := p];
    assert |u| == |u.Keys| && |t| == |t.Keys|;
    if key in t {
      assert u.Keys == t.Keys;
    } else {
      assert u.Keys == t.Keys + {key};
    }
  }

  lemma SubCard(t: Table, u: Table)
    requires u.Keys <= t.Keys
    ensures |u| <= |t|
  {
    var gone := t.Keys - u.Keys;
    assert t.Keys == u.Keys + gone && |t| == |t.Keys| && |u| == |u.Keys|;
  }

  lemma FeedKeepsOk(t: Table, quota: Quota, e: Event)
    requires TableOk(t, quota) && e.FeedChunk?
    ensures TableOk(Apply(t, quota, e), quota)
  {
    if e.key in t || |t| < quota.entries {
      var p := if e.key in t then t[e.key] else Pending(e.count, map[], 0, e.now);
      FreshOk(quota, e.count, e.now);
      var t' := Apply(t, quota, e);
      if p.count == e.count && p.total + |e.data| <= quota.bytes && AddOutcome(p, e.index, e.data).None? {
        AddedOk(p, e.index, e.data, quota);
        PutCard(t, e.key, Added(p, e.index, e.data));
      } else {
        SubCard(t, t');
      }
    }
  }

  lemma ApplyKeepsOk(t: Table, quota: Quota, e: Event)
    requires TableOk(t, quota)
    ensures TableOk(Apply(t, quota, e), quota)
  {
    if e.FeedChunk? {
      FeedKeepsOk(t, quota, e);
    } else {
      SubCard(t, Apply(t, quota, e));
    }
  }

  /** In every run: entry counts, per-entry byte totals and index ranges stay within quota, the byte
      total is the sum of the held chunks, and no complete entry is ever kept. */
  lemma {:induction false} RunKeepsOk(quota: Quota, events: seq<Event>)
    ensures TableOk(After(map[], quota, events), quota)
    decreases |events|
  {
    if events != [] {
      RunKeepsOk(quota, events[..|events| - 1]);
      ApplyKeepsOk(After(map[], quota, events[..|events| - 1]), quota, events[|events| - 1]);
    }
  }

  // ---- one event, one entry ----

  /** The chunk is new to the entry and in its range. */
  predicate Fills(p: Pending, e: Event) {
    e.FeedChunk? && e.index < p.count && e.index !in p.chunks
  }

  /** Nothing but this chunk was missing. */
  predicate Completes(p: Pending, e: Event) {
    Fills(p, e) && forall i :: 0 <= i < p.count && i != e.index ==> i in p.chunks
  }

  predicate Overflows(p: Pending, e: Event, quota: Quota) {
    e.FeedChunk? && p.total + |e.data| > quota.bytes
  }

  /** An entry goes with a forget, by a sweep ten minutes after it was opened, or with a chunk of its own plan that
      overflows its byte quota or completes it. */
  predicate EntryGoes(p: Pending, key: Key, quota: Quota, e: Event) {
    match e
    case Forget => true
    case SweepAt(now) => p.createdAt + 600 <= now
    case FeedChunk(k, _, count, _, _) => k == key && count == p.count && (Overflows(p, e, quota) || Completes(p, e))
  }

  /** An entry opens with the first chunk of its key that finds a free place, fits and does not complete it at once. */
  predicate EntryOpens(t: Table, key: Key, quota: Quota, e: Event) {
    && e.FeedChunk? && e.key == key && |t| < quota.entries && |e.data| <= quota.bytes
    && !(e.count == 1 && e.index == 0)
  }

  /** What an entry that stays holds: the chunk more, if it fills a gap. */
  function EntryAfter(p: Pending, key: Key, e: Event): Pending {
    if OfPlan(p, key, e) && Fills(p, e)
    then Pending(p.count, p.chunks[e.index := e.data], p.total + |e.data|, p.createdAt) else p
  }

  predicate OfPlan(p: Pending, key: Key, e: Event) {
    e.FeedChunk? && e.key == key && e.count == p.count
  }

  lemma OutcomeMeans(p: Pending, e: Event)
    requires e.FeedChunk?
    ensures AddOutcome(p, e.index, e.data).Some? <==> Completes(p, e)
    ensures Completes(p, e) ==> AddOutcome(p, e.index, e.data) == Some(Joined(p.chunks[e.index := e.data], p.count))
  {
    var chunks := p.chunks[e.index := e.data];
    assert forall i :: i in chunks <==> i in p.chunks || i == e.index;
  }

  lemma HeldEntryExact(t: Table, quota: Quota, e: Event, key: Key)
    requires key in t
    ensures key !in Apply(t, quota, e) <==> EntryGoes(t[key], key, quota, e)
    ensures key in Apply(t, quota, e) ==> Apply(t, quota, e)[key] == EntryAfter(t[key], key, e)
  {
    if e.FeedChunk? && e.key == key {
      OutcomeMeans(t[key], e);
    }
  }

  lemma NewEntryExact(t: Table, quota: Quota, e: Event, key: Key)
    requires key !in t
    ensures key in Apply(t, quota, e) <==> EntryOpens(t, key, quota, e)
    ensures key in Apply(t, quota, e) ==>
      Apply(t, quota, e)[key] == EntryAfter(Pending(e.count, map[], 0, e.now), key, e)
  {
    if e.FeedChunk? && e.key == key {
      OutcomeMeans(Pending(e.count, map[], 0, e.now), e);
    }
  }

  /** A blob comes out exactly with the chunk that completes its entry, and is that entry's chunks in order. */
  lemma OutputExact(t: Table, quota: Quota, e: Event)
    requires e.FeedChunk?
    ensures
      var p := if e.key in t then t[e.key] else Pending(e.count, map[], 0, e.now);
      var comes := (e.key in t || |t| < quota.entries) && e.count == p.count && !Overflows(p, e, quota) && Completes(p, e);
      Output(t, quota, e) == if comes then Some(Joined(p.chunks[e.index := e.data], p.count)) else None
  {
    OutcomeMeans(if e.key in t then t[e.key] else Pending(e.count, map[], 0, e.now), e);
  }

  /** One event and one key: the entry opens, stays with what it should hold, or goes, exactly as said. */
  lemma EntryExact(t: Table, quota: Quota, e: Event, key: Key)
    ensures key in t ==> (key !in Apply(t, quota, e) <==> EntryGoes(t[key], key, quota, e))
    ensures key !in t ==> (key in Apply(t, quota, e) <==> EntryOpens(t, key, quota, e))
    ensures key in Apply(t, quota, e) && (key in t || e.FeedChunk?) ==>
      Apply(t, quota, e)[key] == EntryAfter(if key in t then t[key] else Pending(e.count, map[], 0, e.now), key, e)
  {
    if key in t {
      HeldEntryExact(t, quota, e, key);
    } else {
      NewEntryExact(t, quota, e, key);
    }
  }

  // ---- a blob's stream ----

  function PiecesOf(blob: seq<Byte>): seq<seq<Byte>> { Split(blob, CHUNK_MAX) }

  predicate OwnFeed(e: Event, key: Key) { e.FeedChunk? && e.key == key }

  /** What an honest sender puts on the wire for `blob`. */
  predicate HonestFeed(e: Event, key: Key, blob: seq<Byte>)
    requires OwnFeed(e, key)
  {
    var p := PiecesOf(blob);
    e.count == |p| && e.index < |p| && e.data == p[e.index]
  }

  /** Feeds of other keys are arbitrary; sweeps come before the entry opened at `t0` expires. */
  predicate Friendly(e: Event, key: Key, blob: seq<Byte>, t0: nat) {
    && (OwnFeed(e, key) ==> HonestFeed(e, key, blob))
    && (e.SweepAt? ==> e.now < t0 + PENDING_CHUNK_TTL_SEC)
    && !e.Forget?
  }

  /** Repeats cannot push any partial entry of the blob over the byte cap. */
  predicate Tolerates(blob: seq<Byte>, quota: Quota) {
    |PiecesOf(blob)| * CHUNK_MAX <= quota.bytes || |PiecesOf(blob)| == 1
  }

  /** The entry holds exactly the pieces `have` of the blob, and some are missing. */
  ghost predicate Draws(p: Pending, blob: seq<Byte>, have: set<nat>, t0: nat) {
    && p.createdAt == t0 && p.count == |PiecesOf(blob)|
    && p.chunks.Keys == have && Drawn(p.chunks, PiecesOf(blob)) && PendingOk(p)
    && !Full(have, |PiecesOf(blob)|)
  }

  ghost predicate Holding(t: Table, key: Key, blob: seq<Byte>, have: set<nat>, t0: nat) {
    key in t && Draws(t[key], blob, have, t0)
  }

  lemma OtherEvent(t: Table, quota: Quota, key: Key, blob: seq<Byte>, have: set<nat>, t0: nat, e: Event)
    requires Holding(t, key, blob, have, t0) && Friendly(e, key, blob, t0) && !OwnFeed(e, key)
    ensures Holding(Apply(t, quota, e), key, blob, have, t0)
  {
    assert key in Apply(t, quota, e) && Apply(t, quota, e)[key] == t[key];
  }

  /** Room for one more piece: always for a missing one, and for a repeat when repeats are tolerated. */
  lemma HasRoom(p: Pending, blob: seq<Byte>, quota: Quota, index: nat)
    requires PendingOk(p) && p.count == |PiecesOf(blob)| && Drawn(p.chunks, PiecesOf(blob))
    requires !Full(p.chunks.Keys, p.count) && index < p.count && |blob| <= quota.bytes
    requires index in p.chunks ==> Tolerates(blob, quota)
    ensures p.total + |PiecesOf(blob)[index]| <= quota.bytes
  {
    var all := PiecesOf(blob);
    if index !in p.chunks {
      SumLenDrawn(p.chunks, all, |all|, index);
      assert all[..|all|] == all;
      SplitFlattens(blob, CHUNK_MAX);
    } else {
      var missing :| 0 <= missing < p.count && missing !in p.chunks.Keys;
      SumLenCapped(p.chunks, p.count, missing, CHUNK_MAX);
      assert p.count != 1;
    }
  }

  lemma AddHonest(p: Pending, blob: seq<Byte>, index: nat)
    requires PendingOk(p) && p.count == |PiecesOf(blob)| && Drawn(p.chunks, PiecesOf(blob))
    requires !Full(p.chunks.Keys, p.count) && index < p.count
    ensures
      var data := PiecesOf(blob)[index];
      var have := p.chunks.Keys + {index};
      && AddOutcome(p, index, data) == (if Full(have, p.count) then Some(blob) else None)
      && Added(p, index, data).chunks.Keys == have
      && Drawn(Added(p, index, data).chunks, PiecesOf(blob)) && PendingOk(Added(p, index, data))
  {
    var data := PiecesOf(blob)[index];
    var q := p.chunks[index := data];
    if index in p.chunks {
      assert p.chunks.Keys + {index} == p.chunks.Keys;
    } else {
      SumLenPut(p.chunks, index, data, p.count);
      assert q.Keys == p.chunks.Keys + {index};
      assert Covers(q, p.count) <==> Full(q.Keys, p.count);
      if Covers(q, p.count) {
        JoinedIsBlob(q, blob, CHUNK_MAX);
      }
    }
  }

  lemma OwnPut(t: Table, quota: Quota, key: Key, p: Pending, blob: seq<Byte>, have: set<nat>, t0: nat, index: nat)
    requires Draws(p, blob, have, t0) && index < p.count && |blob| <= quota.bytes
    requires index in have ==> Tolerates(blob, quota)
    ensures
      var (t', done) := Put(t, quota, key, p, index, PiecesOf(blob)[index]);
      if Full(have + {index}, |PiecesOf(blob)|) then done == Some(blob) && key !in t'
      else done == None && Holding(t', key, blob, have + {index}, t0)
  {
    HasRoom(p, blob, quota, index);
    AddHonest(p, blob, index);
  }

  /** One honest chunk for an entry that is absent (with room to admit it) or partly filled. */
  lemma OwnChunk(t: Table, quota: Quota, key: Key, blob: seq<Byte>, have: set<nat>, t0: nat, e: Event)
    requires OwnFeed(e, key) && HonestFeed(e, key, blob) && |blob| <= quota.bytes
    requires if key in t then Holding(t, key, blob, have, t0) else |t| < quota.entries && have == {} && t0 == e.now
    requires e.index in have ==> Tolerates(blob, quota)
    ensures
      if Full(have + {e.index}, |PiecesOf(blob)|) then
        Output(t, quota, e) == Some(blob) && key !in Apply(t, quota, e)
      else
        Output(t, quota, e) == None && Holding(Apply(t, quota, e), key, blob, have + {e.index}, t0)
  {
    if key in t {
      OwnPut(t, quota, key, t[key], blob, have, t0, e.index);
    } else {
      var p := Pending(e.count, map[], 0, e.now);
      SumLenEmpty(e.count);
      assert p.chunks.Keys == {} && 0 !in have;
      OwnPut(t, quota, key, p, blob, have, t0, e.index);
    }
  }

  /** The indices fed to `key`. */
  function Fed(events: seq<Event>, key: Key): set<nat> {
    set i | 0 <= i < |events| && OwnFeed(events[i], key) :: events[i].index
  }

  /** No chunk of `key` comes twice. */
  predicate NoRepeats(events: seq<Event>, key: Key) {
    forall i, j :: 0 <= i < j < |events| && OwnFeed(events[i], key) && OwnFeed(events[j], key) ==>
      events[i].index != events[j].index
  }

  /** A stream of `blob`: opened by its first event and friendly throughout. */
  predicate AnyStream(events: seq<Event>, key: Key, blob: seq<Byte>) {
    && events != [] && OwnFeed(events[0], key)
    && forall i :: 0 <= i < |events| ==> Friendly(events[i], key, blob, events[0].now)
  }

  /** The blob is within the byte cap, and chunks repeat only where repeats are tolerated. */
  predicate Stream(events: seq<Event>, quota: Quota, key: Key, blob: seq<Byte>) {
    AnyStream(events, key, blob) && |blob| <= quota.bytes && (Tolerates(blob, quota) || NoRepeats(events, key))
  }

  lemma StreamPrefix(events: seq<Event>, quota: Quota, key: Key, blob: seq<Byte>)
    requires Stream(events, quota, key, blob) && |events| > 1
    ensures
      var front, last := events[..|events| - 1], events[|events| - 1];
      && Stream(front, quota, key, blob) && front[0] == events[0]
      && Friendly(last, key, blob, events[0].now)
      && (OwnFeed(last, key) && last.index in Fed(front, key) ==> Tolerates(blob, quota))
      && Fed(events, key) == Fed(front, key) + (if OwnFeed(last, key) then {last.index} else {})
  {
    var front, last := events[..|events| - 1], events[|events| - 1];
    assert events == front + [last];
    forall i | 0 <= i < |front| ensures Friendly(front[i], key, blob, front[0].now) {
      assert front[i] == events[i];
    }
  }

  lemma {:induction false} PartialStream(t: Table, quota: Quota, key: Key, blob: seq<Byte>, events: seq<Event>)
    requires key !in t && |t| < quota.entries && Stream(events, quota, key, blob)
    requires !Full(Fed(events, key), |PiecesOf(blob)|)
    ensures Holding(After(t, quota, events), key, blob, Fed(events, key), events[0].now)
    decreases |events|
  {
    var front, last := events[..|events| - 1], events[|events| - 1];
    if |events| == 1 {
      assert Fed(events, key) == {} + {last.index};
      OwnChunk(t, quota, key, blob, {}, last.now, last);
    } else {
      StreamPrefix(events, quota, key, blob);
      PartialStream(t, quota, key, blob, front);
      var u := After(t, quota, front);
      if OwnFeed(last, key) {
        OwnChunk(u, quota, key, blob, Fed(front, key), events[0].now, last);
      } else {
        OtherEvent(u, quota, key, blob, Fed(front, key), events[0].now, last);
      }
    }
  }

  /** Reassembly: chunks in any order, with duplicates, among any traffic for other keys, yield the
      blob exactly when the last missing index arrives; until then nothing comes out and the entry
      holds exactly the indices fed. */
  lemma {:induction false} Reassembles(t: Table, quota: Quota, key: Key, blob: seq<Byte>, events: seq<Event>)
    requires key !in t && |t| < quota.entries && Stream(events, quota, key, blob)
    requires OwnFeed(events[|events| - 1], key)
    requires !Full(Fed(events[..|events| - 1], key), |PiecesOf(blob)|)
    ensures
      var out := Output(After(t, quota, events[..|events| - 1]), quota, events[|events| - 1]);
      var end := After(t, quota, events);
      if Full(Fed(events, key), |PiecesOf(blob)|) then out == Some(blob) && key !in end
      else out == None && key in end && end[key].chunks.Keys == Fed(events, key)
  {
    var front, last := events[..|events| - 1], events[|events| - 1];
    if |events| == 1 {
      assert Fed(events, key) == {} + {last.index};
      OwnChunk(t, quota, key, blob, {}, last.now, last);
    } else {
      StreamPrefix(events, quota, key, blob);
      PartialStream(t, quota, key, blob, front);
      OwnChunk(After(t, quota, front), quota, key, blob, Fed(front, key), events[0].now, last);
    }
  }

  // ---- when repeats are not tolerated ----

  function InOrder(key: Key, blob: seq<Byte>, n: nat, now: nat): (events: seq<Event>)
    requires n <= |PiecesOf(blob)|
    ensures |events| == n
    ensures forall i :: 0 <= i < n ==> events[i] == FeedChunk(key, i, |PiecesOf(blob)|, PiecesOf(blob)[i], now)
  {
    seq(n, i requires 0 <= i < n => FeedChunk(key, i, |PiecesOf(blob)|, PiecesOf(blob)[i], now))
  }

  lemma {:induction false} SumFullPieces(chunks: Chunks, blob: seq<Byte>, n: nat)
    requires Drawn(chunks, PiecesOf(blob)) && n < |PiecesOf(blob)| && Covers(chunks, n)
    ensures SumLen(chunks, n) == n * CHUNK_MAX
    decreases n
  {
    if n > 0 {
      SumFullPieces(chunks, blob, n - 1);
      FullPieces(blob, CHUNK_MAX, n - 1);
    }
  }

  /** Otherwise a repeat can cost the whole entry: when all but the last piece are held, a second copy of
      the first piece drops them all. */
  lemma RepeatEvicts(t: Table, quota: Quota, key: Key, blob: seq<Byte>, now: nat)
    requires key !in t && |t| < quota.entries && |blob| <= quota.bytes && blob != []
    requires !Tolerates(blob, quota)
    ensures
      var n := |PiecesOf(blob)|;
      var sent := InOrder(key, blob, n - 1, now);
      var again := FeedChunk(key, 0, n, PiecesOf(blob)[0], now);
      && Holding(After(t, quota, sent), key, blob, Fed(sent, key), now)
      && key !in Apply(After(t, quota, sent), quota, again) && Output(After(t, quota, sent), quota, again) == None
  {
    var n := |PiecesOf(blob)|;
    var sent := InOrder(key, blob, n - 1, now);
    SentInOrder(key, blob, n - 1, now);
    PartialStream(t, quota, key, blob, sent);
    var p := After(t, quota, sent)[key];
    AllButLast(p, blob, now);
    FullPieces(blob, CHUNK_MAX, 0);
  }

  /** No unfinished stream of the blob ever loses its entry, whatever the order and the repeats. */
  ghost predicate NeverDropped(quota: Quota, key: Key, blob: seq<Byte>) {
    forall t: Table, events: seq<Event> ::
      key !in t && |t| < quota.entries && AnyStream(events, key, blob) && !Full(Fed(events, key), |PiecesOf(blob)|) ==>
        key in After(t, quota, events)
  }

  /** For a blob within the byte cap this holds exactly when the blob is a single piece or its piece count
      times the chunk size is within the cap. */
  lemma NeverDroppedIff(quota: Quota, key: Key, blob: seq<Byte>)
    requires blob != [] && |blob| <= quota.bytes && quota.entries > 0
    ensures NeverDropped(quota, key, blob) <==> Tolerates(blob, quota)
  {
    if Tolerates(blob, quota) {
      forall t: Table, events: seq<Event> |
        key !in t && |t| < quota.entries && AnyStream(events, key, blob) && !Full(Fed(events, key), |PiecesOf(blob)|)
        ensures key in After(t, quota, events)
      {
        PartialStream(t, quota, key, blob, events);
      }
    } else {
      var events := DroppedStream(quota, key, blob);
    }
  }

  /** A stream that loses its entry before it is complete. */
  lemma DroppedStream(quota: Quota, key: Key, blob: seq<Byte>) returns (events: seq<Event>)
    requires blob != [] && |blob| <= quota.bytes && quota.entries > 0 && !Tolerates(blob, quota)
    ensures AnyStream(events, key, blob) && !Full(Fed(events, key), |PiecesOf(blob)|)
    ensures key !in After(map[], quota, events)
  {
    var n := |PiecesOf(blob)|;
    var sent := InOrder(key, blob, n - 1, 0);
    events := sent + [FeedChunk(key, 0, n, PiecesOf(blob)[0], 0)];
    RepeatEvicts(map[], quota, key, blob, 0);
    SentInOrder(key, blob, n - 1, 0);
    assert events[..|events| - 1] == sent;
    assert n - 1 !in Fed(events, key);
  }

  lemma SentInOrder(key: Key, blob: seq<Byte>, n: nat, now: nat)
    requires 0 < n < |PiecesOf(blob)|
    ensures
      var sent := InOrder(key, blob, n, now);
      && (forall i :: i in Fed(sent, key) <==> 0 <= i < n) && NoRepeats(sent, key)
      && (forall i :: 0 <= i < n ==> Friendly(sent[i], key, blob, now))
      && !Full(Fed(sent, key), |PiecesOf(blob)|)
  {
    var sent := InOrder(key, blob, n, now);
    forall i | 0 <= i < n ensures i in Fed(sent, key) {
      assert OwnFeed(sent[i], key) && sent[i].index == i;
    }
    assert n !in Fed(sent, key);
  }

  lemma AllButLast(p: Pending, blob: seq<Byte>, t0: nat)
    requires |PiecesOf(blob)| > 0 && Draws(p, blob, p.chunks.Keys, t0)
    requires forall i :: i in p.chunks.Keys <==> 0 <= i < |PiecesOf(blob)| - 1
    ensures p.total == (|PiecesOf(blob)| - 1) * CHUNK_MAX
  {
    var n := |PiecesOf(blob)|;
    forall i | 0 <= i < n - 1 ensures i in p.chunks {
      assert i in p.chunks.Keys;
    }
    SumFullPieces(p.chunks, blob, n - 1);
    assert n - 1 !in p.chunks.Keys;
  }

  /** Items within their cap tolerate every repeat, in the item buffers. */
  lemma ItemsTolerate(blob: seq<Byte>)
    requires |blob| <= PackDoc.MaxBytes(PackDoc.KIND_STICKER)
    ensures Tolerates(blob, ITEM_QUOTA) && |blob| <= ITEM_QUOTA.bytes
  {
    SplitCount(blob, CHUNK_MAX);
  }

  /** So does every signed pack document, in the pack buffers, although its cap is the buffer's own. */
  lemma PackDocsTolerate(d: PackDoc.Doc, sig: seq<Byte>)
    requires PackDoc.Body(d).Ok? && |sig| == PackDoc.SIGNATURE_BYTES
    ensures Tolerates(PackDoc.Body(d).value + sig, PACK_QUOTA) && |PackDoc.Body(d).value + sig| <= PACK_QUOTA.bytes
  {
    PackDoc.BodyFits(d);
    SplitCount(PackDoc.Body(d).value + sig, CHUNK_MAX);
  }

  /** Thumbnail documents within their cap tolerate repeats exactly up to 19 full pieces; a document of the
      full 512 KiB can lose its entry. */
  lemma ThumbsTolerateIff(blob: seq<Byte>, key: Key)
    requires blob != [] && |blob| <= THUMBS_QUOTA.bytes
    ensures Tolerates(blob, THUMBS_QUOTA) <==> |blob| <= 19 * CHUNK_MAX
    ensures NeverDropped(THUMBS_QUOTA, key, blob) <==> |blob| <= 19 * CHUNK_MAX
  {
    SplitCount(blob, CHUNK_MAX);
    NeverDroppedIff(THUMBS_QUOTA, key, blob);
  }

  // ---- progress ----

  function PackProgress(packs: Table, key: Key): Option<(nat, nat)> {
    if key !in packs || !Covers(packs[key].chunks, packs[key].count) then None
    else PackDoc.Scan(Joined(packs[key].chunks, packs[key].count))
  }

  /** The progress query gives up at the first missing chunk, and no entry in a table is complete: in
      every reachable state it reports nothing. */
  lemma {:induction false} ProgressNeverShown(events: seq<Event>, key: Key)
    ensures PackProgress(After(map[], PACK_QUOTA, events), key) == None
  {
    RunKeepsOk(PACK_QUOTA, events);
  }

  // ---- the buffer object ----

  method AddChunk(p: Pending, index: nat, data: seq<Byte>) returns (q: Pending, done: Option<seq<Byte>>)
    requires PendingOk(p)
    ensures q == Added(p, index, data) && done == AddOutcome(p, index, data)
  {
    if index >= p.count || index in p.chunks {
      return p, None;
    }
    q := p.(total := p.total + |data|, chunks := p.chunks[index := data]);
    CoversIffCount(q.chunks, p.count);
    if |q.chunks| != p.count {
      return q, None;
    }
    var out: seq<Byte> := [];
    for i := 0 to p.count
      invariant out == Joined(q.chunks, i)
    {
      out := out + q.chunks[i];
    }
    return q, Some(out);
  }

  method PutChunk(t: Table, quota: Quota, key: Key, entry: Pending, index: nat, data: seq<Byte>)
    returns (t': Table, done: Option<seq<Byte>>)
    requires PendingOk(entry)
    ensures (t', done) == Put(t, quota, key, entry, index, data)
  {
    if entry.total + |data| > quota.bytes {
      return t - {key}, None;
    }
    var added;
    added, done := AddChunk(entry, index, data);
    if done.Some? {
      t' := t - {key};
    } else {
      t' := t[key := added];
    }
  }

  lemma PutOverwrites(t: Table, quota: Quota, key: Key, p: Pending, index: nat, data: seq<Byte>)
    ensures Put(t[key := p], quota, key, p, index, data) == Put(t, quota, key, p, index, data)
  {
    assert t[key := p] - {key} == t - {key};
    assert t[key := p][key := Added(p, index, data)] == t[key := Added(p, index, data)];
  }

  /** Admit the key, then add the chunk or drop the entry. */
  method FeedInto(t: Table, quota: Quota, key: Key, index: nat, count: nat, data: seq<Byte>, now: nat)
    returns (t': Table, done: Option<seq<Byte>>)
    requires TableOk(t, quota)
    ensures TableOk(t', quota) && (t', done) == Feed(t, quota, key, index, count, data, now)
  {
    FeedKeepsOk(t, quota, FeedChunk(key, index, count, data, now));
    t' := t;
    if key !in t' {
      if |t'| >= quota.entries {
        return t', None;
      }
      SumLenEmpty(count);
      t' := t'[key := Pending(count, map[], 0, now)];
    }
    var entry := t'[key];
    if entry.count != count {
      return t', None;
    }
    PutOverwrites(t, quota, key, entry, index, data);
    assert key in t ==> t[key := entry] == t;
    t', done := PutChunk(t', quota, key, entry, index, data);
  }

  class PendingBuffers {
    var items: Table
    var packs: Table
    var thumbs: Table

    ghost predicate Valid()
      reads this
    {
      TableOk(items, ITEM_QUOTA) && TableOk(packs, PACK_QUOTA) && TableOk(thumbs, THUMBS_QUOTA)
    }

    constructor ()
      ensures Valid() && items == map[] && packs == map[] && thumbs == map[]
    {
      items, packs, thumbs := map[], map[], map[];
    }

    method FeedItem(shaKey: Key, index: nat, count: nat, data: seq<Byte>, now: nat) returns (done: Option<seq<Byte>>)
      requires Valid()
      modifies this`items
      ensures Valid() && (items, done) == Feed(old(items), ITEM_QUOTA, shaKey, index, count, data, now)
    {
      items, done := FeedInto(items, ITEM_QUOTA, shaKey, index, count, data, now);
    }

    method FeedPack(packKey: Key, index: nat, count: nat, data: seq<Byte>, now: nat) returns (done: Option<seq<Byte>>)
      requires Valid()
      modifies this`packs
      ensures Valid() && (packs, done) == Feed(old(packs), PACK_QUOTA, packKey, index, count, data, now)
    {
      packs, done := FeedInto(packs, PACK_QUOTA, packKey, index, count, data, now);
    }

    method FeedThumbs(packKey: Key, index: nat, count: nat, data: seq<Byte>, now: nat) returns (done: Option<seq<Byte>>)
      requires Valid()
      modifies this`thumbs
      ensures Valid() && (thumbs, done) == Feed(old(thumbs), THUMBS_QUOTA, packKey, index, count, data, now)
    {
      thumbs, done := FeedInto(thumbs, THUMBS_QUOTA, packKey, index, count, data, now);
    }

    method SweepStale(now: nat)
      requires Valid()
      modifies this
      ensures Valid()
      ensures items == Sweep(old(items), now) && packs == Sweep(old(packs), now) && thumbs == Sweep(old(thumbs), now)
    {
      ApplyKeepsOk(items, ITEM_QUOTA, SweepAt(now));
      ApplyKeepsOk(packs, PACK_QUOTA, SweepAt(now));
      ApplyKeepsOk(thumbs, THUMBS_QUOTA, SweepAt(now));
      items := Sweep(items, now);
      packs := Sweep(packs, now);
      thumbs := Sweep(thumbs, now);
    }

    method ForgetAll()
      modifies this
      ensures Valid() && items == map[] && packs == map[] && thumbs == map[]
    {
      items, packs, thumbs := map[], map[], map[];
    }
  }
}
