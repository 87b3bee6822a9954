/** The sending side of one relationship: the outbound ledger, the delivery queue, the
    ciphertext cache and the persisted sequence floor. */
module Outbound {
  import opened Bytes
  import opened ReceiveView

  /** A 16-byte message id, as a number. */
  type Id = nat

  const MESSAGE_TTL_SECS: nat := 86_400
  const U64_MAX: nat := 0xFFFF_FFFF_FFFF_FFFF
  /** Seqs are stored in signed 64-bit columns. */
  const SEQ_LIMIT: nat := 0x8000_0000_0000_0000

  datatype DeliveryState = Queued | Transmitted | Acknowledged | Failed

  datatype Row = Row(appSeq: nat, state: DeliveryState, expires: Option<nat>) {
    predicate Unsettled() { state.Queued? || state.Transmitted? }
    predicate Expired(now: nat) { expires.Some? && expires.value <= now }
  }

  /** An encrypted envelope; its bytes determine what it decrypts to. */
  datatype Frame = Frame(id: Id, appSeq: nat, payload: seq<Byte>)

  datatype QueueEntry = QueueEntry(record: Frame, expires: nat)

  datatype Db = Db(
    rows: map<Id, Row>,
    cache: map<Id, Frame>,
    outbox: map<Id, QueueEntry>,
    floor: nat,
    broken: bool)

  // ---- sequence numbers ----

  /** `m` answers `SELECT MAX(app_seq)`. */
  ghost predicate IsMaxSeq(rows: map<Id, Row>, m: Option<nat>) {
    && (m.None? <==> rows == map[])
    && (m.Some? ==> exists id :: id in rows && rows[id].appSeq == m.value)
    && (forall id :: id in rows ==> m.Some? && rows[id].appSeq <= m.value)
  }

  function NextSeq(floor: nat, m: Option<nat>): nat {
    var fromLedger := if m.Some? then m.value + 1 else 1;
    if fromLedger > floor then fromLedger else floor
  }

  function SatAdd1(n: nat): nat {
    if n >= U64_MAX then U64_MAX else n + 1
  }

  // ---- delivery lifecycle ----

  predicate Legal(from: DeliveryState, to: DeliveryState) {
    match (from, to)
    case (Queued, Transmitted) => true
    case (Queued, Acknowledged) => true
    case (Transmitted, Acknowledged) => true
    case (Transmitted, Transmitted) => true
    case (Queued, Failed) => true
    case (Transmitted, Failed) => true
    case _ => false
  }

  predicate CanMove(db: Db, id: Id, to: DeliveryState) {
    id in db.rows && Legal(db.rows[id].state, to)
  }

  function SetDelivery(db: Db, id: Id, to: DeliveryState): Db {
    if id in db.rows then db.(rows := db.rows[id := db.rows[id].(state := to)]) else db
  }

  /** A transition outside the lifecycle is refused and changes nothing. */
  function Transition(db: Db, id: Id, to: DeliveryState): Db {
    if CanMove(db, id, to) then SetDelivery(db, id, to) else db
  }

  function Enqueue(db: Db, id: Id, record: Frame, now: nat): Db {
    db.(outbox := db.outbox[id := QueueEntry(record, now + MESSAGE_TTL_SECS)])
  }

  function Dequeue(db: Db, id: Id): Db {
    db.(outbox := db.outbox - {id})
  }

  /** Ledger row, cached ciphertext and queue entry of one new envelope. */
  function Ledger(db: Db, f: Frame, expires: Option<nat>, now: nat): Db {
    Enqueue(db.(rows := db.rows[f.id := Row(f.appSeq, Queued, expires)],
                cache := db.cache[f.id := f]), f.id, f, now)
  }

  // ---- retention ----

  function Purge(db: Db, kept: map<Id, Row>): Db {
    db.(rows := kept, cache := map id | id in db.cache && id in kept :: db.cache[id])
  }

  function SweepExpired(db: Db, now: nat): Db {
    Purge(db, map id | id in db.rows && !db.rows[id].Expired(now) :: db.rows[id])
  }

  function EraseHistory(db: Db, keep: set<Id>): Db {
    Purge(db, map id | id in db.rows && id in keep :: db.rows[id])
  }

  /** The delivery horizon passed: the queue entry goes, the row is failed whatever it was. */
  function FailExpired(db: Db, now: nat): Db {
    db.(rows := map id | id in db.rows ::
                  if id in db.outbox && db.outbox[id].expires <= now
                  then db.rows[id].(state := Failed) else db.rows[id],
        outbox := map id | id in db.outbox && db.outbox[id].expires > now :: db.outbox[id])
  }

  /** The session broke: every undelivered row fails and the queue empties. */
  function FailOutbound(db: Db): Db {
    db.(rows := map id | id in db.rows ::
                  if db.rows[id].Unsettled() then db.rows[id].(state := Failed) else db.rows[id],
        outbox := map[], broken := true)
  }

  function ClampExpiry(db: Db, before: nat): Db {
    db.(rows := map id | id in db.rows ::
                  if db.rows[id].expires.None? || db.rows[id].expires.value > before
                  then db.rows[id].(expires := Some(before)) else db.rows[id])
  }

  // ---- resync ----

  predicate Candidate(db: Db, v: View, id: Id) {
    id in db.rows && db.rows[id].Unsettled() && db.rows[id].appSeq <= v.max + BITMAP_BITS
  }

  predicate Covered(db: Db, v: View, id: Id) {
    Candidate(db, v, id) && !IsMissing(v.max, v.bitmap, db.rows[id].appSeq)
  }

  predicate Repairable(db: Db, v: View, now: nat, id: Id) {
    && Candidate(db, v, id)
    && IsMissing(v.max, v.bitmap, db.rows[id].appSeq)
    && !db.rows[id].Expired(now)
    && id in db.cache
  }

  /** Every row the view covers is acknowledged. */
  function AckCovered(db: Db, v: View): Db {
    db.(rows := map id | id in db.rows ::
                  if Covered(db, v, id) then db.rows[id].(state := Acknowledged) else db.rows[id])
  }

  function RepairIds(db: Db, v: View, now: nat): set<Id> {
    set id | id in db.rows && Repairable(db, v, now, id)
  }

  /** Requeue the given cached frames with a fresh delivery horizon. */
  function Requeue(db: Db, ids: set<Id>, now: nat): Db
    requires ids <= db.cache.Keys
  {
    db.(outbox := map id | id in db.outbox.Keys + ids ::
                    if id in ids then QueueEntry(db.cache[id], now + MESSAGE_TTL_SECS) else db.outbox[id])
  }

  function Ids(frames: seq<Frame>): set<Id> {
    set f | f in frames :: f.id
  }

  /** The queue is `before` with the cached frames of `ids` put in afresh. */
  ghost predicate Requeued(queue: map<Id, QueueEntry>, before: map<Id, QueueEntry>, cache: map<Id, Frame>, ids: set<Id>, now: nat)
    requires ids <= cache.Keys
  {
    && queue.Keys == before.Keys + ids
    && forall id :: id in queue ==>
         queue[id] == if id in ids then QueueEntry(cache[id], now + MESSAGE_TTL_SECS) else before[id]
  }

  function HandleRequest(db: Db, v: View, now: nat): Db {
    if db.broken then db
    else Requeue(AckCovered(db, v), RepairIds(db, v, now), now)
  }

  /** The store behind the pure model above. */
  class OutboundStore {
    var rows: map<Id, Row>
    var cache: map<Id, Frame>
    var outbox: map<Id, QueueEntry>
    var floor: nat
    var broken: bool

    ghost function State(): Db reads this { Db(rows, cache, outbox, floor, broken) }

    constructor ()
      ensures State() == Db(map[], map[], map[], 1, false)
    {
      rows, cache, outbox, floor, broken := map[], map[], map[], 1, false;
    }

    /** Issues a seq above every seq issued before; the floor moves past it until the 64-bit
        maximum is reached. */
    method NextOutSeq(m: Option<nat>) returns (next: nat)
      requires IsMaxSeq(rows, m)
      modifies this`floor
      ensures next >= old(floor) && forall id :: id in rows ==> rows[id].appSeq < next
      ensures next < floor <==> next < U64_MAX
      ensures next == NextSeq(old(floor), m) && floor == SatAdd1(next)
    {
      next := NextSeq(floor, m);
      floor := SatAdd1(next);
    }

    method MarkTransmitted(id: Id) returns (ok: bool)
      modifies this`rows
      ensures ok == old(CanMove(State(), id, Transmitted))
      ensures State() == Transition(old(State()), id, Transmitted)
    {
      ok := id in rows && Legal(rows[id].state, Transmitted);
      if ok {
        rows := rows[id := rows[id].(state := Transmitted)];
      }
    }

    method MarkAcknowledged(id: Id) returns (ok: bool)
      modifies this`rows
      ensures ok == old(CanMove(State(), id, Acknowledged))
      ensures State() == Transition(old(State()), id, Acknowledged)
    {
      ok := id in rows && Legal(rows[id].state, Acknowledged);
      if ok {
        rows := rows[id := rows[id].(state := Acknowledged)];
      }
    }

    method Sweep(now: nat)
      modifies this`rows, this`cache
      ensures State() == SweepExpired(old(State()), now)
    {
      rows := map id | id in rows && !rows[id].Expired(now) :: rows[id];
      cache := map id | id in cache && id in rows :: cache[id];
    }

    /** One RESYNC_REQ: walk the candidate rows (oldest first), acknowledge the covered ones,
        collect the cached frames of the missing ones. */
    method Resync(v: View, now: nat, candidates: seq<Id>) returns (out: seq<Frame>)
      requires forall i, j :: 0 <= i < j < |candidates| ==> candidates[i] != candidates[j]
      requires forall id :: id in candidates <==> Candidate(State(), v, id)
      modifies this`rows
      ensures old(State()).broken ==> out == [] && State() == old(State())
      ensures !old(State()).broken ==> State() == AckCovered(old(State()), v)
      ensures !old(State()).broken ==>
        && (forall f :: f in out <==> exists id :: Repairable(old(State()), v, now, id) && f == cache[id])
        && |out| <= |candidates|
    {
      out := [];
      if broken {
        return;
      }
      ghost var before := State();
      for k := 0 to |candidates|
        invariant State() == before.(rows := rows) && rows.Keys == before.rows.Keys
        invariant forall id :: id in rows ==>
          rows[id] == if id in candidates[..k] && Covered(before, v, id)
                      then before.rows[id].(state := Acknowledged) else before.rows[id]
        invariant |out| <= k
        invariant forall f :: f in out <==>
          exists id :: id in candidates[..k] && Repairable(before, v, now, id) && f == cache[id]
      {
        var id := candidates[k];
        assert candidates[..k + 1] == candidates[..k] + [id];
        assert Candidate(before, v, id) && id !in candidates[..k];
        ghost var prev := out;
        if !IsMissing(v.max, v.bitmap, rows[id].appSeq) {
          var ok := MarkAcknowledged(id);
          assert ok;
        } else if !rows[id].Expired(now) && id in cache {
          out := out + [cache[id]];
        }
      }
      assert candidates[..|candidates|] == candidates;
      assert rows == AckCovered(before, v).rows;
    }

    /** The frames asked for ride the delivery queue like first sends. */
    method RequeueAll(out: seq<Frame>, now: nat)
      requires forall f :: f in out ==> f.id in cache && cache[f.id] == f
      modifies this`outbox
      ensures State() == Requeue(old(State()), Ids(out), now)
    {
      ghost var before := outbox;
      for k := 0 to |out|
        invariant Requeued(outbox, before, cache, Ids(out[..k]), now)
      {
        assert out[..k + 1] == out[..k] + [out[k]];
        assert Ids(out[..k + 1]) == Ids(out[..k]) + {out[k].id};
        outbox := outbox[out[k].id := QueueEntry(out[k], now + MESSAGE_TTL_SECS)];
      }
      assert out[..|out|] == out;
    }
  }
}
