/** The sender's tables, exactly: what each protocol step makes of one row, its queue entry and its cached frame. */
module SenderLife {
  import opened Bytes
  import opened ReceiveView
  import opened Outbound
  import opened Delivery

  // ---- what a view says of one row ----

  /** The view reports seq `q` as received. */
  predicate Reports(v: View, q: nat) {
    q >= 1 && (q <= v.max || (q <= v.max + 4096 && Bit(v.bitmap, q - v.max - 1)))
  }

  predicate Undecided(r: Row) {
    r.state == Queued || r.state == Transmitted
  }

  /** A request with this view acknowledges the row. */
  predicate AckedBy(db: Db, v: View, id: Id) {
    !db.broken && id in db.rows && Undecided(db.rows[id]) && Reports(v, db.rows[id].appSeq)
  }

  /** A request with this view asks the row back: within the window, not received, not expired, still cached. */
  predicate AskedBack(db: Db, v: View, now: nat, id: Id) {
    && !db.broken && id in db.rows && Undecided(db.rows[id])
    && db.rows[id].appSeq <= v.max + 4096 && !Reports(v, db.rows[id].appSeq)
    && (db.rows[id].expires.Some? ==> now < db.rows[id].expires.value) && id in db.cache
  }

  // ---- one step, one id ----

  function RowOf(db: Db, id: Id): Option<Row> { if id in db.rows then Some(db.rows[id]) else None }
  function EntryOf(db: Db, id: Id): Option<QueueEntry> { if id in db.outbox then Some(db.outbox[id]) else None }
  function FrameOf(db: Db, id: Id): Option<Frame> { if id in db.cache then Some(db.cache[id]) else None }

  predicate EntryExpires(db: Db, now: nat, id: Id) {
    id in db.outbox && db.outbox[id].expires <= now
  }

  /** A sweep or an erasure takes the row. */
  predicate TakenBy(db: Db, op: Upkeep, now: nat, id: Id) {
    match op
    case Sweep => id in db.rows && db.rows[id].expires.Some? && db.rows[id].expires.value <= now
    case Erase(keep) => id in db.rows && id !in keep
    case _ => false
  }

  function UpkeepRow(db: Db, op: Upkeep, now: nat, id: Id): Option<Row> {
    if id !in db.rows || TakenBy(db, op, now, id) then None else
    var r := db.rows[id];
    match op
    case Expire => Some(if EntryExpires(db, now, id) then r.(state := Failed) else r)
    case Break => Some(if Undecided(r) then r.(state := Failed) else r)
    case Clamp(before) => Some(if r.expires.None? || before < r.expires.value then r.(expires := Some(before)) else r)
    case _ => Some(r)
  }

  function UpkeepEntry(db: Db, op: Upkeep, now: nat, id: Id): Option<QueueEntry> {
    match op
    case Expire => if EntryExpires(db, now, id) then None else EntryOf(db, id)
    case Break => None
    case _ => EntryOf(db, id)
  }

  /** A sweep and an erasure also drop every cached frame without a row. */
  function UpkeepFrame(db: Db, op: Upkeep, now: nat, id: Id): Option<Frame> {
    if (op.Sweep? || op.Erase?) && (id !in db.rows || TakenBy(db, op, now, id)) then None else FrameOf(db, id)
  }

  ghost function RowAfter(s: Sys, t: Step, id: Id): Option<Row> {
    match t
    case Send(_, x, _, expires, _, ok) =>
      if x == id then Some(Row(s.db.floor, if ok then Transmitted else Queued, expires)) else RowOf(s.db, id)
    case Drain(x, _, ok) =>
      if x == id && ok && id in s.db.rows && Undecided(s.db.rows[id])
      then Some(s.db.rows[id].(state := Transmitted)) else RowOf(s.db, id)
    case Maintain(op) => UpkeepRow(s.db, op, s.now, id)
    case Handle(v) => if AckedBy(s.db, v, id) then Some(s.db.rows[id].(state := Acknowledged)) else RowOf(s.db, id)
    case _ => RowOf(s.db, id)
  }

  ghost function EntryAfter(s: Sys, t: Step, id: Id): Option<QueueEntry>
    requires id in s.db.cache ==> id in s.made
  {
    match t
    case Send(_, x, payload, _, _, ok) =>
      if x != id then EntryOf(s.db, id) else if ok then None
      else Some(QueueEntry(Frame(id, s.db.floor, payload), s.now + 86_400))
    case Drain(x, _, ok) => if x == id && ok then None else EntryOf(s.db, id)
    case Maintain(op) => UpkeepEntry(s.db, op, s.now, id)
    case Handle(v) => if AskedBack(s.db, v, s.now, id) then Some(QueueEntry(s.made[id], s.now + 86_400)) else EntryOf(s.db, id)
    case _ => EntryOf(s.db, id)
  }

  ghost function FrameAfter(s: Sys, t: Step, id: Id): Option<Frame> {
    match t
    case Send(_, x, payload, _, _, _) => if x == id then Some(Frame(id, s.db.floor, payload)) else FrameOf(s.db, id)
    case Maintain(op) => UpkeepFrame(s.db, op, s.now, id)
    case _ => FrameOf(s.db, id)
  }

  /** The step did to `id` what the functions above say. */
  ghost predicate Fares(s: Sys, t: Step, db': Db, id: Id) {
    && (id in s.db.cache ==> id in s.made)
    && RowOf(db', id) == RowAfter(s, t, id) && EntryOf(db', id) == EntryAfter(s, t, id)
    && FrameOf(db', id) == FrameAfter(s, t, id)
  }

  lemma UpkeepFares(db: Db, op: Upkeep, now: nat, id: Id)
    ensures
      var db' := DoUpkeep(db, op, now);
      && RowOf(db', id) == UpkeepRow(db, op, now, id) && EntryOf(db', id) == UpkeepEntry(db, op, now, id)
      && FrameOf(db', id) == UpkeepFrame(db, op, now, id)
  {
  }

  lemma MissingMeans(v: View, q: nat)
    ensures IsMissing(v.max, v.bitmap, q) <==> !Reports(v, q)
  {
  }

  lemma RequestFares(s: Sys, v: View, id: Id)
    requires DbInv(s.db, s.made)
    ensures Fares(s, Handle(v), HandleRequest(s.db, v, s.now), id)
  {
    if id in s.db.rows {
      MissingMeans(v, s.db.rows[id].appSeq);
    }
    assert AskedBack(s.db, v, s.now, id) <==> !s.db.broken && id in RepairIds(s.db, v, s.now);
    assert AckedBy(s.db, v, id) <==> !s.db.broken && Covered(s.db, v, id);
  }

  /** Taking a frame off the queue and marking it transmitted. */
  lemma SettleFares(db: Db, done: Id, id: Id)
    ensures
      var db' := Settle(db, done);
      && EntryOf(db', id) == (if id == done then None else EntryOf(db, id)) && FrameOf(db', id) == FrameOf(db, id)
      && RowOf(db', id) == if id == done && id in db.rows && Undecided(db.rows[id])
                           then Some(db.rows[id].(state := Transmitted)) else RowOf(db, id)
  {
  }

  lemma SendFares(s: Sys, t: Step, id: Id)
    requires DbInv(s.db, s.made) && t.Send? && Enabled(s, t) && NextSeq(s.db.floor, t.m) == s.db.floor
    ensures Fares(s, t, Apply(s, t).db, id)
  {
    var f := Frame(t.id, s.db.floor, t.payload);
    var queued := Ledger(DoSendFails(s, t.m).db, f, t.expires, s.now);
    SettleFares(queued, t.id, id);
  }

  lemma DrainFares(s: Sys, t: Step, id: Id)
    requires DbInv(s.db, s.made) && t.Drain? && Enabled(s, t)
    ensures Fares(s, t, Apply(s, t).db, id)
  {
    SettleFares(s.db, t.id, id);
  }

  /** One step and one id: row, queue entry and cached frame become exactly what the step says. */
  lemma SenderExact(s: Sys, t: Step, id: Id)
    requires Inv(s) && Enabled(s, t)
    ensures Fares(s, t, Apply(s, t).db, id)
  {
    match t {
      case Send(m, _, _, _, _, _) =>
        NextSeqIsFresh(s, m);
        SendFares(s, t, id);
      case Drain(_, _, _) => DrainFares(s, t, id);
      case Maintain(op) => UpkeepFares(s.db, op, s.now, id);
      case Handle(v) => RequestFares(s, v, id);
      case _ =>
    }
  }

  // ---- the network and the receiver ----

  /** The receiver notes the frame: no earlier gate stops it and its seq is new. */
  predicate Notes(s: Sys, t: Step) {
    t.Deliver? && !t.gated && t.f.appSeq !in s.seen
  }

  /** The frame the step puts on the network, if any. */
  ghost function PutsOut(s: Sys, t: Step): set<Frame>
    requires t.Drain? ==> t.id in s.made
  {
    if t.Send? && t.onWire then {Frame(t.id, s.db.floor, t.payload)}
    else if t.Drain? && t.onWire then {s.made[t.id]} else {}
  }

  ghost predicate ReceiverMoves(s: Sys, t: Step, s': Sys) {
    && s'.seen == (if Notes(s, t) then s.seen + {t.f.appSeq} else s.seen)
    && s'.log == (if Notes(s, t) then s.log + [t.f] else s.log)
    && s'.held == (if Notes(s, t) && t.ledgered then s.held + {t.f.id} else if t.ForgetRows? then s.held - t.ids else s.held)
  }

  ghost predicate NetworkMoves(s: Sys, t: Step, s': Sys) {
    && (t.Drain? ==> t.id in s.made) && s'.wire == s.wire + PutsOut(s, t)
    && s'.views == (if t.Advertise? then s.views + {t.v} else s.views)
    && s'.now == (if t.Tick? then s.now + t.secs else s.now)
    && s'.made == (if t.Send? then s.made[t.id := Frame(t.id, s.db.floor, t.payload)] else s.made)
    && s'.issued == (if t.Send? || t.SendFails? then s.issued + [s.db.floor] else s.issued)
    && s'.db.floor == (if t.Send? || t.SendFails? then s.db.floor + 1 else s.db.floor)
    && s'.db.broken == (s.db.broken || t == Maintain(Break))
  }

  lemma HeldIsSeen(s: Sys, f: Frame)
    requires FramesInv(s) && ReceiverInv(s) && f in s.wire && f.id in s.held
    ensures f.appSeq in s.seen
  {
  }

  lemma ReceiverExact(s: Sys, t: Step)
    requires FramesInv(s) && ReceiverInv(s) && Enabled(s, t)
    ensures ReceiverMoves(s, t, Apply(s, t))
  {
    if t.Deliver? && t.f.id in s.held {
      HeldIsSeen(s, t.f);
    }
  }

  lemma SendsMove(s: Sys, t: Step)
    requires (t.Send? || t.SendFails?) && Enabled(s, t) && NextSeq(s.db.floor, t.m) == s.db.floor
    ensures NetworkMoves(s, t, Apply(s, t))
  {
  }

  lemma OthersMove(s: Sys, t: Step)
    requires !t.Send? && !t.SendFails? && Enabled(s, t) && DbInv(s.db, s.made)
    ensures NetworkMoves(s, t, Apply(s, t))
  {
  }

  /** The rest of one step: what goes out, what the receiver notes, which seq is taken. */
  lemma ProtocolExact(s: Sys, t: Step)
    requires Inv(s) && Enabled(s, t)
    ensures ReceiverMoves(s, t, Apply(s, t)) && NetworkMoves(s, t, Apply(s, t))
  {
    ReceiverExact(s, t);
    if t.Send? || t.SendFails? {
      NextSeqIsFresh(s, t.m);
      SendsMove(s, t);
    } else {
      OthersMove(s, t);
    }
  }

  // ---- the queue over runs ----

  predicate AsksBack(s: Sys, t: Step, id: Id) {
    t.Handle? && AskedBack(s.db, t.v, s.now, id)
  }

  /** The transport took the frame of `id` in this step. */
  predicate Accepts(t: Step, id: Id) {
    (t.Send? || t.Drain?) && t.id == id && t.ok
  }

  ghost predicate NoneAsks(trace: seq<Sys>, steps: seq<Step>, i: nat, j: nat, id: Id)
    requires i <= j <= |steps| <= |trace|
  {
    forall k :: i <= k < j ==> !AsksBack(trace[k], steps[k], id)
  }

  ghost predicate Unqueued(s: Sys, id: Id) {
    id in s.made && id !in s.db.outbox
  }

  lemma UnqueuedStep(s: Sys, t: Step, id: Id)
    requires Inv(s) && Enabled(s, t) && (Accepts(t, id) || (Unqueued(s, id) && !AsksBack(s, t, id)))
    ensures Unqueued(Apply(s, t), id)
  {
    SenderExact(s, t, id);
    MadeGrows(s, t);
  }

  lemma MadeGrows(s: Sys, t: Step)
    requires Inv(s) && Enabled(s, t)
    ensures s.made.Keys <= Apply(s, t).made.Keys && (t.Send? ==> t.id in Apply(s, t).made) && (t.Drain? ==> t.id in s.made)
  {
  }

  lemma UnqueuedInRun(trace: seq<Sys>, steps: seq<Step>, k: nat, id: Id)
    requires IsRun(trace, steps) && k < |steps|
    requires Accepts(steps[k], id) || (Unqueued(trace[k], id) && !AsksBack(trace[k], steps[k], id))
    ensures Unqueued(trace[k + 1], id)
  {
    RunInv(trace, steps, k);
    UnqueuedStep(trace[k], steps[k], id);
  }

  lemma {:induction false} StaysUnqueued(trace: seq<Sys>, steps: seq<Step>, i: nat, j: nat, id: Id)
    requires IsRun(trace, steps) && i <= j < |trace| && Unqueued(trace[i], id) && NoneAsks(trace, steps, i, j, id)
    ensures Unqueued(trace[j], id)
    decreases j
  {
    if i < j {
      StaysUnqueued(trace, steps, i, j - 1, id);
      assert !AsksBack(trace[j - 1], steps[j - 1], id);
      UnqueuedInRun(trace, steps, j - 1, id);
    }
  }

  /** In every run, a frame the transport took, at once or in a later drain, is out of the queue until a request
      asks its row back. */
  lemma SentLeavesQueue(trace: seq<Sys>, steps: seq<Step>, i: nat, j: nat, id: Id)
    requires IsRun(trace, steps) && i < j < |trace| && Accepts(steps[i], id) && NoneAsks(trace, steps, i + 1, j, id)
    ensures id !in trace[j].db.outbox
  {
    UnqueuedInRun(trace, steps, i, id);
    StaysUnqueued(trace, steps, i + 1, j, id);
  }

  ghost predicate HasRow(s: Sys, id: Id) {
    id in s.db.rows
  }

  /** The frame is with the transport or beyond: transmitted or acknowledged. */
  ghost predicate Gone(s: Sys, id: Id) {
    HasRow(s, id) && (s.db.rows[id].state == Transmitted || s.db.rows[id].state == Acknowledged)
  }

  lemma RowStaysGone(s: Sys, t: Step, id: Id)
    requires Gone(s, id) && id !in s.db.outbox && t != Maintain(Break) && (t.Send? ==> t.id != id)
    ensures RowAfter(s, t, id).Some? ==> RowAfter(s, t, id).value.state in {Transmitted, Acknowledged}
  {
  }

  /** Transmitted or acknowledged, and not queued. */
  ghost predicate Safe(s: Sys, id: Id) {
    Gone(s, id) && Unqueued(s, id)
  }

  /** The step neither breaks the session nor asks the row back. */
  ghost predicate Calm(s: Sys, t: Step, id: Id) {
    t != Maintain(Break) && !AsksBack(s, t, id)
  }

  lemma SafeStep(s: Sys, t: Step, id: Id)
    requires Inv(s) && Enabled(s, t) && Safe(s, id) && Calm(s, t, id) && HasRow(Apply(s, t), id)
    ensures Safe(Apply(s, t), id)
  {
    UnqueuedStep(s, t, id);
    SenderExact(s, t, id);
    RowStaysGone(s, t, id);
  }

  lemma SafeInRun(trace: seq<Sys>, steps: seq<Step>, k: nat, id: Id)
    requires IsRun(trace, steps) && k < |steps| && Safe(trace[k], id) && Calm(trace[k], steps[k], id) && HasRow(trace[k + 1], id)
    ensures Safe(trace[k + 1], id)
  {
    RunInv(trace, steps, k);
    SafeStep(trace[k], steps[k], id);
  }

  ghost predicate CalmStretch(trace: seq<Sys>, steps: seq<Step>, i: nat, j: nat, id: Id)
    requires i <= j <= |steps| < |trace|
  {
    (forall k :: i <= k < j ==> Calm(trace[k], steps[k], id)) && (forall k :: i <= k <= j ==> HasRow(trace[k], id))
  }

  /** Over every stretch of every run in which the row stays, the session does not break and no request asks it
      back, a transmitted row without a queue entry never fails: the expiry of the queue cannot touch it. */
  lemma {:induction false} TransmittedIsSafe(trace: seq<Sys>, steps: seq<Step>, i: nat, j: nat, id: Id)
    requires IsRun(trace, steps) && i <= j < |trace| && Safe(trace[i], id) && CalmStretch(trace, steps, i, j, id)
    ensures Safe(trace[j], id)
    decreases j
  {
    if i < j {
      TransmittedIsSafe(trace, steps, i, j - 1, id);
      assert Calm(trace[j - 1], steps[j - 1], id);
      SafeInRun(trace, steps, j - 1, id);
    }
  }
}
