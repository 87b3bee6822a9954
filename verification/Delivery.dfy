/** One direction of the delivery protocol between two honest peers: sends, a network that
    loses, duplicates, delays and reorders, stale receive views, retries, sweeps, erasures. */
module Delivery {
  import opened Bytes
  import opened ReceiveView
  import opened Outbound

  /** `made` and `issued` are histories: every frame ever encrypted, every seq ever issued.
      `wire` holds every frame ever put on the network and `views` every view ever sent, so
      loss, duplication, delay and reordering are all choices of what to deliver when.
      `seen`, `held` and `log` are the receiver: noted seqs, ledger ids, and the frames noted, in order.
      A frame that the history cut or a tombstone drops afterwards is noted too. */
  datatype Sys = Sys(
    db: Db,
    made: map<Id, Frame>,
    issued: seq<nat>,
    wire: set<Frame>,
    views: set<View>,
    seen: set<nat>,
    held: set<Id>,
    log: seq<Frame>,
    now: nat)

  /** Sender-side housekeeping, at any moment. */
  datatype Upkeep = Expire | Sweep | Erase(keep: set<Id>) | Clamp(before: nat) | Break

  function DoUpkeep(db: Db, op: Upkeep, now: nat): Db {
    match op
    case Expire => FailExpired(db, now)
    case Sweep => SweepExpired(db, now)
    case Erase(keep) => EraseHistory(db, keep)
    case Clamp(before) => ClampExpiry(db, before)
    case Break => FailOutbound(db)
  }

  datatype Step =
    | SendFails(m: Option<nat>)
    | Send(m: Option<nat>, id: Id, payload: seq<Byte>, expires: Option<nat>, onWire: bool, ok: bool)
    | Drain(id: Id, onWire: bool, ok: bool)
    | Maintain(op: Upkeep)
    | Deliver(f: Frame, gated: bool, ledgered: bool)
    | ForgetRows(ids: set<Id>)
    | Advertise(v: View)
    | Handle(v: View)
    | Tick(secs: nat)

  const Init := Sys(Db(map[], map[], map[], 1, false), map[], [], {}, {}, {}, {}, [], 0)

  ghost predicate Enabled(s: Sys, t: Step) {
    match t
    case SendFails(m) => IsMaxSeq(s.db.rows, m) && NextSeq(s.db.floor, m) < SEQ_LIMIT
    case Send(m, id, _, _, onWire, ok) =>
      && IsMaxSeq(s.db.rows, m) && NextSeq(s.db.floor, m) < SEQ_LIMIT
      && id !in s.made && (ok ==> onWire)
    case Drain(id, onWire, ok) => id in s.db.outbox && (ok ==> onWire)
    case Deliver(f, _, _) => f in s.wire
    case Advertise(v) => IsReceiveView(s.seen, v)
    case Handle(v) => v in s.views
    case _ => true
  }

  /** What the receiver does with one frame: a frame stopped by an earlier gate leaves no
      trace; a known id or seq is dropped as a redelivery; anything else is noted. */
  function Receive(s: Sys, f: Frame, gated: bool, ledgered: bool): Sys {
    if gated || f.id in s.held || f.appSeq in s.seen then s
    else s.(seen := s.seen + {f.appSeq},
            held := if ledgered then s.held + {f.id} else s.held,
            log := s.log + [f])
  }

  function DoSendFails(s: Sys, m: Option<nat>): Sys {
    var next := NextSeq(s.db.floor, m);
    s.(db := s.db.(floor := SatAdd1(next)), issued := s.issued + [next])
  }

  /** A successful encryption: the frame exists, its row is queued and the transport tries
      once. A failed attempt may still have reached the peer. */
  function DoSend(s: Sys, m: Option<nat>, id: Id, payload: seq<Byte>, expires: Option<nat>, onWire: bool, ok: bool): Sys {
    var s1 := DoSendFails(s, m);
    var f := Frame(id, NextSeq(s.db.floor, m), payload);
    var queued := Ledger(s1.db, f, expires, s.now);
    s1.(db := if ok then Settle(queued, id) else queued,
        made := s.made[id := f],
        wire := if onWire then s.wire + {f} else s.wire)
  }

  /** The transport took the record. */
  function Settle(db: Db, id: Id): Db {
    Transition(Dequeue(db, id), id, Transmitted)
  }

  function DoDrain(s: Sys, id: Id, onWire: bool, ok: bool): Sys
    requires id in s.db.outbox
  {
    s.(db := if ok then Settle(s.db, id) else s.db,
       wire := if onWire then s.wire + {s.db.outbox[id].record} else s.wire)
  }

  ghost function Apply(s: Sys, t: Step): Sys
    requires Enabled(s, t)
  {
    match t
    case SendFails(m) => DoSendFails(s, m)
    case Send(m, id, payload, expires, onWire, ok) => DoSend(s, m, id, payload, expires, onWire, ok)
    case Drain(id, onWire, ok) => DoDrain(s, id, onWire, ok)
    case Maintain(op) => s.(db := DoUpkeep(s.db, op, s.now))
    case Deliver(f, gated, ledgered) => Receive(s, f, gated, ledgered)
    case ForgetRows(ids) => s.(held := s.held - ids)
    case Advertise(v) => s.(views := s.views + {v})
    case Handle(v) => s.(db := HandleRequest(s.db, v, s.now))
    case Tick(secs) => s.(now := s.now + secs)
  }

  /** A run: states linked by enabled steps. */
  ghost predicate IsRun(trace: seq<Sys>, steps: seq<Step>) {
    && |trace| == |steps| + 1
    && trace[0] == Init
    && forall i :: 0 <= i < |steps| ==> Enabled(trace[i], steps[i]) && trace[i + 1] == Apply(trace[i], steps[i])
  }

  // ---- the invariant ----

  ghost predicate SeqsInv(s: Sys) {
    && 1 <= s.db.floor
    && Ascending(s.issued)
    && (forall i :: 0 <= i < |s.issued| ==> 1 <= s.issued[i] < s.db.floor)
    && (forall id :: id in s.made ==> s.made[id].id == id && 1 <= s.made[id].appSeq < s.db.floor)
    && (forall a, b :: a in s.made && b in s.made && s.made[a].appSeq == s.made[b].appSeq ==> a == b)
  }

  /** Rows, cached ciphertexts and queued records all stem from frames that were made. */
  ghost predicate DbInv(db: Db, made: map<Id, Frame>) {
    && (forall id :: id in db.rows ==> id in made && made[id].appSeq == db.rows[id].appSeq)
    && (forall id :: id in db.cache ==> id in made && db.cache[id] == made[id])
    && (forall id :: id in db.outbox ==> id in made && db.outbox[id].record == made[id])
  }

  ghost predicate FramesInv(s: Sys) {
    DbInv(s.db, s.made) && forall f :: f in s.wire ==> f.id in s.made && s.made[f.id] == f
  }

  ghost predicate Logged(log: seq<Frame>, q: nat) {
    exists k :: 0 <= k < |log| && log[k].appSeq == q
  }

  lemma LoggedAppend(log: seq<Frame>, f: Frame, q: nat)
    ensures Logged(log + [f], q) <==> Logged(log, q) || f.appSeq == q
  {
    if Logged(log, q) {
      var k :| 0 <= k < |log| && log[k].appSeq == q;
      assert (log + [f])[k].appSeq == q;
    }
    assert (log + [f])[|log|] == f;
  }

  ghost predicate ReceiverInv(s: Sys) {
    && (forall k :: 0 <= k < |s.log| ==> s.log[k].id in s.made && s.made[s.log[k].id] == s.log[k])
    && (forall k :: 0 <= k < |s.log| ==> s.log[k].appSeq in s.seen)
    && (forall q :: q in s.seen ==> Logged(s.log, q))
    && (forall j, k :: 0 <= j < k < |s.log| ==> s.log[j].appSeq != s.log[k].appSeq)
    && (forall id :: id in s.held ==> id in s.made && s.made[id].appSeq in s.seen)
  }

  ghost predicate CoversOnly(v: View, seen: set<nat>) {
    forall q: nat :: !IsMissing(v.max, v.bitmap, q) ==> q in seen
  }

  ghost predicate ViewsInv(s: Sys) {
    && (forall v :: v in s.views ==> CoversOnly(v, s.seen))
    && (forall id :: id in s.db.rows && s.db.rows[id].state.Acknowledged? ==> s.db.rows[id].appSeq in s.seen)
  }

  ghost predicate Inv(s: Sys) {
    SeqsInv(s) && FramesInv(s) && ReceiverInv(s) && ViewsInv(s)
  }

  lemma ZeroNeverSeen(s: Sys)
    requires SeqsInv(s) && ReceiverInv(s)
    ensures 0 !in s.seen
  {
    forall q | q in s.seen ensures q >= 1 {
      assert Logged(s.log, q);
      var k :| 0 <= k < |s.log| && s.log[k].appSeq == q;
      assert 1 <= s.made[s.log[k].id].appSeq;
    }
  }

  lemma NextSeqIsFresh(s: Sys, m: Option<nat>)
    requires SeqsInv(s) && FramesInv(s) && IsMaxSeq(s.db.rows, m)
    ensures NextSeq(s.db.floor, m) == s.db.floor
  {
    if m.Some? {
      var id :| id in s.db.rows && s.db.rows[id].appSeq == m.value;
      assert s.made[id].appSeq < s.db.floor;
    }
  }

  lemma SendFailsStep(s: Sys, m: Option<nat>)
    requires Inv(s) && Enabled(s, SendFails(m))
    ensures Inv(DoSendFails(s, m)) && forall id :: id in s.made ==> s.made[id].appSeq < s.db.floor
  {
    NextSeqIsFresh(s, m);
    AppendAscends(s.issued, s.db.floor);
  }

  lemma LedgerStep(db: Db, made: map<Id, Frame>, f: Frame, expires: Option<nat>, now: nat)
    requires DbInv(db, made) && f.id !in made
    ensures DbInv(Ledger(db, f, expires, now), made[f.id := f])
    ensures Ledger(db, f, expires, now).rows == db.rows[f.id := Row(f.appSeq, Queued, expires)]
  {
  }

  /** What a change of the sender's tables must keep for the invariant to survive it. */
  ghost predicate DbKept(db: Db, db': Db, made: map<Id, Frame>) {
    && db'.floor == db.floor
    && DbInv(db', made)
    && forall id :: id in db'.rows && db'.rows[id].state.Acknowledged? ==> id in db.rows && db.rows[id].state.Acknowledged?
  }

  lemma SettleStep(db: Db, made: map<Id, Frame>, id: Id)
    requires DbInv(db, made)
    ensures DbKept(db, Settle(db, id), made)
  {
  }

  lemma UpkeepStep(db: Db, made: map<Id, Frame>, op: Upkeep, now: nat)
    requires DbInv(db, made)
    ensures DbKept(db, DoUpkeep(db, op, now), made)
  {
    match op {
      case Expire =>
      case Sweep =>
      case Erase(_) =>
      case Clamp(_) =>
      case Break =>
    }
  }

  lemma KeptStep(s: Sys, db': Db)
    requires Inv(s) && DbKept(s.db, db', s.made)
    ensures Inv(s.(db := db'))
  {
  }

  lemma QueuedStep(s: Sys, m: Option<nat>, id: Id, payload: seq<Byte>, expires: Option<nat>, onWire: bool)
    requires Inv(s) && Enabled(s, SendFails(m)) && id !in s.made
    ensures Inv(DoSend(s, m, id, payload, expires, onWire, false))
  {
    SendFailsStep(s, m);
    NextSeqIsFresh(s, m);
    var s1 := DoSendFails(s, m);
    var f := Frame(id, s.db.floor, payload);
    LedgerStep(s1.db, s1.made, f, expires, s.now);
    var s2 := DoSend(s, m, id, payload, expires, onWire, false);
    SendKeeps(s1, s2, f, s2.db.rows[id]);
  }

  lemma SendStep(s: Sys, m: Option<nat>, id: Id, payload: seq<Byte>, expires: Option<nat>, onWire: bool, ok: bool)
    requires Inv(s) && Enabled(s, SendFails(m)) && id !in s.made
    ensures Inv(DoSend(s, m, id, payload, expires, onWire, ok))
  {
    QueuedStep(s, m, id, payload, expires, onWire);
    var s2 := DoSend(s, m, id, payload, expires, onWire, false);
    SettleStep(s2.db, s2.made, id);
    KeptStep(s2, Settle(s2.db, id));
  }

  /** A new frame with a fresh id and a fresh seq disturbs nothing. */
  lemma SendKeeps(s1: Sys, s2: Sys, f: Frame, row: Row)
    requires Inv(s1) && f.id !in s1.made && 1 <= f.appSeq < s1.db.floor
    requires forall id :: id in s1.made ==> s1.made[id].appSeq < f.appSeq
    requires s2 == s1.(db := s2.db, made := s1.made[f.id := f], wire := s2.wire)
    requires s2.wire <= s1.wire + {f}
    requires DbInv(s2.db, s2.made) && s2.db.floor == s1.db.floor
    requires row.state.Queued? && s2.db.rows == s1.db.rows[f.id := row]
    ensures Inv(s2)
  {
    ReceiverKeeps(s1, s2);
    MadeKeeps(s1, s2, f);
    FreshKeepsAcks(s1, s2, f);
    WireKeeps(s1, s2, f);
  }

  lemma WireKeeps(s1: Sys, s2: Sys, f: Frame)
    requires FramesInv(s1) && f.id !in s1.made && s2.made == s1.made[f.id := f]
    requires s2.wire <= s1.wire + {f} && DbInv(s2.db, s2.made)
    ensures FramesInv(s2)
  {
    forall g | g in s2.wire ensures g.id in s2.made && s2.made[g.id] == g {
      assert g in s1.wire || g == f;
    }
  }

  lemma MadeKeeps(s1: Sys, s2: Sys, f: Frame)
    requires SeqsInv(s1) && 1 <= f.appSeq < s1.db.floor && f.id !in s1.made
    requires forall id :: id in s1.made ==> s1.made[id].appSeq < f.appSeq
    requires s2.made == s1.made[f.id := f] && s2.issued == s1.issued && s2.db.floor == s1.db.floor
    ensures SeqsInv(s2)
  {
    forall a, b | a in s2.made && b in s2.made && s2.made[a].appSeq == s2.made[b].appSeq ensures a == b {
      assert a != f.id ==> a in s1.made && s2.made[a] == s1.made[a];
      assert b != f.id ==> b in s1.made && s2.made[b] == s1.made[b];
    }
  }

  lemma FreshKeepsAcks(s1: Sys, s2: Sys, f: Frame)
    requires ViewsInv(s1) && s2.views == s1.views && s2.seen == s1.seen
    requires exists row: Row :: row.state.Queued? && s2.db.rows == s1.db.rows[f.id := row]
    ensures ViewsInv(s2)
  {
  }

  lemma ReceiverKeeps(s1: Sys, s2: Sys)
    requires ReceiverInv(s1) && s2.log == s1.log && s2.seen == s1.seen && s2.held == s1.held
    requires forall id :: id in s1.made ==> id in s2.made && s2.made[id] == s1.made[id]
    ensures ReceiverInv(s2)
  {
  }

  lemma AckCoveredStep(s: Sys, v: View)
    requires Inv(s) && CoversOnly(v, s.seen)
    ensures Inv(s.(db := AckCovered(s.db, v)))
  {
    var s' := s.(db := AckCovered(s.db, v));
    ReceiverKeeps(s, s');
  }

  lemma RequestStep(s: Sys, v: View)
    requires Inv(s) && v in s.views
    ensures Inv(s.(db := HandleRequest(s.db, v, s.now)))
  {
    AckCoveredStep(s, v);
    var s1 := s.(db := AckCovered(s.db, v));
    if !s.db.broken {
      KeptStep(s1, Requeue(s1.db, RepairIds(s.db, v, s.now), s.now));
    }
  }

  lemma ReceiveOne(s: Sys, f: Frame, gated: bool, ledgered: bool)
    requires ReceiverInv(s) && f.id in s.made && s.made[f.id] == f
    ensures ReceiverInv(Receive(s, f, gated, ledgered))
    ensures s.seen <= Receive(s, f, gated, ledgered).seen
    ensures !gated ==> f.appSeq in Receive(s, f, gated, ledgered).seen
  {
    if !gated && f.id !in s.held && f.appSeq !in s.seen {
      forall q ensures Logged(s.log + [f], q) <==> Logged(s.log, q) || f.appSeq == q {
        LoggedAppend(s.log, f, q);
      }
    }
  }

  lemma ReceiveStep(s: Sys, f: Frame, gated: bool, ledgered: bool)
    requires Inv(s) && f in s.wire
    ensures Inv(Receive(s, f, gated, ledgered))
  {
    ReceiveOne(s, f, gated, ledgered);
  }

  lemma AdvertiseStep(s: Sys, v: View)
    requires Inv(s) && IsReceiveView(s.seen, v)
    ensures Inv(s.(views := s.views + {v}))
  {
    ZeroNeverSeen(s);
    ViewSound(s.seen, v);
  }

  lemma DrainStep(s: Sys, id: Id, onWire: bool, ok: bool)
    requires Inv(s) && id in s.db.outbox
    ensures Inv(DoDrain(s, id, onWire, ok))
  {
    SettleStep(s.db, s.made, id);
    KeptStep(s, Settle(s.db, id));
  }

  lemma InvStep(s: Sys, t: Step)
    requires Inv(s) && Enabled(s, t)
    ensures Inv(Apply(s, t))
  {
    match t {
      case SendFails(m) => SendFailsStep(s, m);
      case Send(m, id, payload, expires, onWire, ok) => SendStep(s, m, id, payload, expires, onWire, ok);
      case Drain(id, onWire, ok) => DrainStep(s, id, onWire, ok);
      case Maintain(op) =>
        UpkeepStep(s.db, s.made, op, s.now);
        KeptStep(s, DoUpkeep(s.db, op, s.now));
      case Deliver(f, gated, ledgered) => ReceiveStep(s, f, gated, ledgered);
      case ForgetRows(_) =>
      case Advertise(v) => AdvertiseStep(s, v);
      case Handle(v) => RequestStep(s, v);
      case Tick(_) =>
    }
  }

  lemma {:induction false} RunInv(trace: seq<Sys>, steps: seq<Step>, i: nat)
    requires IsRun(trace, steps) && i < |trace|
    ensures Inv(trace[i])
  {
    if i > 0 {
      RunInv(trace, steps, i - 1);
      InvStep(trace[i - 1], steps[i - 1]);
    }
  }

  // ---- safety over every run ----

  /** A row is Acknowledged only if the peer noted exactly that frame. */
  lemma AckSafety(trace: seq<Sys>, steps: seq<Step>, i: nat, id: Id)
    requires IsRun(trace, steps) && i < |trace|
    requires id in trace[i].db.rows && trace[i].db.rows[id].state.Acknowledged?
    ensures id in trace[i].made && trace[i].made[id] in trace[i].log
  {
    RunInv(trace, steps, i);
    var s := trace[i];
    assert Logged(s.log, s.db.rows[id].appSeq);
    var k :| 0 <= k < |s.log| && s.log[k].appSeq == s.db.rows[id].appSeq;
    assert s.log[k].id == id;
  }

  /** Seqs are issued in strictly increasing order, through sweeps and erasures, and no seq
      is noted twice, even after its ledger row is gone. */
  lemma SeqSoundness(trace: seq<Sys>, steps: seq<Step>, i: nat)
    requires IsRun(trace, steps) && i < |trace|
    ensures Ascending(trace[i].issued)
    ensures forall j, k :: 0 <= j < k < |trace[i].log| ==> trace[i].log[j].appSeq != trace[i].log[k].appSeq
  {
    RunInv(trace, steps, i);
  }

  /** The receiver's dedupe drops only true redeliveries: a frame refused for its id or its
      seq was itself noted before. */
  lemma DedupeIsExact(trace: seq<Sys>, steps: seq<Step>, i: nat, f: Frame)
    requires IsRun(trace, steps) && i < |trace| && f in trace[i].wire
    ensures f.id in trace[i].held || f.appSeq in trace[i].seen <==> f in trace[i].log
  {
    RunInv(trace, steps, i);
    var s := trace[i];
    if f.id in s.held || f.appSeq in s.seen {
      assert Logged(s.log, f.appSeq);
      var k :| 0 <= k < |s.log| && s.log[k].appSeq == f.appSeq;
      assert s.log[k].id == f.id;
    }
  }

  // ---- repair ----

  /** Deliver frames one after another; none is stopped by an earlier gate. */
  function ReceiveAll(s: Sys, fs: seq<Frame>): Sys
    decreases |fs|
  {
    if fs == [] then s else ReceiveAll(Receive(s, fs[0], false, true), fs[1..])
  }

  ghost predicate Genuine(s: Sys, fs: seq<Frame>) {
    forall f :: f in fs ==> f.id in s.made && s.made[f.id] == f
  }

  lemma {:induction false} ReceiveAllNotes(s: Sys, fs: seq<Frame>)
    requires ReceiverInv(s) && Genuine(s, fs)
    ensures var r := ReceiveAll(s, fs);
      && ReceiverInv(r) && r == s.(seen := r.seen, held := r.held, log := r.log)
      && s.seen <= r.seen && forall f :: f in fs ==> f.appSeq in r.seen
    decreases |fs|
  {
    if fs != [] {
      ReceiveOne(s, fs[0], false, true);
      ReceiveAllNotes(Receive(s, fs[0], false, true), fs[1..]);
      assert forall f :: f in fs ==> f == fs[0] || f in fs[1..];
    }
  }

  /** Seq `q` is held by a row the sender can still repair. */
  ghost predicate SenderHolds(s: Sys, q: nat) {
    exists id :: id in s.db.rows && s.db.rows[id].appSeq == q && s.db.rows[id].Unsettled()
              && !s.db.rows[id].Expired(s.now) && id in s.db.cache
  }

  /** The frames one request asks back. */
  ghost predicate AnswersRequest(s: Sys, v: View, fs: seq<Frame>) {
    forall id :: Repairable(s.db, v, s.now, id) ==> s.db.cache[id] in fs
  }

  ghost function Above(seen: set<nat>, n: nat): set<nat> {
    set q | q in seen && q > n
  }

  lemma {:induction false} HorizonExists(seen: set<nat>, n: nat) returns (h: nat)
    requires forall q :: 1 <= q <= n ==> q in seen
    ensures h >= n && IsHorizon(seen, h)
    decreases |Above(seen, n)|
  {
    if n + 1 in seen {
      assert Above(seen, n) == Above(seen, n + 1) + {n + 1};
      h := HorizonExists(seen, n + 1);
    } else {
      h := n;
    }
  }

  /** One request and the delivery of the returned frames, in any order and with any other
      genuine frames mixed in, lifts the horizon to `n`: exactly when `n` is within the scan
      limit. */
  lemma {:induction false} RepairLiftsHorizon(s: Sys, v: View, n: nat, fs: seq<Frame>, v': View)
    requires Inv(s) && IsReceiveView(s.seen, v)
    requires n <= v.max + BITMAP_BITS
    requires forall q :: 1 <= q <= n && q !in s.seen ==> SenderHolds(s, q)
    requires AnswersRequest(s, v, fs) && Genuine(s, fs)
    requires IsReceiveView(ReceiveAll(s, fs).seen, v')
    ensures v'.max >= n <==> n <= VIEW_SCAN_LIMIT
  {
    var r := ReceiveAll(s, fs);
    ReceiveAllNotes(s, fs);
    ZeroNeverSeen(s);
    ZeroNeverSeen(r);
    ViewSound(s.seen, v);
    forall q | 1 <= q <= n ensures q in r.seen {
      if q !in s.seen {
        var id :| id in s.db.rows && s.db.rows[id].appSeq == q && s.db.rows[id].Unsettled()
               && !s.db.rows[id].Expired(s.now) && id in s.db.cache;
        assert Repairable(s.db, v, s.now, id);
        assert s.db.cache[id] in fs && s.db.cache[id].appSeq == q;
      }
    }
    var h := HorizonExists(r.seen, n);
    ViewHorizon(r.seen, v', h);
  }

  /** Successful retries of the given queue entries. */
  function DrainAll(db: Db, ids: seq<Id>): Db
    decreases |ids|
  {
    if ids == [] then db
    else DrainAll(Settle(db, ids[0]), ids[1..])
  }

  /** A row that is acknowledged or can still become so. */
  ghost predicate OnCourse(db: Db, id: Id, q: nat) {
    id in db.rows && db.rows[id].appSeq == q && (db.rows[id].Unsettled() || db.rows[id].state.Acknowledged?)
  }

  lemma {:induction false} DrainKeepsCourse(db: Db, ids: seq<Id>, id: Id, q: nat)
    requires OnCourse(db, id, q)
    ensures OnCourse(DrainAll(db, ids), id, q) && DrainAll(db, ids).broken == db.broken
    decreases |ids|
  {
    if ids != [] {
      DrainKeepsCourse(Settle(db, ids[0]), ids[1..], id, q);
    }
  }

  lemma RequestAcks(db: Db, v: View, now: nat, id: Id, q: nat)
    requires OnCourse(db, id, q) && !db.broken
    ensures OnCourse(HandleRequest(db, v, now), id, q) && !HandleRequest(db, v, now).broken
    ensures 1 <= q <= v.max ==> HandleRequest(db, v, now).rows[id].state.Acknowledged?
  {
  }

  /** Repair converges: one request, retries of the queue, delivery of the returned frames and
      a second request acknowledge every undecided row up to `n`. */
  lemma {:induction false} RepairConverges(s: Sys, v: View, n: nat, fs: seq<Frame>, retried: seq<Id>, v': View, later: nat, id: Id)
    requires Inv(s) && !s.db.broken && IsReceiveView(s.seen, v)
    requires n <= v.max + BITMAP_BITS && n <= VIEW_SCAN_LIMIT
    requires forall q :: 1 <= q <= n && q !in s.seen ==> SenderHolds(s, q)
    requires AnswersRequest(s, v, fs) && Genuine(s, fs)
    requires IsReceiveView(ReceiveAll(s, fs).seen, v')
    requires id in s.db.rows && s.db.rows[id].Unsettled() && s.db.rows[id].appSeq <= n
    ensures v'.max >= n
    ensures var db' := HandleRequest(DrainAll(HandleRequest(s.db, v, s.now), retried), v', later);
      id in db'.rows && db'.rows[id].state.Acknowledged?
  {
    RepairLiftsHorizon(s, v, n, fs, v');
    var q := s.db.rows[id].appSeq;
    assert 1 <= s.made[id].appSeq;
    RequestAcks(s.db, v, s.now, id, q);
    var db1 := HandleRequest(s.db, v, s.now);
    DrainKeepsCourse(db1, retried, id, q);
    RequestAcks(DrainAll(db1, retried), v', later, id, q);
  }
}
