/** What delivery cannot promise, and exactly when: gap-free seqs, a horizon that always moves on, and
    acknowledgements that stay. */
module DeliveryLimits {
  import opened Bytes
  import opened ReceiveView
  import opened Outbound
  import opened Delivery
  import opened SenderLife

  // ---- continuations ----

  ghost predicate Runs(s: Sys, steps: seq<Step>)
    decreases |steps|
  {
    steps == [] || (Enabled(s, steps[0]) && Runs(Apply(s, steps[0]), steps[1..]))
  }

  ghost function End(s: Sys, steps: seq<Step>): Sys
    requires Runs(s, steps)
    decreases |steps|
  {
    if steps == [] then s else End(Apply(s, steps[0]), steps[1..])
  }

  // ---- gap-free seqs ----

  /** Some frame was made under seq `q`. */
  ghost predicate Carried(made: map<Id, Frame>, q: nat) {
    exists id :: id in made && made[id].appSeq == q
  }

  /** Every seq issued so far went out with a frame. */
  ghost predicate GapFree(s: Sys) {
    forall q :: 1 <= q < s.db.floor ==> Carried(s.made, q)
  }

  lemma FloorOnlyBySends(s: Sys, t: Step)
    requires Inv(s) && Enabled(s, t) && !t.SendFails? && !t.Send?
    ensures Apply(s, t).db.floor == s.db.floor && Apply(s, t).made == s.made
  {
    match t {
      case Maintain(op) => UpkeepStep(s.db, s.made, op, s.now);
      case Drain(id, _, _) => SettleStep(s.db, s.made, id);
      case _ =>
    }
  }

  lemma SendCarries(s: Sys, t: Step)
    requires Inv(s) && Enabled(s, t) && t.Send?
    ensures
      var s' := Apply(s, t);
      && s'.db.floor == s.db.floor + 1 && s'.made == s.made[t.id := Frame(t.id, s.db.floor, t.payload)]
      && forall q :: Carried(s'.made, q) <==> Carried(s.made, q) || q == s.db.floor
  {
    NextSeqIsFresh(s, t.m);
    var f := Frame(t.id, s.db.floor, t.payload);
    forall q ensures Carried(s.made[t.id := f], q) <==> Carried(s.made, q) || q == s.db.floor {
      if Carried(s.made, q) {
        var id :| id in s.made && s.made[id].appSeq == q;
        assert id in s.made[t.id := f] && s.made[t.id := f][id].appSeq == q;
      }
      assert s.made[t.id := f][t.id].appSeq == s.db.floor;
    }
  }

  lemma FailureLeavesHole(s: Sys, t: Step)
    requires Inv(s) && Enabled(s, t) && t.SendFails?
    ensures
      var s' := Apply(s, t);
      s'.db.floor == s.db.floor + 1 && s'.made == s.made && !Carried(s'.made, s.db.floor)
  {
    NextSeqIsFresh(s, t.m);
  }

  /** A step keeps the seqs gap-free exactly when they were and it is not a send whose encoding or
      encryption fails. */
  lemma GapFreeStep(s: Sys, t: Step)
    requires Inv(s) && Enabled(s, t)
    ensures GapFree(Apply(s, t)) <==> GapFree(s) && !t.SendFails?
  {
    var s' := Apply(s, t);
    if t.SendFails? {
      FailureLeavesHole(s, t);
      assert 1 <= s.db.floor < s'.db.floor;
    } else if t.Send? {
      SendCarries(s, t);
      if GapFree(s') {
        forall q | 1 <= q < s.db.floor ensures Carried(s.made, q) {
          assert Carried(s'.made, q);
        }
      }
    } else {
      FloorOnlyBySends(s, t);
    }
  }

  /** In every run, the seqs issued are gap-free if and only if no send has failed after taking its seq. */
  lemma {:induction false} GapFreeIff(trace: seq<Sys>, steps: seq<Step>, i: nat)
    requires IsRun(trace, steps) && i < |trace|
    ensures GapFree(trace[i]) <==> forall k :: 0 <= k < i ==> !steps[k].SendFails?
    decreases i
  {
    if i > 0 {
      RunInv(trace, steps, i - 1);
      GapFreeIff(trace, steps, i - 1);
      GapFreeStep(trace[i - 1], steps[i - 1]);
    }
  }

  /** The shortest run with a hole: one failed send, and seq 1 is issued without a frame. */
  lemma FirstHole()
    ensures
      var steps := [SendFails(None)];
      && Enabled(Init, SendFails(None))
      && var trace := [Init, Apply(Init, SendFails(None))];
      && IsRun(trace, steps) && trace[1].issued == [1] && 1 < trace[1].db.floor && !Carried(trace[1].made, 1)
  {
  }

  // ---- seqs that can never arrive ----

  /** The queue or a repair can still put the frame of row `id` on the wire. */
  ghost predicate Sendable(db: Db, now: nat, id: Id) {
    || id in db.outbox
    || (id in db.cache && id in db.rows && db.rows[id].Unsettled() && !db.rows[id].Expired(now) && !db.broken)
  }

  /** Seq `q` was issued and is neither noted, nor on the wire, nor carried by a frame that can get there:
      never made, or made and with no usable copy left. */
  ghost predicate Dead(s: Sys, q: nat) {
    && 1 <= q < s.db.floor && q !in s.seen
    && (forall f :: f in s.wire ==> f.appSeq != q)
    && (forall id :: id in s.made && s.made[id].appSeq == q ==> !Sendable(s.db, s.now, id))
  }

  lemma SeenIsCarried(s: Sys, q: nat)
    requires ReceiverInv(s) && q in s.seen
    ensures Carried(s.made, q)
  {
    var k :| 0 <= k < |s.log| && s.log[k].appSeq == q;
    assert s.log[k].id in s.made && s.made[s.log[k].id].appSeq == q;
  }

  /** A failed send leaves a dead seq. */
  lemma HoleIsDead(s: Sys, q: nat)
    requires Inv(s) && 1 <= q < s.db.floor && !Carried(s.made, q)
    ensures Dead(s, q)
  {
    if q in s.seen {
      SeenIsCarried(s, q);
    }
  }

  /** What a change of the tables must keep: nothing becomes sendable that was not. */
  ghost predicate NoNewCopies(db: Db, db': Db, now: nat, now': nat, id: Id) {
    Sendable(db', now', id) ==> Sendable(db, now, id)
  }

  lemma UpkeepNoNewCopies(db: Db, op: Upkeep, now: nat, id: Id)
    ensures NoNewCopies(db, DoUpkeep(db, op, now), now, now, id)
  {
  }

  lemma RequestNoNewCopies(db: Db, v: View, now: nat, id: Id)
    ensures NoNewCopies(db, HandleRequest(db, v, now), now, now, id)
  {
  }

  lemma SettleNoNewCopies(db: Db, done: Id, now: nat, id: Id)
    ensures NoNewCopies(db, Settle(db, done), now, now, id)
  {
  }

  lemma QueuedNoNewCopies(db: Db, f: Frame, expires: Option<nat>, now: nat, id: Id)
    requires id != f.id
    ensures NoNewCopies(db, Ledger(db, f, expires, now), now, now, id)
  {
  }

  lemma SendStaysDead(s: Sys, t: Step, q: nat)
    requires Inv(s) && Enabled(s, t) && t.Send? && Dead(s, q)
    ensures Dead(Apply(s, t), q)
  {
    var s' := Apply(s, t);
    SendCarries(s, t);
    NextSeqIsFresh(s, t.m);
    var f := Frame(t.id, s.db.floor, t.payload);
    var db1 := s.db.(floor := s.db.floor + 1);
    forall id | id in s'.made && s'.made[id].appSeq == q ensures !Sendable(s'.db, s'.now, id) {
      assert id != t.id && id in s.made;
      QueuedNoNewCopies(db1, f, t.expires, s.now, id);
      SettleNoNewCopies(Ledger(db1, f, t.expires, s.now), t.id, s.now, id);
    }
  }

  lemma DrainStaysDead(s: Sys, t: Step, q: nat)
    requires Inv(s) && Enabled(s, t) && t.Drain? && Dead(s, q)
    ensures Dead(Apply(s, t), q)
  {
    var record := s.db.outbox[t.id].record;
    assert t.id in s.made && s.made[t.id] == record && Sendable(s.db, s.now, t.id);
    forall id | id in s.made && s.made[id].appSeq == q ensures !Sendable(Apply(s, t).db, s.now, id) {
      SettleNoNewCopies(s.db, t.id, s.now, id);
    }
  }

  lemma TablesStayDead(s: Sys, t: Step, q: nat)
    requires Inv(s) && Enabled(s, t) && (t.Maintain? || t.Handle?) && Dead(s, q)
    ensures Dead(Apply(s, t), q)
  {
    forall id | id in s.made && s.made[id].appSeq == q ensures !Sendable(Apply(s, t).db, s.now, id) {
      if t.Maintain? {
        UpkeepNoNewCopies(s.db, t.op, s.now, id);
      } else {
        RequestNoNewCopies(s.db, t.v, s.now, id);
      }
    }
    if t.Maintain? {
      UpkeepStep(s.db, s.made, t.op, s.now);
    }
  }

  lemma StaysDead(s: Sys, t: Step, q: nat)
    requires Inv(s) && Enabled(s, t) && Dead(s, q)
    ensures Dead(Apply(s, t), q)
  {
    match t {
      case SendFails(m) => NextSeqIsFresh(s, m);
      case Send(_, _, _, _, _, _) => SendStaysDead(s, t, q);
      case Drain(_, _, _) => DrainStaysDead(s, t, q);
      case Maintain(_) => TablesStayDead(s, t, q);
      case Handle(_) => TablesStayDead(s, t, q);
      case _ =>
    }
  }

  lemma {:induction false} DeadForever(s: Sys, steps: seq<Step>, q: nat)
    requires Inv(s) && Runs(s, steps) && Dead(s, q)
    ensures Inv(End(s, steps)) && Dead(End(s, steps), q)
    decreases |steps|
  {
    if steps != [] {
      InvStep(s, steps[0]);
      StaysDead(s, steps[0], q);
      DeadForever(Apply(s, steps[0]), steps[1..], q);
    }
  }

  // ---- the horizon stalls ----

  /** Every acknowledged row was covered by a view the receiver sent. */
  ghost predicate AcksInViews(s: Sys) {
    forall id :: id in s.db.rows && s.db.rows[id].state.Acknowledged? ==> CoveredBy(s.views, s.db.rows[id].appSeq)
  }

  ghost predicate CoveredBy(views: set<View>, q: nat) {
    exists v :: v in views && !IsMissing(v.max, v.bitmap, q)
  }

  lemma CoveredStays(views: set<View>, views': set<View>, q: nat)
    requires views <= views' && CoveredBy(views, q)
    ensures CoveredBy(views', q)
  {
    var v :| v in views && !IsMissing(v.max, v.bitmap, q);
    assert v in views';
  }

  /** An acknowledged row was acknowledged before, or its seq is shown by the view just handled. */
  lemma AckedFrom(s: Sys, t: Step, id: Id)
    requires RowAfter(s, t, id).Some? && RowAfter(s, t, id).value.state == Acknowledged
    ensures id in s.db.rows && RowAfter(s, t, id).value.appSeq == s.db.rows[id].appSeq
    ensures s.db.rows[id].state == Acknowledged || (t.Handle? && Reports(t.v, s.db.rows[id].appSeq))
  {
  }

  lemma ViewsGrow(s: Sys, t: Step)
    requires Enabled(s, t)
    ensures s.views <= Apply(s, t).views && (t.Handle? ==> t.v in Apply(s, t).views)
  {
  }

  lemma AcksStep(s: Sys, t: Step)
    requires Inv(s) && Enabled(s, t) && AcksInViews(s)
    ensures AcksInViews(Apply(s, t))
  {
    var s' := Apply(s, t);
    ViewsGrow(s, t);
    forall id | id in s'.db.rows && s'.db.rows[id].state.Acknowledged?
      ensures CoveredBy(s'.views, s'.db.rows[id].appSeq)
    {
      SenderExact(s, t, id);
      AckedFrom(s, t, id);
      if s.db.rows[id].state.Acknowledged? {
        CoveredStays(s.views, s'.views, s.db.rows[id].appSeq);
      } else {
        MissingMeans(t.v, s.db.rows[id].appSeq);
      }
    }
  }

  lemma {:induction false} AcksRun(trace: seq<Sys>, steps: seq<Step>, i: nat)
    requires IsRun(trace, steps) && i < |trace|
    ensures AcksInViews(trace[i])
    decreases i
  {
    if i > 0 {
      AcksRun(trace, steps, i - 1);
      RunInv(trace, steps, i - 1);
      AcksStep(trace[i - 1], steps[i - 1]);
    }
  }

  lemma {:induction false} DeadInRun(trace: seq<Sys>, steps: seq<Step>, i: nat, j: nat, q: nat)
    requires IsRun(trace, steps) && i <= j < |trace| && Dead(trace[i], q)
    ensures Dead(trace[j], q)
    decreases j
  {
    if i < j {
      DeadInRun(trace, steps, i, j - 1, q);
      RunInv(trace, steps, j - 1);
      StaysDead(trace[j - 1], steps[j - 1], q);
    }
  }

  /** A dead seq stalls delivery for good: in every later state of every run it is not noted, no view ever sent
      reaches it, and no row 4096 or more above it is acknowledged. */
  lemma DeadSeqStalls(trace: seq<Sys>, steps: seq<Step>, i: nat, j: nat, q: nat)
    requires IsRun(trace, steps) && i <= j < |trace| && Dead(trace[i], q)
    ensures var s := trace[j];
      && q !in s.seen && (forall v :: v in s.views ==> v.max < q)
      && forall id :: id in s.db.rows && s.db.rows[id].state.Acknowledged? ==> s.db.rows[id].appSeq < q + BITMAP_BITS
  {
    var s := trace[j];
    DeadInRun(trace, steps, i, j, q);
    RunInv(trace, steps, j);
    AcksRun(trace, steps, j);
    forall v | v in s.views ensures v.max < q {
      assert CoversOnly(v, s.seen);
      assert q <= v.max ==> !IsMissing(v.max, v.bitmap, q);
    }
    forall id | id in s.db.rows && s.db.rows[id].state.Acknowledged? ensures s.db.rows[id].appSeq < q + BITMAP_BITS {
      assert CoveredBy(s.views, s.db.rows[id].appSeq);
    }
  }

  /** In particular after one failed send: the seq it took is never filled. */
  lemma FailedSendStalls(trace: seq<Sys>, steps: seq<Step>, i: nat, j: nat)
    requires IsRun(trace, steps) && i < j < |trace| && steps[i].SendFails?
    ensures var s, q := trace[j], trace[i].db.floor;
      && q !in s.seen && (forall v :: v in s.views ==> v.max < q)
      && forall id :: id in s.db.rows && s.db.rows[id].state.Acknowledged? ==> s.db.rows[id].appSeq < q + BITMAP_BITS
  {
    RunInv(trace, steps, i);
    RunInv(trace, steps, i + 1);
    FailureLeavesHole(trace[i], steps[i]);
    HoleIsDead(trace[i + 1], trace[i].db.floor);
    DeadSeqStalls(trace, steps, i + 1, j, trace[i].db.floor);
  }

  // ---- and a seq that is not dead can still arrive ----

  lemma {:induction false} OneStep(s: Sys, t: Step)
    requires Enabled(s, t)
    ensures Runs(s, [t]) && End(s, [t]) == Apply(s, t)
  {
    assert [t][1..] == [];
    assert End(Apply(s, t), []) == Apply(s, t);
  }

  lemma {:induction false} Prepend(s: Sys, t: Step, steps: seq<Step>)
    requires Enabled(s, t) && Runs(Apply(s, t), steps)
    ensures Runs(s, [t] + steps) && End(s, [t] + steps) == End(Apply(s, t), steps)
  {
    assert ([t] + steps)[1..] == steps;
  }

  lemma FromWire(s: Sys, f: Frame) returns (steps: seq<Step>)
    requires Inv(s) && f in s.wire
    ensures Runs(s, steps) && f.appSeq in End(s, steps).seen
  {
    var t := Deliver(f, false, true);
    ReceiveOne(s, f, false, true);
    OneStep(s, t);
    steps := [t];
  }

  lemma FromQueue(s: Sys, id: Id) returns (steps: seq<Step>)
    requires Inv(s) && id in s.db.outbox
    ensures Runs(s, steps) && s.made[id].appSeq in End(s, steps).seen
  {
    var t := Drain(id, true, false);
    InvStep(s, t);
    var rest := FromWire(Apply(s, t), s.db.outbox[id].record);
    Prepend(s, t, rest);
    steps := [t] + rest;
  }

  lemma FromCache(s: Sys, id: Id, v: View) returns (steps: seq<Step>)
    requires Inv(s) && IsReceiveView(s.seen, v) && id in s.made && s.made[id].appSeq !in s.seen
    requires Sendable(s.db, s.now, id) && id !in s.db.outbox && s.made[id].appSeq <= v.max + BITMAP_BITS
    ensures Runs(s, steps) && s.made[id].appSeq in End(s, steps).seen
  {
    var a, h := Advertise(v), Handle(v);
    InvStep(s, a);
    var s1 := Apply(s, a);
    assert v in s1.views && CoversOnly(v, s1.seen);
    assert IsMissing(v.max, v.bitmap, s.made[id].appSeq);
    assert Repairable(s1.db, v, s1.now, id);
    InvStep(s1, h);
    var s2 := Apply(s1, h);
    assert id in s2.db.outbox;
    var rest := FromQueue(s2, id);
    Prepend(s1, h, rest);
    Prepend(s, a, [h] + rest);
    steps := [a] + ([h] + rest);
  }

  ghost predicate CanArrive(s: Sys, q: nat) {
    exists steps :: Runs(s, steps) && q in End(s, steps).seen
  }

  lemma NotDeadArrives(s: Sys, q: nat, v: View)
    requires Inv(s) && 1 <= q < s.db.floor && IsReceiveView(s.seen, v) && q <= v.max + BITMAP_BITS && !Dead(s, q)
    ensures CanArrive(s, q)
  {
    if q in s.seen {
      assert Runs(s, []) && End(s, []) == s;
    } else if f :| f in s.wire && f.appSeq == q {
      var steps := FromWire(s, f);
    } else {
      var id :| id in s.made && s.made[id].appSeq == q && Sendable(s.db, s.now, id);
      if id in s.db.outbox {
        var steps := FromQueue(s, id);
      } else {
        var steps := FromCache(s, id, v);
      }
    }
  }

  /** Exactly when: an issued seq within 4096 of the receiver's horizon can still be noted, by some continuation,
      if and only if it is not dead. */
  lemma DeadIff(s: Sys, q: nat, v: View)
    requires Inv(s) && 1 <= q < s.db.floor && IsReceiveView(s.seen, v) && q <= v.max + BITMAP_BITS
    ensures CanArrive(s, q) <==> !Dead(s, q)
  {
    if !Dead(s, q) {
      NotDeadArrives(s, q, v);
    } else {
      forall steps | Runs(s, steps) ensures q !in End(s, steps).seen {
        DeadForever(s, steps, q);
      }
    }
  }

  // ---- acknowledgements that do not last ----

  /** The delivery horizon of the row's queue entry passes. */
  ghost predicate QueueExpires(s: Sys, t: Step, id: Id) {
    t == Maintain(Expire) && id in s.db.outbox && s.db.outbox[id].expires <= s.now
  }

  ghost predicate Acked(s: Sys, id: Id) {
    HasRow(s, id) && s.db.rows[id].state.Acknowledged?
  }

  ghost predicate FailedRow(s: Sys, id: Id) {
    HasRow(s, id) && s.db.rows[id].state.Failed?
  }

  lemma SettledRow(s: Sys, t: Step, id: Id)
    requires (Acked(s, id) || FailedRow(s, id)) && (t.Send? ==> t.id != id) && RowAfter(s, t, id).Some?
    ensures RowAfter(s, t, id).value.state == if Acked(s, id) && !QueueExpires(s, t, id) then Acknowledged else Failed
  {
  }

  /** Failed is terminal, and Acknowledged is left only for it. */
  lemma AckedOrFailedStep(s: Sys, t: Step, id: Id)
    requires Inv(s) && Enabled(s, t) && (Acked(s, id) || FailedRow(s, id)) && HasRow(Apply(s, t), id)
    ensures Acked(Apply(s, t), id) <==> Acked(s, id) && !QueueExpires(s, t, id)
    ensures Acked(Apply(s, t), id) || FailedRow(Apply(s, t), id)
  {
    SenderExact(s, t, id);
    SettledRow(s, t, id);
  }

  /** A step takes a row that stays out of Acknowledged exactly when it expires a queue entry of that row. */
  lemma AckLeavesIff(s: Sys, t: Step, id: Id)
    requires Inv(s) && Enabled(s, t) && Acked(s, id) && HasRow(Apply(s, t), id)
    ensures !Acked(Apply(s, t), id) <==> QueueExpires(s, t, id)
  {
    AckedOrFailedStep(s, t, id);
  }

  lemma AckedOrFailedInRun(trace: seq<Sys>, steps: seq<Step>, k: nat, id: Id)
    requires IsRun(trace, steps) && k < |steps| && (Acked(trace[k], id) || FailedRow(trace[k], id)) && HasRow(trace[k + 1], id)
    ensures Acked(trace[k + 1], id) <==> Acked(trace[k], id) && !QueueExpires(trace[k], steps[k], id)
    ensures Acked(trace[k + 1], id) || FailedRow(trace[k + 1], id)
  {
    RunInv(trace, steps, k);
    AckedOrFailedStep(trace[k], steps[k], id);
  }

  ghost predicate Present(trace: seq<Sys>, i: nat, j: nat, id: Id)
    requires i <= j < |trace|
  {
    forall k :: i <= k <= j ==> HasRow(trace[k], id)
  }

  ghost predicate NoneExpires(trace: seq<Sys>, steps: seq<Step>, i: nat, j: nat, id: Id)
    requires i <= j <= |steps| <= |trace|
  {
    forall k :: i <= k < j ==> !QueueExpires(trace[k], steps[k], id)
  }

  lemma LastExpires(trace: seq<Sys>, steps: seq<Step>, i: nat, j: nat, id: Id)
    requires i < j <= |steps| <= |trace|
    ensures NoneExpires(trace, steps, i, j, id)
       <==> NoneExpires(trace, steps, i, j - 1, id) && !QueueExpires(trace[j - 1], steps[j - 1], id)
  {
  }

  /** Over every stretch of every run in which the row stays: an acknowledged row is still acknowledged at the end
      if and only if no step in between expired a queue entry of it; otherwise it is failed. */
  lemma {:induction false} AckStaysIff(trace: seq<Sys>, steps: seq<Step>, i: nat, j: nat, id: Id)
    requires IsRun(trace, steps) && i <= j < |trace| && Present(trace, i, j, id) && Acked(trace[i], id)
    ensures Acked(trace[j], id) <==> NoneExpires(trace, steps, i, j, id)
    ensures Acked(trace[j], id) || FailedRow(trace[j], id)
    decreases j
  {
    if i < j {
      AckStaysIff(trace, steps, i, j - 1, id);
      AckedOrFailedInRun(trace, steps, j - 1, id);
      LastExpires(trace, steps, i, j, id);
    }
  }

  /** A frame that reaches the peer although the transport reports failure stays queued; acknowledged by the
      peer's view, its row is failed a day later. */
  lemma AckLost()
    ensures
      var f, v := Frame(0, 1, []), View(1, []);
      var steps := [Send(None, 0, [], None, true, false), Deliver(f, false, true), Advertise(v), Handle(v),
                    Tick(86_400), Maintain(Expire)];
      && Runs(Init, steps[..4]) && Runs(Init, steps)
      && End(Init, steps[..4]).db.rows == map[0 := Row(1, Acknowledged, None)]
      && End(Init, steps).db.rows == map[0 := Row(1, Failed, None)]
  {
    var f, v := Frame(0, 1, []), View(1, []);
    var send, deliver, advertise, handle := Send(None, 0, [], None, true, false), Deliver(f, false, true), Advertise(v), Handle(v);
    var tick, expire := Tick(86_400), Maintain(Expire);
    var s1, s2, s3 := Acknowledgeable();
    AckThenExpire(s3);
    Prefix(Init, s1, s2, s3, send, deliver, advertise, [handle]);
    Prefix(Init, s1, s2, s3, send, deliver, advertise, [handle] + ([tick] + [expire]));
    SixSteps(send, deliver, advertise, handle, tick, expire);
  }

  lemma SixSteps(a: Step, b: Step, c: Step, d: Step, e: Step, f: Step)
    ensures [a, b, c, d, e, f][..4] == [a] + ([b] + ([c] + [d]))
    ensures [a, b, c, d, e, f] == [a] + ([b] + ([c] + ([d] + ([e] + [f]))))
  {
  }

  /** The state after the send that reports failure, delivered anyway. */
  ghost predicate OneQueued(s: Sys) {
    && s.db == Db(map[0 := Row(1, Queued, None)], map[0 := Frame(0, 1, [])],
                map[0 := QueueEntry(Frame(0, 1, []), 86_400)], 2, false)
    && s.now == 0 && View(1, []) in s.views
  }

  lemma FirstSend()
    ensures
      var f, t := Frame(0, 1, []), Send(None, 0, [], None, true, false);
      && Enabled(Init, t)
      && var s1 := Apply(Init, t);
      && Enabled(s1, Deliver(f, false, true))
      && var s2 := Apply(s1, Deliver(f, false, true));
      && s2.seen == {1} && OneQueued(s2.(views := {View(1, [])}))
  {
    var t := Send(None, 0, [], None, true, false);
    assert IsMaxSeq(Init.db.rows, None);
    var s1 := Apply(Init, t);
    assert s1.wire == {Frame(0, 1, [])};
  }

  lemma Acknowledgeable() returns (s1: Sys, s2: Sys, s3: Sys)
    ensures
      var a, b, c := Send(None, 0, [], None, true, false), Deliver(Frame(0, 1, []), false, true), Advertise(View(1, []));
      && Enabled(Init, a) && s1 == Apply(Init, a) && Enabled(s1, b) && s2 == Apply(s1, b)
      && Enabled(s2, c) && s3 == Apply(s2, c) && OneQueued(s3)
  {
    FirstSend();
    ViewOfOne();
    s1 := Apply(Init, Send(None, 0, [], None, true, false));
    s2 := Apply(s1, Deliver(Frame(0, 1, []), false, true));
    s3 := Apply(s2, Advertise(View(1, [])));
  }

  lemma {:induction false} AckThenExpire(s: Sys)
    requires OneQueued(s)
    ensures
      var handle, tick, expire := Handle(View(1, [])), Tick(86_400), Maintain(Expire);
      && Runs(s, [handle]) && Runs(s, [handle] + ([tick] + [expire]))
      && End(s, [handle]).db.rows == map[0 := Row(1, Acknowledged, None)]
      && End(s, [handle] + ([tick] + [expire])).db.rows == map[0 := Row(1, Failed, None)]
  {
    var handle, tick, expire := Handle(View(1, [])), Tick(86_400), Maintain(Expire);
    HandleOne(s.db, s.now);
    var s1 := Apply(s, handle);
    var s2 := Apply(s1, tick);
    ExpireOne(s2.db, s2.now);
    OneStep(s, handle);
    OneStep(s2, expire);
    Prepend(s1, tick, [expire]);
    Prepend(s, handle, [tick] + [expire]);
  }

  lemma ExpireOne(db: Db, now: nat)
    requires db.rows == map[0 := Row(1, Acknowledged, None)] && 0 in db.outbox && db.outbox[0].expires <= now
    ensures FailExpired(db, now).rows == map[0 := Row(1, Failed, None)]
  {
  }

  // ---- a long conversation ----

  ghost predicate Reachable(s: Sys) {
    exists trace, steps :: IsRun(trace, steps) && trace[|steps|] == s
  }

  lemma ReachesNext(s: Sys, t: Step)
    requires Reachable(s) && Enabled(s, t)
    ensures Reachable(Apply(s, t))
  {
    var trace, steps :| IsRun(trace, steps) && trace[|steps|] == s;
    assert IsRun(trace + [Apply(s, t)], steps + [t]);
  }

  /** `n` messages sent and noted in order. */
  ghost predicate InOrder(s: Sys, n: nat) {
    && s.db.floor == n + 1 && IsFirstSeqs(s.seen, n)
    && IsMaxSeq(s.db.rows, if n == 0 then None else Some(n))
    && (forall id :: id in s.made ==> id < n) && (forall id :: id in s.held ==> id < n)
  }

  lemma OneMore(s: Sys, n: nat)
    requires InOrder(s, n) && n + 1 < SEQ_LIMIT
    ensures
      var m := if n == 0 then None else Some(n);
      var send, deliver := Send(m, n, [], None, true, true), Deliver(Frame(n, n + 1, []), false, true);
      && Enabled(s, send) && Enabled(Apply(s, send), deliver)
      && InOrder(Apply(Apply(s, send), deliver), n + 1)
  {
    var m := if n == 0 then None else Some(n);
    var send := Send(m, n, [], None, true, true);
    var rows := Apply(s, send).db.rows;
    assert n in rows && rows[n].appSeq == n + 1;
  }

  lemma {:induction false} LongConversation(n: nat) returns (s: Sys)
    requires n < SEQ_LIMIT
    ensures Reachable(s) && InOrder(s, n)
  {
    if n == 0 {
      s := Init;
      assert IsRun([Init], []);
    } else {
      var s0 := LongConversation(n - 1);
      OneMore(s0, n - 1);
      var m := if n == 1 then None else Some(n - 1);
      var send, deliver := Send(m, n - 1, [], None, true, true), Deliver(Frame(n - 1, n, []), false, true);
      ReachesNext(s0, send);
      ReachesNext(Apply(s0, send), deliver);
      s := Apply(Apply(s0, send), deliver);
    }
  }

  /** A conversation of 65,537 messages, all noted in order, reaches a state in which every view the receiver can
      send reports a gap below the next message. */
  lemma FalseGapReached() returns (s: Sys)
    ensures Reachable(s) && s.db.floor == VIEW_SCAN_LIMIT + 2 && forall p :: 1 <= p < s.db.floor ==> p in s.seen
    ensures forall v :: IsReceiveView(s.seen, v) ==> OpensGap(v, s.db.floor)
  {
    s := LongConversation(VIEW_SCAN_LIMIT + 1);
    forall v | IsReceiveView(s.seen, v) ensures OpensGap(v, s.db.floor) {
      FalseGap(s.seen, v);
    }
  }

  lemma {:induction false} Prefix(s0: Sys, s1: Sys, s2: Sys, s3: Sys, a: Step, b: Step, c: Step, rest: seq<Step>)
    requires Enabled(s0, a) && s1 == Apply(s0, a) && Enabled(s1, b) && s2 == Apply(s1, b) && Enabled(s2, c) && s3 == Apply(s2, c)
    requires Runs(s3, rest)
    ensures Runs(s0, [a] + ([b] + ([c] + rest))) && End(s0, [a] + ([b] + ([c] + rest))) == End(s3, rest)
  {
    Prepend(s2, c, rest);
    Prepend(s1, b, [c] + rest);
    Prepend(s0, a, [b] + ([c] + rest));
  }

  lemma ViewOfOne()
    ensures IsReceiveView({1}, View(1, []))
  {
    assert IsScan({1}, [1]) && Summarises([1], View(1, []));
  }

  lemma HandleOne(db: Db, now: nat)
    requires db.rows == map[0 := Row(1, Queued, None)] && !db.broken
    ensures HandleRequest(db, View(1, []), now).rows == map[0 := Row(1, Acknowledged, None)]
    ensures HandleRequest(db, View(1, []), now).outbox == db.outbox
  {
    var v := View(1, []);
    assert Covered(db, v, 0);
    assert RepairIds(db, v, now) == {};
  }
}
