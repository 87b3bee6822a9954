/** The life of a ledger row, exactly: when it enters and with what, what each step makes of it, when it leaves. */
module RowLife {
  import opened Bytes
  import opened PolicyMachine
  import PolicyWire
  import opened Ledger
  import opened Intake
  import LedgerRuns
  import Outbound

  // ---- one step ----

  /** The step deletes row `x` by name: the peer's DELETE is accepted, or we delete it. */
  predicate Deletes(s: State, t: LedgerRuns.Step, x: Id16) {
    || (t.Arrive? && t.env.body.DeleteBody? && t.env.refId == Some(x) && Accepted(s, t.env))
    || (t.DoDelete? && t.target == x)
  }

  /** A row leaves by a sweep once its expiry is reached, by a DELETE_ALL of either side, or by the burn. */
  predicate Leaves(s: State, t: LedgerRuns.Step, x: Id16)
    requires x in s.rows
  {
    || (t.DoSweep? && s.rows[x].expires.Some? && s.rows[x].expires.value <= s.now)
    || t.DoDeleteAll?
    || (t.Arrive? && (t.env.body.DeleteAllBody? || t.env.body.CloseBody?) && Accepted(s, t.env))
  }

  /** A text message of the peer that an EDIT under `editSeq` may still rewrite. */
  predicate PeerOpen(r: Row, now: nat, editSeq: nat) {
    && r.dir == In && r.envType == Msg && !r.tombstone && r.editCount < 30 && r.lastEditSeq < editSeq
    && now < (if r.receivedAt.Some? then r.receivedAt.value else r.createdAt) + 3_600
    && (r.expires.Some? ==> now < r.expires.value)
  }

  /** A text message of ours that we may still rewrite. */
  predicate OwnOpen(r: Row, now: nat) {
    r.dir == Out && r.envType == Msg && !r.tombstone && r.editCount < 30 && now < r.sentAt + 3_600
  }

  /** The text and seq the step writes into row `x`, if any. */
  function Rewrite(s: State, t: LedgerRuns.Step, x: Id16): Option<(seq<Byte>, nat)>
    requires x in s.rows
  {
    if t.Arrive? && t.env.body.EditBody? && t.env.refId == Some(x) && Kept(s, t.env)
       && |t.env.body.text| <= 16_384 && PeerOpen(s.rows[x], s.now, t.env.appSeq) then Some((t.env.body.text, t.env.appSeq))
    else if t.DoEdit? && t.target == x && |t.text| <= 16_384 && OwnOpen(s.rows[x], s.now) then Some((t.text, s.floor))
    else None
  }

  /** What a row that stays becomes. */
  function After(s: State, t: LedgerRuns.Step, s': State, x: Id16): Row
    requires x in s.rows
  {
    var r, w := s.rows[x], Rewrite(s, t, x);
    var gone := r.tombstone || Deletes(s, t, x) || (r.envType == AttachHead && Attaching(s.policy) && !Attaching(s'.policy));
    var r1 := r.(expires := Capped(r.expires, s.policy.rules.ttl, s'.policy.rules.ttl, s.now), tombstone := gone);
    if w.Some? then r1.(payload := w.value.0, edited := true, editCount := r.editCount + 1, lastEditSeq := w.value.1)
    else if gone then r1.(payload := []) else r1
  }

  /** Row `x` fares as it should in this step. */
  ghost predicate Fares(s: State, t: LedgerRuns.Step, s': State, x: Id16)
    requires x in s.rows
  {
    && (x !in s'.rows <==> Leaves(s, t, x))
    && (x in s'.rows ==> s'.rows[x] == After(s, t, s', x))
  }

  lemma Untouched(s: State, t: LedgerRuns.Step, s': State, x: Id16)
    requires x in s.rows && LedgerRuns.RowInv(s.rows[x], s.cut, s.floor) && x in s'.rows && s'.rows[x] == s.rows[x]
    requires s'.policy == s.policy && !Leaves(s, t, x) && !Deletes(s, t, x) && Rewrite(s, t, x).None?
    ensures Fares(s, t, s', x)
  {
  }

  lemma DecidesToApply(r: Row, now: nat, editSeq: nat, n: nat, tombstoned: bool, cut: nat)
    ensures Decide(Some(r), now, editSeq, n, tombstoned, cut) == Apply && !r.tombstone
       <==> cut <= editSeq && !tombstoned && n <= 16_384 && PeerOpen(r, now, editSeq)
  {
  }

  lemma EditArrives(s: State, env: Envelope, x: Id16)
    requires x in s.rows && LedgerRuns.RowInv(s.rows[x], s.cut, s.floor) && env.body.EditBody? && Kept(s, env)
    ensures Fares(s, LedgerRuns.Arrive(env), Handle(s, env).0, x)
  {
    KeptIsDispatched(s, env);
    var s1 := Insert(NoteSeq(s, env), env);
    assert s1.rows[x] == s.rows[x];
    DecidesToApply(s.rows[x], s.now, env.appSeq, |env.body.text|, IsTombstoned(s1, env.msgId), s.cut);
    if env.refId != Some(x) {
      EditsOther(s1, env, x);
    }
  }

  lemma EditsOther(s: State, env: Envelope, x: Id16)
    requires env.body.EditBody? && x in s.rows && env.refId != Some(x)
    ensures var s' := Dispatch(s, env).0; x in s'.rows && s'.rows[x] == s.rows[x] && s'.policy == s.policy
  {
  }

  lemma DeleteArrives(s: State, env: Envelope, x: Id16)
    requires LedgerRuns.Inv(s) && x in s.rows && env.body.DeleteBody? && Kept(s, env)
    ensures Fares(s, LedgerRuns.Arrive(env), Handle(s, env).0, x)
  {
    assert LedgerRuns.RowInv(s.rows[x], s.cut, s.floor);
    KeptIsDispatched(s, env);
  }

  lemma PolicyArrivesRow(s: State, env: Envelope, x: Id16)
    requires LedgerRuns.Inv(s) && x in s.rows && env.body.PolicyBody? && Accepted(s, env)
    ensures Fares(s, LedgerRuns.Arrive(env), Handle(s, env).0, x)
  {
    assert LedgerRuns.RowInv(s.rows[x], s.cut, s.floor);
    PolicyArrives(s, env);
  }

  lemma ArriveRow(s: State, env: Envelope, x: Id16)
    requires LedgerRuns.Inv(s) && x in s.rows
    ensures Fares(s, LedgerRuns.Arrive(env), Handle(s, env).0, x)
  {
    assert LedgerRuns.RowInv(s.rows[x], s.cut, s.floor);
    RefusedOrStale(s, env);
    if !Kept(s, env) {
      Untouched(s, LedgerRuns.Arrive(env), Handle(s, env).0, x);
    } else {
      KeptIsDispatched(s, env);
      match env.body {
        case EditBody(_) => EditArrives(s, env, x);
        case DeleteBody => DeleteArrives(s, env, x);
        case PolicyBody(_) => PolicyArrivesRow(s, env, x);
        case DeleteAllBody =>
        case CloseBody =>
        case _ => Untouched(s, LedgerRuns.Arrive(env), Handle(s, env).0, x);
      }
    }
  }

  lemma OwnEditRow(s: State, t: LedgerRuns.Step, x: Id16)
    requires t.DoEdit? && t.id !in s.rows && Outbound.NextSeq(s.floor, t.m) == s.floor
    requires x in s.rows && LedgerRuns.RowInv(s.rows[x], s.cut, s.floor)
    ensures Fares(s, t, LedgerRuns.Next(s, t), x)
  {
    assert CanOfferEdit(s.rows[x], s.now) <==> OwnOpen(s.rows[x], s.now);
    if t.target != x {
      Untouched(s, t, LedgerRuns.Next(s, t), x);
    }
  }

  lemma OwnDeleteRow(s: State, t: LedgerRuns.Step, x: Id16)
    requires t.DoDelete? && t.id !in s.rows && x in s.rows && LedgerRuns.RowInv(s.rows[x], s.cut, s.floor)
    ensures Fares(s, t, LedgerRuns.Next(s, t), x)
  {
    if t.target != x {
      Untouched(s, t, LedgerRuns.Next(s, t), x);
    }
  }

  lemma PlainRow(s: State, t: LedgerRuns.Step, x: Id16)
    requires t.DoSend? || t.DoPrune? || t.NoteCaps? || t.EnterClosing? || t.Tick?
    requires (t.DoSend? ==> t.id !in s.rows) && x in s.rows && LedgerRuns.RowInv(s.rows[x], s.cut, s.floor)
    ensures Fares(s, t, LedgerRuns.Next(s, t), x)
  {
    Untouched(s, t, LedgerRuns.Next(s, t), x);
  }

  lemma SweepRow(s: State, x: Id16)
    requires x in s.rows && LedgerRuns.RowInv(s.rows[x], s.cut, s.floor)
    ensures Fares(s, LedgerRuns.DoSweep, LedgerRuns.Next(s, LedgerRuns.DoSweep), x)
  {
  }

  lemma ClearRow(s: State, t: LedgerRuns.Step, x: Id16)
    requires t.DoDeleteAll? && t.id !in s.rows && x in s.rows
    ensures Fares(s, t, LedgerRuns.Next(s, t), x)
  {
  }

  lemma OwnPolicyRow(s: State, e: PolicyMachine.Event, x: Id16)
    requires LedgerRuns.Inv(s) && LedgerRuns.Enabled(s, LedgerRuns.DoPolicy(e)) && x in s.rows
    ensures Fares(s, LedgerRuns.DoPolicy(e), PolicyEvent(s, e), x)
  {
    assert LedgerRuns.RowInv(s.rows[x], s.cut, s.floor);
    EventRows(s, e);
  }

  /** One step and one row: it leaves exactly by expiry at a sweep, DELETE_ALL or the burn, and otherwise it is
      rewritten, emptied and clamped exactly as the step says, and in no other way. */
  lemma RowStepExact(s: State, t: LedgerRuns.Step, x: Id16)
    requires LedgerRuns.Inv(s) && LedgerRuns.Enabled(s, t) && x in s.rows
    ensures Fares(s, t, LedgerRuns.Next(s, t), x)
  {
    assert LedgerRuns.RowInv(s.rows[x], s.cut, s.floor);
    match t {
      case Arrive(env) => ArriveRow(s, env, x);
      case DoEdit(_, _, _, m) =>
        LedgerRuns.NextSeqIsFloor(s, m);
        OwnEditRow(s, t, x);
      case DoDelete(_, _, _) => OwnDeleteRow(s, t, x);
      case DoPolicy(e) => OwnPolicyRow(s, e, x);
      case DoSweep => SweepRow(s, x);
      case DoDeleteAll(_, _) => ClearRow(s, t, x);
      case _ => PlainRow(s, t, x);
    }
  }

  // ---- entering ----

  /** The row the step writes under `x`: our envelope, or an accepted one of the peer that is not stale, not a
      typing or presence beat and not the closing one. */
  predicate Enters(s: State, t: LedgerRuns.Step, x: Id16) {
    match t
    case DoSend(id, _, _, _, _) => id == x
    case DoEdit(id, target, text, _) => id == x && target in s.rows && OwnOpen(s.rows[target], s.now) && |text| <= 16_384
    case DoDelete(id, _, _) => id == x
    case DoDeleteAll(id, _) => id == x
    case Arrive(env) =>
      env.msgId == x && Kept(s, env) && env.body.Type() !in {Typing, Presence} && !env.body.CloseBody?
    case _ => false
  }

  /** What the new row says: who wrote it, under which seq, when, of which kind and about what. */
  ghost predicate Records(s: State, t: LedgerRuns.Step, r: Row) {
    && r.createdAt == s.now && !r.edited && r.editCount == 0 && r.lastEditSeq == 0
    && match t
       case Arrive(env) =>
         && r.dir == In && r.appSeq == env.appSeq && r.envType == env.body.Type() && r.refId == env.refId
         && r.sentAt == (if env.sentAt < s.now then env.sentAt else s.now) && r.receivedAt == Some(s.now)
         && (env.body.MsgBody? || env.body.EditBody? ==> r.payload == env.body.text)
         && (env.body.Other? ==> r.payload == env.body.bytes)
         && (env.body.PolicyBody? && ValidPayload(env.body.cp) ==> PolicyWire.Encoding(env.body.cp) == Ok(r.payload))
         && (env.body.DeleteBody? || env.body.DeleteAllBody? ==> r.payload == [])
       case DoSend(_, ty, bytes, refId, _) => Ours(s, r, ty, refId) && r.payload == bytes
       case DoEdit(_, target, text, _) => Ours(s, r, Edit, Some(target)) && r.payload == text
       case DoDelete(_, target, _) => Ours(s, r, Delete, Some(target)) && r.payload == []
       case DoDeleteAll(_, _) => Ours(s, r, DeleteAll, None) && r.payload == []
       case _ => false
  }

  predicate Ours(s: State, r: Row, ty: EnvType, refId: Option<Id16>) {
    r.dir == Out && r.appSeq == s.floor && r.envType == ty && r.refId == refId && r.sentAt == s.now && r.receivedAt == None
  }

  /** The expiry given to a row written in this state. */
  function FirstExpiry(s: State): Option<nat> {
    if s.policy.rules.ttl == 0 then None else Some(s.now + s.policy.rules.ttl)
  }

  ghost predicate Begins(s: State, t: LedgerRuns.Step, s': State, x: Id16) {
    && (x in s'.rows <==> Enters(s, t, x))
    && (x in s'.rows ==>
          && Records(s, t, s'.rows[x])
          && s'.rows[x].expires == Capped(FirstExpiry(s), s.policy.rules.ttl, s'.policy.rules.ttl, s.now))
  }

  /** The row of the envelope, just written. */
  lemma Written(s: State, env: Envelope)
    requires env.msgId !in s.rows && env.body.Type() !in {Typing, Presence}
    ensures
      var s1 := Insert(NoteSeq(s, env), env);
      && s1 == s.(rows := s1.rows, seen := s1.seen) && s1.rows.Keys == s.rows.Keys + {env.msgId}
      && Records(s, LedgerRuns.Arrive(env), s1.rows[env.msgId]) && s1.rows[env.msgId].expires == FirstExpiry(s)
      && !s1.rows[env.msgId].tombstone && s1.rows[env.msgId].envType == env.body.Type()
  {
  }

  /** Dispatching leaves the envelope's own row as written, but for its tombstone, unless the policy changes. */
  lemma OwnRowStays(s: State, env: Envelope)
    requires !env.body.PolicyBody? && !env.body.CloseBody?
    requires env.msgId in s.rows && s.rows[env.msgId].envType == env.body.Type()
    requires env.body.DeleteBody? ==> s.rows[env.msgId].payload == []
    ensures OwnRowKept(s, Dispatch(s, env).0, env.msgId)
  {
    match env.body {
      case EditBody(text) => EditKeepsOwn(s, env, text);
      case DeleteBody => DeleteKeepsOwn(s, env);
      case _ =>
    }
  }

  ghost predicate OwnRowKept(s: State, s': State, id: Id16) {
    && s'.policy == s.policy && id in s.rows && id in s'.rows && s'.rows.Keys <= s.rows.Keys
    && s'.rows[id].(tombstone := false) == s.rows[id].(tombstone := false)
  }

  lemma EditKeepsOwn(s: State, env: Envelope, text: seq<Byte>)
    requires env.msgId in s.rows && s.rows[env.msgId].envType == Edit
    ensures OwnRowKept(s, ApplyEdit(s, env, text).0, env.msgId)
  {
  }

  lemma DeleteKeepsOwn(s: State, env: Envelope)
    requires env.msgId in s.rows && s.rows[env.msgId].payload == []
    ensures OwnRowKept(s, ApplyDelete(s, env).0, env.msgId)
  {
  }

  lemma QuietBegins(s: State, env: Envelope, x: Id16)
    requires x !in s.rows && Kept(s, env) && !env.body.PolicyBody? && !env.body.CloseBody?
    ensures Begins(s, LedgerRuns.Arrive(env), Handle(s, env).0, x)
  {
    KeptIsDispatched(s, env);
    if env.body.Type() !in {Typing, Presence} {
      Written(s, env);
      OwnRowStays(Insert(NoteSeq(s, env), env), env);
    }
  }

  lemma PolicyBegins(s: State, env: Envelope, x: Id16)
    requires x !in s.rows && Kept(s, env) && env.body.PolicyBody?
    ensures Begins(s, LedgerRuns.Arrive(env), Handle(s, env).0, x)
  {
    KeptIsDispatched(s, env);
    Written(s, env);
    EventRows(Insert(NoteSeq(s, env), env), EventOf(s, env));
  }

  lemma ArriveBegins(s: State, env: Envelope, x: Id16)
    requires x !in s.rows
    ensures Begins(s, LedgerRuns.Arrive(env), Handle(s, env).0, x)
  {
    RefusedOrStale(s, env);
    if Kept(s, env) {
      if env.body.PolicyBody? {
        PolicyBegins(s, env, x);
      } else if env.body.CloseBody? {
        KeptIsDispatched(s, env);
      } else {
        QuietBegins(s, env, x);
      }
    }
  }

  lemma SendRow(s: State, id: Id16, ty: EnvType, bytes: seq<Byte>, refId: Option<Id16>, m: Option<nat>)
    requires LedgerRuns.Inv(s) && LedgerRuns.CanSend(s, id, m)
    ensures
      var s' := Send(s, id, ty, bytes, refId, m);
      && s'.policy == s.policy && s'.rows.Keys == s.rows.Keys + {id} && Ours(s, s'.rows[id], ty, refId)
      && s'.rows[id].payload == bytes && s'.rows[id].expires == FirstExpiry(s) && s'.rows[id].createdAt == s.now
      && !s'.rows[id].edited && s'.rows[id].editCount == 0 && s'.rows[id].lastEditSeq == 0
  {
    LedgerRuns.NextSeqIsFloor(s, m);
  }

  lemma WipedRows(s: State, target: Id16)
    ensures
      var s' := AddTombstone(MarkTombstoned(s, target), target);
      && s' == s.(rows := s'.rows, tombs := s'.tombs) && s'.rows.Keys == s.rows.Keys
      && (target in s.rows ==> s'.rows == s.rows[target := s.rows[target].(payload := [], tombstone := true)])
      && (target !in s.rows ==> s'.rows == s.rows)
  {
  }

  lemma DeleteBegins(s: State, t: LedgerRuns.Step, x: Id16)
    requires LedgerRuns.Inv(s) && LedgerRuns.Enabled(s, t) && x !in s.rows && t.DoDelete?
    ensures Begins(s, t, LedgerRuns.Next(s, t), x)
  {
    SendRow(s, t.id, Delete, [], Some(t.target), t.m);
    WipedRows(Send(s, t.id, Delete, [], Some(t.target), t.m), t.target);
  }

  lemma ClearBegins(s: State, t: LedgerRuns.Step, x: Id16)
    requires LedgerRuns.Inv(s) && LedgerRuns.Enabled(s, t) && x !in s.rows && t.DoDeleteAll?
    ensures Begins(s, t, LedgerRuns.Next(s, t), x)
  {
    SendRow(s, t.id, DeleteAll, [], None, t.m);
  }

  lemma EditBegins(s: State, t: LedgerRuns.Step, x: Id16)
    requires LedgerRuns.Inv(s) && LedgerRuns.Enabled(s, t) && x !in s.rows && t.DoEdit?
    ensures Begins(s, t, LedgerRuns.Next(s, t), x)
  {
    SendRow(s, t.id, Edit, t.text, Some(t.target), t.m);
    assert t.target in s.rows ==> (CanOfferEdit(s.rows[t.target], s.now) <==> OwnOpen(s.rows[t.target], s.now));
  }

  /** One step and one absent row: it enters exactly as said, with what the envelope says and one TTL to live. */
  lemma EnterExact(s: State, t: LedgerRuns.Step, x: Id16)
    requires LedgerRuns.Inv(s) && LedgerRuns.Enabled(s, t) && x !in s.rows
    ensures Begins(s, t, LedgerRuns.Next(s, t), x)
  {
    match t {
      case Arrive(env) => ArriveBegins(s, env, x);
      case DoPolicy(e) => EventRows(s, e);
      case DoSend(id, ty, bytes, refId, m) => SendRow(s, id, ty, bytes, refId, m);
      case DoEdit(_, _, _, _) => EditBegins(s, t, x);
      case DoDelete(_, _, _) => DeleteBegins(s, t, x);
      case DoDeleteAll(_, _) => ClearBegins(s, t, x);
      case _ =>
    }
  }

  // ---- what the client hears ----

  /** The EDIT passes every test but that of the tombstone. */
  predicate PassesEdit(s: State, env: Envelope, x: Id16) {
    && env.body.EditBody? && env.refId == Some(x) && x in s.rows && |env.body.text| <= 16_384
    && PeerOpen(s.rows[x].(tombstone := false), s.now, env.appSeq)
  }

  /** A kept envelope raises one event, or none if it changes nothing the client shows. */
  ghost predicate Raises(s: State, env: Envelope, notices: seq<Notice>) {
    if !Kept(s, env) then notices == [] else
    match env.body
    case MsgBody(_) => notices == [NewMessage(env.msgId)]
    case EditBody(_) =>
      if exists x :: PassesEdit(s, env, x) then env.refId.Some? && notices == [Edited(env.refId.value)] else notices == []
    case DeleteBody =>
      if env.refId.Some? && (env.refId.value in s.rows || env.refId.value == env.msgId)
      then notices == [Deleted(env.refId.value)] else notices == []
    case DeleteAllBody => notices == [HistoryCleared]
    case CloseBody => notices == [Closed]
    case PolicyBody(_) => notices == [] || notices == [PolicyChanged]
    case Other(_, _) => notices == []
  }

  lemma EditNotice(s: State, env: Envelope)
    requires env.body.EditBody? && Kept(s, env)
    ensures Raises(s, env, Handle(s, env).1)
  {
    KeptIsDispatched(s, env);
    if env.refId.Some? && env.refId.value in s.rows {
      var x := env.refId.value;
      var r := s.rows[x].(tombstone := false);
      DecidesToApply(r, s.now, env.appSeq, |env.body.text|, IsTombstoned(s, env.msgId), s.cut);
      assert PassesEdit(s, env, x) <==> |env.body.text| <= 16_384 && PeerOpen(r, s.now, env.appSeq);
    }
    assert forall x :: PassesEdit(s, env, x) ==> env.refId == Some(x);
  }

  lemma NoticesExact(s: State, env: Envelope)
    ensures Raises(s, env, Handle(s, env).1)
  {
    RefusedOrStale(s, env);
    if Kept(s, env) {
      if env.body.EditBody? {
        EditNotice(s, env);
      } else {
        KeptIsDispatched(s, env);
      }
    }
  }

  /** An edit is announced exactly when it passes the edit tests; it is also made, unless the row it announces was
      deleted before. */
  lemma EditedIsMadeIff(s: State, env: Envelope, x: Id16)
    requires LedgerRuns.Inv(s) && x in s.rows && Edited(x) in Handle(s, env).1
    ensures x in Handle(s, env).0.rows
    ensures Handle(s, env).0.rows[x].editCount == s.rows[x].editCount + 1 <==> !s.rows[x].tombstone
    ensures s.rows[x].tombstone ==> Handle(s, env).0.rows[x] == s.rows[x]
  {
    NoticesExact(s, env);
    ArriveRow(s, env, x);
    assert LedgerRuns.RowInv(s.rows[x], s.cut, s.floor);
  }

  // ---- the other columns ----

  /** The seq below which history is cut by this step, if it clears history. */
  function ClearsAt(s: State, t: LedgerRuns.Step): Option<nat> {
    if t.DoDeleteAll? then Some(s.floor)
    else if t.Arrive? && t.env.body.DeleteAllBody? && Accepted(s, t.env) then Some(t.env.appSeq) else None
  }

  predicate Burns(s: State, t: LedgerRuns.Step) {
    t.Arrive? && t.env.body.CloseBody? && Accepted(s, t.env)
  }

  /** The step sends an envelope of ours. */
  predicate Sends(s: State, t: LedgerRuns.Step) {
    || t.DoSend? || t.DoDelete? || t.DoDeleteAll?
    || (t.DoEdit? && t.target in s.rows && OwnOpen(s.rows[t.target], s.now) && |t.text| <= 16_384)
  }

  /** The cut rises to the seq of a clear and to nothing else, every send takes the next seq, and the burn resets the cut. */
  ghost predicate ColumnsMove(s: State, t: LedgerRuns.Step, s': State) {
    && s'.burned == (s.burned || Burns(s, t))
    && s'.cut == (if Burns(s, t) then 0
                  else if ClearsAt(s, t).Some? && s.cut < ClearsAt(s, t).value then ClearsAt(s, t).value else s.cut)
    && s'.floor == (if Sends(s, t) then s.floor + 1 else s.floor)
    && s'.now == (if t.Tick? then s.now + t.secs else s.now)
    && s'.closing == (s.closing || t.EnterClosing?)
    && s'.peerCaps == (if t.NoteCaps? then t.caps else s.peerCaps)
  }

  lemma ArriveColumns(s: State, env: Envelope)
    ensures ColumnsMove(s, LedgerRuns.Arrive(env), Handle(s, env).0)
  {
    RefusedOrStale(s, env);
    if Kept(s, env) {
      KeptIsDispatched(s, env);
      if env.body.PolicyBody? {
        PolicyArrives(s, env);
      }
    }
  }

  lemma ColumnsExact(s: State, t: LedgerRuns.Step)
    requires LedgerRuns.Inv(s) && LedgerRuns.Enabled(s, t)
    ensures ColumnsMove(s, t, LedgerRuns.Next(s, t))
  {
    match t {
      case Arrive(env) => ArriveColumns(s, env);
      case DoPolicy(e) => EventRows(s, e);
      case DoSend(_, _, _, _, m) => LedgerRuns.NextSeqIsFloor(s, m);
      case DoEdit(_, _, _, m) =>
        LedgerRuns.NextSeqIsFloor(s, m);
        EditColumns(s, t);
      case DoDelete(_, _, m) => LedgerRuns.NextSeqIsFloor(s, m);
      case DoDeleteAll(_, m) =>
        LedgerRuns.NextSeqIsFloor(s, m);
        ClearColumns(s, t);
      case _ =>
    }
  }

  lemma EditColumns(s: State, t: LedgerRuns.Step)
    requires t.DoEdit? && Outbound.NextSeq(s.floor, t.m) == s.floor < Outbound.SEQ_LIMIT
    ensures ColumnsMove(s, t, LedgerRuns.Next(s, t))
  {
    assert t.target in s.rows ==> (CanOfferEdit(s.rows[t.target], s.now) <==> OwnOpen(s.rows[t.target], s.now));
  }

  lemma ClearColumns(s: State, t: LedgerRuns.Step)
    requires t.DoDeleteAll? && Outbound.NextSeq(s.floor, t.m) == s.floor < Outbound.SEQ_LIMIT
    ensures ColumnsMove(s, t, LedgerRuns.Next(s, t))
  {
  }

  /** The tombstone of `x` after a step: a day from now if the step deletes `x`, gone with the burn or when a
      pruning pass drops it, otherwise as it was. */
  function TombAfter(s: State, t: LedgerRuns.Step, x: Id16): Option<nat> {
    if Burns(s, t) || (t.DoPrune? && x !in t.kept) then None
    else if Deletes(s, t, x) then Some(s.now + 86_400)
    else if x in s.tombs then Some(s.tombs[x]) else None
  }

  function TombOf(s: State, x: Id16): Option<nat> {
    if x in s.tombs then Some(s.tombs[x]) else None
  }

  lemma ArriveTomb(s: State, env: Envelope, x: Id16)
    ensures TombOf(Handle(s, env).0, x) == TombAfter(s, LedgerRuns.Arrive(env), x)
  {
    RefusedOrStale(s, env);
    if Kept(s, env) {
      KeptIsDispatched(s, env);
      if env.body.PolicyBody? {
        PolicyArrives(s, env);
      }
    }
  }

  lemma TombExact(s: State, t: LedgerRuns.Step, x: Id16)
    ensures TombOf(LedgerRuns.Next(s, t), x) == TombAfter(s, t, x)
  {
    match t {
      case Arrive(env) => ArriveTomb(s, env, x);
      case DoPolicy(e) =>
        var r := React(s.policy, e);
        LedgerRuns.OutcomeByRow(s.(policy := r.state), r.outcome);
      case _ =>
    }
  }

  /** After a pruning pass every tombstone left is live, at most 4096 are, and none that was dropped outlives one
      that was kept; all live ones stay if they fit. */
  lemma PruneExact(s: State, kept: set<Id16>, x: Id16, y: Id16)
    requires IsPrune(s, kept)
    ensures
      var s' := PruneTombstones(s, kept);
      && s' == s.(tombs := s'.tombs) && s'.tombs.Keys <= s.tombs.Keys && |s'.tombs.Keys| <= 4096
      && (x in s'.tombs ==> s'.tombs[x] == s.tombs[x] && s.now < s.tombs[x])
      && (x in s.tombs && s.now < s.tombs[x] && x !in s'.tombs && y in s'.tombs ==> s.tombs[x] <= s'.tombs[y])
      && (x in s.tombs && s.now < s.tombs[x] && |LedgerRuns.LiveTombs(s)| <= 4096 ==> x in s'.tombs)
  {
    var s' := PruneTombstones(s, kept);
    forall id | id in kept ensures id in s.tombs {
      assert IsTombstoned(s, id);
    }
    assert s'.tombs.Keys == kept;
    if IsTombstoned(s, x) && |LedgerRuns.LiveTombs(s)| <= 4096 {
      LedgerRuns.GentlePruneKeeps(s, kept, x);
    }
  }

  // ---- over every run ----

  /** In every run, a row of one state is missing from the next exactly when a sweep finds its expiry reached, a
      DELETE_ALL takes it or the relationship is burned. */
  lemma RowLeavesIff(trace: seq<State>, steps: seq<LedgerRuns.Step>, k: nat, x: Id16)
    requires LedgerRuns.IsRun(trace, steps) && k < |steps| && x in trace[k].rows
    ensures x !in trace[k + 1].rows <==> Leaves(trace[k], steps[k], x)
  {
    LedgerRuns.RunStep(trace, steps, k);
    RowStepExact(trace[k], steps[k], x);
  }

  /** The agreed TTL shrinks in step `k`. */
  predicate ShrinksAt(trace: seq<State>, k: nat)
    requires k + 1 < |trace|
  {
    var before, after := trace[k].policy.rules.ttl, trace[k + 1].policy.rules.ttl;
    after != 0 && (before == 0 || after < before)
  }

  /** A moment a row written in step `i` has to be gone by, as of state `j`: one TTL after it was written, or one
      new TTL after a shrink since. */
  ghost predicate DueAt(trace: seq<State>, i: nat, j: nat, e: nat)
    requires i <= j < |trace|
  {
    || FirstExpiry(trace[i]) == Some(e)
    || exists k :: i <= k < j && ShrinksAt(trace, k) && e == trace[k].now + trace[k + 1].policy.rules.ttl
  }

  /** The earliest of those moments; none if there is none. */
  ghost predicate IsDeadline(trace: seq<State>, i: nat, j: nat, d: Option<nat>)
    requires i <= j < |trace|
  {
    match d
    case None => forall e: nat :: !DueAt(trace, i, j, e)
    case Some(e) => DueAt(trace, i, j, e) && forall f: nat :: DueAt(trace, i, j, f) ==> e <= f
  }

  lemma DueNext(trace: seq<State>, i: nat, j: nat, e: nat)
    requires i <= j && j + 1 < |trace|
    ensures DueAt(trace, i, j + 1, e) <==>
      DueAt(trace, i, j, e) || (ShrinksAt(trace, j) && e == trace[j].now + trace[j + 1].policy.rules.ttl)
  {
  }

  lemma DeadlineNext(trace: seq<State>, i: nat, j: nat, d: Option<nat>)
    requires i <= j && j + 1 < |trace| && IsDeadline(trace, i, j, d)
    ensures IsDeadline(trace, i, j + 1, Capped(d, trace[j].policy.rules.ttl, trace[j + 1].policy.rules.ttl, trace[j].now))
  {
    var n := j + 1;
    forall e: nat ensures DueAt(trace, i, n, e) <==>
      DueAt(trace, i, j, e) || (ShrinksAt(trace, j) && e == trace[j].now + trace[n].policy.rules.ttl)
    {
      DueNext(trace, i, j, e);
    }
    var d' := Capped(d, trace[j].policy.rules.ttl, trace[n].policy.rules.ttl, trace[j].now);
    if d'.Some? {
      assert DueAt(trace, i, n, d'.value);
      forall f: nat | DueAt(trace, i, n, f) ensures d'.value <= f {
        assert DueAt(trace, i, j, f) || f == trace[j].now + trace[n].policy.rules.ttl;
      }
    } else {
      forall e: nat ensures !DueAt(trace, i, n, e) {
        assert !DueAt(trace, i, j, e);
      }
    }
  }

  lemma ExpiryBegins(trace: seq<State>, steps: seq<LedgerRuns.Step>, i: nat, x: Id16)
    requires LedgerRuns.IsRun(trace, steps) && i < |steps| && x !in trace[i].rows && x in trace[i + 1].rows
    ensures IsDeadline(trace, i, i + 1, trace[i + 1].rows[x].expires)
  {
    LedgerRuns.RunStep(trace, steps, i);
    EnterExact(trace[i], steps[i], x);
    assert IsDeadline(trace, i, i, FirstExpiry(trace[i]));
    DeadlineNext(trace, i, i, FirstExpiry(trace[i]));
  }

  lemma ExpiryMoves(trace: seq<State>, steps: seq<LedgerRuns.Step>, j: nat, x: Id16)
    requires LedgerRuns.IsRun(trace, steps) && j < |steps| && x in trace[j].rows && x in trace[j + 1].rows
    ensures trace[j + 1].rows[x].expires
         == Capped(trace[j].rows[x].expires, trace[j].policy.rules.ttl, trace[j + 1].policy.rules.ttl, trace[j].now)
  {
    LedgerRuns.RunStep(trace, steps, j);
    RowStepExact(trace[j], steps[j], x);
  }

  /** In every run, the expiry of a row is the earliest of one TTL after it was written and one new TTL after each
      shrink of the agreed TTL since; it has none exactly when there is no such moment. */
  lemma {:induction false} ExpiryIs(trace: seq<State>, steps: seq<LedgerRuns.Step>, i: nat, j: nat, x: Id16)
    requires LedgerRuns.IsRun(trace, steps) && i < j < |trace| && x !in trace[i].rows && LedgerRuns.Present(trace, i + 1, j, x)
    ensures IsDeadline(trace, i, j, trace[j].rows[x].expires)
    decreases j
  {
    assert x in trace[j].rows;
    if j == i + 1 {
      ExpiryBegins(trace, steps, i, x);
    } else {
      assert x in trace[j - 1].rows;
      ExpiryIs(trace, steps, i, j - 1, x);
      ExpiryMoves(trace, steps, j - 1, x);
      DeadlineNext(trace, i, j - 1, trace[j - 1].rows[x].expires);
    }
  }
}
