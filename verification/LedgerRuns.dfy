/** What every run of the ledger keeps: the retention bound, the history cut, tombstones,
    edit limits. */
module LedgerRuns {
  import opened Bytes
  import opened PolicyMachine
  import opened Ledger
  import Outbound

  datatype Step =
    | Arrive(env: Envelope)
    | DoSend(id: Id16, t: EnvType, bytes: seq<Byte>, refId: Option<Id16>, m: Option<nat>)
    | DoEdit(id: Id16, target: Id16, text: seq<Byte>, m: Option<nat>)
    | DoDelete(id: Id16, target: Id16, m: Option<nat>)
    | DoDeleteAll(id: Id16, m: Option<nat>)
    | DoPolicy(e: PolicyMachine.Event)
    | DoSweep
    | DoPrune(kept: set<Id16>)
    | NoteCaps(caps: set<EnvType>)
    | EnterClosing
    | Tick(secs: nat)

  ghost predicate CanSend(s: State, id: Id16, m: Option<nat>) {
    id !in s.rows && IsMaxOut(s.rows, m) && Outbound.NextSeq(s.floor, m) < Outbound.SEQ_LIMIT
  }

  ghost predicate Enabled(s: State, t: Step) {
    && (!s.burned || t.Arrive? || t.Tick?)
    && match t
       case DoSend(id, _, _, _, m) => CanSend(s, id, m)
       case DoEdit(id, _, _, m) => CanSend(s, id, m)
       case DoDelete(id, _, m) => CanSend(s, id, m)
       case DoDeleteAll(id, m) => CanSend(s, id, m)
       case DoPolicy(e) => !e.Inbound? && (e.Accept? ==> e.at == s.now)
       case DoPrune(kept) => IsPrune(s, kept)
       case _ => true
  }

  function Next(s: State, t: Step): State {
    match t
    case Arrive(env) => Handle(s, env).0
    case DoSend(id, ty, bytes, refId, m) => Send(s, id, ty, bytes, refId, m)
    case DoEdit(id, target, text, m) => SendEdit(s, id, target, text, m)
    case DoDelete(id, target, m) => SendDelete(s, id, target, m)
    case DoDeleteAll(id, m) => SendDeleteAll(s, id, m)
    case DoPolicy(e) => PolicyEvent(s, e)
    case DoSweep => SweepExpired(s)
    case DoPrune(kept) => PruneTombstones(s, kept)
    case NoteCaps(caps) => s.(peerCaps := caps)
    case EnterClosing => s.(closing := true)
    case Tick(secs) => s.(now := s.now + secs)
  }

  ghost predicate IsRun(trace: seq<State>, steps: seq<Step>) {
    && |trace| == |steps| + 1
    && (exists at :: trace[0] == Fresh(at))
    && forall i :: 0 <= i < |steps| ==> IsStep(trace, steps, i)
  }

  ghost predicate IsStep(trace: seq<State>, steps: seq<Step>, i: nat)
    requires i < |steps| && |trace| == |steps| + 1
  {
    Enabled(trace[i], steps[i]) && trace[i + 1] == Next(trace[i], steps[i])
  }

  // ---- the invariant, row by row ----

  /** With an agreed TTL, the row expires no later than one TTL from now. */
  ghost predicate Retained(r: Row, ttl: nat, now: nat) {
    ttl != TTL_NEVER ==> r.expires.Some? && r.expires.value <= now + ttl
  }

  ghost predicate RowInv(r: Row, cut: nat, floor: nat) {
    && (r.dir == In && IsHistoryType(r.envType) ==> cut <= r.appSeq)
    && (r.tombstone ==> r.payload == [])
    && r.editCount <= EDIT_MAX_EDITS
    && (r.dir == Out ==> r.appSeq < floor && r.lastEditSeq < floor)
  }

  /** An inbound history row whose id is tombstoned right now has been wiped. */
  ghost predicate Wiped(s: State, id: Id16) {
    (id in s.rows && s.rows[id].dir == In && IsHistoryType(s.rows[id].envType) && IsTombstoned(s, id)) ==>
      s.rows[id].tombstone
  }

  ghost predicate Inv(s: State) {
    && s.floor >= 1
    && (forall id :: id in s.rows ==> Retained(s.rows[id], s.policy.rules.ttl, s.now))
    && (forall id :: id in s.rows ==> RowInv(s.rows[id], s.cut, s.floor))
    && (forall id :: Wiped(s, id))
  }

  // ---- each store operation keeps it ----

  lemma MarkEditedKeeps(s: State, id: Id16, text: seq<Byte>, editSeq: nat)
    requires Inv(s)
    requires id in s.rows ==> s.rows[id].editCount < EDIT_MAX_EDITS && (s.rows[id].dir == Out ==> editSeq < s.floor)
    ensures Inv(MarkEdited(s, id, text, editSeq))
  {
    var s' := MarkEdited(s, id, text, editSeq);
    forall x ensures Wiped(s', x) {
      assert Wiped(s, x);
    }
  }

  lemma TombstoneKeeps(s: State, id: Id16)
    requires Inv(s)
    ensures Inv(MarkTombstoned(AddTombstone(s, id), id))
  {
    var s' := MarkTombstoned(AddTombstone(s, id), id);
    forall x ensures Wiped(s', x) {
      assert Wiped(s, x);
    }
    forall x | x in s'.rows ensures RowInv(s'.rows[x], s'.cut, s'.floor) {
      assert RowInv(s.rows[x], s.cut, s.floor);
    }
  }

  lemma TombstoneOrder(s: State, id: Id16)
    ensures AddTombstone(MarkTombstoned(s, id), id) == MarkTombstoned(AddTombstone(s, id), id)
  {
  }

  lemma ClearKeeps(s: State, cutSeq: nat, keep: Id16)
    requires Inv(s) && (keep in s.rows ==> !IsHistoryType(s.rows[keep].envType))
    ensures Inv(ClearHistory(s, cutSeq, keep))
  {
    var s' := ClearHistory(s, cutSeq, keep);
    forall x ensures Wiped(s', x) {
      assert Wiped(s, x);
    }
  }

  lemma SweepKeeps(s: State)
    requires Inv(s)
    ensures Inv(SweepExpired(s))
  {
    forall x ensures Wiped(SweepExpired(s), x) {
      assert Wiped(s, x);
    }
  }

  lemma PruneKeeps(s: State, kept: set<Id16>)
    requires Inv(s)
    ensures Inv(PruneTombstones(s, kept))
  {
    forall x ensures Wiped(PruneTombstones(s, kept), x) {
      assert Wiped(s, x);
    }
  }

  lemma TickKeeps(s: State, secs: nat)
    requires Inv(s)
    ensures Inv(s.(now := s.now + secs))
  {
    var s' := s.(now := s.now + secs);
    forall x ensures Wiped(s', x) {
      assert Wiped(s, x);
    }
  }

  function ClampRow(r: Row, to: Option<nat>): Row {
    if to.Some? && (r.expires.None? || r.expires.value > to.value) then r.(expires := to) else r
  }

  function EraseRow(r: Row, erase: bool): Row {
    if erase && r.envType.AttachHead? && !r.tombstone then r.(payload := [], tombstone := true) else r
  }

  /** What a policy outcome does to one row. */
  function OnRow(r: Row, o: Outcome): Row {
    EraseRow(ClampRow(r, o.clampTo), o.eraseAttachments)
  }

  lemma ClampByRow(s: State, before: nat)
    ensures var s' := ClampExpiry(s, before);
      && s'.rows.Keys == s.rows.Keys
      && forall id :: id in s.rows ==> s'.rows[id] == ClampRow(s.rows[id], Some(before))
  {
    assert ClampExpiry(s, before).rows.Keys == s.rows.Keys;
  }

  lemma EraseByRow(s: State)
    ensures var s' := EraseAttachMessages(s);
      && s'.rows.Keys == s.rows.Keys
      && forall id :: id in s.rows ==> s'.rows[id] == EraseRow(s.rows[id], true)
  {
    assert EraseAttachMessages(s).rows.Keys == s.rows.Keys;
  }

  lemma OutcomeByRow(s: State, o: Outcome)
    ensures var s' := ApplyOutcome(s, o);
      && s' == s.(rows := s'.rows) && s'.rows.Keys == s.rows.Keys
      && forall id :: id in s.rows ==> s'.rows[id] == OnRow(s.rows[id], o)
  {
    var s1 := if o.clampTo.Some? then ClampExpiry(s, o.clampTo.value) else s;
    if o.clampTo.Some? {
      ClampByRow(s, o.clampTo.value);
    }
    EraseByRow(s1);
  }

  /** The heart of retention: a rule change clamps whenever the bound would otherwise break. */
  lemma ReactKeepsRetention(r: Row, p: PolicyState, e: PolicyMachine.Event, now: nat)
    requires Retained(r, p.rules.ttl, now)
    requires e.Inbound? || e.Accept? ==> e.at == now
    ensures Retained(OnRow(r, React(p, e).outcome), React(p, e).state.rules.ttl, now)
  {
  }

  lemma RowwiseKeeps(s: State, s': State, o: Outcome)
    requires Inv(s) && s' == s.(rows := s'.rows, policy := s'.policy) && s'.rows.Keys == s.rows.Keys
    requires forall id :: id in s.rows ==> s'.rows[id] == OnRow(s.rows[id], o)
    requires forall id :: id in s'.rows ==> Retained(s'.rows[id], s'.policy.rules.ttl, s'.now)
    ensures Inv(s')
  {
    forall x ensures Wiped(s', x) {
      assert Wiped(s, x);
    }
    forall x | x in s'.rows ensures RowInv(s'.rows[x], s'.cut, s'.floor) {
      assert RowInv(s.rows[x], s.cut, s.floor);
    }
  }

  lemma PolicyKeeps(s: State, e: PolicyMachine.Event)
    requires Inv(s) && (e.Inbound? || e.Accept? ==> e.at == s.now)
    ensures Inv(PolicyEvent(s, e))
  {
    var s', r := PolicyEvent(s, e), React(s.policy, e);
    OutcomeByRow(s.(policy := r.state), r.outcome);
    forall id | id in s'.rows ensures Retained(s'.rows[id], s'.policy.rules.ttl, s'.now) {
      ReactKeepsRetention(s.rows[id], s.policy, e, s.now);
    }
    RowwiseKeeps(s, s', r.outcome);
  }

  // ---- each step keeps it ----

  lemma NextSeqIsFloor(s: State, m: Option<nat>)
    requires Inv(s) && IsMaxOut(s.rows, m)
    ensures Outbound.NextSeq(s.floor, m) == s.floor
  {
    if m.Some? {
      var id :| id in s.rows && s.rows[id].dir == Out && s.rows[id].appSeq == m.value;
      assert RowInv(s.rows[id], s.cut, s.floor);
    }
  }

  lemma SendKeeps(s: State, id: Id16, t: EnvType, bytes: seq<Byte>, refId: Option<Id16>, m: Option<nat>)
    requires Inv(s) && CanSend(s, id, m)
    ensures Inv(Send(s, id, t, bytes, refId, m))
    ensures Outbound.NextSeq(s.floor, m) < Send(s, id, t, bytes, refId, m).floor
  {
    NextSeqIsFloor(s, m);
    var s' := Send(s, id, t, bytes, refId, m);
    forall x ensures Wiped(s', x) {
      assert Wiped(s, x);
    }
    forall x | x in s'.rows ensures RowInv(s'.rows[x], s'.cut, s'.floor) {
      assert x != id ==> RowInv(s.rows[x], s.cut, s.floor);
    }
  }

  lemma InsertKeeps(s: State, env: Envelope)
    requires Inv(s) && !ShouldDropInbound(env.body.Type(), env.appSeq, s.cut, IsTombstoned(s, env.msgId))
    ensures Inv(Insert(s, env))
  {
    var s' := Insert(s, env);
    forall x ensures Wiped(s', x) {
      assert Wiped(s, x);
    }
  }

  lemma DispatchKeeps(s: State, env: Envelope)
    requires Inv(s) && (env.body.DeleteAllBody? && env.msgId in s.rows ==> s.rows[env.msgId].envType == DeleteAll)
    ensures Inv(Dispatch(s, env).0)
  {
    match env.body {
      case MsgBody(_) =>
      case EditBody(text) =>
        if env.refId.Some? {
          var target := env.refId.value;
          if Decide(Lookup(s, target), s.now, env.appSeq, |text|, IsTombstoned(s, env.msgId), s.cut) == Apply {
            MarkEditedKeeps(s, target, text, env.appSeq);
          }
        }
      case DeleteBody =>
        if env.refId.Some? {
          TombstoneKeeps(s, env.refId.value);
        }
      case DeleteAllBody => ClearKeeps(s, env.appSeq, env.msgId);
      case CloseBody =>
        forall x ensures Wiped(Burn(s), x) {
        }
      case PolicyBody(cp) => PolicyKeeps(s, PolicyMachine.Event.Inbound(cp, env.msgId, s.now));
      case Other(_, _) =>
    }
  }

  lemma NoteKeeps(s: State, env: Envelope)
    requires Inv(s)
    ensures Inv(NoteSeq(s, env))
  {
    forall x ensures Wiped(NoteSeq(s, env), x) {
      assert Wiped(s, x);
    }
  }

  lemma ArriveKeeps(s: State, env: Envelope)
    requires Inv(s)
    ensures Inv(Handle(s, env).0)
  {
    if PassesGates(s, env) && !IsRedelivery(s, env) {
      var s1 := NoteSeq(s, env);
      NoteKeeps(s, env);
      if !ShouldDropInbound(env.body.Type(), env.appSeq, s1.cut, IsTombstoned(s1, env.msgId)) {
        InsertKeeps(s1, env);
        DispatchKeeps(Insert(s1, env), env);
      }
    }
  }

  lemma EditStepKeeps(s: State, id: Id16, target: Id16, text: seq<Byte>, m: Option<nat>)
    requires Inv(s) && CanSend(s, id, m)
    ensures Inv(SendEdit(s, id, target, text, m))
  {
    SendKeeps(s, id, Edit, text, Some(target), m);
    if target in s.rows && CanOfferEdit(s.rows[target], s.now) {
      MarkEditedKeeps(Send(s, id, Edit, text, Some(target), m), target, text, Outbound.NextSeq(s.floor, m));
    }
  }

  lemma FrameKeeps(s: State, s': State)
    requires Inv(s) && s' == s.(peerCaps := s'.peerCaps, closing := s'.closing)
    ensures Inv(s')
  {
    forall x ensures Wiped(s', x) {
      assert Wiped(s, x);
    }
  }

  lemma StepKeeps(s: State, t: Step)
    requires Inv(s) && Enabled(s, t)
    ensures Inv(Next(s, t))
  {
    match t {
      case Arrive(env) => ArriveKeeps(s, env);
      case DoSend(id, ty, bytes, refId, m) => SendKeeps(s, id, ty, bytes, refId, m);
      case DoEdit(id, target, text, m) => EditStepKeeps(s, id, target, text, m);
      case DoDelete(id, target, m) =>
        SendKeeps(s, id, Delete, [], Some(target), m);
        TombstoneKeeps(Send(s, id, Delete, [], Some(target), m), target);
        TombstoneOrder(Send(s, id, Delete, [], Some(target), m), target);
      case DoDeleteAll(id, m) =>
        SendKeeps(s, id, DeleteAll, [], None, m);
        ClearKeeps(Send(s, id, DeleteAll, [], None, m), Outbound.NextSeq(s.floor, m), id);
      case DoPolicy(e) => PolicyKeeps(s, e);
      case DoSweep => SweepKeeps(s);
      case DoPrune(kept) => PruneKeeps(s, kept);
      case NoteCaps(caps) => FrameKeeps(s, s.(peerCaps := caps));
      case EnterClosing => FrameKeeps(s, s.(closing := true));
      case Tick(secs) => TickKeeps(s, secs);
    }
  }

  lemma {:induction false} RunInv(trace: seq<State>, steps: seq<Step>, i: nat)
    requires IsRun(trace, steps) && i < |trace|
    ensures Inv(trace[i])
  {
    if i == 0 {
      forall x ensures Wiped(trace[0], x) {
      }
    } else {
      RunInv(trace, steps, i - 1);
      assert IsStep(trace, steps, i - 1);
      StepKeeps(trace[i - 1], steps[i - 1]);
    }
  }

  // ---- theorems over every run ----

  /** In every state whose agreed TTL is not NEVER, every row expires within one TTL. */
  lemma RetentionBound(trace: seq<State>, steps: seq<Step>, i: nat, id: Id16)
    requires IsRun(trace, steps) && i < |trace| && id in trace[i].rows
    requires trace[i].policy.rules.ttl != TTL_NEVER
    ensures trace[i].rows[id].expires.Some?
    ensures trace[i].rows[id].expires.value <= trace[i].now + trace[i].policy.rules.ttl
  {
    RunInv(trace, steps, i);
  }

  /** What may happen to a row while it exists: its expiry only falls, its edit mark only rises,
      a tombstone is final, its identity never changes. */
  ghost predicate Evolves(r: Row, r': Row) {
    && r'.dir == r.dir && r'.appSeq == r.appSeq && r'.envType == r.envType
    && (r.expires.Some? ==> r'.expires.Some? && r'.expires.value <= r.expires.value)
    && r.lastEditSeq <= r'.lastEditSeq && r.editCount <= r'.editCount
    && (r.tombstone ==> r'.tombstone && r'.payload == r.payload)
  }

  lemma SendEvolves(s: State, id: Id16, t: EnvType, bytes: seq<Byte>, refId: Option<Id16>, m: Option<nat>, x: Id16)
    requires Inv(s) && CanSend(s, id, m) && x in s.rows
    ensures x in Send(s, id, t, bytes, refId, m).rows && Send(s, id, t, bytes, refId, m).rows[x] == s.rows[x]
  {
  }

  lemma WipeEvolves(s: State, target: Id16, x: Id16)
    requires Inv(s) && x in s.rows
    ensures x in MarkTombstoned(s, target).rows && Evolves(s.rows[x], MarkTombstoned(s, target).rows[x])
  {
    assert RowInv(s.rows[x], s.cut, s.floor);
  }

  lemma EditEvolves(s: State, target: Id16, text: seq<Byte>, editSeq: nat, x: Id16)
    requires x in s.rows && (target in s.rows ==> s.rows[target].lastEditSeq <= editSeq)
    ensures x in MarkEdited(s, target, text, editSeq).rows
    ensures Evolves(s.rows[x], MarkEdited(s, target, text, editSeq).rows[x])
  {
  }

  lemma PolicyEvolves(s: State, e: PolicyMachine.Event, x: Id16)
    requires Inv(s) && x in s.rows
    ensures x in PolicyEvent(s, e).rows && Evolves(s.rows[x], PolicyEvent(s, e).rows[x])
  {
    OutcomeByRow(s.(policy := React(s.policy, e).state), React(s.policy, e).outcome);
    assert RowInv(s.rows[x], s.cut, s.floor);
  }

  lemma ApplyEditEvolves(s: State, env: Envelope, text: seq<Byte>, x: Id16)
    requires x in s.rows
    ensures x in ApplyEdit(s, env, text).0.rows && Evolves(s.rows[x], ApplyEdit(s, env, text).0.rows[x])
  {
    if env.refId.Some? {
      var target := env.refId.value;
      if Decide(Lookup(s, target), s.now, env.appSeq, |text|, IsTombstoned(s, env.msgId), s.cut) == Apply {
        EditEvolves(s, target, text, env.appSeq, x);
      }
    }
  }

  lemma ApplyDeleteEvolves(s: State, env: Envelope, x: Id16)
    requires Inv(s) && x in s.rows
    ensures x in ApplyDelete(s, env).0.rows && Evolves(s.rows[x], ApplyDelete(s, env).0.rows[x])
  {
    assert RowInv(s.rows[x], s.cut, s.floor);
  }

  lemma DispatchEvolves(s: State, env: Envelope, x: Id16)
    requires Inv(s) && x in s.rows && x in Dispatch(s, env).0.rows
    ensures Evolves(s.rows[x], Dispatch(s, env).0.rows[x])
  {
    match env.body {
      case EditBody(text) => ApplyEditEvolves(s, env, text, x);
      case DeleteBody => ApplyDeleteEvolves(s, env, x);
      case PolicyBody(cp) => PolicyEvolves(s, PolicyMachine.Event.Inbound(cp, env.msgId, s.now), x);
      case _ =>
    }
  }

  lemma ArriveEvolves(s: State, env: Envelope, x: Id16)
    requires Inv(s) && x in s.rows && x in Handle(s, env).0.rows
    ensures Evolves(s.rows[x], Handle(s, env).0.rows[x])
  {
    if PassesGates(s, env) && !IsRedelivery(s, env) {
      var s1 := NoteSeq(s, env);
      NoteKeeps(s, env);
      if !ShouldDropInbound(env.body.Type(), env.appSeq, s1.cut, IsTombstoned(s1, env.msgId)) {
        InsertKeeps(s1, env);
        DispatchEvolves(Insert(s1, env), env, x);
      }
    }
  }

  lemma OwnEditEvolves(s: State, id: Id16, target: Id16, text: seq<Byte>, m: Option<nat>, x: Id16)
    requires Inv(s) && CanSend(s, id, m) && x in s.rows
    ensures x in SendEdit(s, id, target, text, m).rows && Evolves(s.rows[x], SendEdit(s, id, target, text, m).rows[x])
  {
    SendEvolves(s, id, Edit, text, Some(target), m, x);
    NextSeqIsFloor(s, m);
    if target in s.rows && CanOfferEdit(s.rows[target], s.now) {
      assert RowInv(s.rows[target], s.cut, s.floor);
      EditEvolves(Send(s, id, Edit, text, Some(target), m), target, text, s.floor, x);
    }
  }

  lemma OwnDeleteEvolves(s: State, id: Id16, target: Id16, m: Option<nat>, x: Id16)
    requires Inv(s) && CanSend(s, id, m) && x in s.rows
    ensures x in SendDelete(s, id, target, m).rows && Evolves(s.rows[x], SendDelete(s, id, target, m).rows[x])
  {
    SendEvolves(s, id, Delete, [], Some(target), m, x);
    SendKeeps(s, id, Delete, [], Some(target), m);
    WipeEvolves(Send(s, id, Delete, [], Some(target), m), target, x);
  }

  lemma StepEvolves(s: State, t: Step, x: Id16)
    requires Inv(s) && Enabled(s, t) && x in s.rows && x in Next(s, t).rows
    ensures Evolves(s.rows[x], Next(s, t).rows[x])
  {
    match t {
      case Arrive(env) => ArriveEvolves(s, env, x);
      case DoSend(id, ty, bytes, refId, m) => SendEvolves(s, id, ty, bytes, refId, m, x);
      case DoEdit(id, target, text, m) => OwnEditEvolves(s, id, target, text, m, x);
      case DoDelete(id, target, m) => OwnDeleteEvolves(s, id, target, m, x);
      case DoDeleteAll(id, m) => SendEvolves(s, id, DeleteAll, [], None, m, x);
      case DoPolicy(e) => PolicyEvolves(s, e, x);
      case _ =>
    }
  }

  ghost predicate Present(trace: seq<State>, i: nat, j: nat, id: Id16)
    requires i <= j < |trace|
  {
    forall k :: i <= k <= j ==> id in trace[k].rows
  }

  lemma EvolvesTrans(a: Row, b: Row, c: Row)
    requires Evolves(a, b) && Evolves(b, c)
    ensures Evolves(a, c)
  {
  }

  lemma RunStep(trace: seq<State>, steps: seq<Step>, i: nat)
    requires IsRun(trace, steps) && i < |steps|
    ensures Inv(trace[i]) && Enabled(trace[i], steps[i]) && trace[i + 1] == Next(trace[i], steps[i])
  {
    RunInv(trace, steps, i);
    assert IsStep(trace, steps, i);
  }

  lemma OneStepEvolves(trace: seq<State>, steps: seq<Step>, i: nat, id: Id16)
    requires IsRun(trace, steps) && i < |steps| && id in trace[i].rows && id in trace[i + 1].rows
    ensures Evolves(trace[i].rows[id], trace[i + 1].rows[id])
  {
    RunStep(trace, steps, i);
    StepEvolves(trace[i], steps[i], id);
  }

  /** Over any stretch of any run in which a row stays, its edit mark never falls and a tombstone
      stays empty. */
  lemma {:induction false} RowEvolves(trace: seq<State>, steps: seq<Step>, i: nat, j: nat, id: Id16)
    requires IsRun(trace, steps) && i <= j < |trace| && Present(trace, i, j, id)
    ensures Evolves(trace[i].rows[id], trace[j].rows[id])
    decreases j
  {
    if i < j {
      assert id in trace[j - 1].rows && id in trace[j].rows;
      RowEvolves(trace, steps, i, j - 1, id);
      OneStepEvolves(trace, steps, j - 1, id);
      EvolvesTrans(trace[i].rows[id], trace[j - 1].rows[id], trace[j].rows[id]);
    }
  }

  /** Whatever happens to the rules afterwards, a row held under a TTL is erased by any sweep one
      TTL later. */
  lemma SweepErases(trace: seq<State>, steps: seq<Step>, i: nat, j: nat, id: Id16)
    requires IsRun(trace, steps) && i <= j < |trace| && Present(trace, i, j, id)
    requires trace[i].policy.rules.ttl != TTL_NEVER
    requires trace[j].now >= trace[i].now + trace[i].policy.rules.ttl
    ensures id !in SweepExpired(trace[j]).rows
  {
    RunInv(trace, steps, i);
    RowEvolves(trace, steps, i, j, id);
  }

  /** The clock never runs back, a burnt relationship stays so, and before that the cut never falls and
      no seq is forgotten. */
  ghost predicate Onward(s: State, s': State) {
    && s.now <= s'.now && (s.burned ==> s'.burned) && (s'.burned || (s.cut <= s'.cut && s.seen <= s'.seen))
  }

  lemma DispatchOnward(s: State, env: Envelope)
    ensures Onward(s, Dispatch(s, env).0)
  {
    if env.body.PolicyBody? {
      var e := PolicyMachine.Event.Inbound(env.body.cp, env.msgId, s.now);
      OutcomeByRow(s.(policy := React(s.policy, e).state), React(s.policy, e).outcome);
    }
  }

  lemma OnwardStep(s: State, t: Step)
    ensures Onward(s, Next(s, t))
  {
    if t.DoPolicy? {
      OutcomeByRow(s.(policy := React(s.policy, t.e).state), React(s.policy, t.e).outcome);
    }
    if t.Arrive? {
      DispatchOnward(Insert(NoteSeq(s, t.env), t.env), t.env);
    }
  }

  lemma OneOnward(trace: seq<State>, steps: seq<Step>, i: nat)
    requires IsRun(trace, steps) && i < |steps|
    ensures Onward(trace[i], trace[i + 1])
  {
    assert IsStep(trace, steps, i);
    OnwardStep(trace[i], steps[i]);
  }

  /** The history cut never falls while the relationship lives. */
  lemma {:induction false} CutNeverFalls(trace: seq<State>, steps: seq<Step>, i: nat, j: nat)
    requires IsRun(trace, steps) && i <= j < |trace|
    ensures trace[j].burned || trace[i].cut <= trace[j].cut
    decreases j
  {
    if i < j {
      OneOnward(trace, steps, j - 1);
      CutNeverFalls(trace, steps, i, j - 1);
    }
  }

  lemma {:induction false} SeenNeverShrinks(trace: seq<State>, steps: seq<Step>, i: nat, j: nat)
    requires IsRun(trace, steps) && i <= j < |trace|
    ensures trace[j].burned || (!trace[i].burned && trace[i].seen <= trace[j].seen)
    decreases j
  {
    if i < j {
      OneOnward(trace, steps, j - 1);
      SeenNeverShrinks(trace, steps, i, j - 1);
    }
  }

  lemma EffectNotes(s: State, env: Envelope)
    requires Handle(s, env) != (s, [])
    ensures Handle(s, env).0.burned || env.appSeq in Handle(s, env).0.seen
  {
    DispatchOnward(Insert(NoteSeq(s, env), env), env);
  }

  /** Each app_seq takes effect at most once, whatever the peer sends and whatever was swept, erased or
      deleted in between: a second envelope with that seq changes nothing and raises nothing. */
  lemma DispatchedOnce(trace: seq<State>, steps: seq<Step>, i: nat, j: nat)
    requires IsRun(trace, steps) && i < j < |steps| && steps[i].Arrive? && steps[j].Arrive?
    requires steps[i].env.appSeq == steps[j].env.appSeq && Handle(trace[i], steps[i].env) != (trace[i], [])
    ensures Handle(trace[j], steps[j].env) == (trace[j], [])
  {
    assert IsStep(trace, steps, i);
    EffectNotes(trace[i], steps[i].env);
    SeenNeverShrinks(trace, steps, i + 1, j);
  }

  /** No inbound history row lies below the cut, edits stay within their cap, a tombstoned row
      is empty, and a tombstoned id shows no inbound content. */
  lemma RowsStaySound(trace: seq<State>, steps: seq<Step>, i: nat, id: Id16)
    requires IsRun(trace, steps) && i < |trace| && id in trace[i].rows
    ensures var s := trace[i]; var r := s.rows[id];
      && (r.dir == In && IsHistoryType(r.envType) ==> s.cut <= r.appSeq)
      && r.editCount <= EDIT_MAX_EDITS
      && (r.tombstone ==> r.payload == [])
      && (r.dir == In && IsHistoryType(r.envType) && IsTombstoned(s, id) ==> r.tombstone && r.payload == [])
  {
    RunInv(trace, steps, i);
    assert Wiped(trace[i], id);
  }

  // ---- a DELETE and its message, in either order ----

  /** Step `t` deletes `target`: the peer's DELETE got past the gates, or we deleted it. */
  ghost predicate DeletesNow(s: State, t: Step, target: Id16) {
    || (t.Arrive? && t.env.body.DeleteBody? && t.env.refId == Some(target)
        && PassesGates(s, t.env) && !IsRedelivery(s, t.env))
    || (t.DoDelete? && t.target == target)
  }

  function LiveTombs(s: State): set<Id16> {
    set id | id in s.tombs && s.tombs[id] > s.now
  }

  /** A pruning pass that finds no more live tombstones than the cap. */
  ghost predicate GentlePrune(s: State, t: Step) {
    t.DoPrune? ==> |LiveTombs(s)| <= TOMBSTONE_CAP
  }

  ghost predicate TombHolds(s: State, id: Id16, since: nat) {
    id in s.tombs && s.tombs[id] >= since + TOMBSTONE_TTL_SEC && since <= s.now
  }

  lemma {:induction false} StrictSubsetSize(a: set<Id16>, b: set<Id16>)
    requires a < b
    ensures |a| < |b|
  {
    var x :| x in b && x !in a;
    if a != {} {
      var y :| y in a;
      StrictSubsetSize(a - {y}, b - {y});
    } else {
      assert b == (b - {x}) + {x};
    }
  }

  lemma GentlePruneKeeps(s: State, kept: set<Id16>, id: Id16)
    requires IsPrune(s, kept) && |LiveTombs(s)| <= TOMBSTONE_CAP && IsTombstoned(s, id)
    ensures id in kept
  {
    if id !in kept {
      assert kept <= LiveTombs(s) && id in LiveTombs(s);
      StrictSubsetSize(kept, LiveTombs(s));
    }
  }

  lemma DispatchTombs(s: State, env: Envelope, id: Id16, since: nat)
    requires TombHolds(s, id, since) && !Dispatch(s, env).0.burned
    ensures TombHolds(Dispatch(s, env).0, id, since)
  {
    if env.body.PolicyBody? {
      var e := PolicyMachine.Event.Inbound(env.body.cp, env.msgId, s.now);
      OutcomeByRow(s.(policy := React(s.policy, e).state), React(s.policy, e).outcome);
    }
  }

  lemma TombStep(s: State, t: Step, id: Id16, since: nat)
    requires TombHolds(s, id, since) && Enabled(s, t) && GentlePrune(s, t) && !Next(s, t).burned
    requires Next(s, t).now < since + TOMBSTONE_TTL_SEC
    ensures TombHolds(Next(s, t), id, since)
  {
    match t {
      case Arrive(env) =>
        if PassesGates(s, env) && !IsRedelivery(s, env) {
          var s1 := NoteSeq(s, env);
          if !ShouldDropInbound(env.body.Type(), env.appSeq, s1.cut, IsTombstoned(s1, env.msgId)) {
            DispatchTombs(Insert(s1, env), env, id, since);
          }
        }
      case DoPrune(kept) => GentlePruneKeeps(s, kept, id);
      case DoPolicy(e) => OutcomeByRow(s.(policy := React(s.policy, e).state), React(s.policy, e).outcome);
      case _ =>
    }
  }

  lemma DeleteTombs(s: State, t: Step, target: Id16)
    requires DeletesNow(s, t, target)
    ensures TombHolds(Next(s, t), target, s.now) && Next(s, t).now == s.now
  {
  }

  lemma OneTombStep(trace: seq<State>, steps: seq<Step>, i: nat, id: Id16, since: nat)
    requires IsRun(trace, steps) && i < |steps| && TombHolds(trace[i], id, since) && GentlePrune(trace[i], steps[i])
    requires !trace[i + 1].burned && trace[i + 1].now < since + TOMBSTONE_TTL_SEC
    ensures TombHolds(trace[i + 1], id, since)
  {
    assert IsStep(trace, steps, i);
    TombStep(trace[i], steps[i], id, since);
  }

  lemma FirstTomb(trace: seq<State>, steps: seq<Step>, i: nat, target: Id16)
    requires IsRun(trace, steps) && i < |steps| && DeletesNow(trace[i], steps[i], target)
    ensures TombHolds(trace[i + 1], target, trace[i].now)
  {
    assert IsStep(trace, steps, i);
    DeleteTombs(trace[i], steps[i], target);
  }

  ghost predicate GentlePrunes(trace: seq<State>, steps: seq<Step>, i: nat, j: nat)
    requires j < |trace| == |steps| + 1
  {
    forall k :: i < k < j ==> GentlePrune(trace[k], steps[k])
  }

  lemma {:induction false} TombPersists(trace: seq<State>, steps: seq<Step>, i: nat, j: nat, id: Id16, since: nat)
    requires IsRun(trace, steps) && i < j < |trace| && !trace[j].burned
    requires TombHolds(trace[i + 1], id, since) && GentlePrunes(trace, steps, i, j)
    requires trace[j].now < since + TOMBSTONE_TTL_SEC
    ensures TombHolds(trace[j], id, since)
    decreases j
  {
    if j > i + 1 {
      OneOnward(trace, steps, j - 1);
      assert GentlePrune(trace[j - 1], steps[j - 1]);
      TombPersists(trace, steps, i, j - 1, id, since);
      OneTombStep(trace, steps, j - 1, id, since);
    }
  }

  /** A DELETE hides its target for a day, whichever of the two arrives first and whatever else
      happens, as long as pruning never meets more live tombstones than the cap. */
  lemma DeleteHides(trace: seq<State>, steps: seq<Step>, i: nat, j: nat, target: Id16)
    requires IsRun(trace, steps) && i < j < |trace|
    requires DeletesNow(trace[i], steps[i], target)
    requires GentlePrunes(trace, steps, i, j)
    requires trace[j].now < trace[i].now + TOMBSTONE_TTL_SEC
    requires target in trace[j].rows && trace[j].rows[target].dir == In && IsHistoryType(trace[j].rows[target].envType)
    ensures trace[j].rows[target].tombstone && trace[j].rows[target].payload == []
  {
    BurnedIsEmpty(trace, steps, j);
    FirstTomb(trace, steps, i, target);
    TombPersists(trace, steps, i, j, target, trace[i].now);
    RowsStaySound(trace, steps, j, target);
  }

  lemma {:induction false} BurnedIsEmpty(trace: seq<State>, steps: seq<Step>, i: nat)
    requires IsRun(trace, steps) && i < |trace|
    ensures trace[i].burned ==> trace[i].rows == map[]
  {
    if i > 0 {
      BurnedIsEmpty(trace, steps, i - 1);
      assert IsStep(trace, steps, i - 1);
      if trace[i].burned {
        BurnStep(trace[i - 1], steps[i - 1]);
      }
    }
  }

  lemma BurnStep(s: State, t: Step)
    requires Enabled(s, t) && (s.burned ==> s.rows == map[]) && Next(s, t).burned
    ensures Next(s, t).rows == map[]
  {
    if t.DoPolicy? {
      PolicyFrame(s, t.e);
    }
    if t.Arrive? {
      DispatchBurns(Insert(NoteSeq(s, t.env), t.env), t.env);
    }
  }

  lemma PolicyFrame(s: State, e: PolicyMachine.Event)
    ensures PolicyEvent(s, e).burned == s.burned && PolicyEvent(s, e).rows.Keys == s.rows.Keys
  {
    OutcomeByRow(s.(policy := React(s.policy, e).state), React(s.policy, e).outcome);
  }

  lemma DispatchBurns(s: State, env: Envelope)
    ensures Dispatch(s, env).0.burned ==> s.burned || Dispatch(s, env).0.rows == map[]
  {
    if env.body.PolicyBody? {
      PolicyFrame(s, PolicyMachine.Event.Inbound(env.body.cp, env.msgId, s.now));
    }
  }

  /** Both sides' seqs share one cut. After our own DELETE_ALL the cut is our seq, so a later
      message of the peer is dropped exactly when its seq, counted by the peer, is below ours. */
  lemma OwnClearCutsPeer(s: State, id: Id16, m: Option<nat>, env: Envelope)
    requires Inv(s) && CanSend(s, id, m) && env.body.MsgBody? && env.msgId != id && env.appSeq !in s.seen
    requires !s.burned && !s.closing && env.sentAt <= s.now + MAX_FUTURE_SKEW_SECS && !IsTombstoned(s, env.msgId)
    ensures
      var s' := SendDeleteAll(s, id, m);
      env.msgId in Handle(s', env).0.rows <==> env.appSeq >= s.cut && env.appSeq >= s.floor
  {
    NextSeqIsFloor(s, m);
  }
}
