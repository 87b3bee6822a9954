/** What an arriving envelope does, said on the fields of the ledger: which envelopes are taken, what a taken
    CHAT_POLICY changes, and that the policy of every ledger run is a history of the policy machine. */
module Intake {
  import opened Bytes
  import opened PolicyMachine
  import opened PolicyEffects
  import opened Ledger
  import LedgerRuns

  // ---- the gates ----

  const NEEDS_CAP: set<EnvType> := {Sticker, StickerCtrl, Presence, Typing, Read, Policy}
  const HISTORY: set<EnvType> := {Msg, Edit, AttachHead, AttachChunk, Sticker}

  /** Capability advertised, not closing, clock within five minutes, neither id nor seq known. */
  predicate Accepted(s: State, env: Envelope) {
    var t := env.body.Type();
    && !s.burned && (t in NEEDS_CAP ==> t in s.peerCaps) && (s.closing ==> t == ResyncReq)
    && env.sentAt <= s.now + 300 && env.msgId !in s.rows && env.appSeq !in s.seen
  }

  /** A history envelope whose id is tombstoned right now or whose seq lies below the cut. */
  predicate Stale(s: State, env: Envelope) {
    env.body.Type() in HISTORY && ((env.msgId in s.tombs && s.now < s.tombs[env.msgId]) || env.appSeq < s.cut)
  }

  predicate Kept(s: State, env: Envelope) {
    Accepted(s, env) && !Stale(s, env)
  }

  /** An envelope that is not accepted changes nothing and raises nothing; an accepted stale one only leaves its seq. */
  lemma RefusedOrStale(s: State, env: Envelope)
    ensures !Accepted(s, env) ==> Handle(s, env) == (s, [])
    ensures Accepted(s, env) && Stale(s, env) ==> Handle(s, env) == (s.(seen := s.seen + {env.appSeq}), [])
  {
  }

  lemma KeptIsDispatched(s: State, env: Envelope)
    requires Kept(s, env)
    ensures Handle(s, env) == Dispatch(Insert(NoteSeq(s, env), env), env)
  {
  }

  /** A new seq is noted exactly when its envelope is accepted, unless that envelope burns the relationship. */
  lemma NotedIff(s: State, env: Envelope)
    requires env.appSeq !in s.seen
    ensures
      var s' := Handle(s, env).0;
      && (env.body.CloseBody? && Accepted(s, env) <==> s'.burned && !s.burned)
      && (env.appSeq in s'.seen <==> Accepted(s, env) && !env.body.CloseBody?)
      && (Accepted(s, env) && !env.body.CloseBody? ==> s'.seen == s.seen + {env.appSeq})
  {
    RefusedOrStale(s, env);
    if Kept(s, env) {
      KeptIsDispatched(s, env);
      DispatchSeen(Insert(NoteSeq(s, env), env), env);
    }
  }

  lemma DispatchSeen(s: State, env: Envelope)
    ensures !env.body.CloseBody? ==> Dispatch(s, env).0.seen == s.seen && Dispatch(s, env).0.burned == s.burned
    ensures env.body.CloseBody? ==> Dispatch(s, env).0.seen == {} && Dispatch(s, env).0.burned
  {
    if env.body.PolicyBody? {
      var e := PolicyMachine.Event.Inbound(env.body.cp, env.msgId, s.now);
      LedgerRuns.OutcomeByRow(s.(policy := React(s.policy, e).state), React(s.policy, e).outcome);
    }
  }

  // ---- a CHAT_POLICY envelope ----

  /** The expiry of a row after the agreed TTL went from `old` to `new` at `now`. */
  function Capped(e: Option<nat>, old_: nat, new_: nat, now: nat): Option<nat> {
    if new_ != 0 && (old_ == 0 || new_ < old_) && (e.None? || now + new_ < e.value) then Some(now + new_) else e
  }

  /** A row after attachments went off: a live attachment head is emptied and tombstoned. */
  function Stripped(r: Row, off: bool): Row {
    if off && r.envType == AttachHead && !r.tombstone then r.(payload := [], tombstone := true) else r
  }

  predicate Attaching(p: PolicyState) {
    WANT_ATTACH in p.localWant && WANT_ATTACH in p.peerWant
  }

  /** Every row there before is there, with its expiry capped and stripped as the change of policy says, and the
      only new row is that of the envelope. */
  ghost predicate RowsFollow(s: State, s': State, own: Id16) {
    && s'.rows.Keys == s.rows.Keys + {own}
    && forall x :: x in s.rows ==> s'.rows[x] == RowUnder(s, s', s.rows[x])
  }

  function RowUnder(s: State, s': State, r: Row): Row {
    Stripped(r.(expires := Capped(r.expires, s.policy.rules.ttl, s'.policy.rules.ttl, s.now)),
             Attaching(s.policy) && !Attaching(s'.policy))
  }

  lemma OnRowIs(s: State, e: PolicyMachine.Event, r: Row)
    requires e.Inbound? || e.Accept? ==> e.at == s.now
    ensures LedgerRuns.OnRow(r, React(s.policy, e).outcome) == RowUnder(s, s.(policy := React(s.policy, e).state), r)
  {
  }

  /** A policy event changes the policy and the rows, the rows exactly as the change of policy asks. */
  lemma EventRows(s: State, e: PolicyMachine.Event)
    requires e.Inbound? || e.Accept? ==> e.at == s.now
    ensures
      var s' := PolicyEvent(s, e);
      && s' == s.(rows := s'.rows, policy := React(s.policy, e).state) && s'.rows.Keys == s.rows.Keys
      && forall x :: x in s.rows ==> s'.rows[x] == RowUnder(s, s', s.rows[x])
  {
    var r := React(s.policy, e);
    LedgerRuns.OutcomeByRow(s.(policy := r.state), r.outcome);
    forall x | x in s.rows ensures PolicyEvent(s, e).rows[x] == RowUnder(s, PolicyEvent(s, e), s.rows[x]) {
      OnRowIs(s, e, s.rows[x]);
    }
  }

  function EventOf(s: State, env: Envelope): PolicyMachine.Event
    requires env.body.PolicyBody?
  {
    PolicyMachine.Event.Inbound(env.body.cp, env.msgId, s.now)
  }

  lemma PolicyArrives(s: State, env: Envelope)
    requires env.body.PolicyBody? && Accepted(s, env)
    ensures
      var s', r := Handle(s, env).0, React(s.policy, EventOf(s, env));
      && s' == s.(rows := s'.rows, seen := s.seen + {env.appSeq}, policy := r.state) && RowsFollow(s, s', env.msgId)
      && Handle(s, env).1 == (if r.outcome.changed then [PolicyChanged] else [])
  {
    KeptIsDispatched(s, env);
    EventRows(Insert(NoteSeq(s, env), env), EventOf(s, env));
  }

  /** What every CHAT_POLICY envelope does beside the policy itself: nothing at all unless accepted; then it is
      noted and ledgered and the rows follow the change of policy. */
  lemma PolicyEnvelope(s: State, env: Envelope)
    requires env.body.PolicyBody?
    ensures !Accepted(s, env) ==> Handle(s, env) == (s, [])
    ensures Accepted(s, env) ==>
      var s' := Handle(s, env).0;
      s' == s.(rows := s'.rows, seen := s.seen + {env.appSeq}, policy := s'.policy) && RowsFollow(s, s', env.msgId)
  {
    RefusedOrStale(s, env);
    if Accepted(s, env) {
      PolicyArrives(s, env);
    }
  }

  /** An accepted PROPOSE becomes the pending inbound proposal, under its own id or that of the envelope. */
  lemma ProposeTaken(s: State, env: Envelope)
    requires env.body.PolicyBody? && env.body.cp.op == OP_RULE_PROPOSE && Accepted(s, env)
    ensures
      var cp := env.body.cp;
      var id := if cp.proposeId == ZERO_ID then env.msgId else cp.proposeId;
      && Handle(s, env).0.policy == s.policy.(pending := Some(Pending(cp.rules, true, id)))
      && Handle(s, env).1 == [PolicyChanged]
  {
    PolicyArrives(s, env);
  }

  function CappedRow(s: State, s': State, r: Row): Row {
    r.(expires := Capped(r.expires, s.policy.rules.ttl, s'.policy.rules.ttl, s.now))
  }

  /** An accepted ACCEPT puts our proposal into force exactly when it is the awaited one. Then, if the TTL shrinks,
      every row expires at its own time or one new TTL from now, whichever comes first. */
  lemma AcceptTaken(s: State, env: Envelope)
    requires env.body.PolicyBody? && env.body.cp.op == OP_RULE_ACCEPT && Accepted(s, env)
    ensures
      var s', awaited := Handle(s, env).0, Awaited(s.policy, env.body.cp.proposeId);
      && s'.policy == (if awaited then s.policy.(rules := s.policy.pending.value.rules, pending := None) else s.policy)
      && Handle(s, env).1 == (if awaited then [PolicyChanged] else [])
      && (forall x :: x in s.rows ==> x in s'.rows && s'.rows[x] == CappedRow(s, s', s.rows[x]))
  {
    PolicyArrives(s, env);
  }

  /** An accepted CAP_SET names bit capId + 2. On, the peer gains that want; off, both sides lose it. Every other
      bit, the rules and the proposal stay. The client hears of it when it is off or changes what is enforced. */
  lemma CapSetTaken(s: State, env: Envelope)
    requires env.body.PolicyBody? && env.body.cp.op == OP_CAP_SET && Accepted(s, env)
    ensures CapSetMeans(s.policy, Handle(s, env).0.policy, env.body.cp)
    ensures
      var p, cp := s.policy, env.body.cp;
      var heard := cp.capId <= 4 && (!cp.capOn || (cp.capId + 2 in p.localWant && cp.capId + 2 !in p.peerWant));
      Handle(s, env).1 == (if heard then [PolicyChanged] else [])
  {
    PolicyArrives(s, env);
    CapSetReaction(s.policy, EventOf(s, env));
  }

  /** An accepted SYNC replaces the wants of the peer by those it carries, and the client hears of it if they differ. */
  lemma SyncTaken(s: State, env: Envelope)
    requires env.body.PolicyBody? && env.body.cp.op == OP_SYNC && Accepted(s, env)
    ensures SyncMeans(s.policy, Handle(s, env).0.policy, env.body.cp)
    ensures Handle(s, env).1 == (if Handle(s, env).0.policy.peerWant != s.policy.peerWant then [PolicyChanged] else [])
  {
    PolicyArrives(s, env);
    SyncReaction(s.policy, EventOf(s, env));
  }

  // ---- the ledger follows the policy machine ----

  /** The policy event of one ledger step, if it has one. */
  function EventAt(s: State, t: LedgerRuns.Step): Option<PolicyMachine.Event> {
    match t
    case Arrive(env) => if env.body.PolicyBody? && Accepted(s, env) then Some(EventOf(s, env)) else None
    case DoPolicy(e) => Some(e)
    case _ => None
  }

  lemma ArriveKeepsPolicy(s: State, env: Envelope)
    requires !env.body.PolicyBody?
    ensures Handle(s, env).0.policy == s.policy
  {
  }

  lemma StepFollows(s: State, t: LedgerRuns.Step)
    requires LedgerRuns.Enabled(s, t)
    ensures LedgerRuns.Next(s, t).policy == match EventAt(s, t)
      case Some(e) => React(s.policy, e).state
      case None => s.policy
  {
    match t {
      case Arrive(env) =>
        RefusedOrStale(s, env);
        if !env.body.PolicyBody? {
          ArriveKeepsPolicy(s, env);
        } else if Accepted(s, env) {
          PolicyArrives(s, env);
        }
      case DoPolicy(e) => EventRows(s, e);
      case _ =>
    }
  }

  /** The policy events of the first `n` steps, in order. */
  function Events(trace: seq<State>, steps: seq<LedgerRuns.Step>, n: nat): seq<PolicyMachine.Event>
    requires n <= |steps| <= |trace|
  {
    if n == 0 then [] else
    Events(trace, steps, n - 1) + (match EventAt(trace[n - 1], steps[n - 1]) case Some(e) => [e] case None => [])
  }

  /** The policies of the ledger before the first event and after each. */
  function Policies(trace: seq<State>, steps: seq<LedgerRuns.Step>, n: nat): (r: seq<PolicyState>)
    requires n <= |steps| < |trace|
    ensures r != []
  {
    if n == 0 then [trace[0].policy] else
    Policies(trace, steps, n - 1)
    + (if EventAt(trace[n - 1], steps[n - 1]).Some? then [trace[n].policy] else [])
  }

  lemma HistoryGrows(states: seq<PolicyState>, events: seq<PolicyMachine.Event>, e: PolicyMachine.Event, p: PolicyState)
    requires IsHistory(states, events) && p == React(states[|states| - 1], e).state
    ensures IsHistory(states + [p], events + [e])
  {
  }

  /** In every ledger run the policies held are a history of the policy machine, from its default state, whose
      events are exactly the accepted CHAT_POLICY envelopes and the local policy actions; no other step changes
      the policy. */
  lemma {:induction false} LedgerFollowsPolicy(trace: seq<State>, steps: seq<LedgerRuns.Step>, n: nat)
    requires LedgerRuns.IsRun(trace, steps) && n <= |steps|
    ensures
      var states := Policies(trace, steps, n);
      && IsHistory(states, Events(trace, steps, n))
      && states[0] == DefaultState && states[|states| - 1] == trace[n].policy
  {
    if n > 0 {
      LedgerFollowsPolicy(trace, steps, n - 1);
      assert LedgerRuns.IsStep(trace, steps, n - 1);
      StepFollows(trace[n - 1], steps[n - 1]);
      var event := EventAt(trace[n - 1], steps[n - 1]);
      if event.Some? {
        HistoryGrows(Policies(trace, steps, n - 1), Events(trace, steps, n - 1), event.value, trace[n].policy);
      }
    }
  }
}
