/** What each policy event does, bit by bit and field by field: to the state, to the client and to the peer. */
module PolicyEffects {
  import opened Bytes
  import opened PolicyMachine

  // ---- messages of the peer ----

  /** Our own proposal, unanswered, under this id. */
  predicate Awaited(p: PolicyState, id: Id16) {
    p.pending.Some? && !p.pending.value.inbound && p.pending.value.proposeId == id
  }

  /** What a CAP_SET from the peer makes of policy `p`. */
  ghost predicate CapSetMeans(p: PolicyState, p': PolicyState, cp: ChatPolicy) {
    if cp.capId > 4 then p' == p else
    && p' == p.(localWant := p'.localWant, peerWant := p'.peerWant)
    && (forall b :: b in p'.peerWant <==> if b == cp.capId + 2 then cp.capOn else b in p.peerWant)
    && (forall b :: b in p'.localWant <==> b in p.localWant && (b == cp.capId + 2 ==> cp.capOn))
  }

  lemma CapSetReaction(p: PolicyState, e: Event)
    requires e.Inbound? && e.cp.op == OP_CAP_SET
    ensures CapSetMeans(p, React(p, e).state, e.cp)
    ensures React(p, e).outcome.changed <==>
      e.cp.capId <= 4 && (!e.cp.capOn || (e.cp.capId + 2 in p.localWant && e.cp.capId + 2 !in p.peerWant))
  {
  }

  ghost predicate SyncMeans(p: PolicyState, p': PolicyState, cp: ChatPolicy) {
    && p' == p.(peerWant := p'.peerWant)
    && (forall b :: b in p'.peerWant <==> Carries(cp, b))
  }

  predicate Carries(cp: ChatPolicy, b: nat) {
    || (b == 2 && cp.wantAttach) || (b == 3 && cp.wantEmoji) || (b == 4 && cp.wantPresence)
    || (b == 5 && cp.wantTyping) || (b == 6 && cp.wantReceipts)
  }

  lemma SyncReaction(p: PolicyState, e: Event)
    requires e.Inbound? && e.cp.op == OP_SYNC
    ensures SyncMeans(p, React(p, e).state, e.cp)
    ensures React(p, e).outcome.changed <==> React(p, e).state.peerWant != p.peerWant
  {
    forall b ensures b in Wants(e.cp) <==> Carries(e.cp, b) {
    }
  }

  // ---- local actions ----

  const ALLOWED_TTLS: set<nat> := {0, 3_600, 21_600, 43_200, 86_400, 259_200, 604_800, 1_209_600}

  predicate HasOffer(p: PolicyState) {
    p.pending.Some? && p.pending.value.inbound
  }

  /** The action has an effect: a proposal of an allowed TTL, an answer to a proposal of the peer, a capability
      that is not already in the wanted state; the others always. */
  predicate TakesEffect(p: PolicyState, e: Event) {
    match e
    case Propose(rules, _) => rules.ttl in ALLOWED_TTLS
    case Accept(_) => HasOffer(p)
    case SetCap(c, on) => c <= 4 && on != (c + 2 in p.localWant)
    case _ => true
  }

  /** What a local action makes of policy `p`. */
  ghost predicate ActionMeans(p: PolicyState, p': PolicyState, e: Event) {
    if !TakesEffect(p, e) then p' == p else
    match e
    case Propose(rules, id) => p' == p.(pending := Some(Pending(rules, false, id)))
    case Accept(_) => p' == p.(rules := p.pending.value.rules, pending := None)
    case Decline => p' == p.(pending := None)
    case SetCap(c, on) =>
      && p' == p.(localWant := p'.localWant, peerWant := p'.peerWant)
      && (forall b :: b in p'.localWant <==> if b == c + 2 then on else b in p.localWant)
      && (forall b :: b in p'.peerWant <==> b in p.peerWant && (b == c + 2 ==> on))
    case Sync(at) => p' == p.(lastSyncAt := at)
    case Inbound(_, _, _) => true
  }

  /** The message says what the action did, and what its sender wants from then on. */
  ghost predicate MessageMeans(p: PolicyState, p': PolicyState, e: Event, cp: ChatPolicy) {
    && (forall b :: Carries(cp, b) <==> b in p'.localWant && 2 <= b <= 6)
    && match e
       case Propose(rules, id) => cp.op == OP_RULE_PROPOSE && cp.rules == rules && cp.proposeId == id
       case Accept(_) =>
         && p.pending.Some? && cp.op == OP_RULE_ACCEPT
         && cp.rules == p.pending.value.rules && cp.proposeId == p.pending.value.proposeId
       case SetCap(c, on) => cp.op == OP_CAP_SET && cp.capId == c && cp.capOn == on
       case Sync(_) => cp.op == OP_SYNC
       case _ => false
  }

  lemma ActionState(p: PolicyState, e: Event)
    requires !e.Inbound?
    ensures ActionMeans(p, React(p, e).state, e)
  {
  }

  lemma ActionMessage(p: PolicyState, e: Event)
    requires !e.Inbound?
    ensures React(p, e).sent.Some? <==> TakesEffect(p, e) && !e.Decline?
    ensures React(p, e).sent.Some? ==> MessageMeans(p, React(p, e).state, e, React(p, e).sent.value)
  {
  }

  /** A local action changes exactly what it says, tells the peer exactly when it has an effect and with what it
      did, and is reported exactly when rules come into force or a capability goes off or is enforced anew. */
  lemma ActionExact(p: PolicyState, e: Event)
    requires !e.Inbound?
    ensures
      var r := React(p, e);
      && ActionMeans(p, r.state, e)
      && (r.sent.Some? <==> TakesEffect(p, e) && !e.Decline?)
      && (r.sent.Some? ==> MessageMeans(p, r.state, e, r.sent.value))
      && (r.outcome.changed <==>
            TakesEffect(p, e) && (e.Accept? || (e.SetCap? && (!e.on || e.capId + 2 in p.peerWant))))
  {
    ActionState(p, e);
    ActionMessage(p, e);
  }
}
