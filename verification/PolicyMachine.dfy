/** The chat-policy state machine: agreed rules change by PROPOSE + ACCEPT, capability wants
    are one-to-disable and two-to-enable. */
module PolicyMachine {
  import opened Bytes

  const OP_RULE_PROPOSE: Byte := 1
  const OP_RULE_ACCEPT: Byte := 2
  const OP_CAP_SET: Byte := 3
  const OP_SYNC: Byte := 4

  /** A want word is the set of its set bit positions. */
  type Bits = set<nat>

  const WANT_ATTACH: nat := 2
  const WANT_EMOJI: nat := 3
  const WANT_PRESENCE: nat := 4
  const WANT_TYPING: nat := 5
  const WANT_RECEIPTS: nat := 6
  const WANT_ALL: Bits := {WANT_ATTACH, WANT_EMOJI, WANT_PRESENCE, WANT_TYPING, WANT_RECEIPTS}

  const CAP_ID_MAX: Byte := 4
  const TTL_24H: U32 := 86_400
  const TTL_NEVER: U32 := 0
  const TTL_OPTIONS: seq<U32> := [3_600, 21_600, 43_200, 86_400, 259_200, 604_800, 1_209_600, 0]

  predicate IsAllowedTtl(ttl: U32) { ttl in TTL_OPTIONS }

  /** Ids 0 to 4 name the wants in bit order; any other id names none. */
  predicate IsCap(capId: Byte) { capId <= CAP_ID_MAX }

  function CapBit(capId: Byte): nat
    requires IsCap(capId)
  {
    match capId
    case 0 => WANT_ATTACH
    case 1 => WANT_EMOJI
    case 2 => WANT_PRESENCE
    case 3 => WANT_TYPING
    case _ => WANT_RECEIPTS
  }

  datatype Rules = Rules(ttl: U32, screenshot: bool, attachDownload: bool)

  const DefaultRules := Rules(TTL_24H, true, true)

  /** The CHAT_POLICY payload. */
  datatype ChatPolicy = ChatPolicy(
    op: Byte,
    rules: Rules,
    wantAttach: bool, wantEmoji: bool, wantPresence: bool, wantTyping: bool, wantReceipts: bool,
    capId: Byte, capOn: bool,
    proposeId: Id16)

  datatype Pending = Pending(rules: Rules, inbound: bool, proposeId: Id16)

  datatype PolicyState = PolicyState(
    rules: Rules,
    localWant: Bits, peerWant: Bits,
    pending: Option<Pending>,
    lastSyncAt: nat)
  {
    predicate Enforced(bit: nat) { bit in localWant && bit in peerWant }
    predicate Attachments() { Enforced(WANT_ATTACH) }

    /** Expiry of a message created at `floor`; none when the agreed TTL is NEVER. */
    function ExpiryAt(floor: nat): Option<nat> {
      if rules.ttl == TTL_NEVER then None else Some(floor + rules.ttl)
    }
  }

  const DefaultState := PolicyState(DefaultRules, WANT_ALL, WANT_ALL, None, 0)

  /** Side effects the caller applies after a transition. */
  datatype Outcome = Outcome(changed: bool, clampTo: Option<nat>, eraseAttachments: bool)

  const NoOutcome := Outcome(false, None, false)

  function Wants(p: ChatPolicy): Bits {
    (if p.wantAttach then {WANT_ATTACH} else {})
    + (if p.wantEmoji then {WANT_EMOJI} else {})
    + (if p.wantPresence then {WANT_PRESENCE} else {})
    + (if p.wantTyping then {WANT_TYPING} else {})
    + (if p.wantReceipts then {WANT_RECEIPTS} else {})
  }

  function Payload(op: Byte, s: PolicyState, rules: Rules, capId: Byte, capOn: bool, proposeId: Id16): ChatPolicy {
    ChatPolicy(op, rules,
               WANT_ATTACH in s.localWant, WANT_EMOJI in s.localWant,
               WANT_PRESENCE in s.localWant, WANT_TYPING in s.localWant,
               WANT_RECEIPTS in s.localWant,
               capId, capOn, proposeId)
  }

  function ApplyRules(s: PolicyState, rules: Rules, now: nat): (PolicyState, Outcome) {
    var clamp := if rules.ttl != TTL_NEVER && (s.rules.ttl == TTL_NEVER || rules.ttl < s.rules.ttl)
                 then Some(now + rules.ttl) else None;
    (s.(rules := rules, pending := None), Outcome(true, clamp, false))
  }

  // ---- inbound ----

  function ApplyPropose(s: PolicyState, p: ChatPolicy, msgId: Id16): PolicyState {
    var id := if p.proposeId == ZERO_ID then msgId else p.proposeId;
    s.(pending := Some(Pending(p.rules, true, id)))
  }

  function ApplyAccept(s: PolicyState, p: ChatPolicy, now: nat): Option<(PolicyState, Outcome)> {
    if s.pending.None? || s.pending.value.inbound || s.pending.value.proposeId != p.proposeId then None
    else Some(ApplyRules(s, s.pending.value.rules, now))
  }

  function ApplyCapSet(s: PolicyState, capId: Byte, on: bool): (PolicyState, Outcome) {
    if !IsCap(capId) then (s, NoOutcome)
    else
      var bit := CapBit(capId);
      var next := if on then s.(peerWant := s.peerWant + {bit})
                  else s.(localWant := s.localWant - {bit}, peerWant := s.peerWant - {bit});
      (next, Outcome(s.Enforced(bit) != next.Enforced(bit) || !on, None,
                     !on && bit == WANT_ATTACH && s.Enforced(bit)))
  }

  function ApplySync(s: PolicyState, p: ChatPolicy): (PolicyState, Outcome) {
    var peer := Wants(p);
    if peer == s.peerWant then (s, NoOutcome)
    else
      var next := s.(peerWant := peer);
      (next, Outcome(true, None, s.Attachments() && !next.Attachments()))
  }

  // ---- outbound ----

  function BuildPropose(s: PolicyState, rules: Rules, proposeId: Id16): Option<(PolicyState, ChatPolicy)> {
    if !IsAllowedTtl(rules.ttl) then None
    else Some((s.(pending := Some(Pending(rules, false, proposeId))),
               Payload(OP_RULE_PROPOSE, s, rules, 0, false, proposeId)))
  }

  function BuildAccept(s: PolicyState, now: nat): Option<(PolicyState, ChatPolicy, Outcome)> {
    if s.pending.None? || !s.pending.value.inbound then None
    else
      var pending := s.pending.value;
      var (next, outcome) := ApplyRules(s, pending.rules, now);
      Some((next, Payload(OP_RULE_ACCEPT, next, pending.rules, 0, false, pending.proposeId), outcome))
  }

  function BuildCapSet(s: PolicyState, capId: Byte, on: bool): Option<(PolicyState, ChatPolicy, Outcome)> {
    if !IsCap(capId) || on == (CapBit(capId) in s.localWant) then None
    else
      var bit := CapBit(capId);
      var next := if on then s.(localWant := s.localWant + {bit})
                  else s.(localWant := s.localWant - {bit}, peerWant := s.peerWant - {bit});
      Some((next, Payload(OP_CAP_SET, next, next.rules, capId, on, ZERO_ID),
            Outcome(s.Enforced(bit) != next.Enforced(bit) || !on, None,
                    !on && bit == WANT_ATTACH && s.Enforced(bit))))
  }

  function BuildSync(s: PolicyState, now: nat): (PolicyState, ChatPolicy) {
    var next := s.(lastSyncAt := now);
    (next, Payload(OP_SYNC, next, next.rules, 0, false, ZERO_ID))
  }

  // ---- the machine as a whole ----

  /** Everything that can happen to one side: a message from the peer, or a local action. */
  datatype Event =
    | Inbound(cp: ChatPolicy, msgId: Id16, at: nat)
    | Propose(rules: Rules, proposeId: Id16)
    | Accept(at: nat)
    | Decline
    | SetCap(capId: Byte, on: bool)
    | Sync(at: nat)

  datatype Reaction = Reaction(state: PolicyState, outcome: Outcome, sent: Option<ChatPolicy>)

  function React(s: PolicyState, e: Event): Reaction {
    match e
    case Inbound(cp, msgId, at) =>
      if cp.op == OP_RULE_PROPOSE then Reaction(ApplyPropose(s, cp, msgId), Outcome(true, None, false), None)
      else if cp.op == OP_RULE_ACCEPT then
        (match ApplyAccept(s, cp, at)
         case None => Reaction(s, NoOutcome, None)
         case Some((next, outcome)) => Reaction(next, outcome, None))
      else if cp.op == OP_CAP_SET then
        var (next, outcome) := ApplyCapSet(s, cp.capId, cp.capOn);
        Reaction(next, outcome, None)
      else if cp.op == OP_SYNC then
        var (next, outcome) := ApplySync(s, cp);
        Reaction(next, outcome, None)
      else Reaction(s, NoOutcome, None)
    case Propose(rules, proposeId) =>
      (match BuildPropose(s, rules, proposeId)
       case None => Reaction(s, NoOutcome, None)
       case Some((next, cp)) => Reaction(next, NoOutcome, Some(cp)))
    case Accept(at) =>
      (match BuildAccept(s, at)
       case None => Reaction(s, NoOutcome, None)
       case Some((next, cp, outcome)) => Reaction(next, outcome, Some(cp)))
    case Decline => Reaction(s.(pending := None), NoOutcome, None)
    case SetCap(capId, on) =>
      (match BuildCapSet(s, capId, on)
       case None => Reaction(s, NoOutcome, None)
       case Some((next, cp, outcome)) => Reaction(next, outcome, Some(cp)))
    case Sync(at) =>
      var (next, cp) := BuildSync(s, at);
      Reaction(next, NoOutcome, Some(cp))
  }

  /** The states one side passes through. */
  ghost predicate IsHistory(states: seq<PolicyState>, events: seq<Event>) {
    && |states| == |events| + 1
    && forall i :: 0 <= i < |events| ==> states[i + 1] == React(states[i], events[i]).state
  }

  // ---- capability wants ----

  ghost predicate Disables(e: Event, capId: Byte) {
    || (e.Inbound? && e.cp.op == OP_CAP_SET && e.cp.capId == capId && !e.cp.capOn)
    || (e.SetCap? && e.capId == capId && !e.on)
  }

  ghost predicate ReEnables(e: Event, capId: Byte) {
    e.SetCap? && e.capId == capId && e.on
  }

  lemma DisableClears(s: PolicyState, e: Event, capId: Byte)
    requires IsCap(capId) && Disables(e, capId)
    ensures CapBit(capId) !in React(s, e).state.localWant
  {
  }

  lemma LocalWantStays(s: PolicyState, e: Event, capId: Byte)
    requires IsCap(capId) && CapBit(capId) !in s.localWant && !ReEnables(e, capId)
    ensures CapBit(capId) !in React(s, e).state.localWant
  {
  }

  /** Once a side has processed a disable, its own or the peer's, the feature stays off there
      until that side itself turns it on again, whatever else happens. */
  lemma {:induction false} DisableSticks(states: seq<PolicyState>, events: seq<Event>, capId: Byte, start: nat, end: nat)
    requires IsHistory(states, events) && start < end <= |events|
    requires IsCap(capId) && Disables(events[start], capId)
    requires forall i :: start < i < end ==> !ReEnables(events[i], capId)
    ensures CapBit(capId) !in states[end].localWant && !states[end].Enforced(CapBit(capId))
    decreases end
  {
    if end == start + 1 {
      DisableClears(states[start], events[start], capId);
    } else {
      DisableSticks(states, events, capId, start, end - 1);
      LocalWantStays(states[end - 1], events[end - 1], capId);
    }
  }

  lemma EraseStep(s: PolicyState, e: Event)
    ensures React(s, e).outcome.eraseAttachments <==> s.Attachments() && !React(s, e).state.Attachments()
  {
  }

  /** Over every history, erase-attachments is signalled exactly when attachments go from
      enforced to not enforced. */
  lemma EraseIsExact(states: seq<PolicyState>, events: seq<Event>, i: nat)
    requires IsHistory(states, events) && i < |events|
    ensures React(states[i], events[i]).outcome.eraseAttachments
       <==> states[i].Attachments() && !states[i + 1].Attachments()
  {
    EraseStep(states[i], events[i]);
  }

  /** No agreed rule and no enforced capability changes silently. */
  lemma ChangesAreSignalled(s: PolicyState, e: Event, bit: nat)
    requires !React(s, e).outcome.changed
    ensures React(s, e).state.rules == s.rules
    ensures React(s, e).state.Enforced(bit) == s.Enforced(bit)
  {
  }

  lemma WantsOfPayload(s: PolicyState, op: Byte, rules: Rules, capId: Byte, on: bool, id: Id16)
    ensures Wants(Payload(op, s, rules, capId, on, id)) == s.localWant * WANT_ALL
  {
  }

  /** After each side has processed the other's SYNC, both enforce the same capabilities. */
  lemma SyncConverges(a: PolicyState, b: PolicyState, at: nat, idA: Id16, idB: Id16, bit: nat)
    requires bit in WANT_ALL
    ensures
      var fromA, fromB := BuildSync(a, at).1, BuildSync(b, at).1;
      var a', b' := React(a, Inbound(fromB, idB, at)).state, React(b, Inbound(fromA, idA, at)).state;
      a'.Enforced(bit) == b'.Enforced(bit)
  {
    WantsOfPayload(BuildSync(a, at).0, OP_SYNC, a.rules, 0, false, ZERO_ID);
    WantsOfPayload(BuildSync(b, at).0, OP_SYNC, b.rules, 0, false, ZERO_ID);
  }

  // ---- what keeps the machine inside the wire and storage formats ----

  predicate ValidPayload(cp: ChatPolicy) {
    && OP_RULE_PROPOSE <= cp.op <= OP_SYNC
    && (cp.op != OP_CAP_SET ==> IsAllowedTtl(cp.rules.ttl))
    && (cp.op == OP_CAP_SET ==> cp.capId <= CAP_ID_MAX)
  }

  ghost predicate WellFormed(s: PolicyState) {
    && IsAllowedTtl(s.rules.ttl)
    && (s.pending.Some? ==> IsAllowedTtl(s.pending.value.rules.ttl))
    && s.localWant <= WANT_ALL && s.peerWant <= WANT_ALL
  }

  lemma WellFormedStep(s: PolicyState, e: Event)
    requires WellFormed(s) && (e.Inbound? ==> ValidPayload(e.cp))
    ensures WellFormed(React(s, e).state)
    ensures React(s, e).sent.Some? ==> ValidPayload(React(s, e).sent.value)
  {
  }

  /** From the default state, under any local actions and any payloads the codec lets in, the
      state keeps an allowed TTL and known wants only, and everything sent encodes. */
  lemma {:induction false} HistoryWellFormed(states: seq<PolicyState>, events: seq<Event>, i: nat)
    requires IsHistory(states, events) && states[0] == DefaultState && i < |states|
    requires forall k :: 0 <= k < |events| && events[k].Inbound? ==> ValidPayload(events[k].cp)
    ensures WellFormed(states[i])
    ensures i < |events| && React(states[i], events[i]).sent.Some? ==> ValidPayload(React(states[i], events[i]).sent.value)
  {
    if i > 0 {
      HistoryWellFormed(states, events, i - 1);
      WellFormedStep(states[i - 1], events[i - 1]);
    }
    if i < |events| {
      WellFormedStep(states[i], events[i]);
    }
  }
}
