/** Two honest peers running the policy machine over a network that loses, duplicates, delays
    and reorders: which rules can be in force. */
module PolicyConsent {
  import opened Bytes
  import opened PolicyMachine
  import opened PolicyEffects

  datatype Side = A | B

  function Other(x: Side): Side { if x == A then B else A }

  datatype Message = Message(dest: Side, cp: ChatPolicy, msgId: Id16)

  datatype Proposal = Proposal(author: Side, rules: Rules)

  /** `net` holds every message ever sent. `proposed` and `accepted` are the history: who
      proposed which rules under an id, and which side accepted it. */
  datatype Sys = Sys(
    a: PolicyState,
    b: PolicyState,
    net: set<Message>,
    proposed: map<Id16, Proposal>,
    accepted: map<Id16, Side>)
  {
    function At(x: Side): PolicyState { if x == A then a else b }

    function With(x: Side, p: PolicyState): Sys { if x == A then this.(a := p) else this.(b := p) }
  }

  const Init := Sys(DefaultState, DefaultState, {}, map[], map[])

  datatype Step =
    | Act(x: Side, e: Event, msgId: Id16)
    | Deliver(m: Message, at: nat)

  /** Local actions only; proposal ids are fresh and non-zero. */
  ghost predicate Enabled(s: Sys, t: Step) {
    match t
    case Act(x, e, _) => !e.Inbound? && (e.Propose? ==> e.proposeId != ZERO_ID && e.proposeId !in s.proposed)
    case Deliver(m, _) => m in s.net
  }

  function Send(s: Sys, x: Side, sent: Option<ChatPolicy>, msgId: Id16): set<Message> {
    if sent.Some? then s.net + {Message(Other(x), sent.value, msgId)} else s.net
  }

  function Apply(s: Sys, t: Step): Sys {
    match t
    case Act(x, e, msgId) =>
      var r := React(s.At(x), e);
      s.With(x, r.state).(
         net := Send(s, x, r.sent, msgId),
         proposed := if e.Propose? && r.sent.Some? then s.proposed[e.proposeId := Proposal(x, e.rules)] else s.proposed,
         accepted := if e.Accept? && s.At(x).pending.Some? && r.sent.Some? then s.accepted[s.At(x).pending.value.proposeId := x] else s.accepted)
    case Deliver(m, at) =>
      s.With(m.dest, React(s.At(m.dest), Inbound(m.cp, m.msgId, at)).state)
  }

  ghost predicate IsRun(trace: seq<Sys>, steps: seq<Step>) {
    && |trace| == |steps| + 1
    && trace[0] == Init
    && forall i :: 0 <= i < |steps| ==>
         Enabled(trace[i], steps[i]) && trace[i + 1] == Apply(trace[i], steps[i])
  }

  /** The rules `r` were proposed by one side and accepted by the other. */
  ghost predicate AgreedUnder(s: Sys, id: Id16, r: Rules) {
    && id in s.proposed && s.proposed[id].rules == r
    && id in s.accepted && s.accepted[id] == Other(s.proposed[id].author)
  }

  ghost predicate Consented(s: Sys, r: Rules) {
    r == DefaultRules || exists id :: AgreedUnder(s, id, r)
  }

  ghost predicate MessagesInv(s: Sys) {
    && (forall m :: m in s.net && m.cp.op == OP_RULE_PROPOSE ==>
          && m.cp.proposeId != ZERO_ID && m.cp.proposeId in s.proposed
          && s.proposed[m.cp.proposeId] == Proposal(Other(m.dest), m.cp.rules))
    && (forall m :: m in s.net && m.cp.op == OP_RULE_ACCEPT ==>
          && m.cp.proposeId in s.proposed && s.proposed[m.cp.proposeId].author == m.dest
          && m.cp.proposeId in s.accepted && s.accepted[m.cp.proposeId] == Other(m.dest))
  }

  ghost predicate SideInv(s: Sys, x: Side) {
    var p := s.At(x).pending;
    && (p.Some? ==>
          && p.value.proposeId in s.proposed
          && s.proposed[p.value.proposeId] == Proposal(if p.value.inbound then Other(x) else x, p.value.rules))
    && Consented(s, s.At(x).rules)
  }

  ghost predicate HistoryInv(s: Sys) {
    forall id :: id in s.accepted ==> id in s.proposed && s.accepted[id] == Other(s.proposed[id].author)
  }

  ghost predicate Inv(s: Sys) {
    MessagesInv(s) && HistoryInv(s) && SideInv(s, A) && SideInv(s, B)
  }

  /** The history only grows, so consent given once stays on record. */
  ghost predicate Extends(s: Sys, s': Sys) {
    && (forall id :: id in s.proposed ==> id in s'.proposed && s'.proposed[id] == s.proposed[id])
    && (forall id :: id in s.accepted ==> id in s'.accepted && s'.accepted[id] == s.accepted[id])
  }

  lemma ConsentLasts(s: Sys, s': Sys, r: Rules)
    requires Consented(s, r) && Extends(s, s')
    ensures Consented(s', r)
  {
    if r != DefaultRules {
      var id :| AgreedUnder(s, id, r);
      assert AgreedUnder(s', id, r);
    }
  }

  lemma SideLasts(s: Sys, s': Sys, x: Side)
    requires s'.At(x).pending == s.At(x).pending && s'.At(x).rules == s.At(x).rules
    requires SideInv(s, x) && Extends(s, s')
    ensures SideInv(s', x)
  {
    ConsentLasts(s, s', s.At(x).rules);
  }

  lemma ProposeStep(s: Sys, x: Side, rules: Rules, id: Id16, msgId: Id16)
    requires Inv(s) && id != ZERO_ID && id !in s.proposed
    ensures Inv(Apply(s, Act(x, Propose(rules, id), msgId)))
  {
    var s' := Apply(s, Act(x, Propose(rules, id), msgId));
    assert Extends(s, s');
    SideLasts(s, s', Other(x));
    ConsentLasts(s, s', s.At(x).rules);
  }

  lemma AcceptStep(s: Sys, x: Side, at: nat, msgId: Id16)
    requires Inv(s)
    ensures Inv(Apply(s, Act(x, Accept(at), msgId)))
  {
    var s' := Apply(s, Act(x, Accept(at), msgId));
    var p := s.At(x).pending;
    if p.Some? && p.value.inbound {
      var id := p.value.proposeId;
      assert Extends(s, s');
      assert AgreedUnder(s', id, p.value.rules);
      SideLasts(s, s', Other(x));
    }
  }

  /** Reactions that concern neither proposals nor rules. */
  lemma QuietReaction(p: PolicyState, e: Event)
    requires e.Decline? || e.SetCap? || e.Sync? || (e.Inbound? && e.cp.op != OP_RULE_PROPOSE && e.cp.op != OP_RULE_ACCEPT)
    ensures
      var r := React(p, e);
      && r.state.rules == p.rules && (r.state.pending.None? || r.state.pending == p.pending)
      && (r.sent.Some? ==> r.sent.value.op != OP_RULE_PROPOSE && r.sent.value.op != OP_RULE_ACCEPT)
      && (e.Inbound? ==> r.state.pending == p.pending)
  {
  }

  lemma QuietStep(s: Sys, x: Side, e: Event, msgId: Id16)
    requires Inv(s) && (e.Decline? || e.SetCap? || e.Sync?)
    ensures Inv(Apply(s, Act(x, e, msgId)))
  {
    var s' := Apply(s, Act(x, e, msgId));
    QuietReaction(s.At(x), e);
    assert Extends(s, s');
    SideLasts(s, s', Other(x));
    ConsentLasts(s, s', s.At(x).rules);
  }

  lemma DeliverPropose(s: Sys, m: Message, at: nat)
    requires Inv(s) && m in s.net && m.cp.op == OP_RULE_PROPOSE
    ensures Inv(Apply(s, Deliver(m, at)))
  {
    var s' := Apply(s, Deliver(m, at));
    SideLasts(s, s', Other(m.dest));
    ConsentLasts(s, s', s.At(m.dest).rules);
  }

  lemma DeliverAccept(s: Sys, m: Message, at: nat)
    requires Inv(s) && m in s.net && m.cp.op == OP_RULE_ACCEPT
    ensures Inv(Apply(s, Deliver(m, at)))
  {
    var s' := Apply(s, Deliver(m, at));
    SideLasts(s, s', Other(m.dest));
    var p := s.At(m.dest).pending;
    if ApplyAccept(s.At(m.dest), m.cp, at).Some? {
      assert AgreedUnder(s', p.value.proposeId, p.value.rules);
    }
  }

  lemma DeliverQuiet(s: Sys, m: Message, at: nat)
    requires Inv(s) && m in s.net && m.cp.op != OP_RULE_PROPOSE && m.cp.op != OP_RULE_ACCEPT
    ensures Inv(Apply(s, Deliver(m, at)))
  {
    var s' := Apply(s, Deliver(m, at));
    QuietReaction(s.At(m.dest), Inbound(m.cp, m.msgId, at));
    SideLasts(s, s', A);
    SideLasts(s, s', B);
  }

  lemma DeliverStep(s: Sys, m: Message, at: nat)
    requires Inv(s) && m in s.net
    ensures Inv(Apply(s, Deliver(m, at)))
  {
    if m.cp.op == OP_RULE_PROPOSE {
      DeliverPropose(s, m, at);
    } else if m.cp.op == OP_RULE_ACCEPT {
      DeliverAccept(s, m, at);
    } else {
      DeliverQuiet(s, m, at);
    }
  }

  lemma {:induction false} RunInv(trace: seq<Sys>, steps: seq<Step>, i: nat)
    requires IsRun(trace, steps) && i < |trace|
    ensures Inv(trace[i])
  {
    if i > 0 {
      RunInv(trace, steps, i - 1);
      var s := trace[i - 1];
      match steps[i - 1] {
        case Act(x, e, msgId) =>
          match e {
            case Propose(rules, id) => ProposeStep(s, x, rules, id, msgId);
            case Accept(at) => AcceptStep(s, x, at, msgId);
            case _ => QuietStep(s, x, e, msgId);
          }
        case Deliver(m, at) => DeliverStep(s, m, at);
      }
    }
  }

  /** In every state of every run, the rules in force at either side are the defaults or the
      exact rules one side proposed and the other accepted. */
  lemma RulesNeedConsent(trace: seq<Sys>, steps: seq<Step>, i: nat, x: Side)
    requires IsRun(trace, steps) && i < |trace|
    ensures Consented(trace[i], trace[i].At(x).rules)
  {
    RunInv(trace, steps, i);
  }

  /** Consent is not agreement: when two proposals cross and both sides accept the other's,
      each ACCEPT meets an overwritten proposal and is dropped, and the sides end up under
      different rules with nothing left in flight that changes anything. */
  lemma CrossingProposalsDiverge(ra: Rules, rb: Rules, ida: Id16, idb: Id16, msgId: Id16)
    requires IsAllowedTtl(ra.ttl) && IsAllowedTtl(rb.ttl) && ra != rb && ida != idb && ida != ZERO_ID && idb != ZERO_ID
    ensures
      var a1 := React(DefaultState, Propose(ra, ida));
      var b1 := React(DefaultState, Propose(rb, idb));
      var a2 := React(a1.state, Inbound(b1.sent.value, msgId, 0)).state;
      var b2 := React(b1.state, Inbound(a1.sent.value, msgId, 0)).state;
      var a3, b3 := React(a2, Accept(0)), React(b2, Accept(0));
      var a4 := React(a3.state, Inbound(b3.sent.value, msgId, 0)).state;
      var b4 := React(b3.state, Inbound(a3.sent.value, msgId, 0)).state;
      a4.rules == rb && b4.rules == ra && a4.pending.None? && b4.pending.None?
  {
  }

  /** Side `y` still waits for the answer to its own proposal `id`. */
  predicate Awaits(p: PolicyState, id: Id16) {
    p.pending.Some? && !p.pending.value.inbound && p.pending.value.proposeId == id
  }

  /** In every run, whenever an ACCEPT is delivered, however late, its addressee ends under the rules that
      were accepted exactly when it still awaits the answer to that proposal or has those rules already. So
      if the accepter still has them, the two sides then agree under exactly that condition. */
  lemma AcceptAgreesIff(trace: seq<Sys>, steps: seq<Step>, i: nat, m: Message, at: nat)
    requires IsRun(trace, steps) && i < |trace| && m in trace[i].net && m.cp.op == OP_RULE_ACCEPT
    ensures
      var s, y, id := trace[i], m.dest, m.cp.proposeId;
      var s' := Apply(s, Deliver(m, at));
      && id in s.proposed && AgreedUnder(s, id, s.proposed[id].rules) && s.proposed[id].author == y
      && var agreed := s.proposed[id].rules;
      && s'.At(Other(y)) == s.At(Other(y))
      && (s'.At(y).rules == agreed <==> Awaits(s.At(y), id) || s.At(y).rules == agreed)
      && (s.At(Other(y)).rules == agreed ==>
            (s'.a.rules == s'.b.rules <==> Awaits(s.At(y), id) || s.At(y).rules == agreed))
  {
    RunInv(trace, steps, i);
    var s, y, id := trace[i], m.dest, m.cp.proposeId;
    assert SideInv(s, y);
    assert s.accepted[id] == Other(y) && s.proposed[id].author == y;
    if Awaits(s.At(y), id) {
      assert s.proposed[id] == Proposal(y, s.At(y).pending.value.rules);
    }
  }

  /** Accepting and delivering the ACCEPT, in every reachable state: the sides are under the same rules if and
      only if the proposer still awaits that answer or had those rules already. */
  lemma AcceptThenDeliver(trace: seq<Sys>, steps: seq<Step>, i: nat, x: Side, at: nat, msgId: Id16, later: nat)
    requires IsRun(trace, steps) && i < |trace|
    requires trace[i].At(x).pending.Some? && trace[i].At(x).pending.value.inbound
    ensures
      var s, y, p := trace[i], Other(x), trace[i].At(x).pending.value;
      var sent := React(s.At(x), Accept(at)).sent;
      && sent.Some?
      && var m := Message(y, sent.value, msgId);
      && var s1 := Apply(s, Act(x, Accept(at), msgId));
      && var s2 := Apply(s1, Deliver(m, later));
      && m in s1.net && s2.At(x).rules == p.rules
      && (s2.a.rules == s2.b.rules <==> Awaits(s.At(y), p.proposeId) || s.At(y).rules == p.rules)
  {
    var s, p := trace[i], trace[i].At(x).pending.value;
    var t := Act(x, Accept(at), msgId);
    var s1 := Apply(s, t);
    ExtendRun(trace, steps, i, t);
    var m := Message(Other(x), React(s.At(x), Accept(at)).sent.value, msgId);
    AcceptAgreesIff(trace[..i + 1] + [s1], steps[..i] + [t], i + 1, m, later);
    RunInv(trace, steps, i);
    assert SideInv(s, x);
  }

  /** A run may go on from any of its states. */
  lemma ExtendRun(trace: seq<Sys>, steps: seq<Step>, i: nat, t: Step)
    requires IsRun(trace, steps) && i < |trace| && Enabled(trace[i], t)
    ensures IsRun(trace[..i + 1] + [Apply(trace[i], t)], steps[..i] + [t])
  {
    var trace', steps' := trace[..i + 1] + [Apply(trace[i], t)], steps[..i] + [t];
    forall k | 0 <= k < |steps'|
      ensures Enabled(trace'[k], steps'[k]) && trace'[k + 1] == Apply(trace'[k], steps'[k])
    {
      if k < i {
        assert steps'[k] == steps[k] && trace'[k] == trace[k] && trace'[k + 1] == trace[k + 1];
      }
    }
  }

  // ---- capability wants over runs ----

  /** A step that may change what `y` believes the peer wants. */
  predicate TouchesPeerWant(t: Step, y: Side) {
    match t
    case Act(x, e, _) => x == y && e.SetCap? && !e.on
    case Deliver(m, _) => m.dest == y && (m.cp.op == OP_CAP_SET || m.cp.op == OP_SYNC)
  }

  lemma PeerWantKept(s: Sys, t: Step, y: Side)
    requires Enabled(s, t) && !TouchesPeerWant(t, y)
    ensures Apply(s, t).At(y).peerWant == s.At(y).peerWant
  {
  }

  lemma {:induction false} PeerWantStays(trace: seq<Sys>, steps: seq<Step>, i: nat, j: nat, y: Side)
    requires IsRun(trace, steps) && i <= j < |trace|
    requires forall k :: i <= k < j ==> !TouchesPeerWant(steps[k], y)
    ensures trace[j].At(y).peerWant == trace[i].At(y).peerWant
    decreases j
  {
    if i < j {
      PeerWantStays(trace, steps, i, j - 1, y);
      PeerWantKept(trace[j - 1], steps[j - 1], y);
    }
  }

  /** At step `i` side `y` processes a SYNC that carries what the other side wants at step `end`, and nothing
      after it, up to `end`, touches that again. */
  ghost predicate Synced(trace: seq<Sys>, steps: seq<Step>, y: Side, i: nat, end: nat)
    requires IsRun(trace, steps) && end < |trace|
  {
    && i < end && steps[i].Deliver? && steps[i].m.dest == y && steps[i].m.cp.op == OP_SYNC
    && Wants(steps[i].m.cp) == trace[end].At(Other(y)).localWant
    && forall k :: i < k < end ==> !TouchesPeerWant(steps[k], y)
  }

  lemma SyncedKnows(trace: seq<Sys>, steps: seq<Step>, y: Side, i: nat, end: nat)
    requires IsRun(trace, steps) && end < |trace| && Synced(trace, steps, y, i, end)
    ensures trace[end].At(y).peerWant == trace[end].At(Other(y)).localWant
  {
    assert trace[i + 1] == Apply(trace[i], steps[i]);
    PeerWantStays(trace, steps, i + 1, end, y);
  }

  /** In every run, once each side has processed a SYNC that carries what the other wants at the end, and nothing
      about those wants after it, both sides enforce the same capabilities. */
  lemma SyncedAgree(trace: seq<Sys>, steps: seq<Step>, i: nat, j: nat, end: nat, bit: nat)
    requires IsRun(trace, steps) && end < |trace|
    requires Synced(trace, steps, A, i, end) && Synced(trace, steps, B, j, end)
    ensures trace[end].a.Enforced(bit) == trace[end].b.Enforced(bit)
  {
    SyncedKnows(trace, steps, A, i, end);
    SyncedKnows(trace, steps, B, j, end);
  }

  // ---- a CAP_SET and its delivery ----

  /** Nothing but the wants for bit `b` differs. */
  ghost predicate OnlyBit(p: PolicyState, p': PolicyState, b: nat) {
    && p' == p.(localWant := p'.localWant, peerWant := p'.peerWant)
    && forall c :: c != b ==> (c in p'.localWant <==> c in p.localWant) && (c in p'.peerWant <==> c in p.peerWant)
  }

  lemma CapSetActs(s: Sys, x: Side, c: Byte, on: bool, msgId: Id16)
    requires c <= 4
    ensures
      var s', b := Apply(s, Act(x, SetCap(c, on), msgId)), c + 2;
      && s'.At(Other(x)) == s.At(Other(x)) && OnlyBit(s.At(x), s'.At(x), b)
      && (b in s'.At(x).localWant <==> on) && (b in s'.At(x).peerWant ==> b in s.At(x).peerWant)
  {
    ActionExact(s.At(x), SetCap(c, on));
  }

  lemma CapSetLands(s: Sys, m: Message, at: nat)
    requires m.cp.op == OP_CAP_SET && m.cp.capId <= 4
    ensures
      var s', b, y := Apply(s, Deliver(m, at)), m.cp.capId + 2, m.dest;
      && s'.At(Other(y)) == s.At(Other(y)) && OnlyBit(s.At(y), s'.At(y), b)
      && (b in s'.At(y).peerWant <==> m.cp.capOn)
      && (b in s'.At(y).localWant <==> b in s.At(y).localWant && m.cp.capOn)
  {
    CapSetReaction(s.At(m.dest), Inbound(m.cp, m.msgId, at));
  }

  /** Step `k` turns capability `c` on at side `x`. */
  predicate TurnsOn(t: Step, x: Side, c: Byte) {
    t.Act? && t.x == x && t.e == SetCap(c, true)
  }

  lemma WantStaysOff(s: Sys, t: Step, x: Side, c: Byte)
    requires c <= 4 && Enabled(s, t) && !TurnsOn(t, x, c) && c + 2 !in s.At(x).localWant
    ensures c + 2 !in Apply(s, t).At(x).localWant
  {
    match t {
      case Act(y, e, _) => ActionExact(s.At(y), e);
      case Deliver(m, at) =>
        if m.dest == x {
          LocalWantStays(s.At(x), Inbound(m.cp, m.msgId, at), c);
        }
    }
  }

  lemma {:induction false} WantOffInRun(trace: seq<Sys>, steps: seq<Step>, i: nat, j: nat, x: Side, c: Byte)
    requires IsRun(trace, steps) && i <= j < |trace| && c <= 4 && c + 2 !in trace[i].At(x).localWant
    requires forall k :: i <= k < j ==> !TurnsOn(steps[k], x, c)
    ensures c + 2 !in trace[j].At(x).localWant
    decreases j
  {
    if i < j {
      WantOffInRun(trace, steps, i, j - 1, x, c);
      WantStaysOff(trace[j - 1], steps[j - 1], x, c);
    }
  }

  /** In every run, a side that sets a capability sends a message exactly when that changes its own want. When the
      message is delivered, at once or later, the other side knows the want as it was set and nothing else of
      either side changes. Off: the receiver stops wanting it too and, unless the sender turned it on again
      meanwhile, neither side wants or enforces it. On: the receiver enforces it exactly if it wants it. */
  lemma CapSetReaches(trace: seq<Sys>, steps: seq<Step>, i: nat, j: nat, x: Side, c: Byte, on: bool, msgId: Id16, at: nat)
    requires IsRun(trace, steps) && i < j < |steps| && c <= 4 && steps[i] == Act(x, SetCap(c, on), msgId)
    ensures
      var y, b, sent := Other(x), c + 2, React(trace[i].At(x), SetCap(c, on)).sent;
      && (sent.Some? <==> on != (b in trace[i].At(x).localWant))
      && (sent.Some? ==> Message(y, sent.value, msgId) in trace[i + 1].net)
      && OnlyBit(trace[i].At(x), trace[i + 1].At(x), b) && trace[i + 1].At(y) == trace[i].At(y)
      && (sent.Some? && steps[j] == Deliver(Message(y, sent.value, msgId), at) ==>
            var s, s' := trace[j], trace[j + 1];
            && s'.At(x) == s.At(x) && OnlyBit(s.At(y), s'.At(y), b)
            && (b in s'.At(y).peerWant <==> on)
            && (on ==> (s'.At(y).Enforced(b) <==> b in s.At(y).localWant))
            && (!on ==> b !in s'.At(y).localWant && !s'.At(y).Enforced(b))
            && (!on && (forall k :: i < k < j ==> !TurnsOn(steps[k], x, c)) ==>
                  b !in s'.At(x).localWant && !s'.At(x).Enforced(b)))
  {
    var y, e := Other(x), SetCap(c, on);
    var r := React(trace[i].At(x), e);
    assert trace[i + 1] == Apply(trace[i], steps[i]) && trace[j + 1] == Apply(trace[j], steps[j]);
    ActionExact(trace[i].At(x), e);
    CapSetActs(trace[i], x, c, on, msgId);
    if r.sent.Some? {
      CapSetLands(trace[j], Message(y, r.sent.value, msgId), at);
    }
    if !on && (forall k :: i < k < j ==> !TurnsOn(steps[k], x, c)) {
      WantOffInRun(trace, steps, i + 1, j, x, c);
    }
  }
}
