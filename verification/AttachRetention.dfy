/** How long stored attachment bytes last, beside the ledger whose rows announce them. */
module AttachRetention {
  import opened Bytes
  import opened Pieces
  import opened AttachStore
  import AttachIntegrity
  import Ledger
  import LedgerRuns
  import PolicyMachine
  import Intake

  // ---- dropping transfers ----

  function WithoutAll(chunks: seq<ChunkRow>, heads: set<Id16>): seq<ChunkRow> {
    if chunks == [] then [] else
    var front := WithoutAll(chunks[..|chunks| - 1], heads);
    var r := chunks[|chunks| - 1];
    if r.head in heads then front else front + [r]
  }

  /** The rows and the chunks of these heads go. */
  function DropAll(s: Store, heads: set<Id16>): Store {
    Store(WithoutAll(s.chunks, heads), s.rows - heads)
  }

  lemma {:induction false} WithoutAllOf(chunks: seq<ChunkRow>, heads: set<Id16>, id: Id16)
    requires id !in heads
    ensures ChunksOf(WithoutAll(chunks, heads), id) == ChunksOf(chunks, id)
  {
    if chunks != [] {
      var front, r := chunks[..|chunks| - 1], chunks[|chunks| - 1];
      WithoutAllOf(front, heads, id);
      if r.head !in heads {
        ChunksOfAppend(WithoutAll(front, heads), r, id);
      }
    }
  }

  lemma {:induction false} WithoutNone(chunks: seq<ChunkRow>)
    ensures WithoutAll(chunks, {}) == chunks
  {
    if chunks != [] {
      WithoutNone(chunks[..|chunks| - 1]);
    }
  }

  lemma {:induction false} WithoutOneMore(chunks: seq<ChunkRow>, heads: set<Id16>, head: Id16)
    ensures Without(WithoutAll(chunks, heads), head) == WithoutAll(chunks, heads + {head})
  {
    if chunks != [] {
      var front, r := chunks[..|chunks| - 1], chunks[|chunks| - 1];
      WithoutOneMore(front, heads, head);
      if r.head !in heads {
        var kept := WithoutAll(front, heads);
        assert (kept + [r])[..|kept|] == kept;
      }
    }
  }

  lemma {:induction false} DropOneMore(s: Store, heads: set<Id16>, head: Id16)
    ensures DropAll(s, heads + {head}) == Store(Without(DropAll(s, heads).chunks, head), DropAll(s, heads).rows - {head})
  {
    WithoutOneMore(s.chunks, heads, head);
  }

  ghost function Listed(heads: seq<Id16>): set<Id16> {
    set h | h in heads
  }

  lemma ListedNext(heads: seq<Id16>, i: nat)
    requires i < |heads|
    ensures Listed(heads[..i + 1]) == Listed(heads[..i]) + {heads[i]}
  {
    assert heads[..i + 1] == heads[..i] + [heads[i]];
  }

  /** Attachments went off: the transfer of every listed head is erased. */
  method EraseListed(tables: AttachmentTables, heads: seq<Id16>)
    modifies tables
    ensures tables.State() == DropAll(old(tables.State()), Listed(heads))
  {
    ghost var s := tables.State();
    WithoutNone(s.chunks);
    assert Listed(heads[..0]) == {} && s.rows - {} == s.rows;
    for i := 0 to |heads|
      invariant tables.State() == DropAll(s, Listed(heads[..i]))
    {
      ListedNext(heads, i);
      DropOneMore(s, Listed(heads[..i]), heads[i]);
      tables.chunks := Without(tables.chunks, heads[i]);
      tables.rows := tables.rows - {heads[i]};
    }
    assert heads[..|heads|] == heads;
  }

  // ---- the vault: ledger, attachment tables and view-once flags ----

  datatype Vault = Vault(led: Ledger.State, store: Store, once: set<Id16>)

  datatype Step =
    | Act(t: LedgerRuns.Step)
    | Media(env: Ledger.Envelope, op: AttachIntegrity.Op, viewOnce: bool)
    | Viewed(id: Id16)
    | BurnClosed

  predicate IsMedia(t: Ledger.EnvType) {
    t.AttachHead? || t.AttachChunk?
  }

  /** The envelope passes the gates, is no redelivery and is not dropped by the cut or a tombstone. */
  predicate Dispatched(s: Ledger.State, env: Ledger.Envelope) {
    && Ledger.PassesGates(s, env) && !Ledger.IsRedelivery(s, env)
    && !Ledger.ShouldDropInbound(env.body.Type(), env.appSeq, s.cut, Ledger.IsTombstoned(s, env.msgId))
  }

  /** A media envelope carries the head or chunk it is dispatched with; a head is let in as the policy says. */
  predicate Carries(v: Vault, env: Ledger.Envelope, op: AttachIntegrity.Op) {
    match op
    case HeadOp(h, allowed) => env.body.Type().AttachHead? && h.id == env.msgId && allowed == v.led.policy.Attachments()
    case ChunkOp(_) => env.body.Type().AttachChunk?
  }

  ghost predicate Enabled(v: Vault, t: Step) {
    match t
    case Act(a) => LedgerRuns.Enabled(v.led, a) && (a.Arrive? ==> !IsMedia(a.env.body.Type()))
    case Media(env, op, _) => env.body.Other? && Carries(v, env, op)
    case Viewed(_) => true
    case BurnClosed => v.led.closing && !v.led.burned
  }

  /** The ledger rows an erasure of attachments lists. */
  function LiveHeads(s: Ledger.State): set<Id16> {
    set id | id in s.rows && s.rows[id].envType.AttachHead? && !s.rows[id].tombstone
  }

  /** The transfers a ledger step erases: those a peer's DELETE names, the listed ones when attachments go off,
      all when the relationship is burned. */
  function Erased(v: Vault, t: LedgerRuns.Step): set<Id16> {
    match t
    case Arrive(env) =>
      if !Dispatched(v.led, env) then {} else (
        match env.body
        case DeleteBody => if env.refId.Some? && env.refId.value in v.store.rows then {env.refId.value} else {}
        case PolicyBody(cp) => ErasedByPolicy(v, PolicyMachine.Event.Inbound(cp, env.msgId, v.led.now))
        case CloseBody => v.store.rows.Keys
        case _ => {})
    case DoPolicy(e) => ErasedByPolicy(v, e)
    case _ => {}
  }

  function ErasedByPolicy(v: Vault, e: PolicyMachine.Event): set<Id16> {
    if PolicyMachine.React(v.led.policy, e).outcome.eraseAttachments then LiveHeads(v.led) else {}
  }

  /** The client rendered the attachment: a view-once payload is erased, its row stays as consumed. */
  function View(v: Vault, id: Id16): Store {
    if id in v.store.rows && id in v.once && !v.store.rows[id].consumed
    then Store(Without(v.store.chunks, id), v.store.rows[id := v.store.rows[id].(consumed := true)])
    else v.store
  }

  function FlagsAfter(v: Vault, op: AttachIntegrity.Op, viewOnce: bool): set<Id16> {
    if !op.HeadOp? || op.h.id in v.store.rows then v.once
    else if viewOnce then v.once + {op.h.id} else v.once - {op.h.id}
  }

  function Next(v: Vault, t: Step, hash: Hash): Vault {
    match t
    case Act(a) => Vault(LedgerRuns.Next(v.led, a), DropAll(v.store, Erased(v, a)), v.once)
    case Media(env, op, viewOnce) =>
      if !Dispatched(v.led, env) then v.(led := Ledger.Handle(v.led, env).0)
      else Vault(Ledger.Handle(v.led, env).0, AttachIntegrity.Step(v.store, op, hash).store, FlagsAfter(v, op, viewOnce))
    case Viewed(id) => v.(store := View(v, id))
    case BurnClosed => v.(led := Ledger.Burn(v.led), store := DropAll(v.store, v.store.rows.Keys))
  }

  ghost predicate IsPath(trace: seq<Vault>, steps: seq<Step>, hash: Hash) {
    && |trace| == |steps| + 1
    && forall i :: 0 <= i < |steps| ==> IsStep(trace, steps, i, hash)
  }

  ghost predicate IsStep(trace: seq<Vault>, steps: seq<Step>, i: nat, hash: Hash)
    requires i < |steps| && |trace| == |steps| + 1
  {
    Enabled(trace[i], steps[i]) && trace[i + 1] == Next(trace[i], steps[i], hash)
  }

  // ---- when the bytes go ----

  /** The client can fetch the bytes, and every planned chunk is in place. */
  ghost predicate Held(v: Vault, id: Id16) {
    AttachIntegrity.Settled(v.store, id) && BytesOf(v.store, id).Some?
  }

  /** A peer's envelope of this kind is accepted in this step. */
  predicate Takes(v: Vault, a: LedgerRuns.Step) {
    a.Arrive? && Intake.Accepted(v.led, a.env)
  }

  /** A ledger step takes the bytes of `id` away: the peer's DELETE of it, attachments going off while its ledger
      row is live, or the closing of the relationship. */
  predicate ActRemoves(v: Vault, a: LedgerRuns.Step, id: Id16) {
    || (Takes(v, a) && a.env.body.DeleteBody? && a.env.refId == Some(id))
    || (Takes(v, a) && a.env.body.CloseBody?)
    || (Intake.Attaching(v.led.policy) && !Intake.Attaching(LedgerRuns.Next(v.led, a).policy)
        && id in v.led.rows && v.led.rows[id].envType.AttachHead? && !v.led.rows[id].tombstone)
  }

  lemma ErasedMeans(v: Vault, a: LedgerRuns.Step, id: Id16)
    requires LedgerRuns.Enabled(v.led, a) && id in v.store.rows
    ensures id in Erased(v, a) <==> ActRemoves(v, a, id)
  {
    Intake.StepFollows(v.led, a);
    match a {
      case Arrive(env) =>
        if env.body.PolicyBody? && Intake.Accepted(v.led, env) {
          PolicyMachine.EraseStep(v.led.policy, Intake.EventOf(v.led, env));
        }
      case DoPolicy(e) => PolicyMachine.EraseStep(v.led.policy, e);
      case _ =>
    }
  }

  /** The step takes the bytes of `id` away. */
  ghost predicate Removes(v: Vault, t: Step, id: Id16) {
    match t
    case Act(a) => ActRemoves(v, a, id)
    case Media(_, _, _) => false
    case Viewed(x) => x == id && id in v.once
    case BurnClosed => true
  }

  lemma DropExact(s: Store, heads: set<Id16>, id: Id16)
    requires AttachIntegrity.Settled(s, id)
    ensures id in heads ==> BytesOf(DropAll(s, heads), id) == None
    ensures id !in heads ==> AttachIntegrity.Untouched(s, DropAll(s, heads), id)
  {
    if id !in heads {
      WithoutAllOf(s.chunks, heads, id);
    }
  }

  lemma UntouchedBytes(s: Store, s': Store, id: Id16)
    requires AttachIntegrity.Settled(s, id) && AttachIntegrity.Untouched(s, s', id)
    ensures AttachIntegrity.Settled(s', id) && BytesOf(s', id) == BytesOf(s, id)
  {
  }

  lemma ViewExact(v: Vault, x: Id16, id: Id16)
    requires Held(v, id)
    ensures Removes(v, Viewed(x), id) ==> BytesOf(View(v, x), id) == None
    ensures !Removes(v, Viewed(x), id) ==> AttachIntegrity.Untouched(v.store, View(v, x), id)
  {
    WithoutHead(v.store.chunks, x, id);
  }

  /** A step takes the bytes away exactly when it is a peer's DELETE of that message, an erasure of attachments
      while the head's ledger row is live, a viewing of a view-once attachment, or the burn; otherwise the same
      bytes are handed out as before. */
  lemma StepExact(v: Vault, t: Step, id: Id16, hash: Hash)
    requires Enabled(v, t) && Held(v, id)
    ensures BytesOf(Next(v, t, hash).store, id) == if Removes(v, t, id) then None else BytesOf(v.store, id)
    ensures Held(Next(v, t, hash), id) <==> !Removes(v, t, id)
  {
    var s' := Next(v, t, hash).store;
    match t {
      case Act(a) =>
        ErasedMeans(v, a, id);
        DropExact(v.store, Erased(v, a), id);
      case Media(env, op, _) => AttachIntegrity.SettledStep(v.store, op, id, hash);
      case Viewed(x) => ViewExact(v, x, id);
      case BurnClosed => DropExact(v.store, v.store.rows.Keys, id);
    }
    if !Removes(v, t, id) {
      UntouchedBytes(v.store, s', id);
    }
  }

  ghost predicate RemovedAt(trace: seq<Vault>, steps: seq<Step>, k: nat, id: Id16)
    requires k < |steps| <= |trace|
  {
    Removes(trace[k], steps[k], id)
  }

  /** Over every stretch of every run without such a step, the same bytes are handed out at the end, whatever the
      agreed TTL, the clock, the sweeps and the traffic. */
  lemma {:induction false} BytesStay(trace: seq<Vault>, steps: seq<Step>, hash: Hash, i: nat, j: nat, id: Id16)
    requires IsPath(trace, steps, hash) && i <= j < |trace| && Held(trace[i], id)
    requires forall k :: i <= k < j ==> !RemovedAt(trace, steps, k, id)
    ensures Held(trace[j], id) && BytesOf(trace[j].store, id) == BytesOf(trace[i].store, id)
    decreases j
  {
    if i < j {
      BytesStay(trace, steps, hash, i, j - 1, id);
      assert IsStep(trace, steps, j - 1, hash) && !RemovedAt(trace, steps, j - 1, id);
      StepExact(trace[j - 1], steps[j - 1], id, hash);
    }
  }

  // ---- view-once ----

  /** The step brings a new head under `id`. */
  predicate Announces(v: Vault, t: Step, id: Id16) {
    t.Media? && t.op.HeadOp? && t.op.h.id == id && Intake.Kept(v.led, t.env) && id !in v.store.rows
  }

  /** An attachment is view-once exactly if the head that announced it said so. */
  lemma OnceExact(v: Vault, t: Step, id: Id16, hash: Hash)
    requires Enabled(v, t)
    ensures id in Next(v, t, hash).once <==> if Announces(v, t, id) then t.viewOnce else id in v.once
  {
  }

  ghost predicate Consumed(s: Store, id: Id16) {
    id in s.rows && s.rows[id].consumed
  }

  lemma TryKeepsConsumed(s: Store, head: Id16, id: Id16, hash: Hash)
    requires Consumed(s, id)
    ensures id in TryComplete(s, head, hash).store.rows ==> Consumed(TryComplete(s, head, hash).store, id)
  {
  }

  lemma MediaKeepsConsumed(s: Store, op: AttachIntegrity.Op, id: Id16, hash: Hash)
    requires Consumed(s, id)
    ensures
      var s' := AttachIntegrity.Step(s, op, hash).store;
      id in s'.rows ==> Consumed(s', id)
  {
    match op {
      case HeadOp(h, _) =>
        if h.id !in s.rows {
          TryKeepsConsumed(s.(rows := s.rows[h.id := Row(h.n, h.count, h.sha, [], false, false)]), h.id, id, hash);
        }
      case ChunkOp(c) =>
        if c.head in s.rows && c.index < s.rows[c.head].count {
          TryKeepsConsumed(Received(s, c), c.head, id, hash);
        }
    }
  }

  lemma ConsumedStep(v: Vault, t: Step, id: Id16, hash: Hash)
    requires Consumed(v.store, id) || (t == Viewed(id) && id in v.once && id in v.store.rows)
    ensures id in Next(v, t, hash).store.rows ==> Consumed(Next(v, t, hash).store, id)
  {
    if t.Media? {
      MediaKeepsConsumed(v.store, t.op, id, hash);
    }
  }

  /** In every run, once a view-once attachment was viewed its bytes are handed out in no later state, as long as
      its row stands. */
  lemma {:induction false} ViewedOnce(trace: seq<Vault>, steps: seq<Step>, hash: Hash, i: nat, j: nat, id: Id16)
    requires IsPath(trace, steps, hash) && i < j < |trace| && steps[i] == Viewed(id) && id in trace[i].once
    requires forall k :: i <= k <= j ==> id in trace[k].store.rows
    ensures Consumed(trace[j].store, id) && BytesOf(trace[j].store, id) == None
    decreases j
  {
    assert IsStep(trace, steps, j - 1, hash) && id in trace[j - 1].store.rows && id in trace[j].store.rows;
    if i + 1 < j {
      ViewedOnce(trace, steps, hash, i, j - 1, id);
    }
    ConsumedStep(trace[j - 1], steps[j - 1], id, hash);
  }

  // ---- what retention misses ----

  function Path2(v: Vault, a: LedgerRuns.Step, b: LedgerRuns.Step, hash: Hash): Vault {
    Next(Next(v, Act(a), hash), Act(b), hash)
  }

  /** Under an agreed TTL, a sweep one TTL later erases the head's ledger row and leaves the bytes. */
  lemma BytesOutliveTtl(v: Vault, id: Id16, secs: nat, hash: Hash)
    requires LedgerRuns.Inv(v.led) && !v.led.burned && id in v.led.rows && Held(v, id)
    requires PolicyMachine.TTL_NEVER != v.led.policy.rules.ttl <= secs
    ensures
      var v' := Path2(v, LedgerRuns.Tick(secs), LedgerRuns.DoSweep, hash);
      && v'.led.now == v.led.now + secs && v'.led.rows.Keys <= v.led.rows.Keys - {id}
      && Held(v', id) && BytesOf(v'.store, id) == BytesOf(v.store, id)
  {
    StepExact(v, Act(LedgerRuns.Tick(secs)), id, hash);
    StepExact(Next(v, Act(LedgerRuns.Tick(secs)), hash), Act(LedgerRuns.DoSweep), id, hash);
  }

  lemma FreshInv(at: nat)
    ensures LedgerRuns.Inv(Ledger.Fresh(at))
  {
    LedgerRuns.RunInv([Ledger.Fresh(at)], [], 0);
  }

  lemma InlineHeadHeld(id: Id16, bytes: seq<Byte>, hash: Hash)
    ensures
      var h := Head(id, |bytes|, 0, hash(bytes), Some(bytes));
      var s' := OnHead(Store([], map[]), h, true, hash).store;
      AttachIntegrity.Settled(s', id) && BytesOf(s', id) == Some(bytes)
  {
    var s' := OnHead(Store([], map[]), Head(id, |bytes|, 0, hash(bytes), Some(bytes)), true, hash).store;
    ChunksOfAppend([], ChunkRow(id, 0, bytes), id);
    assert [] + [ChunkRow(id, 0, bytes)] == [ChunkRow(id, 0, bytes)];
    OnlyFirst(ChunksOf(s'.chunks, id), bytes, INDEX_LIMIT);
    assert Flatten([bytes]) == bytes by {
      assert [bytes][..0] == [];
    }
  }

  lemma {:induction false} OnlyFirst(c: Chunks, bytes: seq<Byte>, n: nat)
    requires c == map[0 := bytes]
    ensures StoredList(c, n) == if n == 0 then [] else [bytes]
  {
    if n > 0 {
      OnlyFirst(c, bytes, n - 1);
    }
  }

  function EmptyVault(at: nat): Vault {
    Vault(Ledger.Fresh(at), Store([], map[]), {})
  }

  function InlineArrival(env: Ledger.Envelope, bytes: seq<Byte>, hash: Hash): Step {
    Media(env, AttachIntegrity.HeadOp(Head(env.msgId, |bytes|, 0, hash(bytes), Some(bytes)), true), false)
  }

  lemma InlineArrives(at: nat, env: Ledger.Envelope, bytes: seq<Byte>, hash: Hash)
    requires env.body.Other? && env.body.t.AttachHead? && env.sentAt <= at + Ledger.MAX_FUTURE_SKEW_SECS
    ensures
      var t := InlineArrival(env, bytes, hash);
      && Enabled(EmptyVault(at), t)
      && var v := Next(EmptyVault(at), t, hash);
      && LedgerRuns.Inv(v.led) && !v.led.burned && v.led.rows.Keys == {env.msgId} && v.led.now == at
      && v.led.policy.rules.ttl == PolicyMachine.TTL_24H && Held(v, env.msgId) && BytesOf(v.store, env.msgId) == Some(bytes)
  {
    FreshInv(at);
    LedgerRuns.ArriveKeeps(Ledger.Fresh(at), env);
    InlineHeadHeld(env.msgId, bytes, hash);
  }

  /** From an empty relationship under the default day of retention: an inline attachment arrives, a day passes,
      the sweep runs, and the bytes are still handed out while the ledger is empty. */
  lemma DayOldBytes(at: nat, env: Ledger.Envelope, bytes: seq<Byte>, hash: Hash)
    requires env.body.Other? && env.body.t.AttachHead? && env.sentAt <= at + Ledger.MAX_FUTURE_SKEW_SECS
    ensures
      var t := InlineArrival(env, bytes, hash);
      && Enabled(EmptyVault(at), t)
      && var v := Path2(Next(EmptyVault(at), t, hash), LedgerRuns.Tick(PolicyMachine.TTL_24H), LedgerRuns.DoSweep, hash);
      && v.led.now == at + PolicyMachine.TTL_24H && v.led.rows.Keys == {} && BytesOf(v.store, env.msgId) == Some(bytes)
  {
    InlineArrives(at, env, bytes, hash);
    BytesOutliveTtl(Next(EmptyVault(at), InlineArrival(env, bytes, hash), hash), env.msgId, PolicyMachine.TTL_24H, hash);
  }

  /** The step takes the head's ledger row away or empties it: a sweep, a DELETE_ALL of either side, our DELETE. */
  ghost predicate Forgets(v: Vault, t: LedgerRuns.Step, id: Id16)
    requires id in v.led.rows
  {
    || (t.DoSweep? && v.led.rows[id].expires.Some? && v.led.rows[id].expires.value <= v.led.now)
    || t.DoDeleteAll? || (t.Arrive? && t.env.body.DeleteAllBody? && Dispatched(v.led, t.env))
    || (t.DoDelete? && t.target == id)
  }

  lemma RowForgotten(v: Vault, t: LedgerRuns.Step, id: Id16)
    requires LedgerRuns.Enabled(v.led, t) && id in v.led.rows && Forgets(v, t, id)
    ensures var s' := LedgerRuns.Next(v.led, t); id in s'.rows ==> s'.rows[id].tombstone
  {
  }

  /** From then on an erasure of attachments no longer finds the transfer: its bytes stay. */
  lemma EraseMissesForgotten(v: Vault, t: LedgerRuns.Step, e: PolicyMachine.Event, id: Id16, hash: Hash)
    requires Enabled(v, Act(t)) && id in v.led.rows && Held(v, id) && Forgets(v, t, id)
    requires Enabled(Next(v, Act(t), hash), Act(LedgerRuns.DoPolicy(e)))
    ensures
      var v' := Path2(v, t, LedgerRuns.DoPolicy(e), hash);
      Held(v', id) && BytesOf(v'.store, id) == BytesOf(v.store, id)
  {
    StepExact(v, Act(t), id, hash);
    var v1 := Next(v, Act(t), hash);
    RowForgotten(v, t, id);
    StepExact(v1, Act(LedgerRuns.DoPolicy(e)), id, hash);
  }
}
