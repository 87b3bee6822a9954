/** The message ledger of one relationship and everything that changes it: inbound dispatch
    with its gates, local sends, edits and deletes, policy changes, sweeps. */
module Ledger {
  import opened Bytes
  import opened PolicyMachine
  import opened PolicyWire
  import Outbound

  const MAX_FUTURE_SKEW_SECS: nat := 300
  const TOMBSTONE_TTL_SEC: nat := 86_400
  const TOMBSTONE_CAP: nat := 4096
  const EDIT_WINDOW_SEC: nat := 3_600
  const EDIT_MAX_EDITS: nat := 30
  const MAX_BODY_BYTES: nat := 16_384

  datatype EnvType =
    | Msg | Edit | Delete | DeleteAll | ResyncReq | AttachHead | AttachChunk | ContactClose
    | Profile | Pref | ProfileReq | Sticker | StickerCtrl | Presence | Policy | Typing | Read

  /** The payloads that act on the ledger; `Other` stands for the rest. */
  datatype Body =
    | MsgBody(text: seq<Byte>)
    | EditBody(text: seq<Byte>)
    | DeleteBody
    | DeleteAllBody
    | CloseBody
    | PolicyBody(cp: ChatPolicy)
    | Other(t: EnvType, bytes: seq<Byte>)
  {
    function Type(): EnvType {
      match this
      case MsgBody(_) => Msg
      case EditBody(_) => Edit
      case DeleteBody => Delete
      case DeleteAllBody => DeleteAll
      case CloseBody => ContactClose
      case PolicyBody(_) => Policy
      case Other(t, _) => t
    }

    function Encoded(): seq<Byte> {
      match this
      case MsgBody(text) => text
      case EditBody(text) => text
      case PolicyBody(cp) => Fields(cp, Flags(cp))
      case Other(_, bytes) => bytes
      case _ => []
    }
  }

  datatype Envelope = Envelope(msgId: Id16, appSeq: nat, sentAt: nat, refId: Option<Id16>, body: Body)

  datatype Direction = In | Out

  datatype Row = Row(
    dir: Direction, appSeq: nat, sentAt: nat, receivedAt: Option<nat>, envType: EnvType,
    refId: Option<Id16>, payload: seq<Byte>, expires: Option<nat>, createdAt: nat,
    edited: bool, tombstone: bool, editCount: nat, lastEditSeq: nat)

  datatype State = State(
    rows: map<Id16, Row>,
    seen: set<nat>,
    cut: nat,
    tombs: map<Id16, nat>,
    policy: PolicyState,
    floor: nat,
    peerCaps: set<EnvType>,
    closing: bool,
    burned: bool,
    now: nat)

  datatype Notice = NewMessage(id: Id16) | Edited(id: Id16) | Deleted(id: Id16) | HistoryCleared | Closed | PolicyChanged

  /** Types that need an advertised capability bit. */
  predicate Gated(t: EnvType) {
    t.Sticker? || t.StickerCtrl? || t.Presence? || t.Typing? || t.Read? || t.Policy?
  }

  predicate IsHistoryType(t: EnvType) {
    t.Msg? || t.Edit? || t.AttachHead? || t.AttachChunk? || t.Sticker?
  }

  predicate ShouldDropInbound(t: EnvType, appSeq: nat, cut: nat, tombstoned: bool) {
    IsHistoryType(t) && (tombstoned || (cut > 0 && appSeq < cut))
  }

  predicate IsTombstoned(s: State, id: Id16) {
    id in s.tombs && s.tombs[id] > s.now
  }

  // ---- store operations ----

  function MarkEdited(s: State, id: Id16, text: seq<Byte>, editSeq: nat): State {
    if id in s.rows && !s.rows[id].tombstone
    then s.(rows := s.rows[id := s.rows[id].(payload := text, edited := true,
                                             editCount := s.rows[id].editCount + 1, lastEditSeq := editSeq)])
    else s
  }

  function MarkTombstoned(s: State, id: Id16): State {
    if id in s.rows then s.(rows := s.rows[id := s.rows[id].(payload := [], tombstone := true)]) else s
  }

  function AddTombstone(s: State, id: Id16): State {
    s.(tombs := s.tombs[id := s.now + TOMBSTONE_TTL_SEC])
  }

  function ClearHistory(s: State, cutSeq: nat, keep: Id16): State {
    s.(cut := if cutSeq > s.cut then cutSeq else s.cut,
       rows := map id | id in s.rows && id == keep :: s.rows[id])
  }

  function ClampExpiry(s: State, before: nat): State {
    s.(rows := map id | id in s.rows ::
                 if s.rows[id].expires.None? || s.rows[id].expires.value > before
                 then s.rows[id].(expires := Some(before)) else s.rows[id])
  }

  function EraseAttachMessages(s: State): State {
    s.(rows := map id | id in s.rows ::
                 if s.rows[id].envType.AttachHead? && !s.rows[id].tombstone
                 then s.rows[id].(payload := [], tombstone := true) else s.rows[id])
  }

  function SweepExpired(s: State): State {
    s.(rows := map id | id in s.rows && !(s.rows[id].expires.Some? && s.rows[id].expires.value <= s.now) :: s.rows[id])
  }

  /** `kept` are the tombstones that stay: the unexpired ones, newest first up to the cap. */
  ghost predicate IsPrune(s: State, kept: set<Id16>) {
    && (forall id :: id in kept ==> IsTombstoned(s, id))
    && (forall id, k :: IsTombstoned(s, id) && id !in kept && k in kept ==> s.tombs[id] <= s.tombs[k])
    && |kept| <= TOMBSTONE_CAP
    && ((exists id :: IsTombstoned(s, id) && id !in kept) ==> |kept| == TOMBSTONE_CAP)
  }

  function PruneTombstones(s: State, kept: set<Id16>): State {
    s.(tombs := map id | id in s.tombs && id in kept :: s.tombs[id])
  }

  function Burn(s: State): State {
    s.(rows := map[], seen := {}, tombs := map[], cut := 0, burned := true)
  }

  // ---- policy effects ----

  function ApplyOutcome(s: State, o: Outcome): State {
    var s1 := if o.clampTo.Some? then ClampExpiry(s, o.clampTo.value) else s;
    if o.eraseAttachments then EraseAttachMessages(s1) else s1
  }

  function PolicyEvent(s: State, e: PolicyMachine.Event): State {
    var r := React(s.policy, e);
    ApplyOutcome(s.(policy := r.state), r.outcome)
  }

  // ---- edits ----

  datatype EditDecision =
    | Apply | DropTombstone | DropHistoryCut | DropMissing | DropAuthorship | DropKind
    | DropExpired | DropWindow | DropCap | DropStaleSeq | DropTooLarge

  function Decide(target: Option<Row>, now: nat, appSeq: nat, bodyBytes: nat, tombstoned: bool, cut: nat): EditDecision {
    if cut > 0 && appSeq < cut then DropHistoryCut
    else if tombstoned then DropTombstone
    else if target.None? then DropMissing
    else
      var t := target.value;
      if t.dir != In then DropAuthorship
      else if t.envType != Msg then DropKind
      else if t.expires.Some? && now >= t.expires.value then DropExpired
      else if now >= (if t.receivedAt.Some? then t.receivedAt.value else t.createdAt) + EDIT_WINDOW_SEC then DropWindow
      else if t.editCount >= EDIT_MAX_EDITS then DropCap
      else if appSeq <= t.lastEditSeq then DropStaleSeq
      else if bodyBytes > MAX_BODY_BYTES then DropTooLarge
      else Apply
  }

  predicate CanOfferEdit(r: Row, now: nat) {
    r.dir == Out && r.envType == Msg && !r.tombstone && r.editCount < EDIT_MAX_EDITS
    && now < r.sentAt + EDIT_WINDOW_SEC
  }

  function Lookup(s: State, id: Id16): Option<Row> {
    if id in s.rows then Some(s.rows[id]) else None
  }

  // ---- inbound dispatch ----

  /** Capability, closing and clock-skew gates. */
  predicate PassesGates(s: State, env: Envelope) {
    var t := env.body.Type();
    && !s.burned
    && (Gated(t) ==> t in s.peerCaps)
    && (s.closing ==> t.ResyncReq?)
    && env.sentAt <= s.now + MAX_FUTURE_SKEW_SECS
  }

  predicate IsRedelivery(s: State, env: Envelope) {
    env.msgId in s.rows || env.appSeq in s.seen
  }

  function NoteSeq(s: State, env: Envelope): State {
    s.(seen := s.seen + {env.appSeq})
  }

  function InboundRow(s: State, env: Envelope): Row {
    Row(In, env.appSeq, if env.sentAt < s.now then env.sentAt else s.now, Some(s.now), env.body.Type(), env.refId,
        env.body.Encoded(), s.policy.ExpiryAt(s.now), s.now, false, false, 0, 0)
  }

  function Insert(s: State, env: Envelope): State {
    var t := env.body.Type();
    if t.Typing? || t.Presence? then s
    else s.(rows := s.rows[env.msgId := InboundRow(s, env)])
  }

  function ApplyEdit(s: State, env: Envelope, text: seq<Byte>): (State, seq<Notice>) {
    if env.refId.None? then (s, [])
    else
      var target := env.refId.value;
      if Decide(Lookup(s, target), s.now, env.appSeq, |text|, IsTombstoned(s, env.msgId), s.cut) == Apply
      then (MarkEdited(s, target, text, env.appSeq), [Edited(target)])
      else (s, [])
  }

  function ApplyDelete(s: State, env: Envelope): (State, seq<Notice>) {
    if env.refId.None? then (s, [])
    else
      var target := env.refId.value;
      (MarkTombstoned(AddTombstone(s, target), target), if target in s.rows then [Deleted(target)] else [])
  }

  function Dispatch(s: State, env: Envelope): (State, seq<Notice>) {
    match env.body
    case MsgBody(_) => (s, [NewMessage(env.msgId)])
    case EditBody(text) => ApplyEdit(s, env, text)
    case DeleteBody => ApplyDelete(s, env)
    case DeleteAllBody => (ClearHistory(s, env.appSeq, env.msgId), [HistoryCleared])
    case CloseBody => (Burn(s), [Closed])
    case PolicyBody(cp) =>
      var e := PolicyMachine.Event.Inbound(cp, env.msgId, s.now);
      (PolicyEvent(s, e), if React(s.policy, e).outcome.changed then [PolicyChanged] else [])
    case Other(_, _) => (s, [])
  }

  function Handle(s: State, env: Envelope): (State, seq<Notice>) {
    if !PassesGates(s, env) || IsRedelivery(s, env) then (s, [])
    else
      var s1 := NoteSeq(s, env);
      if ShouldDropInbound(env.body.Type(), env.appSeq, s1.cut, IsTombstoned(s1, env.msgId)) then (s1, [])
      else Dispatch(Insert(s1, env), env)
  }

  // ---- local actions ----

  /** `m` answers `SELECT MAX(app_seq)` over the outbound rows. */
  ghost predicate IsMaxOut(rows: map<Id16, Row>, m: Option<nat>) {
    && (m.Some? ==> exists id :: id in rows && rows[id].dir == Out && rows[id].appSeq == m.value)
    && (forall id :: id in rows && rows[id].dir == Out ==> m.Some? && rows[id].appSeq <= m.value)
  }

  function OutRow(s: State, seq_: nat, t: EnvType, bytes: seq<Byte>, refId: Option<Id16>): Row {
    Row(Out, seq_, s.now, None, t, refId, bytes, s.policy.ExpiryAt(s.now), s.now, false, false, 0, 0)
  }

  function Send(s: State, id: Id16, t: EnvType, bytes: seq<Byte>, refId: Option<Id16>, m: Option<nat>): State {
    var next := Outbound.NextSeq(s.floor, m);
    s.(floor := Outbound.SatAdd1(next), rows := s.rows[id := OutRow(s, next, t, bytes, refId)])
  }

  function SendEdit(s: State, id: Id16, target: Id16, text: seq<Byte>, m: Option<nat>): State {
    if target !in s.rows || !CanOfferEdit(s.rows[target], s.now) || |text| > MAX_BODY_BYTES then s
    else MarkEdited(Send(s, id, Edit, text, Some(target), m), target, text, Outbound.NextSeq(s.floor, m))
  }

  function SendDelete(s: State, id: Id16, target: Id16, m: Option<nat>): State {
    AddTombstone(MarkTombstoned(Send(s, id, Delete, [], Some(target), m), target), target)
  }

  function SendDeleteAll(s: State, id: Id16, m: Option<nat>): State {
    ClearHistory(Send(s, id, DeleteAll, [], None, m), Outbound.NextSeq(s.floor, m), id)
  }

  // ---- the store object ----

  class LedgerStore {
    var rows: map<Id16, Row>
    var seen: set<nat>
    var cut: nat
    var tombs: map<Id16, nat>
    var policy: PolicyState
    var floor: nat
    var peerCaps: set<EnvType>
    var closing: bool
    var burned: bool
    var now: nat

    ghost function St(): State reads this {
      State(rows, seen, cut, tombs, policy, floor, peerCaps, closing, burned, now)
    }

    constructor (at: nat)
      ensures St() == Fresh(at)
    {
      rows, seen, cut, tombs, policy := map[], {}, 0, map[], DefaultState;
      floor, peerCaps, closing, burned, now := 1, {}, false, false, at;
    }

    method EditRow(id: Id16, text: seq<Byte>, editSeq: nat)
      modifies this`rows
      ensures St() == MarkEdited(old(St()), id, text, editSeq)
    {
      if id in rows && !rows[id].tombstone {
        var r := rows[id];
        rows := rows[id := r.(payload := text, edited := true, editCount := r.editCount + 1, lastEditSeq := editSeq)];
      }
    }

    method WipeRow(id: Id16) returns (found: bool)
      modifies this`rows
      ensures St() == MarkTombstoned(old(St()), id) && found == old(id in rows)
    {
      found := id in rows;
      if found {
        rows := rows[id := rows[id].(payload := [], tombstone := true)];
      }
    }

    method OnEdit(env: Envelope, text: seq<Byte>) returns (notices: seq<Notice>)
      modifies this`rows
      ensures (St(), notices) == ApplyEdit(old(St()), env, text)
    {
      notices := [];
      if env.refId.None? {
        return;
      }
      var target := env.refId.value;
      var row := if target in rows then Some(rows[target]) else None;
      var tombstoned := env.msgId in tombs && tombs[env.msgId] > now;
      var decision := Decide(row, now, env.appSeq, |text|, tombstoned, cut);
      if decision == Apply {
        EditRow(target, text, env.appSeq);
        notices := [Edited(target)];
      }
    }

    method OnDelete(env: Envelope) returns (notices: seq<Notice>)
      modifies this`rows, this`tombs
      ensures (St(), notices) == ApplyDelete(old(St()), env)
    {
      notices := [];
      if env.refId.None? {
        return;
      }
      var target := env.refId.value;
      tombs := tombs[target := now + TOMBSTONE_TTL_SEC];
      var found := WipeRow(target);
      if found {
        notices := [Deleted(target)];
      }
    }

    method OnDeleteAll(cutSeq: nat, keep: Id16)
      modifies this`rows, this`cut
      ensures St() == ClearHistory(old(St()), cutSeq, keep)
    {
      if cutSeq > cut {
        cut := cutSeq;
      }
      rows := map id | id in rows && id == keep :: rows[id];
    }

    method OnPolicy(e: PolicyMachine.Event) returns (changed: bool)
      modifies this`rows, this`policy
      ensures St() == PolicyEvent(old(St()), e) && changed == React(old(policy), e).outcome.changed
    {
      var r := React(policy, e);
      policy := r.state;
      if r.outcome.clampTo.Some? {
        ClampRows(r.outcome.clampTo.value);
      }
      if r.outcome.eraseAttachments {
        EraseAttachRows();
      }
      changed := r.outcome.changed;
    }

    method ClampRows(before: nat)
      modifies this`rows
      ensures St() == ClampExpiry(old(St()), before)
    {
      rows := map id | id in rows ::
        if rows[id].expires.None? || rows[id].expires.value > before
        then rows[id].(expires := Some(before)) else rows[id];
    }

    method EraseAttachRows()
      modifies this`rows
      ensures St() == EraseAttachMessages(old(St()))
    {
      rows := map id | id in rows ::
        if rows[id].envType.AttachHead? && !rows[id].tombstone
        then rows[id].(payload := [], tombstone := true) else rows[id];
    }

    method OnClose()
      modifies this
      ensures St() == Burn(old(St()))
    {
      rows, seen, tombs, cut, burned := map[], {}, map[], 0, true;
    }

    method DispatchBody(env: Envelope) returns (notices: seq<Notice>)
      modifies this
      ensures (St(), notices) == Dispatch(old(St()), env)
    {
      notices := [];
      match env.body {
        case MsgBody(_) => notices := [NewMessage(env.msgId)];
        case EditBody(text) => notices := OnEdit(env, text);
        case DeleteBody => notices := OnDelete(env);
        case DeleteAllBody =>
          OnDeleteAll(env.appSeq, env.msgId);
          notices := [HistoryCleared];
        case CloseBody =>
          OnClose();
          notices := [Closed];
        case PolicyBody(cp) =>
          var changed := OnPolicy(PolicyMachine.Event.Inbound(cp, env.msgId, now));
          notices := if changed then [PolicyChanged] else [];
        case Other(_, _) =>
      }
    }

    /** One decrypted envelope through every gate, in order. */
    method HandlePlaintext(env: Envelope) returns (notices: seq<Notice>)
      modifies this
      ensures (St(), notices) == Handle(old(St()), env)
    {
      notices := [];
      var t := env.body.Type();
      if burned || (Gated(t) && t !in peerCaps) {
        return;
      }
      if closing && !t.ResyncReq? {
        return;
      }
      if env.sentAt > now + MAX_FUTURE_SKEW_SECS {
        return;
      }
      if env.msgId in rows || env.appSeq in seen {
        return;
      }
      seen := seen + {env.appSeq};
      if ShouldDropInbound(t, env.appSeq, cut, env.msgId in tombs && tombs[env.msgId] > now) {
        return;
      }
      if !(t.Typing? || t.Presence?) {
        var sentAt := if env.sentAt < now then env.sentAt else now;
        rows := rows[env.msgId := Row(In, env.appSeq, sentAt, Some(now), t, env.refId, env.body.Encoded(),
                                      policy.ExpiryAt(now), now, false, false, 0, 0)];
      }
      notices := DispatchBody(env);
    }

    method Sweep()
      modifies this`rows
      ensures St() == SweepExpired(old(St()))
    {
      rows := map id | id in rows && !(rows[id].expires.Some? && rows[id].expires.value <= now) :: rows[id];
    }
  }

  function Fresh(at: nat): State {
    State(map[], {}, 0, map[], DefaultState, 1, {}, false, false, at)
  }
}
