/** What DELETE and DELETE_ALL take with them, and what they leave. */
module Deletions {
  import opened Bytes
  import opened Ledger
  import opened Edits
  import LedgerRuns
  import PolicyMachine

  // ---- DELETE_ALL and a message, in either order ----

  /** The peer's DELETE_ALL gets past the gates; the history cut does not apply to it. */
  ghost predicate Clears(s: State, clear: Envelope) {
    clear.body.DeleteAllBody? && PassesGates(s, clear) && !IsRedelivery(s, clear)
  }

  lemma ClearLands(s: State, clear: Envelope)
    requires Clears(s, clear)
    ensures
      var s' := Handle(s, clear).0;
      && s'.rows.Keys == {clear.msgId} && s'.seen == s.seen + {clear.appSeq}
      && s'.cut == (if clear.appSeq > s.cut then clear.appSeq else s.cut)
      && s' == s.(rows := s'.rows, seen := s'.seen, cut := s'.cut)
  {
  }

  /** A DELETE_ALL and a message, both acceptable at both times. Cleared first, the message is kept exactly when
      its seq is above the clear's. Cleared second, the message is gone and no later copy of it is taken again.
      So the two orders agree exactly when the message is the older one. */
  lemma ClearOrderDecides(s: State, clear: Envelope, msg: Envelope, a: nat, b: nat, later: nat)
    requires msg.body.MsgBody? && clear.msgId != msg.msgId && clear.appSeq != msg.appSeq
    requires forall now :: now == a || now == b ==> Clears(s.(now := now), clear) && Admitted(s.(now := now), msg)
    ensures
      var id := msg.msgId;
      var clearFirst := Feed(Feed(s, Arrival(clear, a)), Arrival(msg, b));
      var messageFirst := Feed(Feed(s, Arrival(msg, a)), Arrival(clear, b));
      && (id in clearFirst.rows <==> msg.appSeq > clear.appSeq)
      && (id in clearFirst.rows ==> clearFirst.rows[id].payload == msg.body.text)
      && id !in messageFirst.rows && Feed(messageFirst, Arrival(msg, later)) == messageFirst.(now := later)
      && ((id in clearFirst.rows <==> id in messageFirst.rows) <==> msg.appSeq < clear.appSeq)
  {
    ClearFirst(s, clear, msg, a, b);
    MessageCleared(s, clear, msg, a, b, later);
  }

  lemma ClearFirst(s: State, clear: Envelope, msg: Envelope, a: nat, b: nat)
    requires msg.body.MsgBody? && clear.msgId != msg.msgId && clear.appSeq != msg.appSeq
    requires Clears(s.(now := a), clear) && Admitted(s.(now := b), msg)
    ensures
      var id, s2 := msg.msgId, Feed(Feed(s, Arrival(clear, a)), Arrival(msg, b));
      && (id in s2.rows <==> msg.appSeq > clear.appSeq)
      && (id in s2.rows ==> s2.rows[id].payload == msg.body.text)
  {
    ClearLands(s.(now := a), clear);
    var s1 := Feed(s, Arrival(clear, a)).(now := b);
    if msg.appSeq > clear.appSeq {
      MessageLands(s1, msg);
    }
  }

  lemma MessageCleared(s: State, clear: Envelope, msg: Envelope, a: nat, b: nat, later: nat)
    requires msg.body.MsgBody? && clear.msgId != msg.msgId && clear.appSeq != msg.appSeq
    requires Admitted(s.(now := a), msg) && Clears(s.(now := b), clear)
    ensures
      var s2 := Feed(Feed(s, Arrival(msg, a)), Arrival(clear, b));
      msg.msgId !in s2.rows && Feed(s2, Arrival(msg, later)) == s2.(now := later)
  {
    MessageLands(s.(now := a), msg);
    ClearLands(Feed(s, Arrival(msg, a)).(now := b), clear);
  }

  lemma SendThenClear(at: nat, sent: Id16, cleared: Id16, text: seq<Byte>)
    requires sent != cleared
    ensures
      var send, clear := LedgerRuns.DoSend(sent, Msg, text, None, None), LedgerRuns.DoDeleteAll(cleared, Some(1));
      var s1 := LedgerRuns.Next(Fresh(at), send);
      var s2 := LedgerRuns.Next(s1, clear);
      && LedgerRuns.Enabled(Fresh(at), send) && LedgerRuns.Enabled(s1, clear)
      && s2 == Fresh(at).(rows := s2.rows, cut := 2, floor := 3) && s2.rows.Keys == {cleared}
  {
    var s1 := LedgerRuns.Next(Fresh(at), LedgerRuns.DoSend(sent, Msg, text, None, None));
    assert sent in s1.rows && s1.rows[sent].dir == Out && s1.rows[sent].appSeq == 1;
  }

  /** The smallest run in which our own DELETE_ALL drops the peer's first message: one message of ours, cleared,
      and seq 1 of the peer is noted and gone. */
  lemma OwnClearDropsFirst(at: nat, sent: Id16, cleared: Id16, text: seq<Byte>, env: Envelope)
    requires env.body.MsgBody? && env.appSeq == 1 && env.sentAt <= at + MAX_FUTURE_SKEW_SECS
    requires sent != cleared && env.msgId != sent && env.msgId != cleared
    ensures
      var steps := [LedgerRuns.DoSend(sent, Msg, text, None, None), LedgerRuns.DoDeleteAll(cleared, Some(1)),
                    LedgerRuns.Arrive(env)];
      var s1 := LedgerRuns.Next(Fresh(at), steps[0]);
      var s2 := LedgerRuns.Next(s1, steps[1]);
      var s3 := LedgerRuns.Next(s2, steps[2]);
      && LedgerRuns.IsRun([Fresh(at), s1, s2, s3], steps)
      && s2.cut == 2 && s3.rows.Keys == {cleared} && s3.seen == {1}
  {
    var send, clear := LedgerRuns.DoSend(sent, Msg, text, None, None), LedgerRuns.DoDeleteAll(cleared, Some(1));
    var arrive := LedgerRuns.Arrive(env);
    SendThenClear(at, sent, cleared, text);
    var s1 := LedgerRuns.Next(Fresh(at), send);
    var s2 := LedgerRuns.Next(s1, clear);
    ThreeSteps(at, s1, s2, LedgerRuns.Next(s2, arrive), send, clear, arrive);
  }

  lemma ThreeSteps(at: nat, s1: State, s2: State, s3: State, a: LedgerRuns.Step, b: LedgerRuns.Step, c: LedgerRuns.Step)
    requires LedgerRuns.Enabled(Fresh(at), a) && s1 == LedgerRuns.Next(Fresh(at), a)
    requires LedgerRuns.Enabled(s1, b) && s2 == LedgerRuns.Next(s1, b)
    requires LedgerRuns.Enabled(s2, c) && s3 == LedgerRuns.Next(s2, c)
    ensures LedgerRuns.IsRun([Fresh(at), s1, s2, s3], [a, b, c])
  {
    var trace, steps := [Fresh(at), s1, s2, s3], [a, b, c];
    forall i | 0 <= i < |steps| ensures LedgerRuns.IsStep(trace, steps, i) {
      assert i == 0 || i == 1 || i == 2;
    }
  }

  // ---- what a DELETE leaves ----

  /** The peer's DELETE of `target` gets past the gates. */
  ghost predicate Deletes(s: State, del: Envelope, target: Id16) {
    del.body.DeleteBody? && del.refId == Some(target) && PassesGates(s, del) && !IsRedelivery(s, del)
  }

  /** A DELETE empties the row of its target and no other, so the rows of the EDITs of that target keep their text. */
  lemma DeleteWipesOnly(s: State, del: Envelope, target: Id16, x: Id16)
    requires Deletes(s, del, target) && x in s.rows
    ensures
      var s' := Handle(s, del).0;
      && s'.rows.Keys == s.rows.Keys + {del.msgId}
      && s'.rows[x].payload == (if x == target then [] else s.rows[x].payload)
      && s'.rows[x].tombstone == (x == target || s.rows[x].tombstone)
  {
  }

  lemma EditLands(s: State, edit: Envelope, target: Id16)
    requires edit.body.EditBody? && edit.refId == Some(target) && edit.msgId != target && Admitted(s, edit)
    ensures
      var s' := Handle(s, edit).0;
      && edit.msgId in s'.rows && s'.rows[edit.msgId] == InboundRow(s, edit)
      && s'.rows.Keys == s.rows.Keys + {edit.msgId} && s'.seen == s.seen + {edit.appSeq}
      && s' == s.(rows := s'.rows, seen := s'.seen)
  {
  }

  /** A message, its EDIT and its DELETE, arriving in that order: the message row ends empty while the row of the
      EDIT still holds the edited text. */
  lemma EditTextRemains(s: State, msg: Envelope, edit: Envelope, del: Envelope, a: nat, b: nat, c: nat)
    requires msg.body.MsgBody? && edit.body.EditBody? && edit.refId == Some(msg.msgId)
    requires msg.msgId != edit.msgId && msg.msgId != del.msgId && edit.msgId != del.msgId
    requires msg.appSeq != edit.appSeq && msg.appSeq != del.appSeq && edit.appSeq != del.appSeq
    requires Admitted(s.(now := a), msg) && Admitted(s.(now := b), edit) && Deletes(s.(now := c), del, msg.msgId)
    ensures
      var s3 := Feed(Feed(Feed(s, Arrival(msg, a)), Arrival(edit, b)), Arrival(del, c));
      && msg.msgId in s3.rows && s3.rows[msg.msgId].payload == []
      && edit.msgId in s3.rows && s3.rows[edit.msgId].payload == edit.body.text
  {
    MessageLands(s.(now := a), msg);
    var s1 := Feed(s, Arrival(msg, a)).(now := b);
    EditLands(s1, edit, msg.msgId);
    var s2 := Feed(s1, Arrival(edit, b)).(now := c);
    DeleteWipesOnly(s2, del, msg.msgId, msg.msgId);
    DeleteWipesOnly(s2, del, msg.msgId, edit.msgId);
  }

  // ---- over every run ----

  ghost predicate EditRow(s: State, x: Id16) {
    x in s.rows && s.rows[x].envType == Edit
  }

  /** Row `x` keeps its payload from `s` to `s'`, unless it is itself deleted. */
  ghost predicate KeepsText(s: State, s': State, x: Id16, deleted: bool)
    requires x in s.rows && x in s'.rows
  {
    s'.rows[x].payload == (if deleted then [] else s.rows[x].payload) && s'.rows[x].envType == s.rows[x].envType
  }

  lemma PolicyKeepsText(s: State, e: PolicyMachine.Event, x: Id16)
    requires EditRow(s, x)
    ensures x in PolicyEvent(s, e).rows && KeepsText(s, PolicyEvent(s, e), x, false)
  {
    LedgerRuns.OutcomeByRow(s.(policy := PolicyMachine.React(s.policy, e).state), PolicyMachine.React(s.policy, e).outcome);
  }

  lemma DispatchKeepsText(s: State, env: Envelope, x: Id16)
    requires EditRow(s, x) && x in Dispatch(s, env).0.rows
    ensures KeepsText(s, Dispatch(s, env).0, x, env.body.DeleteBody? && env.refId == Some(x))
  {
    if env.body.PolicyBody? {
      PolicyKeepsText(s, PolicyMachine.Event.Inbound(env.body.cp, env.msgId, s.now), x);
    }
  }

  lemma ArriveKeepsText(s: State, env: Envelope, x: Id16)
    requires EditRow(s, x) && x in Handle(s, env).0.rows
    ensures KeepsText(s, Handle(s, env).0, x, LedgerRuns.DeletesNow(s, LedgerRuns.Arrive(env), x))
  {
    if PassesGates(s, env) && !IsRedelivery(s, env) {
      var s1 := NoteSeq(s, env);
      if !ShouldDropInbound(env.body.Type(), env.appSeq, s1.cut, IsTombstoned(s1, env.msgId)) {
        DispatchKeepsText(Insert(s1, env), env, x);
      }
    }
  }

  lemma StepKeepsText(s: State, t: LedgerRuns.Step, x: Id16)
    requires LedgerRuns.Enabled(s, t) && EditRow(s, x) && x in LedgerRuns.Next(s, t).rows
    ensures KeepsText(s, LedgerRuns.Next(s, t), x, LedgerRuns.DeletesNow(s, t, x))
  {
    match t {
      case Arrive(env) => ArriveKeepsText(s, env, x);
      case DoPolicy(e) => PolicyKeepsText(s, e, x);
      case _ =>
    }
  }

  /** Step `k` deletes row `x` itself. */
  ghost predicate DeletedAt(trace: seq<State>, steps: seq<LedgerRuns.Step>, k: nat, x: Id16)
    requires k < |steps| <= |trace|
  {
    LedgerRuns.DeletesNow(trace[k], steps[k], x)
  }

  ghost predicate NeverDeleted(trace: seq<State>, steps: seq<LedgerRuns.Step>, i: nat, j: nat, x: Id16)
    requires i <= j <= |steps| <= |trace|
  {
    forall k :: i <= k < j ==> !DeletedAt(trace, steps, k, x)
  }

  /** Over every stretch of every run in which the row of an EDIT stays, it holds the text it held, unless a DELETE
      names that row itself: deleting the edited message never touches it. */
  lemma {:induction false} EditTextStays(trace: seq<State>, steps: seq<LedgerRuns.Step>, i: nat, j: nat, x: Id16)
    requires LedgerRuns.IsRun(trace, steps) && i <= j < |trace| && LedgerRuns.Present(trace, i, j, x) && EditRow(trace[i], x)
    ensures EditRow(trace[j], x)
    ensures trace[j].rows[x].payload == if NeverDeleted(trace, steps, i, j, x) then trace[i].rows[x].payload else []
    decreases j
  {
    if i < j {
      EditTextStays(trace, steps, i, j - 1, x);
      assert LedgerRuns.IsStep(trace, steps, j - 1) && x in trace[j].rows;
      StepKeepsText(trace[j - 1], steps[j - 1], x);
      assert NeverDeleted(trace, steps, i, j, x) <==> NeverDeleted(trace, steps, i, j - 1, x) && !DeletedAt(trace, steps, j - 1, x);
    }
  }
}
