/** Edits in any order: which body a message ends up with. */
module Edits {
  import opened Bytes
  import opened Ledger
  import PolicyMachine

  /** An envelope and the moment it arrives. */
  datatype Arrival = Arrival(env: Envelope, at: nat)

  function Feed(s: State, d: Arrival): State {
    Handle(s.(now := d.at), d.env).0
  }

  function FeedAll(s: State, ds: seq<Arrival>): State
    decreases |ds|
  {
    if ds == [] then s else FeedAll(Feed(s, ds[0]), ds[1..])
  }

  /** A text message of the peer that is still there. */
  ghost predicate Editable(s: State, target: Id16) {
    && !s.burned && !s.closing
    && target in s.rows && s.rows[target].dir == In && s.rows[target].envType == Msg && !s.rows[target].tombstone
  }

  /** A well-formed, fresh EDIT of `target`, inside the edit window and the TTL. */
  ghost predicate Fits(s: State, target: Id16, d: Arrival)
    requires target in s.rows
  {
    var env, r := d.env, s.rows[target];
    && env.body.EditBody? && |env.body.text| <= MAX_BODY_BYTES && env.refId == Some(target)
    && env.sentAt <= d.at + MAX_FUTURE_SKEW_SECS
    && env.msgId !in s.rows && env.appSeq !in s.seen
    && s.cut <= env.appSeq && (env.msgId in s.tombs ==> s.tombs[env.msgId] <= d.at)
    && d.at < (if r.receivedAt.Some? then r.receivedAt.value else r.createdAt) + EDIT_WINDOW_SEC
    && (r.expires.Some? ==> d.at < r.expires.value)
  }

  ghost predicate Distinct(ds: seq<Arrival>) {
    forall i, j :: 0 <= i < j < |ds| ==>
      ds[i].env.msgId != ds[j].env.msgId && ds[i].env.appSeq != ds[j].env.appSeq
  }

  ghost predicate IsBatch(s: State, target: Id16, ds: seq<Arrival>) {
    Editable(s, target) && Distinct(ds) && forall i :: 0 <= i < |ds| ==> Fits(s, target, ds[i])
  }

  /** What one EDIT does to its target row. */
  function EditedRow(r: Row, d: Arrival): Row
    requires d.env.body.EditBody?
  {
    if r.editCount >= EDIT_MAX_EDITS || d.env.appSeq <= r.lastEditSeq then r
    else r.(payload := d.env.body.text, edited := true, editCount := r.editCount + 1, lastEditSeq := d.env.appSeq)
  }

  ghost predicate AllEdits(ds: seq<Arrival>) {
    forall i :: 0 <= i < |ds| ==> ds[i].env.body.EditBody?
  }

  function Fold(r: Row, ds: seq<Arrival>): Row
    requires AllEdits(ds)
    decreases |ds|
  {
    if ds == [] then r else Fold(EditedRow(r, ds[0]), ds[1..])
  }

  // ---- the engine applies the fold ----

  lemma FeedRow(s: State, target: Id16, d: Arrival)
    requires Editable(s, target) && Fits(s, target, d)
    ensures target in Feed(s, d).rows && Feed(s, d).rows[target] == EditedRow(s.rows[target], d)
  {
  }

  lemma FeedFrame(s: State, target: Id16, d: Arrival)
    requires Editable(s, target) && Fits(s, target, d)
    ensures var s' := Feed(s, d);
      && s'.rows.Keys == s.rows.Keys + {d.env.msgId} && s'.seen == s.seen + {d.env.appSeq}
      && s'.cut == s.cut && s'.tombs == s.tombs && s'.burned == s.burned && s'.closing == s.closing
  {
  }

  lemma FeedOne(s: State, target: Id16, d: Arrival)
    requires Editable(s, target) && Fits(s, target, d)
    ensures var s' := Feed(s, d);
      && Editable(s', target) && s'.rows[target] == EditedRow(s.rows[target], d)
      && s'.rows.Keys == s.rows.Keys + {d.env.msgId} && s'.seen == s.seen + {d.env.appSeq}
      && s'.cut == s.cut && s'.tombs == s.tombs
  {
    FeedRow(s, target, d);
    FeedFrame(s, target, d);
  }

  lemma RestFits(s: State, target: Id16, ds: seq<Arrival>)
    requires IsBatch(s, target, ds) && ds != []
    ensures IsBatch(Feed(s, ds[0]), target, ds[1..])
  {
    FeedOne(s, target, ds[0]);
    forall i | 0 <= i < |ds[1..]| ensures Fits(Feed(s, ds[0]), target, ds[1..][i]) {
      assert ds[1..][i] == ds[i + 1] && Fits(s, target, ds[i + 1]);
    }
  }

  lemma {:induction false} FeedIsFold(s: State, target: Id16, ds: seq<Arrival>)
    requires IsBatch(s, target, ds)
    ensures AllEdits(ds) && target in FeedAll(s, ds).rows
    ensures FeedAll(s, ds).rows[target] == Fold(s.rows[target], ds)
    decreases |ds|
  {
    BatchIsEdits(s, target, ds);
    if ds != [] {
      FeedOne(s, target, ds[0]);
      RestFits(s, target, ds);
      FeedIsFold(Feed(s, ds[0]), target, ds[1..]);
    }
  }

  lemma BatchIsEdits(s: State, target: Id16, ds: seq<Arrival>)
    requires IsBatch(s, target, ds)
    ensures AllEdits(ds)
  {
    forall i | 0 <= i < |ds| ensures ds[i].env.body.EditBody? {
      assert Fits(s, target, ds[i]);
    }
  }

  // ---- the fold keeps the newest edit ----

  /** Position `i` holds the newest edit, newer than any applied before. */
  ghost predicate IsNewest(r: Row, ds: seq<Arrival>, i: nat) {
    && i < |ds| && r.lastEditSeq < ds[i].env.appSeq
    && forall j :: 0 <= j < |ds| && j != i ==> ds[j].env.appSeq < ds[i].env.appSeq
  }

  lemma {:induction false} StaleFold(r: Row, ds: seq<Arrival>)
    requires AllEdits(ds) && forall j :: 0 <= j < |ds| ==> ds[j].env.appSeq <= r.lastEditSeq
    ensures Fold(r, ds) == r
    decreases |ds|
  {
    if ds != [] {
      StaleFold(r, ds[1..]);
    }
  }

  lemma {:induction false} NewestWins(r: Row, ds: seq<Arrival>, i: nat)
    requires AllEdits(ds) && IsNewest(r, ds, i) && r.editCount + |ds| <= EDIT_MAX_EDITS
    ensures Fold(r, ds).payload == ds[i].env.body.text && Fold(r, ds).lastEditSeq == ds[i].env.appSeq
    decreases |ds|
  {
    if i == 0 {
      StaleFold(EditedRow(r, ds[0]), ds[1..]);
    } else {
      NewestWins(EditedRow(r, ds[0]), ds[1..], i - 1);
    }
  }

  lemma {:induction false} NewestExists(r: Row, ds: seq<Arrival>) returns (i: nat)
    requires Distinct(ds) && exists j :: 0 <= j < |ds| && r.lastEditSeq < ds[j].env.appSeq
    ensures IsNewest(r, ds, i)
  {
    i := 0;
    for k := 0 to |ds|
      invariant i < |ds|
      invariant forall j :: 0 <= j < k ==> ds[j].env.appSeq <= ds[i].env.appSeq
    {
      if ds[k].env.appSeq > ds[i].env.appSeq {
        i := k;
      }
    }
    forall j | 0 <= j < |ds| && j != i ensures ds[j].env.appSeq < ds[i].env.appSeq {
      assert ds[j].env.appSeq != ds[i].env.appSeq;
    }
  }

  /** Through the whole engine: up to the edit cap, the newest of any batch of edits, in any
      order, decides the body. */
  lemma {:induction false} NewestEditDecides(s: State, target: Id16, ds: seq<Arrival>, i: nat)
    requires IsBatch(s, target, ds) && IsNewest(s.rows[target], ds, i)
    requires s.rows[target].editCount + |ds| <= EDIT_MAX_EDITS
    ensures target in FeedAll(s, ds).rows && FeedAll(s, ds).rows[target].payload == ds[i].env.body.text
    ensures FeedAll(s, ds).rows[target].lastEditSeq == ds[i].env.appSeq
  {
    FeedIsFold(s, target, ds);
    NewestWins(s.rows[target], ds, i);
  }

  /** The envelopes of a batch, without their arrival times. */
  function Envs(ds: seq<Arrival>): (es: seq<Envelope>)
    ensures |es| == |ds| && forall i :: 0 <= i < |ds| ==> es[i] == ds[i].env
  {
    if ds == [] then [] else [ds[0].env] + Envs(ds[1..])
  }

  /** Confluence: the same edits in another order and at other times leave the same body and the same edit mark. */
  lemma {:induction false} EditsConfluent(s: State, target: Id16, ds: seq<Arrival>, es: seq<Arrival>)
    requires IsBatch(s, target, ds) && IsBatch(s, target, es) && multiset(Envs(ds)) == multiset(Envs(es))
    requires s.rows[target].editCount + |ds| <= EDIT_MAX_EDITS
    ensures target in FeedAll(s, ds).rows && target in FeedAll(s, es).rows
    ensures FeedAll(s, ds).rows[target].payload == FeedAll(s, es).rows[target].payload
    ensures FeedAll(s, ds).rows[target].lastEditSeq == FeedAll(s, es).rows[target].lastEditSeq
  {
    var r := s.rows[target];
    FeedIsFold(s, target, ds);
    FeedIsFold(s, target, es);
    SameSize(ds, es);
    if j :| 0 <= j < |ds| && r.lastEditSeq < ds[j].env.appSeq {
      var i := NewestExists(r, ds);
      NewestWins(r, ds, i);
      var k := NewestCounterpart(r, ds, es, i);
      NewestWins(r, es, k);
    } else {
      StaleFold(r, ds);
      forall x | 0 <= x < |es| ensures es[x].env.appSeq <= r.lastEditSeq {
        var y := Counterpart(es, ds, x);
      }
      StaleFold(r, es);
    }
  }

  /** The same envelope in the other batch. */
  lemma Counterpart(ds: seq<Arrival>, es: seq<Arrival>, i: nat) returns (k: nat)
    requires multiset(Envs(ds)) == multiset(Envs(es)) && i < |ds|
    ensures k < |es| && es[k].env == ds[i].env
  {
    assert Envs(ds)[i] in multiset(Envs(ds));
    assert Envs(ds)[i] in Envs(es);
    k :| 0 <= k < |Envs(es)| && Envs(es)[k] == Envs(ds)[i];
  }

  lemma NewestCounterpart(r: Row, ds: seq<Arrival>, es: seq<Arrival>, i: nat) returns (k: nat)
    requires multiset(Envs(ds)) == multiset(Envs(es)) && IsNewest(r, ds, i) && Distinct(es)
    ensures IsNewest(r, es, k) && es[k].env == ds[i].env
  {
    k := Counterpart(ds, es, i);
    forall x | 0 <= x < |es| && x != k ensures es[x].env.appSeq < es[k].env.appSeq {
      var y := Counterpart(es, ds, x);
      assert es[x].env.appSeq != es[k].env.appSeq;
    }
  }

  lemma {:induction false} SameSize(ds: seq<Arrival>, es: seq<Arrival>)
    requires multiset(Envs(ds)) == multiset(Envs(es))
    ensures |ds| == |es|
  {
    assert |Envs(ds)| == |multiset(Envs(ds))| && |Envs(es)| == |multiset(Envs(es))|;
  }

  /** The cap is tight: with one edit too many, the ascending order ends before the newest. */
  lemma {:induction false} AscendingOverflow(r: Row, ds: seq<Arrival>)
    requires AllEdits(ds) && r.editCount <= EDIT_MAX_EDITS < r.editCount + |ds|
    requires forall i, j :: 0 <= i < j < |ds| ==> ds[i].env.appSeq < ds[j].env.appSeq
    requires r.lastEditSeq < ds[0].env.appSeq
    ensures Fold(r, ds).lastEditSeq < ds[|ds| - 1].env.appSeq
    decreases |ds|
  {
    if r.editCount == EDIT_MAX_EDITS {
      FullFold(r, ds);
      assert |ds| > 1 ==> ds[0].env.appSeq < ds[|ds| - 1].env.appSeq;
    } else {
      AscendingOverflow(EditedRow(r, ds[0]), ds[1..]);
    }
  }

  lemma {:induction false} FullFold(r: Row, ds: seq<Arrival>)
    requires AllEdits(ds) && r.editCount >= EDIT_MAX_EDITS
    ensures Fold(r, ds) == r
    decreases |ds|
  {
    if ds != [] {
      FullFold(r, ds[1..]);
    }
  }

  /** Every order of a batch of new edits, at whatever times, ends on the newest one if and only if the
      batch fits under the cap; `ds` is the batch in ascending order. */
  lemma {:induction false} EditCapExact(s: State, target: Id16, ds: seq<Arrival>)
    requires IsBatch(s, target, ds) && ds != [] && s.rows[target].editCount <= EDIT_MAX_EDITS
    requires forall i, j :: 0 <= i < j < |ds| ==> ds[i].env.appSeq < ds[j].env.appSeq
    requires s.rows[target].lastEditSeq < ds[0].env.appSeq
    ensures
      var newest := ds[|ds| - 1].env.appSeq;
      (forall es :: IsBatch(s, target, es) && multiset(Envs(es)) == multiset(Envs(ds)) ==>
         target in FeedAll(s, es).rows && FeedAll(s, es).rows[target].lastEditSeq == newest)
      <==> s.rows[target].editCount + |ds| <= EDIT_MAX_EDITS
  {
    var r := s.rows[target];
    var newest := ds[|ds| - 1].env.appSeq;
    FeedIsFold(s, target, ds);
    if r.editCount + |ds| <= EDIT_MAX_EDITS {
      assert IsNewest(r, ds, |ds| - 1);
      NewestEditDecides(s, target, ds, |ds| - 1);
      forall es | IsBatch(s, target, es) && multiset(Envs(es)) == multiset(Envs(ds))
        ensures target in FeedAll(s, es).rows && FeedAll(s, es).rows[target].lastEditSeq == newest
      {
        EditsConfluent(s, target, ds, es);
      }
    } else {
      AscendingOverflow(r, ds);
      assert FeedAll(s, ds).rows[target].lastEditSeq != newest;
    }
  }

  // ---- when one EDIT takes effect ----

  /** The envelope gets past the gates, the dedupe, the cut and its own tombstone. */
  ghost predicate Admitted(s: State, env: Envelope) {
    && !s.burned && !s.closing && env.sentAt <= s.now + MAX_FUTURE_SKEW_SECS
    && env.msgId !in s.rows && env.appSeq !in s.seen && s.cut <= env.appSeq && !IsTombstoned(s, env.msgId)
  }

  /** A peer's text message that can still be edited under `editSeq`. */
  ghost predicate Open(r: Row, now: nat, editSeq: nat) {
    && r.dir == In && r.envType == Msg && !r.tombstone
    && now < (if r.receivedAt.Some? then r.receivedAt.value else r.createdAt) + EDIT_WINDOW_SEC
    && (r.expires.Some? ==> now < r.expires.value)
    && r.editCount < EDIT_MAX_EDITS && r.lastEditSeq < editSeq
  }

  function Rewritten(r: Row, text: seq<Byte>, editSeq: nat): Row {
    r.(payload := text, edited := true, editCount := r.editCount + 1, lastEditSeq := editSeq)
  }

  /** In every state, an EDIT rewrites its target if and only if it is admitted, not too large, and its target
      is there and open; otherwise the target stays exactly as it was. */
  lemma EditTakesEffectIff(s: State, env: Envelope, target: Id16)
    requires env.body.EditBody? && env.refId == Some(target)
    ensures
      var s' := Handle(s, env).0;
      var takes := target in s.rows && Admitted(s, env) && |env.body.text| <= MAX_BODY_BYTES && Open(s.rows[target], s.now, env.appSeq);
      && (target in s.rows && target in s'.rows && s'.rows[target] == Rewritten(s.rows[target], env.body.text, env.appSeq) <==> takes)
      && (target in s.rows && !takes ==> target in s'.rows && s'.rows[target] == s.rows[target])
  {
    if target in s.rows && s.rows[target].tombstone {
      assert s.rows[target] != Rewritten(s.rows[target], env.body.text, env.appSeq);
    }
  }

  lemma MessageLands(s: State, msg: Envelope)
    requires msg.body.MsgBody? && Admitted(s, msg)
    ensures
      var s' := Handle(s, msg).0;
      && msg.msgId in s'.rows && s'.rows[msg.msgId] == InboundRow(s, msg) && s'.seen == s.seen + {msg.appSeq}
      && s' == s.(rows := s'.rows, seen := s'.seen) && s'.rows.Keys == s.rows.Keys + {msg.msgId}
  {
  }

  /** An EDIT whose target never came leaves its own row and nothing else. */
  lemma EditWithoutTarget(s: State, edit: Envelope, target: Id16)
    requires edit.body.EditBody? && edit.refId == Some(target) && target !in s.rows && edit.msgId != target && Admitted(s, edit)
    ensures
      var s' := Handle(s, edit).0;
      && s'.rows.Keys == s.rows.Keys + {edit.msgId} && s'.seen == s.seen + {edit.appSeq}
      && s' == s.(rows := s'.rows, seen := s'.seen)
  {
  }

  /** `b` is inside the edit window and the agreed TTL of a message received at `a`. */
  predicate InTime(s: State, a: nat, b: nat) {
    b < a + EDIT_WINDOW_SEC && (s.policy.rules.ttl != PolicyMachine.TTL_NEVER ==> b < a + s.policy.rules.ttl)
  }

  /** A MSG and its EDIT, admitted in either order at times `a` and `b`: message first, the text is rewritten
      exactly when the EDIT is not too large, carries a seq above 0 and comes in time; EDIT first, the message
      always shows its original text, and no later redelivery of the EDIT changes that. */
  lemma OrderDecides(s: State, msg: Envelope, edit: Envelope, a: nat, b: nat, later: nat)
    requires msg.body.MsgBody? && edit.body.EditBody? && edit.refId == Some(msg.msgId)
    requires edit.msgId != msg.msgId && edit.appSeq != msg.appSeq
    requires forall now :: now == a || now == b ==> Admitted(s.(now := now), msg) && Admitted(s.(now := now), edit)
    ensures
      var id, text := msg.msgId, edit.body.text;
      var messageFirst := Feed(Feed(s, Arrival(msg, a)), Arrival(edit, b));
      var editFirst := Feed(Feed(s, Arrival(edit, a)), Arrival(msg, b));
      var applies := InTime(s, a, b) && |text| <= MAX_BODY_BYTES && edit.appSeq > 0;
      && id in messageFirst.rows && id in editFirst.rows
      && messageFirst.rows[id].edited == applies
      && messageFirst.rows[id].payload == (if applies then text else msg.body.text)
      && !editFirst.rows[id].edited && editFirst.rows[id].payload == msg.body.text
      && Feed(editFirst, Arrival(edit, later)) == editFirst.(now := later)
  {
    MessageFirst(s, msg, edit, a, b);
    EditFirst(s, msg, edit, a, b);
  }

  lemma MessageFirst(s: State, msg: Envelope, edit: Envelope, a: nat, b: nat)
    requires msg.body.MsgBody? && edit.body.EditBody? && edit.refId == Some(msg.msgId)
    requires edit.msgId != msg.msgId && edit.appSeq != msg.appSeq
    requires Admitted(s.(now := a), msg) && Admitted(s.(now := b), edit)
    ensures
      var id, text := msg.msgId, edit.body.text;
      var s2 := Feed(Feed(s, Arrival(msg, a)), Arrival(edit, b));
      var applies := InTime(s, a, b) && |text| <= MAX_BODY_BYTES && edit.appSeq > 0;
      && id in s2.rows && s2.rows[id].edited == applies
      && s2.rows[id].payload == (if applies then text else msg.body.text)
  {
    MessageLands(s.(now := a), msg);
    var s1 := Feed(s, Arrival(msg, a)).(now := b);
    EditTakesEffectIff(s1, edit, msg.msgId);
  }

  lemma EditFirst(s: State, msg: Envelope, edit: Envelope, a: nat, b: nat)
    requires msg.body.MsgBody? && edit.body.EditBody? && edit.refId == Some(msg.msgId)
    requires edit.msgId != msg.msgId && edit.appSeq != msg.appSeq
    requires Admitted(s.(now := a), edit) && Admitted(s.(now := b), msg)
    ensures
      var id := msg.msgId;
      var s2 := Feed(Feed(s, Arrival(edit, a)), Arrival(msg, b));
      && id in s2.rows && !s2.rows[id].edited && s2.rows[id].payload == msg.body.text
      && edit.appSeq in s2.seen
  {
    EditWithoutTarget(s.(now := a), edit, msg.msgId);
    MessageLands(Feed(s, Arrival(edit, a)).(now := b), msg);
  }
}
