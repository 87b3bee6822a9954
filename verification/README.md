# s//chat6 core, verified model

s//chat6 is a server-less two-party messenger. This project models the parts of its Rust core that have to
be right when messages are lost, repeated, reordered or late, and proves what they keep:

- **Delivery and resync.** The sender issues `app_seq`s and keeps a delivery state per row; the receiver
  compresses the seqs it has seen into a horizon and a bitmap; the sender acknowledges and repairs from
  that view. `ReceiveView`, `HistoryHash`, `Outbound` and `Delivery` model both sides and the network
  between them as one step machine; `SenderLife` says exactly what each step does to every table, and
  `DeliveryLimits` proves what the machine cannot promise.
- **Chat policy.** Rules agreed by propose and accept, capabilities that need both sides, and the TTL that
  flows into message expiry: `PolicyMachine`, `PolicyEffects`, `PolicyConsent`, `PolicyWire`, `PolicyStore`.
- **The inbound ledger.** Gates, dedupe, tombstones, the history cut, edits and retention:
  `Ledger`, `LedgerRuns`, `Intake`, `RowLife`, `Edits`, `Deletions`.
- **Chunked transfers.** Attachment planning, the chunk and attachment tables, the whole transfer, how long
  its bytes last, and the RAM buffers for stickers: `Pieces`, `AttachPlan`, `AttachStore`,
  `AttachIntegrity`, `OrphanCaps`, `AttachTransfer`, `AttachRetention`, `StickerBuffers`.
- **Codecs.** The cursor primitives, attachment heads and chunks, the signed pack document and its partial
  scan, stream framing, the pairing payload: `Bytes`, `Bin`, `AttachWire`, `PackDoc`, `Framing`,
  `Pairing`. `Layouts` reads every format off its bytes, `Decoders` says exactly which bytes are taken.
- **Rate limiting.** `TokenBucket`.

Code that works on values is modelled by functions; code that changes tables, cursors or buffers is
modelled by classes and methods, each proved equal to a function of the old state, and the properties are
proved about those functions. SQL tables are maps, sets and sequences. The answer of a query enters a
method as a parameter that a predicate ties to the table (`IsScan`, `IsMaxSeq`, `IsPrune`, `IsDeepQuery`).
The clock is a number passed in; hashing and signature checks are function parameters.

Where a property does not hold of the code as it stands, the code is kept and the exact condition is proved:

- The receive view scans at most 65,536 rows, so its horizon stops there and later gap-free seqs read as
  gaps (`ViewHorizon`, `OpensGapExact`, `RepairLiftsHorizon`). A conversation of 65,537 messages reaches
  that state (`FalseGapReached`). Inside the bitmap window a received seq is covered if and only if fewer
  than 65,536 received seqs lie below it (`ViewComplete`).
- Outbound seqs are documented as gap-free (crates/wire-types/src/resync.rs:18-21). They are in exactly
  those runs in which no send fails after taking its seq (`GapFreeIff`); one failed encryption leaves seq 1
  without a frame (`FirstHole`).
- Such a hole, and equally a frame with no copy left on the wire, in the queue or in a usable cache entry,
  stops the receiver's horizon for good: no later view reaches it and no row 4096 above it is ever
  acknowledged (`DeadSeqStalls`, `FailedSendStalls`). Within the window of the view a seq can still arrive
  if and only if it is not in that condition (`DeadIff`).
- Acknowledged is not terminal. A row leaves it exactly when the delivery horizon of a queue entry it still
  has passes (`AckLeavesIff`, `AckStaysIff`), as after a send that got through but was reported as failed
  (`AckLost`).
- A noted seq 0 shares bit 0 with seq 1 (`ViewSound`).
- Two crossing proposals leave both sides with rules that each accepted and that differ
  (`CrossingProposalsDiverge`). After an accept is delivered the sides agree exactly when the proposer still
  awaits that answer or has those rules already (`AcceptAgreesIff`, `AcceptThenDeliver`).
- An own DELETE_ALL raises the cut shared by both directions to our seq, and later messages of the peer with
  smaller seqs are dropped (`OwnClearCutsPeer`), the peer's first one included (`OwnClearDropsFirst`).
- A peer's DELETE_ALL and a later message of the peer do not commute: arriving second, the DELETE_ALL takes
  the message with it for good. The orders agree exactly when the message is the older one
  (`ClearOrderDecides`).
- A DELETE empties the row of the message and not the rows of its EDITs, which keep their text until a DELETE
  names them (`DeleteWipesOnly`, `EditTextRemains`, `EditTextStays`).
- Stored attachment bytes do not follow the agreed TTL. Besides a burn, they go exactly by the peer's DELETE
  of that message, by viewing a view-once attachment, or when attachments are switched off while the ledger
  row of the head is live (`StepExact`, `BytesStay`); a sweep leaves them (`BytesOutliveTtl`, `DayOldBytes`),
  and after a sweep, a DELETE_ALL or our own DELETE of the head, switching attachments off leaves them too
  (`EraseMissesForgotten`).
- An EDIT that overtakes its message is lost (`OrderDecides`), as every EDIT is whose target is not there and
  open when it arrives (`EditTakesEffectIff`); a batch of edits is confluent exactly up to the edit cap
  (`EditCapExact`).
- An EDIT of a message that was deleted is announced to the client and changes nothing; an announced edit is
  made exactly when the row is not a tombstone (`EditedIsMadeIff`).
- Attachment heads have more than one accepted spelling, such as a flags byte of zero; exactly these
  (`ChunkedAcceptedIff`, `InlineAcceptedIff`).
- An attachment whose head lands between its chunks stays incomplete unless every chunk comes again after
  the head (`TransferExact`).
- Bytes handed out for an attachment can differ from the announced hash: an inline head does not look at
  chunks stored before it (`InlineOverOrphan`), and a chunked head completes on the number of stored chunks,
  so that a chunk for a missing index changes the bytes afterwards (`GapThenChunk`). Under all later traffic
  they stay the announced ones if and only if the head passes a test on what is stored when it arrives
  (`ArrivalIff`, `RunVerified`).
- A repeated chunk can drop a whole sticker buffer entry when the piece count times the chunk size exceeds
  the byte cap (`NeverDroppedIff`); items and signed pack documents never do, thumbnail documents of more
  than 19 full pieces can (`ThumbsTolerateIff`).
- The pack progress query never reports progress (`ProgressNeverShown`).
- Saved policy wants survive a reload exactly when they fit one byte each (`SaveLoad`); all reachable ones do.

## Model

| member | source | states |
|---|---|---|
| ReceiveView.SelectSeqs | crates/core/src/store/messages.rs:320-329 | the scan query: the smallest seen seqs, ascending, at most the scan limit, nothing below the last one left out |
| ReceiveView.WalkHorizon | crates/core/src/store/messages.rs:333-342 | the longest prefix 1, 2, ..., max of the scanned rows |
| ReceiveView.MarkWindow | crates/core/src/store/messages.rs:343-353 | a bit is set exactly for the offset of a row inside the window, rows past the window stop the walk, the last byte is not zero, at most 512 bytes |
| ReceiveView.BuildView | crates/core/src/store/messages.rs:331-357 | horizon and bitmap together summarise the scanned rows |
| ReceiveView.ReceiveView | crates/core/src/store/messages.rs:319-358 | the view summarises a scan of the seen set |
| ReceiveView.ViewSound | crates/core/src/sync/resync.rs:50-66 | a seq the view covers is in the seen set, for all seqs, if and only if a noted seq 0 does not stand in for an absent seq 1 |
| ReceiveView.ViewHorizon | crates/core/src/store/messages.rs:319-342 | the view's horizon is the true contiguous horizon, cut at the scan limit |
| ReceiveView.ViewComplete | crates/core/src/store/messages.rs:319-358 | a received seq up to horizon + 4096 is covered if and only if fewer than 65,536 received seqs lie below it |
| ReceiveView.ScannedIff | crates/core/src/store/messages.rs:320-329 | the scan reaches a received seq if and only if fewer than 65,536 received seqs lie below it |
| ReceiveView.OpensGapExact | crates/core/src/sync/resync.rs:68-74 | gap detection is exact for every seq if and only if the true horizon is within the scan limit |
| ReceiveView.FalseGap | crates/core/src/sync/resync.rs:68-74 | with exactly 1..65537 received, every view reports a gap below 65538 |
| HistoryHash.HistoryHash | crates/wire-types/src/resync.rs:59-74 | the hasher loop computes the fingerprint of horizon, bitmap and deep seqs |
| HistoryHash.HashContiguous | crates/wire-types/src/resync.rs:76-93 | the loop over base..max computes the fingerprint of a window without holes |
| HistoryHash.HashesAgree | crates/core/src/sync/resync.rs:35-47 | for every seen set the stored deep window is exactly base..max with at most 4096 seqs, so both hashes agree |
| HistoryHash.EqualHashesMeanInSync | crates/wire-types/src/resync.rs:59-74 | equal fingerprints mean equal view and equal deep window, or SHA-256 collides on one of two named input pairs |
| HistoryHash.SeqBytesInjective | crates/wire-types/src/resync.rs:59-74 | the inner digest's input determines the deep seqs |
| HistoryHash.PreimageInjective | crates/wire-types/src/resync.rs:59-74 | the outer digest's input determines horizon, bitmap and inner digest |
| Layouts.PreimageLayout | crates/wire-types/src/resync.rs:59-74 | domain, horizon, bitmap with its length, inner digest |
| Layouts.SeqsLayout | crates/wire-types/src/resync.rs:59-74 | eight bytes for each seq, in order |
| Outbound.OutboundStore.NextOutSeq | crates/core/src/store/messages.rs:402-426 | the seq issued is at least the floor and above every row's, and the floor moves past it except at saturation |
| Outbound.OutboundStore.MarkTransmitted | crates/core/src/sync/outbox.rs:70-103 | moves the row only along the delivery lifecycle, otherwise refuses and changes nothing |
| Outbound.OutboundStore.MarkAcknowledged | crates/core/src/sync/outbox.rs:75-103 | the same for acknowledgement |
| Outbound.OutboundStore.Sweep | crates/core/src/store/messages.rs:295-317 | rows past their expiry go, with their cached frames, and no others; queue entries stay |
| Outbound.OutboundStore.Resync | crates/core/src/sync/resync.rs:93-144 | exactly the rows the view covers become acknowledged, and exactly the cached, unexpired, unsettled missing ones are returned for repair |
| Outbound.OutboundStore.RequeueAll | crates/core/src/engine/inbound.rs:326-332 | exactly the given frames are queued again with a fresh delivery horizon |
| Delivery.RunInv | crates/core/src/engine/send.rs:97-166 | the protocol invariant holds in every state of every run with loss, repeats, reordering, stale views, sweeps and erasures |
| Delivery.AckSafety | crates/core/src/sync/resync.rs:93-144 | in every run a row is acknowledged only if the peer noted exactly that frame |
| Delivery.SeqSoundness | crates/core/src/store/messages.rs:402-426 | in every run seqs are issued strictly increasing through sweeps and erasures, and no seq is noted twice |
| Delivery.DedupeIsExact | crates/core/src/engine/inbound.rs:74-82 | a frame on the wire is refused as a redelivery if and only if it was itself noted before |
| Delivery.RepairLiftsHorizon | crates/core/src/sync/resync.rs:35-144 | one request and the returned frames in any order lift the horizon to n, if and only if n is within the scan limit |
| Delivery.RepairConverges | crates/core/src/sync/resync.rs:35-144 | request, retries, delivery and a second request acknowledge every undecided row up to n |
| SenderLife.SenderExact | crates/core/src/engine/send.rs:110-161 | one protocol step and one message: its row, its queue entry and its cached frame become exactly what a send, a drain, a sweep, an erasure, a clamp, an expiry, a break or a request says, and nothing else touches them |
| SenderLife.ProtocolExact | crates/core/src/engine/inbound.rs:73-82 | one protocol step: which frame goes out, which seq is taken, and that the receiver notes a delivered frame exactly when no gate stops it and its seq is new |
| SenderLife.SentLeavesQueue | crates/core/src/engine/drain.rs:50-60 | in every run a frame the transport took, at once or by a drain, is out of the queue until a request asks its row back |
| SenderLife.TransmittedIsSafe | crates/core/src/engine/drain.rs:67-72 | over every stretch of every run in which the row stays, nothing asks it back and the session does not break, a transmitted row without a queue entry stays transmitted or acknowledged |
| DeliveryLimits.GapFreeStep | crates/core/src/engine/send.rs:107-131 | a step keeps the issued seqs gap-free if and only if they were and it is not a send that fails after taking its seq |
| DeliveryLimits.GapFreeIff | crates/wire-types/src/resync.rs:16-23 | in every run, every seq issued so far has a frame if and only if no send has failed after taking its seq |
| DeliveryLimits.FirstHole | crates/core/src/engine/send.rs:107-131 | the one-step run of a failed send issues seq 1 without a frame |
| DeliveryLimits.DeadSeqStalls | crates/core/src/sync/resync.rs:35-144 | once an issued seq is not noted and no frame of it is on the wire, queued or repairable, it is never noted in that run, every view sent ends below it and no row 4096 above it is acknowledged |
| DeliveryLimits.FailedSendStalls | crates/core/src/engine/send.rs:107-131 | every send that fails after taking its seq leaves a seq with those consequences in every later state |
| DeliveryLimits.DeadIff | crates/core/src/sync/resync.rs:93-144 | in every state that meets the invariant, an issued seq within 4096 of the horizon can be noted by some continuation if and only if it is noted, on the wire, queued or repairable |
| DeliveryLimits.AckLeavesIff | crates/core/src/engine/drain.rs:67-72 | a step takes a remaining row out of Acknowledged if and only if it expires a queue entry of that row |
| DeliveryLimits.AckStaysIff | crates/core/src/store/outbox.rs:158-170 | over every stretch of every run in which the row stays, an acknowledged row is still acknowledged if and only if no step in between expired a queue entry of it, and is failed otherwise |
| DeliveryLimits.AckLost | crates/core/src/engine/drain.rs:55-72 | a six-step run: sent but reported as failed, delivered, acknowledged, and failed when the queue entry expires a day later |
| DeliveryLimits.LongConversation | crates/core/src/engine/send.rs:97-166 | for every n below the column limit a run reaches a state with exactly 1..n issued and noted |
| DeliveryLimits.FalseGapReached | crates/core/src/sync/resync.rs:68-74 | a reachable state in which all of 1..65537 are noted and every view reports a gap below the next seq |
| PolicyMachine.DisableSticks | crates/core/src/policy/machine.rs:138-179 | after a processed disable the capability is off in every continuation until that side re-enables it |
| PolicyMachine.EraseIsExact | crates/core/src/policy/machine.rs:138-179 | over every history erase-attachments is signalled exactly when attachments go from enforced to not enforced |
| PolicyMachine.ChangesAreSignalled | crates/core/src/policy/machine.rs:66-179 | no rule and no enforced capability changes without the change being reported |
| PolicyMachine.SyncConverges | crates/core/src/policy/machine.rs:163-179 | after each side processed the other's SYNC both enforce the same capabilities, from any two states |
| PolicyMachine.HistoryWellFormed | crates/core/src/policy/machine.rs:185-277 | from the default state every reachable state is well formed and every payload sent passes the codec's validation |
| PolicyEffects.ActionExact | crates/core/src/policy/machine.rs:185-277 | a local action changes exactly the named fields and bits, sends a message exactly when it has an effect, the message carries what was done and the new wants, and it is reported exactly when rules come into force or a capability goes off or is enforced anew |
| PolicyEffects.CapSetReaction | crates/core/src/policy/machine.rs:136-160 | a CAP_SET of the peer sets or clears exactly bit id + 2 of the peer's want and, when off, of ours |
| PolicyEffects.SyncReaction | crates/core/src/policy/machine.rs:162-179 | a SYNC replaces the peer's wants by exactly the five it carries and is reported exactly when they differ |
| PolicyConsent.RunInv | crates/core/src/policy/machine.rs:98-134 | the consent invariant of two machines and a network that keeps, delays and repeats messages |
| PolicyConsent.RulesNeedConsent | crates/core/src/policy/machine.rs:98-134 | in every run the rules in force at either side are the defaults or a proposal one side built and the other accepted |
| PolicyConsent.CrossingProposalsDiverge | crates/core/src/policy/machine.rs:98-134 | two crossing proposals, both accepted, end with each side on the other's rules |
| PolicyConsent.AcceptAgreesIff | crates/core/src/policy/machine.rs:118-134 | in every run, whenever an ACCEPT is delivered, its addressee ends under the accepted rules if and only if it still awaits that answer or has them already; so do the two sides agree, if the accepter still has them |
| PolicyConsent.AcceptThenDeliver | crates/core/src/policy/machine.rs:212-232 | from every reachable state, accepting and delivering the ACCEPT leaves both sides under the same rules if and only if the proposer awaits that answer or had those rules |
| PolicyConsent.SyncedAgree | crates/core/src/policy/machine.rs:163-179 | in every run, once each side has processed a SYNC that carries the other's wants at the end and nothing about those wants after it, both enforce the same capabilities |
| PolicyConsent.CapSetReaches | crates/core/src/policy/machine.rs:136-269 | in every run setting a capability sends a message exactly when it changes the want; on delivery the other side knows the want as set and nothing else changes; off, neither side wants or enforces it unless turned on again meanwhile; on, the receiver enforces it exactly if it wants it |
| PolicyWire.FlagsWord | crates/wire-types/src/policy.rs:97-121 | the accumulated word has exactly the flag bits of the payload |
| PolicyWire.Encode | crates/wire-types/src/policy.rs:147-158 | the writer produces the specified encoding, or the validation error |
| PolicyWire.Decode | crates/wire-types/src/policy.rs:160-210 | the cursor code reads what the specification reads, errors included |
| PolicyWire.FlagsBack | crates/wire-types/src/policy.rs:97-121 | every flag survives packing into the word and back |
| PolicyWire.RoundTrip | crates/wire-types/src/policy.rs:147-210 | every payload that encodes decodes to itself |
| Layouts.PolicyLayout | crates/wire-types/src/policy.rs:147-158 | version, op, TTL, flag word bit by bit, capability, proposal id, at their offsets |
| Decoders.PolicyAcceptedIff | crates/wire-types/src/policy.rs:160-210 | a payload is accepted exactly if it has 28 bytes, version 1, a known op, a capability state of 0 or 1, and an allowed TTL or a known capability, and then says what its fields say |
| PolicyStore.PendingRoundTrip | crates/core/src/policy/store.rs:18-48 | a pending proposal survives its blob |
| PolicyStore.SaveLoad | crates/core/src/policy/store.rs:50-105 | a saved policy always loads, and unchanged if and only if both want words fit one byte |
| PolicyStore.HistoryPersists | crates/core/src/policy/store.rs:50-105 | every reachable policy state survives save and load |
| Layouts.PendingLayout | crates/core/src/policy/store.rs:18-48 | the stored proposal: TTL, flag byte, proposal id, at their offsets |
| Layouts.ColumnsLayout | crates/core/src/policy/store.rs:50-105 | our wants in the low byte and the peer's in the next, screenshots the lowest flag |
| Ledger.LedgerStore.HandlePlaintext | crates/core/src/engine/inbound.rs:39-150 | the gate order, dedupe, noting, dropping, inserting and dispatching of one envelope |
| Ledger.LedgerStore.DispatchBody | crates/core/src/engine/inbound.rs:127-244 | what each payload does to the ledger |
| Ledger.LedgerStore.OnEdit | crates/core/src/engine/inbound.rs:246-283 | the edit decision applied to the target row |
| Ledger.LedgerStore.OnDelete | crates/core/src/engine/inbound.rs:287-307 | the target wiped and its tombstone set |
| Ledger.LedgerStore.OnDeleteAll | crates/core/src/engine/inbound.rs:138-148 | the cut raised, never lowered, and the history erased but for the envelope itself |
| Ledger.LedgerStore.OnPolicy | crates/core/src/engine/inbound.rs:354-417 | the policy reaction with its clamp and erase effects on the rows |
| Ledger.LedgerStore.OnClose | crates/core/src/engine/burn.rs:15-55 | the relationship is burnt and its tables emptied |
| Ledger.LedgerStore.EditRow | crates/core/src/store/messages.rs:428-441 | body, edit mark and edit count of exactly that row |
| Ledger.LedgerStore.WipeRow | crates/core/src/store/messages.rs:443-449 | payload emptied and tombstone set on exactly that row |
| Ledger.LedgerStore.Sweep | crates/core/src/store/messages.rs:295-317 | exactly the expired rows go |
| LedgerRuns.RunInv | crates/core/src/engine/inbound.rs:39-307 | the ledger invariant in every state of every run of arrivals, own actions, policy events, sweeps and prunes |
| LedgerRuns.ReactKeepsRetention | crates/core/src/policy/machine.rs:66-92 | every rule change, with the clamp it signals, keeps each row's expiry within one TTL |
| LedgerRuns.RetentionBound | crates/core/src/policy/store.rs:107-150 | in every state with an agreed TTL every row expires no later than now + TTL |
| RowLife.RowLeavesIff | crates/core/src/store/messages.rs:295-300 | in every run a row is missing from the next state exactly when a sweep finds its expiry reached, a DELETE_ALL of either side takes it or the relationship is burned |
| RowLife.ExpiryIs | crates/core/src/policy/machine.rs:65-92 | in every run the expiry of a row is the earliest of one TTL after it was written and one new TTL after each later shrink of the agreed TTL, and it has none exactly when there is no such moment |
| RowLife.RowStepExact | crates/core/src/engine/inbound.rs:127-307 | one step and one row: it leaves exactly as said, and otherwise it is rewritten, emptied and clamped exactly when and as the step says, our own edits and deletes included |
| RowLife.EnterExact | crates/core/src/engine/inbound.rs:108-125 | a row enters exactly with our own send or with a kept envelope that is not a typing or presence beat, and records author, seq, times, kind, target and payload |
| RowLife.NoticesExact | crates/core/src/engine/inbound.rs:127-307 | which event each kept envelope raises, and that no other envelope raises any |
| RowLife.EditedIsMadeIff | crates/core/src/engine/inbound.rs:269-276 | an announced edit is made exactly when its row is not a tombstone |
| RowLife.ColumnsExact | crates/core/src/engine/send.rs:249-263 | the cut rises exactly to the seq of a clear, every send takes exactly the next seq, only an accepted close burns |
| RowLife.TombExact | crates/core/src/store/tombstones.rs:30-66 | a tombstone is set to a day from now exactly by a DELETE of that id, and goes exactly with the burn or a pruning pass that drops it |
| RowLife.PruneExact | crates/core/src/store/tombstones.rs:51-66 | after pruning at most 4096 tombstones are left, all live, none outlived by a dropped one; all live ones if they fit |
| Intake.NotedIff | crates/core/src/engine/inbound.rs:53-82 | a new seq is noted exactly when capability, closing state, clock and dedupe let its envelope in, unless that envelope burns the relationship |
| Intake.RefusedOrStale | crates/core/src/engine/inbound.rs:53-106 | an envelope not let in changes nothing; one below the cut or under a live tombstone leaves its seq and nothing else |
| Intake.PolicyEnvelope | crates/core/src/engine/inbound.rs:354-402 | a CHAT_POLICY envelope not let in changes nothing; otherwise it is noted and ledgered, and every row keeps what it has but for the expiry a shrinking TTL caps and the attachment heads that attachments going off empties |
| Intake.ProposeTaken | crates/core/src/engine/inbound.rs:364-373 | an accepted PROPOSE becomes the pending inbound proposal under its own id or the envelope's, and is reported |
| Intake.AcceptTaken | crates/core/src/engine/inbound.rs:374-379 | an accepted ACCEPT puts our proposal into force and is reported exactly when it is the awaited one; a shrinking TTL caps every expiry at now + TTL |
| Intake.CapSetTaken | crates/core/src/engine/inbound.rs:380-383 | an accepted CAP_SET changes exactly its bit, and is reported exactly when off or when it changes what is enforced |
| Intake.SyncTaken | crates/core/src/engine/inbound.rs:384-389 | an accepted SYNC replaces the peer's wants and is reported exactly when they differ |
| Intake.LedgerFollowsPolicy | crates/core/src/engine/inbound.rs:354-402 | in every ledger run the policies held are a history of the policy machine whose events are exactly the accepted CHAT_POLICY envelopes and the local policy actions |
| LedgerRuns.SweepErases | crates/core/src/store/messages.rs:295-317 | a row held under a TTL is gone after any sweep one TTL later, whatever the rules do in between |
| LedgerRuns.RowEvolves | crates/core/src/messages/edit.rs:54-97 | while a row exists its expiry only falls, its edit mark and edit count only rise, and a tombstone stays with its payload |
| LedgerRuns.CutNeverFalls | crates/core/src/store/relationships.rs:22-29 | the history cut never falls in any run until the relationship is burnt |
| LedgerRuns.DispatchedOnce | crates/core/src/engine/inbound.rs:74-96 | an app_seq takes effect at most once in any run, even after its row was swept, whatever the peer sends |
| LedgerRuns.RowsStaySound | crates/core/src/messages/delete.rs:25-38 | in every state no inbound history row is below the cut, edit counts are capped, tombstoned rows are empty, tombstoned ids show no inbound content |
| LedgerRuns.TombPersists | crates/core/src/store/tombstones.rs:30-66 | a tombstone holds for its TTL while pruning stays within the cap |
| LedgerRuns.DeleteHides | crates/core/src/engine/inbound.rs:98-148 | a message and its DELETE, in either order and among any traffic, leave no visible payload while the tombstone lives |
| LedgerRuns.OwnClearCutsPeer | crates/core/src/engine/send.rs:250-263 | after our DELETE_ALL a later peer message is kept if and only if its seq reaches both the old cut and our floor |
| LedgerRuns.BurnedIsEmpty | crates/core/src/engine/burn.rs:15-55 | a burnt relationship holds no rows in any later state |
| Edits.FeedIsFold | crates/core/src/engine/inbound.rs:246-283 | through the whole engine a batch of edits acts on its target as a fold of single decisions |
| Edits.NewestEditDecides | crates/core/src/messages/edit.rs:54-97 | up to the cap, any order of a batch leaves the body and seq of the newest edit |
| Edits.EditsConfluent | crates/core/src/messages/edit.rs:54-97 | the same envelopes in another order and at other times leave the same body and edit mark |
| Edits.EditCapExact | crates/core/src/messages/edit.rs:54-97 | every order of a batch of new edits, at whatever times, ends on the newest if and only if the batch fits the cap |
| Edits.EditTakesEffectIff | crates/core/src/engine/inbound.rs:246-283 | in every state an EDIT rewrites its target if and only if it is admitted, not too large, and the target is there, inbound, a message, not tombstoned, in window and TTL, below the cap and with an older edit; otherwise the target stays as it was |
| Edits.OrderDecides | crates/core/src/engine/inbound.rs:246-283 | message first, the text is rewritten exactly when the EDIT is in time, not too large and has a seq above 0; EDIT first, the original text stays and no redelivery changes it |
| Deletions.ClearOrderDecides | crates/core/src/engine/inbound.rs:138-148 | DELETE_ALL first, the message is kept if and only if its seq is above; message first, it is gone and no copy of it is taken again; the orders agree if and only if the message is older |
| Deletions.OwnClearDropsFirst | crates/core/src/engine/send.rs:249-263 | the three-step run from an empty ledger in which our DELETE_ALL drops the first message of the peer |
| Deletions.DeleteWipesOnly | crates/core/src/engine/inbound.rs:285-307 | a DELETE empties and tombstones the row of its target and leaves every other row's payload and tombstone |
| Deletions.EditTextRemains | crates/core/src/engine/inbound.rs:246-307 | after a message, its EDIT and its DELETE the message row is empty and the row of the EDIT holds the edited text |
| Deletions.EditTextStays | crates/core/src/engine/inbound.rs:246-307 | over every stretch of every run in which the row of an EDIT stays, it holds its text as long as no DELETE names that row itself, and is empty from then on |
| Bin.ReadLpBack | crates/wire-types/src/bin.rs:115-123 | the length-prefixed read inverts the write |
| Bin.ReadU64Back | crates/wire-types/src/bin.rs:110-113 | the 64-bit read inverts the write |
| Bin.ReadU32Back | crates/wire-types/src/bin.rs:106-108 | the 32-bit read inverts the write |
| Layouts.BigEndian | crates/wire-types/src/bin.rs:25-40 | the integers are written most significant byte first |
| Layouts.BitOrder | crates/core/src/store/messages.rs:343-353 | bit i of a bitmap is bit i % 8 of byte i / 8 from the least significant |
| Bin.Writer.LpField | crates/wire-types/src/bin.rs:47-50 | appends the length prefix and the bytes |
| Bin.Reader.Take | crates/wire-types/src/bin.rs:89-96 | takes exactly n bytes and advances, or refuses and stays |
| Bin.Reader.LpField | crates/wire-types/src/bin.rs:115-123 | reads one capped length-prefixed field |
| Bin.Reader.PeekU32 | crates/wire-types/src/bin.rs:125-132 | the next 32-bit word, without advancing |
| AttachWire.EncodeChunked | crates/wire-types/src/attach.rs:85-109 | the writer produces the specified chunked head or refuses it |
| AttachWire.EncodeInline | crates/wire-types/src/attach.rs:111-138 | the writer produces the specified inline head or refuses it |
| AttachWire.DecodeWithInline | crates/wire-types/src/attach.rs:140-352 | the cursor code reads what the specification reads, errors included |
| AttachWire.PeekNeverConfuses | crates/wire-types/src/attach.rs:280-352 | the peek never takes caption or flags for the blob, even when caption and blob have the same length |
| AttachWire.ReadInlineTailBack | crates/wire-types/src/attach.rs:280-352 | caption, flags and blob of every inline head come back |
| AttachWire.HeadRoundTrip | crates/wire-types/src/attach.rs:85-352 | every head that encodes decodes to itself, inline bytes included, if and only if mime and extension are ASCII |
| AttachWire.ChunkCanonical | crates/wire-types/src/attach.rs:386-441 | bytes decode to a chunk if and only if the chunk encodes to those bytes |
| Layouts.ChunkedLayout | crates/wire-types/src/attach.rs:85-109 | a chunked head field by field |
| Layouts.InlineLayout | crates/wire-types/src/attach.rs:111-138 | an inline head field by field |
| Layouts.ChunkLayout | crates/wire-types/src/attach.rs:386-410 | a chunk field by field |
| Decoders.ChunkedAcceptedIff | crates/wire-types/src/attach.rs:140-352 | a chunked head is accepted exactly if it is valid, with ASCII names, and written in order with one of the accepted tails |
| Decoders.InlineAcceptedIff | crates/wire-types/src/attach.rs:140-352 | an inline head is accepted exactly if it is valid, with ASCII names, and written in order with one of the accepted tails and content of the announced length |
| Decoders.HeadLimits | crates/wire-types/src/attach.rs:85-138 | exactly which heads are written, in numbers |
| Decoders.ChunkLimits | crates/wire-types/src/attach.rs:385-404 | exactly which chunks are written, in numbers |
| PackDoc.BodyBytes | crates/wire-types/src/sticker.rs:626-664 | the writer loop with its duplicate and cap checks produces the canonical body, or the error |
| PackDoc.DecodeBody | crates/wire-types/src/sticker.rs:697-766 | the cursor loop reads what the specification reads, errors included |
| PackDoc.ScanPartial | crates/wire-types/src/sticker.rs:773-827 | the length-only walk computes the specified scan |
| PackDoc.AcceptedIsCanonical | crates/wire-types/src/sticker.rs:697-766 | every accepted body is the canonical body of the well-formed document it yields |
| PackDoc.RoundTripIff | crates/wire-types/src/sticker.rs:626-766 | a document survives sealing and opening if and only if it is well formed: among those that seal, at most 32 title characters, icon present, hashes matching |
| PackDoc.SignedIff | crates/wire-types/src/sticker.rs:671-694 | a blob opens to a document exactly when it is that well-formed document's canonical body and 64 bytes that verify over it; the size caps never interfere |
| PackDoc.ScanExact | crates/wire-types/src/sticker.rs:773-827 | on every prefix of doc and signature: nothing before the header is whole, then exactly the number of whole item records |
| PackDoc.ScanMonotone | crates/wire-types/src/sticker.rs:773-827 | progress never falls as bytes arrive and equals the total on the full blob |
| Layouts.PackLayout | crates/wire-types/src/sticker.rs:626-664 | the pack document field by field |
| Decoders.PackMeans | crates/wire-types/src/sticker.rs:626-766 | what an acceptable pack is, in numbers |
| Decoders.ScanLimit | crates/wire-types/src/sticker.rs:773-827 | the partial scan says nothing of more than 28 MiB |
| Pieces.SplitFlattens | crates/core/src/attach/mod.rs:80-82 | the pieces of a blob concatenate to the blob |
| Pieces.SplitCount | crates/core/src/stickers/send.rs:148-149 | the number of pieces is the length over the chunk size, rounded up |
| Pieces.CoversIffCount | crates/core/src/stickers/mod.rs:49-54 | a table with indices below n covers n exactly when it holds n chunks |
| StickerBuffers.AddChunk | crates/core/src/stickers/mod.rs:43-58 | the chunk is added unless out of range or held, and the join comes out exactly when it was the last one missing |
| StickerBuffers.FeedInto | crates/core/src/stickers/mod.rs:76-150 | admit, plan check, byte cap, add and removal as one table transition that keeps the quotas |
| StickerBuffers.PendingBuffers.constructor | crates/core/src/stickers/mod.rs:71-74 | three empty tables |
| StickerBuffers.PendingBuffers.FeedItem | crates/core/src/stickers/mod.rs:94-121 | the transition on the item table only |
| StickerBuffers.PendingBuffers.FeedPack | crates/core/src/stickers/mod.rs:123-150 | the transition on the pack table only |
| StickerBuffers.PendingBuffers.FeedThumbs | crates/core/src/stickers/mod.rs:152-179 | the transition on the thumbs table only |
| StickerBuffers.PendingBuffers.SweepStale | crates/core/src/stickers/mod.rs:192-197 | exactly the entries within their TTL stay |
| StickerBuffers.PendingBuffers.ForgetAll | crates/core/src/stickers/mod.rs:202-208 | all tables emptied |
| StickerBuffers.RunKeepsOk | crates/core/src/stickers/mod.rs:32-179 | in every run entry counts, byte totals and indices stay within quota, the total is the sum of the held chunks, and no complete entry is kept |
| StickerBuffers.EntryExact | crates/core/src/stickers/mod.rs:43-208 | one event and one key: an entry opens, takes the chunk, or goes by overflow, completion, a sweep after ten minutes or a forget, exactly then |
| StickerBuffers.OutputExact | crates/core/src/stickers/mod.rs:43-58 | a blob comes out exactly with the chunk that completes its entry, and is the entry's chunks in order |
| StickerBuffers.Reassembles | crates/core/src/stickers/mod.rs:43-150 | chunks in any order, with repeats, among other traffic, yield the blob exactly when the last missing index arrives |
| StickerBuffers.NeverDroppedIff | crates/core/src/stickers/mod.rs:112-115 | no unfinished stream of a blob within the cap loses its entry, if and only if it is one piece or piece count times chunk size is within the cap |
| StickerBuffers.RepeatEvicts | crates/core/src/stickers/mod.rs:170-173 | otherwise all pieces but the last in order and then the first again drop the entry |
| StickerBuffers.ThumbsTolerateIff | crates/core/src/stickers/mod.rs:152-179 | a thumbnail document within its cap is never dropped if and only if it has at most 19 full pieces |
| StickerBuffers.ItemsTolerate | crates/core/src/stickers/send.rs:148-149 | every item within its cap tolerates repeats in the item buffers |
| StickerBuffers.PackDocsTolerate | crates/core/src/stickers/send.rs:274-275 | every signed pack document tolerates repeats in the pack buffers |
| StickerBuffers.ProgressNeverShown | crates/core/src/stickers/mod.rs:182-189 | in every reachable state the pack progress query answers nothing |
| AttachPlan.PlanTransfer | crates/core/src/attach/mod.rs:56-101 | sizes out of range are refused; small files ride inline; otherwise the pieces in order and pads fill the bucket, and the head announces length, hash, count and bucket |
| AttachPlan.DataChunks | crates/core/src/attach/mod.rs:80-82 | the loop yields the pieces in order |
| AttachPlan.PieceCountBound | crates/core/src/attach/mod.rs:67-77 | the count is the rounded-up quotient, at most 940, and its bucket at most 1024 |
| Decoders.BucketIsLeast | crates/core/src/attach/mod.rs:72-77 | the bucket is the smallest multiple of eight that holds the chunks |
| AttachPlan.PlannedHeadTravels | crates/core/src/attach/mod.rs:86-100 | a planned head encodes and decodes back to itself |
| AttachStore.AttachmentTables.Put | crates/core/src/store/chunks.rs:43-67 | stores a new chunk, accepts the same bytes again, refuses other bytes |
| AttachStore.AttachmentTables.Note | crates/core/src/store/attachments.rs:132-161 | sets the chunk's bit and tells whether the bitmap is full |
| AttachStore.AttachmentTables.Finish | crates/core/src/attach/mod.rs:386-431 | completes on matching length and hash, erases on mismatch, waits otherwise |
| AttachStore.AttachmentTables.HandleHead | crates/core/src/attach/mod.rs:240-296 | policy, replay, inline and chunked heads |
| AttachStore.AttachmentTables.HandleChunk | crates/core/src/attach/mod.rs:300-380 | pads, orphan caps, range check, storing, bitmap, completion and progress |
| AttachStore.AttachmentTables.AttachmentBytes | crates/core/src/attach/mod.rs:449-465 | the stored chunks in index order, only when complete and not consumed |
| AttachStore.PopCountFull | crates/core/src/store/attachments.rs:149-152 | the population count reaches the chunk count exactly when every bit below it is set |
| AttachStore.FullBitmapSpec | crates/core/src/attach/mod.rs:415-420 | the bitmap written on completion has exactly the bits below the count |
| AttachIntegrity.EventsMean | crates/core/src/attach/mod.rs:262-431 | a completion is announced with stored bytes of the announced length and hash, except that for an inline head this holds if and only if nothing is stored beside it; a chunked failure leaves no row and no chunk, an inline mismatch no row and the chunks |
| AttachIntegrity.FrozenIff | crates/core/src/attach/mod.rs:240-431 | a complete transfer keeps its bytes under every later traffic if and only if every planned index is stored |
| AttachIntegrity.ArrivalIff | crates/core/src/attach/mod.rs:240-465 | over every continuation, while the row stands, the bytes handed out have the announced length and hash if and only if the arriving head finds no matching bytes with a planned index missing (chunked), or no bytes under another index (inline) |
| AttachIntegrity.NoStrayIsSound | crates/core/src/attach/mod.rs:240-296 | a head that finds no chunk outside its plan passes that test |
| AttachIntegrity.StrayMayWait | crates/core/src/attach/mod.rs:398-401 | a stray chunk alone does not fail the test: a head still short of chunks passes it |
| AttachIntegrity.RunVerified | crates/core/src/attach/mod.rs:240-465 | in every state of every run whose heads pass the test, every attachment handed out matches its announcement |
| AttachIntegrity.InlineOverOrphan | crates/core/src/attach/mod.rs:269-293 | an inline head over an orphan hands out its own bytes followed by the orphan's |
| AttachIntegrity.GapThenChunk | crates/core/src/attach/mod.rs:398-430 | a chunked head completes over orphans at indices 0 and 5, and chunk 1 then changes the bytes handed out |
| AttachIntegrity.DecodedIsValid | crates/wire-types/src/attach.rs:140-352 | the codec lets in only chunked heads with a chunk and inline heads with none and the announced length |
| AttachIntegrity.ProgressExact | crates/core/src/attach/mod.rs:354-380 | after any traffic a chunk in the plan of a known head raises progress, with the number of different indices since the head, exactly while some are missing |
| OrphanCaps.TrafficWithinCaps | crates/core/src/attach/mod.rs:308-337 | after every sequence of heads and chunks each head without a row holds at most 1024 chunks and 25 MiB, and all of them together at most 4096 chunks and 64 MiB |
| OrphanCaps.RunWithinCaps | crates/core/src/attach/mod.rs:308-337 | the same in every run with deletions, erasures, viewings and burns |
| OrphanCaps.DroppedIff | crates/core/src/attach/mod.rs:314-337 | after any traffic a data chunk of an unknown head is dropped, with its event, exactly when one of the four sums leaves no room |
| AttachTransfer.OrphanStep | crates/core/src/attach/mod.rs:313-341 | before the head, with room under the relationship's caps, a chunk of the plan is stored, or was stored already; no first delivery trips a cap |
| AttachTransfer.NoOrphansIsRoomy | crates/core/src/store/chunks.rs:97-119 | a relationship without other orphans has room for every file |
| AttachTransfer.HeadLands | crates/core/src/attach/mod.rs:240-296 | the head completes the transfer at once exactly when every data chunk is already stored |
| AttachTransfer.LateStep | crates/core/src/attach/mod.rs:354-380 | after the head, completion comes exactly with the chunk that fills the bitmap, once |
| AttachTransfer.TransferExact | crates/core/src/attach/mod.rs:240-465 | every interleaving of chunks, repeats, pads and head: complete exactly when all data chunks precede the head or all follow it, one completion event then and none otherwise, no failure, no first delivery lost, and the bytes read back are the file; other orphans matter only when data chunks come first, and then only through the caps |
| AttachRetention.EraseListed | crates/core/src/policy/store.rs:119-141 | the loop over the listed heads removes exactly their transfer rows and chunks |
| AttachRetention.StepExact | crates/core/src/attach/mod.rs:433-477 | a step ends the hand-out of the bytes of a settled transfer if and only if it is the peer's DELETE of it, an attachment erasure that lists its head, the viewing of a view-once attachment or the burn; any other step leaves the same bytes |
| AttachRetention.BytesStay | crates/core/src/engine/drain.rs:75-140 | over every stretch of every run without such a step the same bytes are handed out, whatever the TTL, the clock and the sweeps |
| AttachRetention.OnceExact | crates/core/src/attach/mod.rs:249-268 | an attachment is view-once exactly if the head that announced it said so |
| AttachRetention.ViewedOnce | crates/core/src/attach/mod.rs:466-477 | in every run, once a view-once attachment was viewed its bytes are handed out in no later state while its row stands |
| AttachRetention.BytesOutliveTtl | crates/core/src/engine/drain.rs:75-84 | one TTL later a sweep erases the ledger row of the head and leaves the bytes |
| AttachRetention.DayOldBytes | crates/core/src/engine/drain.rs:82-83 | the run from an empty relationship under the default day of retention that ends with an empty ledger and the bytes still handed out |
| AttachRetention.EraseMissesForgotten | crates/core/src/policy/store.rs:119-141 | after a sweep, a DELETE_ALL of either side or our own DELETE took the ledger row of the head, an erasure of attachments leaves its bytes |
| Framing.Pack | crates/core/src/transport/framing.rs:47-91 | the buffer holds the specified record or the frame is refused |
| Framing.ByteStream.ReadFrame | crates/core/src/transport/framing.rs:96-151 | one frame, a clean end, or an error, as the specification reads the stream |
| Framing.FrameCanonical | crates/core/src/transport/framing.rs:47-157 | a frame is read off a stream if and only if the stream starts with its packing |
| Framing.StreamCanonical | crates/core/src/transport/framing.rs:47-157 | a connection reads as a frame sequence and a clean end if and only if its bytes are the packings of those frames |
| Layouts.FrameLayout | crates/core/src/transport/framing.rs:47-91 | the flag byte for intro and alert, the intro and the frame with their lengths |
| Decoders.FrameLimits | crates/core/src/transport/framing.rs:47-91 | exactly which frames go on a stream, in numbers |
| Pairing.WriteSignedBody | crates/core/src/pairing/qr.rs:186-211 | the writer produces the specified signed body |
| Pairing.EncodePayload | crates/core/src/pairing/qr.rs:223-228 | signed body and signature field |
| Pairing.DecodePayload | crates/core/src/pairing/qr.rs:232-294 | the cursor code reads what the specification reads |
| Pairing.AcceptedIsCanonical | crates/core/src/pairing/qr.rs:186-294 | every accepted payload re-encodes to its input, and the body whose signature is checked is the input without the signature field |
| Pairing.RoundTripIff | crates/core/src/pairing/qr.rs:186-294 | a payload survives the wire if and only if its fields are in range; the payload cap then never interferes |
| Layouts.PairingLayout | crates/core/src/pairing/qr.rs:186-228 | the pairing payload field by field |
| Decoders.PairingLimits | crates/core/src/pairing/qr.rs:232-294 | exactly which payloads read back, in numbers |
| TokenBucket.BucketObject.constructor | crates/core/src/ratelimit.rs:133-140 | a fresh bucket is full |
| TokenBucket.BucketObject.CheckAt | crates/core/src/ratelimit.rs:143-159 | the saturating code is the exact refill capped at capacity, then one token spent if there is one |
| TokenBucket.SaturationIsExact | crates/core/src/ratelimit.rs:144-152 | saturating 64- and 32-bit steps compute min(capacity, tokens + refill × elapsed) |
| TokenBucket.GrantBound | crates/core/src/ratelimit.rs:143-159 | over every run segment, whatever the clock does, grants are at most capacity + refill × advance of the refill mark |
| TokenBucket.RefusalWitness | crates/core/src/ratelimit.rs:143-159 | every refusal ends a segment that started full and granted exactly that many tokens |

## Left out

- libsignal sessions, SHA-256, signature schemes, Base58 and QR rendering: foreign code; hashes and signature checks are parameters.
- SQLCipher, migrations and settings plumbing: tables are modelled by what their queries answer.
- Tor, sockets, the CLI, UniFFI, the test harness and media preparation: I/O and library wrappers.
- Record building and padding inside `wire::frame`: only the bucket set and the version byte matter to framing.
- Gap-triggered resync requests, the throttled SYNC that answers a SYNC, activation bursts and the outbound gate: they decide when to send, not what the protocol keeps.
- Presence, typing, profiles, preferences, read marks and session healing: easy members.
- Tables over several relationships: each store models one relationship, whose rows the queries select by id.
- A crash between two statements of one handler: handlers are modelled as one step.
- The sweep of attachment rows and orphan chunks in `Sync::sweep_expired`: the engine's own sweep does not call it.
- Our own copies of sent attachments: AttachRetention follows a transfer from any table state, however it got there.
- Per-key bucket tables and drop counters: one bucket per key, with no interaction between keys.
- Chunk plan validation of STICKER_CTRL payloads and the thumbnail document codec: easy members.
- TombPersists: assumes pruning passes that find no more live tombstones than the cap, because over the cap the oldest ones go by design.
- TransferExact: covers one transfer's own traffic; that other transfers leave its row and chunks alone is part of ArrivalIff.
