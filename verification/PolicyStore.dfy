/** Policy persistence: the packed columns of the relationship row. */
module PolicyStore {
  import opened Bytes
  import opened Bin
  import opened PolicyMachine
  import opened PolicyWire

  const PENDING_LEN: nat := 21

  /** `policy_wants` keeps the local wants in its low byte and the peer's in the next one. */
  datatype Columns = Columns(ttl: U32, flags: nat, wants: Bits, pending: Option<seq<Byte>>, lastSyncAt: nat)

  function PendingBits(p: Pending): seq<bool> { [p.rules.screenshot, p.rules.attachDownload, p.inbound] }

  function EncodePending(p: Pending): (s: seq<Byte>)
    ensures |s| == PENDING_LEN
  {
    PackBound(PendingBits(p));
    U32be(p.rules.ttl) + [Pack(PendingBits(p))] + p.proposeId
  }

  function DecodePending(s: seq<Byte>): Result<Pending> {
    if |s| != PENDING_LEN then Err(BadLength)
    else
      var flags := s[4];
      Ok(Pending(Rules(FromBe32(s[..4]), HasFlag(flags, 0), HasFlag(flags, 1)), HasFlag(flags, 2), s[5..21]))
  }

  function LowByte(w: Bits): Bits { set b | b in w && b < 8 }

  function HighByte(w: Bits): Bits { set b | b in w && 8 <= b < 16 :: b - 8 }

  function PackWants(localWant: Bits, peerWant: Bits): Bits {
    LowByte(localWant) + set b | b in LowByte(peerWant) :: b + 8
  }

  function Save(s: PolicyState): Columns {
    Columns(s.rules.ttl, Pack([s.rules.screenshot, s.rules.attachDownload]),
            PackWants(s.localWant, s.peerWant),
            if s.pending.Some? then Some(EncodePending(s.pending.value)) else None,
            s.lastSyncAt)
  }

  function LoadPending(blob: Option<seq<Byte>>): Result<Option<Pending>> {
    if blob.None? then Ok(None)
    else
      var p :- DecodePending(blob.value);
      Ok(Some(p))
  }

  function Load(c: Columns): Result<PolicyState> {
    var pending :- LoadPending(c.pending);
    Ok(PolicyState(Rules(c.ttl, HasFlag(c.flags, 0), HasFlag(c.flags, 1)),
                   LowByte(c.wants), HighByte(c.wants), pending, c.lastSyncAt))
  }

  lemma PendingRoundTrip(p: Pending)
    ensures DecodePending(EncodePending(p)) == Ok(p)
  {
    var s := EncodePending(p);
    assert s[..4] == U32be(p.rules.ttl);
    U32Injective(FromBe32(s[..4]), p.rules.ttl);
    assert s[5..21] == p.proposeId;
    PackBit(PendingBits(p), 0);
    PackBit(PendingBits(p), 1);
    PackBit(PendingBits(p), 2);
  }

  ghost predicate ByteWide(w: Bits) { forall b :: b in w ==> b < 8 }

  lemma WantsRoundTrip(l: Bits, p: Bits)
    ensures LowByte(PackWants(l, p)) == LowByte(l) && HighByte(PackWants(l, p)) == LowByte(p)
  {
    var w := PackWants(l, p);
    forall b | b in LowByte(p) ensures b in HighByte(w) {
      assert b + 8 in w;
      assert (b + 8) - 8 in HighByte(w);
    }
  }

  /** A saved policy loads back unchanged exactly when its wants fit their two bytes. */
  lemma SaveLoad(s: PolicyState)
    ensures Load(Save(s)).Ok?
    ensures Load(Save(s)) == Ok(s) <==> ByteWide(s.localWant) && ByteWide(s.peerWant)
  {
    if s.pending.Some? {
      PendingRoundTrip(s.pending.value);
    }
    WantsRoundTrip(s.localWant, s.peerWant);
    PackBit([s.rules.screenshot, s.rules.attachDownload], 0);
    PackBit([s.rules.screenshot, s.rules.attachDownload], 1);
    FullByte(s.localWant);
    FullByte(s.peerWant);
  }

  lemma FullByte(w: Bits)
    ensures LowByte(w) == w <==> ByteWide(w)
  {
    if LowByte(w) == w {
      assert forall b :: b in w ==> b in LowByte(w);
    }
  }

  /** Restarts are transparent: every state of every history from the default state, under
      payloads the codec lets in, survives the store. */
  lemma HistoryPersists(states: seq<PolicyState>, events: seq<Event>, i: nat)
    requires IsHistory(states, events) && states[0] == DefaultState && i < |states|
    requires forall k :: 0 <= k < |events| && events[k].Inbound? ==> ValidPayload(events[k].cp)
    ensures Load(Save(states[i])) == Ok(states[i])
  {
    HistoryWellFormed(states, events, i);
    SaveLoad(states[i]);
  }
}
