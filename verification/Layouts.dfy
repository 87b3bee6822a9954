/** Where every field sits on the wire: the formats read off the bytes, left to right. */
module Layouts {
  import opened Bytes
  import Bin
  import PolicyMachine
  import PolicyWire
  import PolicyStore
  import AttachWire
  import PackDoc
  import Framing
  import Pairing
  import HistoryHash
  import ReceiveView

  // ---- numbers ----

  /** The number that bytes denote, most significant byte first. */
  function Number(s: seq<Byte>): nat {
    if s == [] then 0 else 256 * Number(s[..|s| - 1]) + s[|s| - 1]
  }

  lemma {:induction false} NumberOf2(s: seq<Byte>)
    requires |s| == 2
    ensures Number(s) == 256 * (s[0] as nat) + s[1]
  {
    assert s[..1][..0] == [];
    assert Number(s[..1]) == s[0];
  }

  lemma {:induction false} NumberJoins(a: seq<Byte>, b: seq<Byte>)
    requires |b| == 2 || |b| == 4
    ensures Number(a + b) == (if |b| == 2 then 0x1_0000 else 0x1_0000_0000) * Number(a) + Number(b)
    decreases |b|
  {
    if |b| == 2 {
      NumberOf2(b);
      var c := a + b[..1];
      assert (a + b)[..|a| + 1] == c && c[..|a|] == a;
    } else {
      var hi, lo := b[..2], b[2..];
      assert a + b == (a + hi) + lo && b == hi + lo;
      NumberJoins(a + hi, lo);
      NumberJoins(a, hi);
      NumberJoins(hi, lo);
    }
  }

  /** The integers are written most significant byte first. */
  lemma BigEndian(a: U16, b: U32, c: U64)
    ensures Number(U16be(a)) == a && Number(U32be(b)) == b && Number(U64be(c)) == c
  {
    NumberOf2(U16be(a));
    Number32(b);
    Number32(c / 0x1_0000_0000);
    Number32(c % 0x1_0000_0000);
    NumberJoins(U32be(c / 0x1_0000_0000), U32be(c % 0x1_0000_0000));
  }

  lemma Number32(b: U32)
    ensures Number(U32be(b)) == b
  {
    NumberOf2(U16be(b / 0x1_0000));
    NumberOf2(U16be(b % 0x1_0000));
    NumberJoins(U16be(b / 0x1_0000), U16be(b % 0x1_0000));
  }

  lemma Number16(a: U16)
    ensures Number(U16be(a)) == a
  {
    NumberOf2(U16be(a));
  }

  lemma Number64(c: U64)
    ensures Number(U64be(c)) == c
  {
    BigEndian(0, 0, c);
  }

  // ---- fields from the left ----

  /** `s` starts with the bytes `v`, and `rest` follows. */
  ghost predicate Then(s: seq<Byte>, v: seq<Byte>, rest: seq<Byte>) {
    |v| <= |s| && s[..|v|] == v && s[|v|..] == rest
  }

  /** `s` starts with the number `v` in `n` bytes, and `rest` follows. */
  ghost predicate ThenNumber(s: seq<Byte>, n: nat, v: nat, rest: seq<Byte>) {
    n <= |s| && Number(s[..n]) == v && s[n..] == rest
  }

  lemma FieldThen(v: seq<Byte>, rest: seq<Byte>)
    ensures Then(v + rest, v, rest)
  {
  }

  lemma NumberThen2(v: U16, rest: seq<Byte>)
    ensures ThenNumber(U16be(v) + rest, 2, v, rest)
  {
    FieldThen(U16be(v), rest);
    Number16(v);
  }

  lemma NumberThen4(v: U32, rest: seq<Byte>)
    ensures ThenNumber(U32be(v) + rest, 4, v, rest)
  {
    FieldThen(U32be(v), rest);
    Number32(v);
  }

  lemma NumberThen8(v: U64, rest: seq<Byte>)
    ensures ThenNumber(U64be(v) + rest, 8, v, rest)
  {
    FieldThen(U64be(v), rest);
    Number64(v);
  }

  /** A field with its length in `n` bytes before it. */
  ghost predicate ThenSized(s: seq<Byte>, n: nat, v: seq<Byte>, rest: seq<Byte>) {
    n + |v| <= |s| && Number(s[..n]) == |v| && s[n..n + |v|] == v && s[n + |v|..] == rest
  }

  lemma SizedThen4(v: seq<Byte>, rest: seq<Byte>)
    requires |v| < Bin.LP_LIMIT
    ensures ThenSized(Bin.Lp(v) + rest, 4, v, rest)
  {
    Number32(|v|);
    assert (Bin.Lp(v) + rest)[..4] == U32be(|v|);
  }

  lemma SizedThen2(v: seq<Byte>, rest: seq<Byte>)
    requires |v| < 0x1_0000
    ensures ThenSized(Framing.Sized(v) + rest, 2, v, rest) && ThenSized(Pairing.Lp16(v) + rest, 2, v, rest)
  {
    Number16(|v|);
    assert (Framing.Sized(v) + rest)[..2] == U16be(|v|);
    assert (Pairing.Lp16(v) + rest)[..2] == U16be(|v|);
  }

  // ---- CHAT_POLICY ----

  function Weight(on: bool, w: nat): nat { if on then w else 0 }

  function FlagNumber(cp: PolicyMachine.ChatPolicy): nat {
    Weight(cp.rules.screenshot, 1) + Weight(cp.rules.attachDownload, 2) + Weight(cp.wantAttach, 4) + Weight(cp.wantEmoji, 8)
    + Weight(cp.wantPresence, 16) + Weight(cp.wantTyping, 32) + Weight(cp.wantReceipts, 64)
  }

  lemma {:induction false} PackStep(x: bool, rest: seq<bool>)
    ensures PolicyWire.Pack([x] + rest) == Weight(x, 1) + 2 * PolicyWire.Pack(rest)
  {
    assert ([x] + rest)[1..] == rest;
  }

  lemma Pack3(a: bool, b: bool, c: bool)
    ensures PolicyWire.Pack([a, b]) == Weight(a, 1) + Weight(b, 2)
    ensures PolicyWire.Pack([a, b, c]) == Weight(a, 1) + Weight(b, 2) + Weight(c, 4)
  {
    PackStep(c, []);
    PackStep(b, []);
    PackStep(b, [c]);
    PackStep(a, [b]);
    PackStep(a, [b, c]);
    assert [c] + [] == [c] && [b] + [] == [b] && [b] + [c] == [b, c] && [a] + [b] == [a, b] && [a] + [b, c] == [a, b, c];
  }

  lemma Pack5(a: bool, b: bool, c: bool, d: bool, e: bool)
    ensures PolicyWire.Pack([a, b, c, d, e]) == Weight(a, 1) + Weight(b, 2) + Weight(c, 4) + Weight(d, 8) + Weight(e, 16)
  {
    Pack3(c, d, e);
    PackStep(b, [c, d, e]);
    assert [b] + [c, d, e] == [b, c, d, e];
    PackStep(a, [b, c, d, e]);
    assert [a] + [b, c, d, e] == [a, b, c, d, e];
  }

  lemma FlagsAre(cp: PolicyMachine.ChatPolicy)
    ensures PolicyWire.Flags(cp) == FlagNumber(cp)
  {
    var wants := [cp.wantAttach, cp.wantEmoji, cp.wantPresence, cp.wantTyping, cp.wantReceipts];
    Pack5(cp.wantAttach, cp.wantEmoji, cp.wantPresence, cp.wantTyping, cp.wantReceipts);
    PackStep(cp.rules.attachDownload, wants);
    PackStep(cp.rules.screenshot, [cp.rules.attachDownload] + wants);
    FlagBitsAre(cp);
  }

  lemma FlagBitsAre(cp: PolicyMachine.ChatPolicy)
    ensures PolicyWire.FlagBits(cp) == [cp.rules.screenshot] + ([cp.rules.attachDownload]
      + [cp.wantAttach, cp.wantEmoji, cp.wantPresence, cp.wantTyping, cp.wantReceipts])
  {
  }

  ghost predicate PolicyTailIs(s: seq<Byte>, cp: PolicyMachine.ChatPolicy) {
    |s| == 18 && s[0] == cp.capId && s[1] == (if cp.capOn then 1 else 0) && s[2..] == cp.proposeId
  }

  lemma PolicyTail(cp: PolicyMachine.ChatPolicy)
    ensures PolicyTailIs([cp.capId] + ([PolicyWire.Bit01(cp.capOn)] + (cp.proposeId + [])), cp)
  {
  }

  /** Version 1, op, TTL, flag word, capability id and state, proposal id. */
  ghost predicate PolicyIs(s: seq<Byte>, cp: PolicyMachine.ChatPolicy) {
    && |s| == 28 && s[0] == 1 && s[1] == cp.op
    && exists a, b :: ThenNumber(s[2..], 4, cp.rules.ttl, a) && ThenNumber(a, 4, FlagNumber(cp), b) && PolicyTailIs(b, cp)
  }

  lemma PolicyLayout(cp: PolicyMachine.ChatPolicy)
    requires PolicyMachine.ValidPayload(cp)
    ensures PolicyWire.Encoding(cp).Ok? && PolicyIs(PolicyWire.Encoding(cp).value, cp)
  {
    var flags := PolicyWire.Flags(cp);
    var s := PolicyWire.Fields(cp, flags);
    var b := [cp.capId] + ([PolicyWire.Bit01(cp.capOn)] + (cp.proposeId + []));
    var a := U32be(flags) + b;
    FlagsAre(cp);
    PolicyTail(cp);
    NumberThen4(flags, b);
    NumberThen4(cp.rules.ttl, a);
    assert s[2..] == U32be(cp.rules.ttl) + a;
    assert ThenNumber(s[2..], 4, cp.rules.ttl, a) && ThenNumber(a, 4, FlagNumber(cp), b);
  }

  // ---- the stored proposal and the stored wants ----

  /** TTL, flag byte, proposal id. */
  lemma PendingLayout(p: PolicyMachine.Pending)
    ensures
      var s := PolicyStore.EncodePending(p);
      && |s| == 21 && ThenNumber(s, 4, p.rules.ttl, s[4..])
      && s[4] == Weight(p.rules.screenshot, 1) + Weight(p.rules.attachDownload, 2) + Weight(p.inbound, 4)
      && s[5..] == p.proposeId
  {
    Pack3(p.rules.screenshot, p.rules.attachDownload, p.inbound);
    var s := PolicyStore.EncodePending(p);
    Number32(p.rules.ttl);
    assert s[..4] == U32be(p.rules.ttl);
  }

  /** Our wants in the low byte, the peer's in the next, flags with screenshots lowest. */
  lemma ColumnsLayout(s: PolicyMachine.PolicyState, b: nat)
    ensures
      var c := PolicyStore.Save(s);
      && c.ttl == s.rules.ttl && c.lastSyncAt == s.lastSyncAt
      && c.flags == Weight(s.rules.screenshot, 1) + Weight(s.rules.attachDownload, 2)
      && (b in c.wants <==> (b < 8 && b in s.localWant) || (8 <= b < 16 && b - 8 in s.peerWant))
      && (c.pending.Some? <==> s.pending.Some?)
  {
    Pack3(s.rules.screenshot, s.rules.attachDownload, false);
    if 8 <= b && b - 8 in PolicyStore.LowByte(s.peerWant) {
      assert (b - 8) + 8 in PolicyStore.PackWants(s.localWant, s.peerWant);
    }
  }

  // ---- attachments ----

  /** Caption with its length, then the flags if there are any; nothing if there is neither. */
  ghost predicate TailIs(s: seq<Byte>, caption: seq<Byte>, flags: Byte, rest: seq<Byte>) {
    if caption == [] && flags == 0 then s == rest
    else exists t :: ThenSized(s, 4, caption, t) && t == (if flags == 0 then rest else [flags] + rest)
  }

  lemma TailLayout(caption: seq<Byte>, flags: Byte, rest: seq<Byte>)
    requires |caption| <= 16_384
    ensures TailIs(AttachWire.Tail(caption, flags) + rest, caption, flags, rest)
  {
    var t := if flags == 0 then rest else [flags] + rest;
    if caption == [] && flags == 0 {
      assert [] + rest == rest;
    } else {
      assert AttachWire.Tail(caption, flags) + rest == Bin.Lp(caption) + t;
      SizedThen4(caption, t);
    }
  }

  /** The two names, each with its length. */
  ghost predicate NamesAre(s: seq<Byte>, h: AttachWire.AttachHead, rest: seq<Byte>) {
    exists a :: ThenSized(s, 4, h.mime, a) && ThenSized(a, 4, h.ext, rest)
  }

  lemma NamesLayout(h: AttachWire.AttachHead, rest: seq<Byte>)
    requires |h.mime| <= 64 && |h.ext| <= 8
    ensures NamesAre(Bin.Lp(h.mime) + (Bin.Lp(h.ext) + rest), h, rest)
  {
    SizedThen4(h.ext, rest);
    SizedThen4(h.mime, Bin.Lp(h.ext) + rest);
  }

  /** Version, media class, the two names, the length of the content, then `rest`. */
  ghost predicate LeadIs(s: seq<Byte>, version: Byte, h: AttachWire.AttachHead, rest: seq<Byte>) {
    |s| >= 2 && s[0] == version && s[1] == h.mediaClass && exists a :: NamesAre(s[2..], h, a) && ThenNumber(a, 4, h.n, rest)
  }

  lemma TwoBytes(x: Byte, y: Byte, rest: seq<Byte>)
    ensures var s := [x] + ([y] + rest); |s| >= 2 && s[0] == x && s[1] == y && s[2..] == rest
  {
  }

  lemma LeadLayout(version: Byte, h: AttachWire.AttachHead, rest: seq<Byte>)
    requires |h.mime| <= 64 && |h.ext| <= 8
    ensures LeadIs(AttachWire.Prefix(version, h, rest), version, h, rest)
  {
    var a := U32be(h.n) + rest;
    NumberThen4(h.n, rest);
    NamesLayout(h, a);
    TwoBytes(version, h.mediaClass, Bin.Lp(h.mime) + (Bin.Lp(h.ext) + a));
  }

  /** Chunk count and bucket. */
  ghost predicate PlanIs(s: seq<Byte>, h: AttachWire.AttachHead, rest: seq<Byte>) {
    exists a :: ThenNumber(s, 2, h.count, a) && ThenNumber(a, 2, h.bucket, rest)
  }

  lemma PlanLayout(h: AttachWire.AttachHead, rest: seq<Byte>)
    ensures PlanIs(U16be(h.count) + (U16be(h.bucket) + rest), h, rest)
  {
    NumberThen2(h.count, U16be(h.bucket) + rest);
    NumberThen2(h.bucket, rest);
  }

  /** Hash, then caption and flags. */
  ghost predicate EndIs(s: seq<Byte>, h: AttachWire.AttachHead, rest: seq<Byte>) {
    exists a :: Then(s, h.sha, a) && TailIs(a, h.caption, h.flags, rest)
  }

  lemma EndLayout(h: AttachWire.AttachHead, rest: seq<Byte>)
    requires |h.caption| <= 16_384
    ensures EndIs(h.sha + (AttachWire.Tail(h.caption, h.flags) + rest), h, rest)
  {
    FieldThen(h.sha, AttachWire.Tail(h.caption, h.flags) + rest);
    TailLayout(h.caption, h.flags, rest);
  }

  /** Version 1: lead, chunk count and bucket, hash, caption and flags. */
  ghost predicate ChunkedIs(s: seq<Byte>, h: AttachWire.AttachHead) {
    exists a, b :: LeadIs(s, 1, h, a) && PlanIs(a, h, b) && EndIs(b, h, [])
  }

  lemma LastEnd(h: AttachWire.AttachHead)
    requires |h.caption| <= 16_384
    ensures EndIs(h.sha + AttachWire.Tail(h.caption, h.flags), h, [])
  {
    EndLayout(h, []);
    assert AttachWire.Tail(h.caption, h.flags) + [] == AttachWire.Tail(h.caption, h.flags);
  }

  lemma ChunkedParts(h: AttachWire.AttachHead, b: seq<Byte>)
    requires |h.mime| <= 64 && |h.ext| <= 8 && EndIs(b, h, [])
    ensures ChunkedIs(AttachWire.Prefix(1, h, U16be(h.count) + (U16be(h.bucket) + b)), h)
  {
    LeadLayout(1, h, U16be(h.count) + (U16be(h.bucket) + b));
    PlanLayout(h, b);
  }

  lemma ChunkedLayout(h: AttachWire.AttachHead)
    requires AttachWire.ValidCommon(h) && AttachWire.ValidPlan(h)
    ensures AttachWire.EncodeSpec(h, None).Ok? && ChunkedIs(AttachWire.EncodeSpec(h, None).value, h)
  {
    LastEnd(h);
    ChunkedParts(h, h.sha + AttachWire.Tail(h.caption, h.flags));
  }

  /** Version 2: lead, hash, caption and flags, the content with its length. */
  ghost predicate InlineIs(s: seq<Byte>, h: AttachWire.AttachHead, blob: seq<Byte>) {
    exists a, b :: LeadIs(s, 2, h, a) && EndIs(a, h, b) && ThenSized(b, 4, blob, [])
  }

  lemma InlineLayout(h: AttachWire.AttachHead, blob: seq<Byte>)
    requires AttachWire.ValidCommon(h) && h.count == 0 && h.bucket == 0 && |blob| == h.n
    ensures AttachWire.EncodeSpec(h, Some(blob)).Ok? && InlineIs(AttachWire.EncodeSpec(h, Some(blob)).value, h, blob)
  {
    var b := Bin.Lp(blob);
    var a := h.sha + (AttachWire.Tail(h.caption, h.flags) + b);
    LeadLayout(2, h, a);
    EndLayout(h, b);
    SizedThen4(blob, []);
    assert b + [] == b;
  }

  /** Head id, index, pad byte, data with its length. */
  lemma ChunkLayout(c: AttachWire.AttachChunk)
    requires AttachWire.ValidChunk(c)
    ensures AttachWire.EncodeChunk(c).Ok?
    ensures
      var s := AttachWire.EncodeChunk(c).value;
      && |s| >= 19 && s[..16] == c.headId && ThenNumber(s[16..], 2, c.index, s[18..]) && s[18] == (if c.pad then 1 else 0)
      && ThenSized(s[19..], 4, c.data, [])
  {
    var s := AttachWire.EncodeChunk(c).value;
    var d := [if c.pad then 1 else 0] + (Bin.Lp(c.data) + []);
    NumberThen2(c.index, d);
    SizedThen4(c.data, []);
    assert s[16..] == U16be(c.index) + d && s[18..] == d && s[19..] == Bin.Lp(c.data) + [];
  }

  // ---- the pack document ----

  /** The ASCII bytes of "s//chat6-v7 Pack". */
  const PACK_DOMAIN: seq<Byte> := [115, 47, 47, 99, 104, 97, 116, 54, 45, 118, 55, 32, 80, 97, 99, 107]

  ghost predicate ShapeIs(s: seq<Byte>, it: PackDoc.Item, rest: seq<Byte>) {
    exists a, b :: ThenNumber(s, 2, it.itemId, a) && ThenNumber(a, 2, it.w, b) && ThenNumber(b, 2, it.h, rest)
  }

  ghost predicate ContentIs(s: seq<Byte>, it: PackDoc.Item, rest: seq<Byte>) {
    exists a :: Then(s, it.sha, a) && ThenSized(a, 4, it.bytes, rest)
  }

  /** Item id, width, height, hash, content with its length. */
  ghost predicate ItemIs(s: seq<Byte>, it: PackDoc.Item, rest: seq<Byte>) {
    exists a :: ShapeIs(s, it, a) && ContentIs(a, it, rest)
  }

  lemma ShapeLayout(it: PackDoc.Item, rest: seq<Byte>)
    ensures ShapeIs(U16be(it.itemId) + (U16be(it.w) + (U16be(it.h) + rest)), it, rest)
  {
    NumberThen2(it.itemId, U16be(it.w) + (U16be(it.h) + rest));
    NumberThen2(it.w, U16be(it.h) + rest);
    NumberThen2(it.h, rest);
  }

  lemma ContentLayout(it: PackDoc.Item, rest: seq<Byte>)
    requires |it.bytes| < Bin.LP_LIMIT
    ensures ContentIs(it.sha + (Bin.Lp(it.bytes) + rest), it, rest)
  {
    FieldThen(it.sha, Bin.Lp(it.bytes) + rest);
    SizedThen4(it.bytes, rest);
  }

  lemma ItemLayout(it: PackDoc.Item, rest: seq<Byte>)
    requires |it.bytes| < Bin.LP_LIMIT
    ensures ItemIs(PackDoc.ItemBytes(it) + rest, it, rest)
  {
    Bin.AppendFive(U16be(it.itemId), U16be(it.w), U16be(it.h), it.sha, Bin.Lp(it.bytes), rest);
    ContentLayout(it, rest);
    ShapeLayout(it, it.sha + (Bin.Lp(it.bytes) + rest));
  }

  /** The items one after the other, to the end. */
  ghost predicate ItemsAre(s: seq<Byte>, items: seq<PackDoc.Item>)
    decreases |items|
  {
    if items == [] then s == []
    else exists rest :: ItemIs(s, items[0], rest) && ItemsAre(rest, items[1..])
  }

  lemma {:induction false} ItemsLayout(items: seq<PackDoc.Item>)
    requires PackDoc.Sized(items)
    ensures ItemsAre(PackDoc.ItemsBytes(items), items)
    decreases |items|
  {
    if items != [] {
      ItemsLayout(items[1..]);
      ItemLayout(items[0], PackDoc.ItemsBytes(items[1..]));
    }
  }

  /** Icon id, item count, items. */
  ghost predicate TableIs(s: seq<Byte>, d: PackDoc.Doc) {
    exists a, b :: ThenNumber(s, 2, d.iconItemId, a) && ThenNumber(a, 2, |d.items|, b) && ItemsAre(b, d.items)
  }

  lemma TableLayout(d: PackDoc.Doc)
    requires |d.items| < 0x1_0000 && PackDoc.Sized(d.items)
    ensures TableIs(U16be(d.iconItemId) + (U16be(|d.items|) + PackDoc.ItemsBytes(d.items)), d)
  {
    var b := PackDoc.ItemsBytes(d.items);
    NumberThen2(d.iconItemId, U16be(|d.items|) + b);
    NumberThen2(|d.items|, b);
    ItemsLayout(d.items);
  }

  /** Domain, pack id, kind, visibility, then `rest`. */
  ghost predicate PackLeadIs(s: seq<Byte>, d: PackDoc.Doc, rest: seq<Byte>) {
    && |s| >= 34 && s[..16] == PACK_DOMAIN && s[16..32] == d.packId && s[32] == d.kind && s[33] == d.visibility
    && s[34..] == rest
  }

  lemma PackLead(d: PackDoc.Doc, rest: seq<Byte>)
    ensures PackLeadIs(PackDoc.DOMAIN + (d.packId + ([d.kind] + ([d.visibility] + rest))), d, rest)
  {
    var lead := PackDoc.DOMAIN + (d.packId + ([d.kind] + [d.visibility]));
    assert PackDoc.DOMAIN + (d.packId + ([d.kind] + ([d.visibility] + rest))) == lead + rest;
    assert |lead| == 34 && lead[..16] == PACK_DOMAIN && lead[16..32] == d.packId;
  }

  /** Lead, title with its length, icon id, item count, items. */
  ghost predicate PackIs(s: seq<Byte>, d: PackDoc.Doc) {
    exists a, b :: PackLeadIs(s, d, a) && ThenSized(a, 4, d.title, b) && TableIs(b, d)
  }

  lemma PackParts(d: PackDoc.Doc, a: seq<Byte>, b: seq<Byte>)
    requires ThenSized(a, 4, d.title, b) && TableIs(b, d)
    ensures PackIs(PackDoc.DOMAIN + (d.packId + ([d.kind] + ([d.visibility] + a))), d)
  {
    PackLead(d, a);
  }

  lemma HeaderLayout(d: PackDoc.Doc)
    requires |d.title| < Bin.LP_LIMIT && |d.items| < 0x1_0000 && PackDoc.Sized(d.items)
    ensures PackIs(PackDoc.HeaderThen(d, PackDoc.ItemsBytes(d.items)), d)
  {
    var b := U16be(d.iconItemId) + (U16be(|d.items|) + PackDoc.ItemsBytes(d.items));
    TableLayout(d);
    SizedThen4(d.title, b);
    PackParts(d, Bin.Lp(d.title) + b, b);
  }

  lemma PackLayout(d: PackDoc.Doc)
    requires PackDoc.Body(d).Ok?
    ensures PackIs(PackDoc.Body(d).value, d)
  {
    HeaderLayout(d);
  }

  // ---- the stream frame ----

  /** One byte for intro and alert, the intro with its length, the frame with its length. */
  ghost predicate FrameIs(s: seq<Byte>, f: Framing.OpaqueFrame) {
    s != [] && match f.intro
      case None => s[0] == (if f.alert then 6 else 5) && ThenSized(s[1..], 2, f.frame, [])
      case Some(intro) =>
        s[0] == (if f.alert then 253 else 252) && exists a :: ThenSized(s[1..], 2, intro, a) && ThenSized(a, 2, f.frame, [])
  }

  lemma FrameLayout(f: Framing.OpaqueFrame)
    requires Framing.Packable(f)
    ensures Framing.PackSpec(f).Ok? && FrameIs(Framing.PackSpec(f).value, f)
  {
    var s := Framing.PackSpec(f).value;
    var t := Framing.Sized(f.frame);
    SizedThen2(f.frame, []);
    assert t + [] == t;
    if f.intro.Some? {
      SizedThen2(f.intro.value, t);
      assert s[1..] == Framing.Sized(f.intro.value) + t;
    } else {
      assert s[1..] == t;
    }
  }

  // ---- bitmaps ----

  /** Bit `i` of a bitmap is bit `i` % 8 of byte `i` / 8, counted from the least significant. */
  lemma BitOrder(bitmap: seq<bv8>, i: nat)
    ensures Bit(bitmap, i) <==> i / 8 < |bitmap| && (bitmap[i / 8] >> (i % 8)) & 1 == 1
  {
    if i / 8 < |bitmap| {
      ByteOrder(bitmap[i / 8], i % 8);
    }
  }

  lemma ByteOrder(b: bv8, k: nat)
    requires k < 8
    ensures BitOfByte(b, k) <==> (b >> k) & 1 == 1
  {
  }

  // ---- the history fingerprint ----

  /** The ASCII bytes of "S7HIST1", the horizon, the bitmap with its length, the inner digest. */
  ghost predicate PreimageIs(s: seq<Byte>, max: U64, bitmap: seq<bv8>, digest: seq<Byte>) {
    && |s| >= 7 && s[..7] == [83, 55, 72, 73, 83, 84, 49]
    && exists a, b :: ThenNumber(s[7..], 8, max, a) && ThenSized(a, 4, b, digest) && SameBytes(b, bitmap)
  }

  ghost predicate SameBytes(b: seq<Byte>, bitmap: seq<bv8>) {
    |b| == |bitmap| && forall i :: 0 <= i < |b| ==> b[i] == bitmap[i] as int
  }

  lemma PreimageLayout(max: U64, bitmap: seq<bv8>, digest: seq<Byte>)
    requires |bitmap| <= 512
    ensures PreimageIs(HistoryHash.Preimage(max, bitmap, digest), max, bitmap, digest)
  {
    var b := HistoryHash.BitmapBytes(bitmap);
    var a := Bin.Lp(b) + digest;
    var s := HistoryHash.Preimage(max, bitmap, digest);
    assert s == HistoryHash.HASH_DOMAIN + (U64be(max) + a);
    assert s[7..] == U64be(max) + a;
    NumberThen8(max, a);
    SizedThen4(b, digest);
    assert SameBytes(b, bitmap);
  }

  /** Eight bytes for each seq, in order. */
  lemma {:induction false} SeqsLayout(seqs: seq<nat>, i: nat)
    requires HistoryHash.AllU64(seqs) && i < |seqs|
    ensures |HistoryHash.SeqBytes(seqs)| == 8 * |seqs| && Number(HistoryHash.SeqBytes(seqs)[8 * i..8 * i + 8]) == seqs[i]
    decreases |seqs|
  {
    var front, last := seqs[..|seqs| - 1], seqs[|seqs| - 1];
    var s := HistoryHash.SeqBytes(seqs);
    assert s == HistoryHash.SeqBytes(front) + U64be(last);
    if i == |seqs| - 1 {
      Number64(last);
      assert s[8 * i..8 * i + 8] == U64be(last);
    } else {
      SeqsLayout(front, i);
      assert s[8 * i..8 * i + 8] == HistoryHash.SeqBytes(front)[8 * i..8 * i + 8];
    }
  }

  // ---- the pairing payload ----

  /** Id, public part, signature. */
  ghost predicate KeyIs(s: seq<Byte>, k: Pairing.SignedKey, rest: seq<Byte>) {
    exists a, b :: ThenNumber(s, 4, k.id, a) && ThenSized(a, 2, k.public, b) && ThenSized(b, 2, k.sig, rest)
  }

  lemma KeyLayout(k: Pairing.SignedKey, rest: seq<Byte>)
    requires Pairing.KeyOk(k, 4096)
    ensures KeyIs(Pairing.KeyBytes(k) + rest, k, rest)
  {
    var b := Pairing.Lp16(k.sig) + rest;
    var a := Pairing.Lp16(k.public) + b;
    var s := U32be(k.id) + a;
    assert Pairing.KeyBytes(k) + rest == s;
    NumberThen4(k.id, a);
    SizedThen2(k.public, b);
    SizedThen2(k.sig, rest);
    assert ThenNumber(s, 4, k.id, a) && ThenSized(a, 2, k.public, b) && ThenSized(b, 2, k.sig, rest);
  }

  /** A zero byte, or a one byte, the id and the key. */
  ghost predicate PreKeyIs(s: seq<Byte>, k: Option<(U32, seq<Byte>)>, rest: seq<Byte>) {
    match k
    case None => Then(s, [0], rest)
    case Some((id, pk)) => exists a, b :: Then(s, [1], a) && ThenNumber(a, 4, id, b) && ThenSized(b, 2, pk, rest)
  }

  lemma PreKeyLayout(k: Option<(U32, seq<Byte>)>, rest: seq<Byte>)
    requires k.Some? ==> |k.value.1| <= 64
    ensures PreKeyIs(Pairing.PreKeyBytes(k) + rest, k, rest)
  {
    match k {
      case None => FieldThen([0], rest);
      case Some((id, pk)) =>
        var b := Pairing.Lp16(pk) + rest;
        var a := U32be(id) + b;
        var s := [1] + a;
        assert Pairing.PreKeyBytes(k) + rest == s;
        FieldThen([1], a);
        NumberThen4(id, b);
        SizedThen2(pk, rest);
        assert Then(s, [1], a) && ThenNumber(a, 4, id, b) && ThenSized(b, 2, pk, rest);
    }
  }

  /** Identity key, registration id, one-time pre-key. */
  ghost predicate IdentityIs(s: seq<Byte>, f: Pairing.Front, rest: seq<Byte>) {
    exists a, b :: ThenSized(s, 2, f.identityKey, a) && ThenNumber(a, 4, f.registrationId, b) && PreKeyIs(b, f.preKey, rest)
  }

  lemma IdentityLayout(f: Pairing.Front, rest: seq<Byte>)
    requires Pairing.FrontOk(f)
    ensures IdentityIs(Pairing.Lp16(f.identityKey) + (U32be(f.registrationId) + (Pairing.PreKeyBytes(f.preKey) + rest)), f, rest)
  {
    var b := Pairing.PreKeyBytes(f.preKey) + rest;
    SizedThen2(f.identityKey, U32be(f.registrationId) + b);
    NumberThen4(f.registrationId, b);
    PreKeyLayout(f.preKey, rest);
  }

  /** The ASCII bytes of "SPAIR7" and version 1, then the identity. */
  ghost predicate FrontIs(s: seq<Byte>, f: Pairing.Front, rest: seq<Byte>) {
    |s| >= 7 && s[..7] == [83, 80, 65, 73, 82, 55, 1] && IdentityIs(s[7..], f, rest)
  }

  lemma FrontGroup(tag: seq<Byte>, v: seq<Byte>, a: seq<Byte>, b: seq<Byte>, c: seq<Byte>, rest: seq<Byte>)
    ensures tag + (v + (a + (b + c))) + rest == tag + (v + (a + (b + (c + rest))))
  {
  }

  lemma TagThen(rest: seq<Byte>)
    ensures
      var s := Pairing.QR_LABEL + ([Pairing.QR_VERSION] + rest);
      |s| >= 7 && s[..7] == [83, 80, 65, 73, 82, 55, 1] && s[7..] == rest
  {
  }

  lemma FrontLayout(f: Pairing.Front, rest: seq<Byte>)
    requires Pairing.FrontOk(f)
    ensures FrontIs(Pairing.FrontBytes(f) + rest, f, rest)
  {
    var id, reg, pre := Pairing.Lp16(f.identityKey), U32be(f.registrationId), Pairing.PreKeyBytes(f.preKey);
    FrontGroup(Pairing.QR_LABEL, [Pairing.QR_VERSION], id, reg, pre, rest);
    TagThen(id + (reg + (pre + rest)));
    IdentityLayout(f, rest);
  }

  ghost predicate AddressIs(s: seq<Byte>, r: Pairing.Reach, rest: seq<Byte>) {
    exists a :: ThenSized(s, 2, r.onion, a) && ThenSized(a, 2, r.clientAuthPublic, rest)
  }

  ghost predicate UntilIs(s: seq<Byte>, r: Pairing.Reach, rest: seq<Byte>) {
    exists a :: ThenSized(s, 2, r.nonce, a) && ThenNumber(a, 8, r.expiresAt, rest)
  }

  /** Onion, client authorisation key, nonce, expiry. */
  ghost predicate ReachIs(s: seq<Byte>, r: Pairing.Reach, rest: seq<Byte>) {
    exists a :: AddressIs(s, r, a) && UntilIs(a, r, rest)
  }

  lemma AddressLayout(r: Pairing.Reach, rest: seq<Byte>)
    requires Pairing.ReachOk(r)
    ensures AddressIs(Pairing.Lp16(r.onion) + (Pairing.Lp16(r.clientAuthPublic) + rest), r, rest)
  {
    SizedThen2(r.onion, Pairing.Lp16(r.clientAuthPublic) + rest);
    SizedThen2(r.clientAuthPublic, rest);
  }

  lemma UntilLayout(r: Pairing.Reach, rest: seq<Byte>)
    requires Pairing.ReachOk(r)
    ensures UntilIs(Pairing.Lp16(r.nonce) + (U64be(r.expiresAt) + rest), r, rest)
  {
    SizedThen2(r.nonce, U64be(r.expiresAt) + rest);
    NumberThen8(r.expiresAt, rest);
  }

  lemma FourGrouped(a: seq<Byte>, b: seq<Byte>, c: seq<Byte>, d: seq<Byte>, rest: seq<Byte>)
    ensures (a + (b + (c + d))) + rest == a + (b + (c + (d + rest)))
  {
  }

  lemma ReachLayout(r: Pairing.Reach, rest: seq<Byte>)
    requires Pairing.ReachOk(r)
    ensures ReachIs(Pairing.ReachBytes(r) + rest, r, rest)
  {
    FourGrouped(Pairing.Lp16(r.onion), Pairing.Lp16(r.clientAuthPublic), Pairing.Lp16(r.nonce), U64be(r.expiresAt), rest);
    UntilLayout(r, rest);
    AddressLayout(r, Pairing.Lp16(r.nonce) + (U64be(r.expiresAt) + rest));
  }

  ghost predicate KeysAre(s: seq<Byte>, p: Pairing.PairingPayload, rest: seq<Byte>) {
    exists a :: KeyIs(s, p.signedPreKey, a) && KeyIs(a, p.kyberPreKey, rest)
  }

  ghost predicate ClosingIs(s: seq<Byte>, p: Pairing.PairingPayload) {
    exists a :: ReachIs(s, p.reach, a) && ThenSized(a, 2, p.signature, [])
  }

  lemma ClosingLayout(p: Pairing.PairingPayload)
    requires Pairing.ReachOk(p.reach) && |p.signature| <= 64
    ensures ClosingIs(Pairing.ReachBytes(p.reach) + Pairing.Lp16(p.signature), p)
  {
    ReachLayout(p.reach, Pairing.Lp16(p.signature));
    SizedThen2(p.signature, []);
    assert Pairing.Lp16(p.signature) + [] == Pairing.Lp16(p.signature);
  }

  lemma KeysLayout(p: Pairing.PairingPayload, rest: seq<Byte>)
    requires Pairing.KeyOk(p.signedPreKey, 4096) && Pairing.KeyOk(p.kyberPreKey, 4096)
    ensures KeysAre(Pairing.KeyBytes(p.signedPreKey) + (Pairing.KeyBytes(p.kyberPreKey) + rest), p, rest)
  {
    KeyLayout(p.signedPreKey, Pairing.KeyBytes(p.kyberPreKey) + rest);
    KeyLayout(p.kyberPreKey, rest);
  }

  /** Front, signed pre-key, Kyber pre-key, reach, signature. */
  ghost predicate PairingIs(s: seq<Byte>, p: Pairing.PairingPayload) {
    exists a, b :: FrontIs(s, p.front, a) && KeysAre(a, p, b) && ClosingIs(b, p)
  }

  lemma Grouped(f: seq<Byte>, a: seq<Byte>, b: seq<Byte>, c: seq<Byte>, d: seq<Byte>)
    ensures f + (a + (b + c)) + d == f + (a + (b + (c + d)))
  {
  }

  lemma EncodeGrouped(p: Pairing.PairingPayload)
    ensures Pairing.Encode(p) == Pairing.FrontBytes(p.front) + (Pairing.KeyBytes(p.signedPreKey)
      + (Pairing.KeyBytes(p.kyberPreKey) + (Pairing.ReachBytes(p.reach) + Pairing.Lp16(p.signature))))
  {
    Grouped(Pairing.FrontBytes(p.front), Pairing.KeyBytes(p.signedPreKey), Pairing.KeyBytes(p.kyberPreKey),
            Pairing.ReachBytes(p.reach), Pairing.Lp16(p.signature));
  }

  lemma PairingParts(p: Pairing.PairingPayload, a: seq<Byte>, b: seq<Byte>)
    requires Pairing.FrontOk(p.front) && KeysAre(a, p, b) && ClosingIs(b, p)
    ensures PairingIs(Pairing.FrontBytes(p.front) + a, p)
  {
    FrontLayout(p.front, a);
  }

  lemma PairingLayout(p: Pairing.PairingPayload)
    requires Pairing.InRange(p)
    ensures PairingIs(Pairing.Encode(p), p)
  {
    var b := Pairing.ReachBytes(p.reach) + Pairing.Lp16(p.signature);
    KeysLayout(p, b);
    ClosingLayout(p);
    EncodeGrouped(p);
    PairingParts(p, Pairing.KeyBytes(p.signedPreKey) + (Pairing.KeyBytes(p.kyberPreKey) + b), b);
  }
}
