/** The signed sticker-pack document and the progress scan over a partial download. */
module PackDoc {
  import opened Bytes
  import opened Bin

  /** The ASCII bytes of "s//chat6-v7 Pack". */
  const DOMAIN: seq<Byte> :=
    [0x73, 0x2f, 0x2f, 0x63, 0x68, 0x61, 0x74, 0x36, 0x2d, 0x76, 0x37, 0x20, 0x50, 0x61, 0x63, 0x6b]

  const KIND_EMOJI: Byte := 1
  const KIND_STICKER: Byte := 2
  const MAX_TITLE_CHARS: nat := 32
  const MAX_PACK_DOC_BYTES: nat := 28 * 1024 * 1024
  const SIGNATURE_BYTES: nat := 64
  const MIN_BODY_BYTES: nat := 16 + 16 + 1 + 1 + 4 + 2 + 2

  datatype Item = Item(itemId: U16, w: U16, h: U16, sha: Sha32, bytes: seq<Byte>)

  datatype Doc = Doc(packId: Id16, kind: Byte, visibility: Byte, title: Str, iconItemId: U16, items: seq<Item>)

  // ---- caps ----

  predicate ValidKind(kind: Byte) { kind == KIND_EMOJI || kind == KIND_STICKER }

  predicate ValidVisibility(visibility: Byte) { visibility == 1 || visibility == 2 }

  function MaxItems(kind: Byte): nat {
    if kind == KIND_EMOJI then 64 else if kind == KIND_STICKER then 50 else 0
  }

  function MaxEdge(kind: Byte): nat {
    if kind == KIND_EMOJI then 160 else if kind == KIND_STICKER then 512 else 0
  }

  function MaxBytes(kind: Byte): nat {
    if kind == KIND_EMOJI then 64 * 1024 else if kind == KIND_STICKER then 512 * 1024 else 0
  }

  predicate AspectOk(kind: Byte, w: U16, h: U16) {
    && w != 0 && h != 0
    && if kind == KIND_EMOJI then w == h else kind == KIND_STICKER && w <= h * 3 && h <= w * 3
  }

  predicate ItemOk(kind: Byte, it: Item) {
    && ValidKind(kind) && 0 < |it.bytes| <= MaxBytes(kind)
    && AspectOk(kind, it.w, it.h) && it.w <= MaxEdge(kind) && it.h <= MaxEdge(kind)
  }

  predicate AllOk(kind: Byte, items: seq<Item>) {
    forall i :: 0 <= i < |items| ==> ItemOk(kind, items[i])
  }

  /** No item id repeats, and none is in `seen`. */
  predicate NoRepeat(items: seq<Item>, seen: set<U16>) {
    && (forall i :: 0 <= i < |items| ==> items[i].itemId !in seen)
    && (forall i, j :: 0 <= i < j < |items| ==> items[i].itemId != items[j].itemId)
  }

  predicate HashesMatch(items: seq<Item>, hash: Hash) {
    forall i :: 0 <= i < |items| ==> hash(items[i].bytes) == items[i].sha
  }

  predicate HasIcon(d: Doc) {
    exists i :: 0 <= i < |d.items| && d.items[i].itemId == d.iconItemId
  }

  predicate HeadOk(d: Doc) {
    && ValidKind(d.kind) && ValidVisibility(d.visibility)
    && |d.title| <= MAX_TITLE_CHARS * 4 && 1 <= |d.items| <= MaxItems(d.kind)
  }

  /** What a pack must satisfy for its document to be accepted by a recipient. */
  predicate WellFormed(d: Doc, hash: Hash) {
    && ValidKind(d.kind) && ValidVisibility(d.visibility) && CharCount(d.title) <= MAX_TITLE_CHARS
    && 1 <= |d.items| <= MaxItems(d.kind) && NoRepeat(d.items, {}) && AllOk(d.kind, d.items)
    && HashesMatch(d.items, hash) && HasIcon(d)
  }

  // ---- the canonical body ----

  function ItemBytes(it: Item): seq<Byte>
    requires |it.bytes| < LP_LIMIT
  {
    U16be(it.itemId) + (U16be(it.w) + (U16be(it.h) + (it.sha + Lp(it.bytes))))
  }

  predicate Sized(items: seq<Item>) {
    forall i :: 0 <= i < |items| ==> |items[i].bytes| < LP_LIMIT
  }

  function ItemsBytes(items: seq<Item>): seq<Byte>
    requires Sized(items)
  {
    if items == [] then [] else ItemBytes(items[0]) + ItemsBytes(items[1..])
  }

  /** The fixed header, in front of what follows it. */
  function HeaderThen(d: Doc, rest: seq<Byte>): seq<Byte>
    requires |d.title| < LP_LIMIT && |d.items| < 0x1_0000
  {
    DOMAIN + (d.packId + ([d.kind] + ([d.visibility] + (Lp(d.title)
    + (U16be(d.iconItemId) + (U16be(|d.items|) + rest))))))
  }

  function Body(d: Doc): (r: Result<seq<Byte>>) {
    if !ValidKind(d.kind) || !ValidVisibility(d.visibility) then Err(BadField)
    else if |d.title| > MAX_TITLE_CHARS * 4 then Err(TooLarge)
    else if |d.items| == 0 || |d.items| > MaxItems(d.kind) then Err(BadField)
    else if !NoRepeat(d.items, {}) || !AllOk(d.kind, d.items) then Err(BadField)
    else Ok(HeaderThen(d, ItemsBytes(d.items)))
  }

  // ---- the structural decode ----

  /** One item record: 2 + 2 + 2 + 32 bytes of head, the length, the bytes. */
  function ReadRecord(s: seq<Byte>, max: nat): (r: Read<Item>) {
    if |s| < 42 then Err(Truncated) else
    var n := FromBe32(s[38..42]);
    if n > max then Err(BadLength)
    else if |s| < 42 + n then Err(Truncated)
    else Ok((Item(FromBe16(s[..2]), FromBe16(s[2..4]), FromBe16(s[4..6]), s[6..38], s[42..42 + n]), s[42 + n..]))
  }

  function ReadItem(s: seq<Byte>, kind: Byte, seen: set<U16>, hash: Hash): (r: Read<Item>) {
    var (it, rest) :- ReadRecord(s, MaxBytes(kind));
    if it.bytes == [] || it.itemId in seen || hash(it.bytes) != it.sha || !ItemOk(kind, it) then Err(BadField)
    else Ok((it, rest))
  }

  lemma ReadItemConsumes(s: seq<Byte>, kind: Byte, seen: set<U16>, hash: Hash)
    requires ReadItem(s, kind, seen, hash).Ok?
    ensures
      var (it, rest) := ReadItem(s, kind, seen, hash).value;
      && GoodItem(it, kind, seen, hash) && |it.bytes| < LP_LIMIT && s == ItemBytes(it) + rest
  {
    var (it, rest) := ReadItem(s, kind, seen, hash).value;
    var n := |it.bytes|;
    assert s[6..38] + (s[38..42] + (s[42..42 + n] + rest)) == s[6..];
    assert s[..2] + (s[2..4] + (s[4..6] + s[6..])) == s;
    assert Lp(it.bytes) + rest == s[38..42] + (s[42..42 + n] + rest);
    AppendFive(U16be(it.itemId), U16be(it.w), U16be(it.h), it.sha, Lp(it.bytes), rest);
  }

  ghost predicate GoodItem(it: Item, kind: Byte, seen: set<U16>, hash: Hash) {
    ItemOk(kind, it) && it.itemId !in seen && hash(it.bytes) == it.sha
  }

  ghost predicate Good(items: seq<Item>, kind: Byte, seen: set<U16>, hash: Hash) {
    AllOk(kind, items) && NoRepeat(items, seen) && HashesMatch(items, hash) && Sized(items)
  }

  lemma {:induction false} Consed(it: Item, items: seq<Item>, kind: Byte, seen: set<U16>, hash: Hash, rest: seq<Byte>)
    requires GoodItem(it, kind, seen, hash) && |it.bytes| < LP_LIMIT
    requires Good(items, kind, seen + {it.itemId}, hash)
    ensures Good([it] + items, kind, seen, hash)
    ensures ItemsBytes([it] + items) + rest == ItemBytes(it) + (ItemsBytes(items) + rest)
  {
    assert ([it] + items)[1..] == items;
    Assoc(ItemBytes(it), ItemsBytes(items), rest);
  }

  lemma {:induction false} Unconsed(items: seq<Item>, kind: Byte, seen: set<U16>)
    requires items != [] && AllOk(kind, items) && NoRepeat(items, seen) && Sized(items)
    ensures
      var it, more := items[0], items[1..];
      && ItemOk(kind, it) && it.itemId !in seen && |it.bytes| < LP_LIMIT
      && AllOk(kind, more) && NoRepeat(more, seen + {it.itemId}) && Sized(more)
      && ItemsBytes(items) == ItemBytes(it) + ItemsBytes(more)
  {
  }

  /** `items` in front of whatever the rest of the table decodes to. */
  ghost function Resume(items: seq<Item>, more: Read<seq<Item>>): Read<seq<Item>> {
    match more
    case Ok((later, rest)) => Ok((items + later, rest))
    case Err(e) => Err(e)
  }

  function ReadItems(s: seq<Byte>, kind: Byte, seen: set<U16>, n: nat, hash: Hash): (r: Read<seq<Item>>)
    ensures r.Ok? ==> Consumed(s, kind, seen, n, hash, r.value.0, r.value.1)
    decreases n
  {
    if n == 0 then
      assert ItemsBytes([]) + s == s;
      Ok(([], s))
    else
      var (it, s1) :- ReadItem(s, kind, seen, hash);
      ReadItemConsumes(s, kind, seen, hash);
      var (items, s2) :- ReadItems(s1, kind, seen + {it.itemId}, n - 1, hash);
      Consed(it, items, kind, seen, hash, s2);
      Ok(([it] + items, s2))
  }

  /** `items` are good and `s` is their table followed by `rest`. */
  ghost predicate Consumed(s: seq<Byte>, kind: Byte, seen: set<U16>, n: nat, hash: Hash, items: seq<Item>, rest: seq<Byte>) {
    |items| == n && Good(items, kind, seen, hash) && s == ItemsBytes(items) + rest
  }

  datatype Head = Head(packId: Id16, kind: Byte, visibility: Byte, title: Str, iconItemId: U16, count: U16)

  /** Domain, pack id, kind and visibility. */
  function ReadLead(s: seq<Byte>): (r: Read<(Id16, Byte, Byte)>)
    ensures r.Ok? ==> s == DOMAIN + (r.value.0.0 + ([r.value.0.1] + ([r.value.0.2] + r.value.1)))
  {
    var (domain, s1) :- TakeN(s, 16);
    if domain != DOMAIN then Err(BadField) else
    var (packId, s2) :- TakeN(s1, 16);
    var (kind, s3) :- ReadU8(s2);
    var (visibility, s4) :- ReadU8(s3);
    Ok(((packId, kind, visibility), s4))
  }

  /** Icon id and item count. */
  function ReadCounts(s: seq<Byte>, kind: Byte): (r: Read<(U16, U16)>)
    ensures r.Ok? ==> 1 <= r.value.0.1 <= MaxItems(kind) && s == U16be(r.value.0.0) + (U16be(r.value.0.1) + r.value.1)
  {
    var (iconItemId, s1) :- ReadU16(s);
    var (count, s2) :- ReadU16(s1);
    if count < 1 || count > MaxItems(kind) then Err(BadField) else
    Ok(((iconItemId, count), s2))
  }

  function ReadHead(s: seq<Byte>): (r: Read<Head>)
    ensures r.Ok? ==>
      var h := r.value.0;
      && ValidKind(h.kind) && ValidVisibility(h.visibility)
      && |h.title| <= MAX_TITLE_CHARS * 4 && CharCount(h.title) <= MAX_TITLE_CHARS
      && 1 <= h.count <= MaxItems(h.kind)
  {
    var ((packId, kind, visibility), s1) :- ReadLead(s);
    if !ValidKind(kind) || !ValidVisibility(visibility) then Err(BadField) else
    var (title, s2) :- ReadLp(s1, MAX_TITLE_CHARS * 4);
    if !ValidUtf8(title) then Err(BadField) else
    if CharCount(title) > MAX_TITLE_CHARS then Err(TooLarge) else
    var ((iconItemId, count), s3) :- ReadCounts(s2, kind);
    Ok((Head(packId, kind, visibility, title, iconItemId, count), s3))
  }

  function Assemble(h: Head, items: seq<Item>): Doc {
    Doc(h.packId, h.kind, h.visibility, h.title, h.iconItemId, items)
  }

  function Decode(body: seq<Byte>, hash: Hash): (r: Result<Doc>) {
    var (h, s) :- ReadHead(body);
    var (items, rest) :- ReadItems(s, h.kind, {}, h.count, hash);
    if rest != [] then Err(Trailing) else
    if !HasIcon(Assemble(h, items)) then Err(BadField) else
    Ok(Assemble(h, items))
  }

  /** `doc ‖ sig`: the signature is checked over everything before the last 64 bytes. */
  function DecodeSigned(blob: seq<Byte>, verify: (seq<Byte>, seq<Byte>) -> bool, hash: Hash): (r: Result<Doc>) {
    if |blob| > MAX_PACK_DOC_BYTES then Err(TooLarge)
    else if |blob| < SIGNATURE_BYTES + MIN_BODY_BYTES then Err(Truncated)
    else if !verify(blob[..|blob| - SIGNATURE_BYTES], blob[|blob| - SIGNATURE_BYTES..]) then Err(BadField)
    else Decode(blob[..|blob| - SIGNATURE_BYTES], hash)
  }

  // ---- decoding accepts only canonical bodies ----

  lemma HeadConsumes(s: seq<Byte>, items: seq<Item>)
    requires ReadHead(s).Ok? && |items| == ReadHead(s).value.0.count
    ensures s == HeaderThen(Assemble(ReadHead(s).value.0, items), ReadHead(s).value.1)
  {
    var ((packId, kind, visibility), s1) := ReadLead(s).value;
    var (title, s2) := ReadLp(s1, MAX_TITLE_CHARS * 4).value;
    assert s1 == Lp(title) + s2;
  }

  /** Whatever the decoder accepts is a well-formed document whose canonical body is the input. */
  lemma AcceptedIsCanonical(body: seq<Byte>, hash: Hash)
    ensures Decode(body, hash).Ok? ==>
      var d := Decode(body, hash).value;
      WellFormed(d, hash) && Body(d) == Ok(body)
  {
    if Decode(body, hash).Ok? {
      var (h, s) := ReadHead(body).value;
      var (items, rest) := ReadItems(s, h.kind, {}, h.count, hash).value;
      assert Consumed(s, h.kind, {}, h.count, hash, items, rest);
      HeadConsumes(body, items);
      assert ItemsBytes(items) + rest == ItemsBytes(items);
      BodyOf(Assemble(h, items), hash);
    }
  }

  lemma BodyOf(d: Doc, hash: Hash)
    requires HeadOk(d) && Good(d.items, d.kind, {}, hash)
    ensures Body(d) == Ok(HeaderThen(d, ItemsBytes(d.items)))
  {
  }

  // ---- decoding inverts the canonical body ----

  /** Where the fields of a record sit. */
  lemma RecordLayout(it: Item, rest: seq<Byte>)
    requires |it.bytes| < LP_LIMIT
    ensures
      var s, n := ItemBytes(it) + rest, |it.bytes|;
      && |s| == 42 + n + |rest| && s[..2] == U16be(it.itemId) && s[2..4] == U16be(it.w) && s[4..6] == U16be(it.h)
      && s[6..38] == it.sha && s[38..42] == U32be(n) && s[42..42 + n] == it.bytes && s[42 + n..] == rest
  {
    var s, n, tail := ItemBytes(it) + rest, |it.bytes|, it.bytes + rest;
    AppendFive(U16be(it.itemId), U16be(it.w), U16be(it.h), it.sha, Lp(it.bytes), rest);
    Assoc(U32be(n), it.bytes, rest);
    Slices(U16be(it.itemId), U16be(it.w), U16be(it.h), it.sha, U32be(n), tail);
    assert s[42..42 + n] == tail[..n] == it.bytes;
    assert s[42 + n..] == tail[n..] == rest;
  }

  lemma Slices(a: seq<Byte>, b: seq<Byte>, c: seq<Byte>, d: seq<Byte>, e: seq<Byte>, rest: seq<Byte>)
    requires |a| == |b| == |c| == 2 && |d| == 32 && |e| == 4
    ensures
      var s := a + (b + (c + (d + (e + rest))));
      && |s| == 42 + |rest| && s[..2] == a && s[2..4] == b && s[4..6] == c && s[6..38] == d && s[38..42] == e && s[42..] == rest
  {
    var s := a + (b + (c + (d + (e + rest))));
    assert s[2..] == b + (c + (d + (e + rest)));
    assert s[4..] == c + (d + (e + rest));
    assert s[6..] == d + (e + rest);
    assert s[38..] == e + rest;
  }

  lemma RecordBack(it: Item, max: nat, rest: seq<Byte>)
    requires |it.bytes| <= max < LP_LIMIT
    ensures ReadRecord(ItemBytes(it) + rest, max) == Ok((it, rest))
  {
    var s := ItemBytes(it) + rest;
    RecordLayout(it, rest);
    U16Injective(FromBe16(s[..2]), it.itemId);
    U16Injective(FromBe16(s[2..4]), it.w);
    U16Injective(FromBe16(s[4..6]), it.h);
    U32Injective(FromBe32(s[38..42]), |it.bytes|);
  }

  lemma ReadItemBack(it: Item, kind: Byte, seen: set<U16>, hash: Hash, rest: seq<Byte>)
    requires GoodItem(it, kind, seen, hash)
    ensures ReadItem(ItemBytes(it) + rest, kind, seen, hash) == Ok((it, rest))
  {
    RecordBack(it, MaxBytes(kind), rest);
  }

  /** Reading one good item more in front. */
  lemma {:induction false} ReadItemsFold(it: Item, tail: seq<Byte>, kind: Byte, seen: set<U16>, n: nat, hash: Hash)
    requires GoodItem(it, kind, seen, hash)
    ensures ReadItems(ItemBytes(it) + tail, kind, seen, n + 1, hash) == Resume([it], ReadItems(tail, kind, seen + {it.itemId}, n, hash))
  {
    ReadItemBack(it, kind, seen, hash, tail);
  }

  lemma {:induction false} GoodTail(items: seq<Item>, kind: Byte, seen: set<U16>, hash: Hash)
    requires items != [] && Good(items, kind, seen, hash)
    ensures GoodItem(items[0], kind, seen, hash) && Good(items[1..], kind, seen + {items[0].itemId}, hash)
    ensures ItemsBytes(items) == ItemBytes(items[0]) + ItemsBytes(items[1..])
  {
    Unconsed(items, kind, seen);
  }

  lemma {:induction false} ReadItemsBack(items: seq<Item>, kind: Byte, seen: set<U16>, hash: Hash, rest: seq<Byte>)
    requires Good(items, kind, seen, hash)
    ensures ReadItems(ItemsBytes(items) + rest, kind, seen, |items|, hash) == Ok((items, rest))
    decreases |items|
  {
    if items == [] {
      assert ItemsBytes(items) + rest == rest;
    } else {
      var it, more := items[0], items[1..];
      GoodTail(items, kind, seen, hash);
      ReadItemsBack(more, kind, seen + {it.itemId}, hash, rest);
      ReadItemsFold(it, ItemsBytes(more) + rest, kind, seen, |more|, hash);
      Assoc(ItemBytes(it), ItemsBytes(more), rest);
      assert [it] + more == items;
    }
  }

  lemma ReadLeadBack(d: Doc, rest: seq<Byte>)
    ensures ReadLead(DOMAIN + (d.packId + ([d.kind] + ([d.visibility] + rest)))) == Ok(((d.packId, d.kind, d.visibility), rest))
  {
    var s3 := [d.visibility] + rest;
    var s2 := [d.kind] + s3;
    TakeBack(DOMAIN, d.packId + s2);
    TakeBack(d.packId, s2);
    ReadU8Back(d.kind, s3);
    ReadU8Back(d.visibility, rest);
  }

  lemma ReadCountsBack(d: Doc, rest: seq<Byte>)
    requires HeadOk(d)
    ensures ReadCounts(U16be(d.iconItemId) + (U16be(|d.items|) + rest), d.kind) == Ok(((d.iconItemId, |d.items|), rest))
  {
    ReadU16Back(d.iconItemId, U16be(|d.items|) + rest);
    ReadU16Back(|d.items|, rest);
  }

  lemma ReadHeadBack(d: Doc, rest: seq<Byte>)
    requires HeadOk(d) && CharCount(d.title) <= MAX_TITLE_CHARS
    ensures ReadHead(HeaderThen(d, rest))
         == Ok((Head(d.packId, d.kind, d.visibility, d.title, d.iconItemId, |d.items|), rest))
  {
    var s2 := U16be(d.iconItemId) + (U16be(|d.items|) + rest);
    ReadLeadBack(d, Lp(d.title) + s2);
    ReadLpBack(d.title, MAX_TITLE_CHARS * 4, s2);
    ReadCountsBack(d, rest);
  }

  lemma {:induction false} CharsBoundBytes(s: Str)
    ensures |s| <= 4 * CharCount(s)
    decreases |s|
  {
    if s != [] {
      CharsBoundBytes(s[ScalarLen(s)..]);
    }
  }

  lemma WellFormedRoundTrip(d: Doc, hash: Hash)
    requires WellFormed(d, hash)
    ensures Body(d).Ok? && Decode(Body(d).value, hash) == Ok(d)
  {
    CharsBoundBytes(d.title);
    ReadHeadBack(d, ItemsBytes(d.items));
    ReadItemsBack(d.items, d.kind, {}, hash, []);
    assert ItemsBytes(d.items) + [] == ItemsBytes(d.items);
  }

  /** A document survives sealing and opening exactly when it is well formed: of the documents
      `Body` accepts, the recipient turns down those with a title over 32 characters, a missing
      icon item or a stale item hash. */
  lemma RoundTripIff(d: Doc, hash: Hash)
    ensures Body(d).Ok? && Decode(Body(d).value, hash) == Ok(d) <==> WellFormed(d, hash)
    ensures Body(d).Ok? ==>
      (WellFormed(d, hash) <==> CharCount(d.title) <= MAX_TITLE_CHARS && HasIcon(d) && HashesMatch(d.items, hash))
  {
    if WellFormed(d, hash) {
      WellFormedRoundTrip(d, hash);
    } else if Body(d).Ok? && Decode(Body(d).value, hash) == Ok(d) {
      AcceptedIsCanonical(Body(d).value, hash);
    }
  }

  // ---- signed documents ----

  lemma {:induction false} ItemsBytesBound(kind: Byte, items: seq<Item>)
    requires AllOk(kind, items) && Sized(items)
    ensures |ItemsBytes(items)| <= |items| * (MaxBytes(kind) + 42)
    decreases |items|
  {
    if items != [] {
      ItemsBytesBound(kind, items[1..]);
      var per := MaxBytes(kind) + 42;
      assert |ItemBytes(items[0])| <= per;
      assert (|items| - 1) * per + per == |items| * per;
    }
  }

  lemma BodyFits(d: Doc)
    requires Body(d).Ok?
    ensures MIN_BODY_BYTES <= |Body(d).value| <= 27 * 1024 * 1024 < MAX_PACK_DOC_BYTES - SIGNATURE_BYTES
  {
    ItemsBytesBound(d.kind, d.items);
    if d.kind == KIND_EMOJI {
      assert |ItemsBytes(d.items)| <= |d.items| * 65578 <= 64 * 65578;
    } else {
      assert |ItemsBytes(d.items)| <= |d.items| * 524330 <= 50 * 524330;
    }
    assert |HeaderThen(d, ItemsBytes(d.items))| == MIN_BODY_BYTES + |d.title| + |ItemsBytes(d.items)|;
  }

  /** Signed documents: acceptance means the signature was checked over exactly the canonical bytes
      of the document handed out, and the size caps never turn a well-formed document away. */
  lemma SignedIff(blob: seq<Byte>, d: Doc, verify: (seq<Byte>, seq<Byte>) -> bool, hash: Hash)
    ensures DecodeSigned(blob, verify, hash) == Ok(d) <==> WellFormed(d, hash) && Seals(blob, d, verify)
  {
    if DecodeSigned(blob, verify, hash) == Ok(d) {
      AcceptedIsCanonical(blob[..|blob| - SIGNATURE_BYTES], hash);
    } else if WellFormed(d, hash) && Seals(blob, d, verify) {
      WellFormedRoundTrip(d, hash);
      BodyFits(d);
    }
  }

  /** `blob` is the canonical body of `d` followed by 64 bytes that verify over that body. */
  ghost predicate Seals(blob: seq<Byte>, d: Doc, verify: (seq<Byte>, seq<Byte>) -> bool) {
    && Body(d).Ok? && |blob| == |Body(d).value| + SIGNATURE_BYTES
    && blob[..|blob| - SIGNATURE_BYTES] == Body(d).value
    && verify(Body(d).value, blob[|blob| - SIGNATURE_BYTES..])
  }

  // ---- the partial scan ----

  function ReadScanHead(s: seq<Byte>): (r: Read<(Byte, U16)>) {
    var ((packId, kind, visibility), s1) :- ReadLead(s);
    if !ValidKind(kind) then Err(BadField) else
    var (title, s2) :- ReadLp(s1, MAX_TITLE_CHARS * 4);
    var ((iconItemId, count), s3) :- ReadCounts(s2, kind);
    Ok(((kind, count), s3))
  }

  /** Steps over one item record by its length alone. */
  function SkipItem(s: seq<Byte>, kind: Byte): (r: Read<U16>) {
    if |s| < 42 then Err(Truncated) else
    var n := FromBe32(s[38..42]);
    if n == 0 || n > MaxBytes(kind) then Err(BadLength)
    else if |s| < 42 + n then Err(Truncated)
    else Ok((FromBe16(s[..2]), s[42 + n..]))
  }

  function CountItems(s: seq<Byte>, kind: Byte, seen: set<U16>, n: nat): (k: nat)
    ensures k <= n
    decreases n
  {
    if n == 0 then 0 else
    match SkipItem(s, kind)
    case Err(_) => 0
    case Ok((itemId, rest)) =>
      if itemId in seen then 0 else 1 + CountItems(rest, kind, seen + {itemId}, n - 1)
  }

  function Scan(partial: seq<Byte>): Option<(nat, nat)> {
    if |partial| > MAX_PACK_DOC_BYTES then None else
    match ReadScanHead(partial)
    case Err(_) => None
    case Ok(((kind, count), s)) => Some((CountItems(s, kind, {}, count), count))
  }

  // Reads that succeed on a prefix read the same on every longer input.

  lemma TakeExtends(s: seq<Byte>, t: seq<Byte>, n: nat)
    requires TakeN(s, n).Ok?
    ensures TakeN(s + t, n) == Ok((TakeN(s, n).value.0, TakeN(s, n).value.1 + t))
  {
    assert (s + t)[..n] == s[..n] && (s + t)[n..] == s[n..] + t;
  }

  lemma ReadU16Extends(s: seq<Byte>, t: seq<Byte>)
    requires ReadU16(s).Ok?
    ensures ReadU16(s + t) == Ok((ReadU16(s).value.0, ReadU16(s).value.1 + t))
  {
    TakeExtends(s, t, 2);
  }

  lemma ReadU32Extends(s: seq<Byte>, t: seq<Byte>)
    requires ReadU32(s).Ok?
    ensures ReadU32(s + t) == Ok((ReadU32(s).value.0, ReadU32(s).value.1 + t))
  {
    TakeExtends(s, t, 4);
  }

  lemma ReadU8Extends(s: seq<Byte>, t: seq<Byte>)
    requires ReadU8(s).Ok?
    ensures ReadU8(s + t) == Ok((ReadU8(s).value.0, ReadU8(s).value.1 + t))
  {
    TakeExtends(s, t, 1);
  }

  lemma ReadLpExtends(s: seq<Byte>, t: seq<Byte>, max: nat)
    requires ReadLp(s, max).Ok?
    ensures ReadLp(s + t, max) == Ok((ReadLp(s, max).value.0, ReadLp(s, max).value.1 + t))
  {
    ReadU32Extends(s, t);
    TakeExtends(ReadU32(s).value.1, t, ReadU32(s).value.0);
  }

  lemma SkipItemExtends(s: seq<Byte>, t: seq<Byte>, kind: Byte)
    requires SkipItem(s, kind).Ok?
    ensures SkipItem(s + t, kind) == Ok((SkipItem(s, kind).value.0, SkipItem(s, kind).value.1 + t))
  {
    var n := FromBe32(s[38..42]);
    assert (s + t)[38..42] == s[38..42] && (s + t)[..2] == s[..2];
    assert (s + t)[42 + n..] == s[42 + n..] + t;
  }

  lemma LeadExtends(s: seq<Byte>, t: seq<Byte>)
    requires ReadLead(s).Ok?
    ensures ReadLead(s + t) == Ok((ReadLead(s).value.0, ReadLead(s).value.1 + t))
  {
    var (_, s1) := TakeN(s, 16).value;
    var (_, s2) := TakeN(s1, 16).value;
    var (_, s3) := ReadU8(s2).value;
    TakeExtends(s, t, 16);
    TakeExtends(s1, t, 16);
    ReadU8Extends(s2, t);
    ReadU8Extends(s3, t);
  }

  lemma CountsExtends(s: seq<Byte>, t: seq<Byte>, kind: Byte)
    requires ReadCounts(s, kind).Ok?
    ensures ReadCounts(s + t, kind) == Ok((ReadCounts(s, kind).value.0, ReadCounts(s, kind).value.1 + t))
  {
    ReadU16Extends(s, t);
    ReadU16Extends(ReadU16(s).value.1, t);
  }

  lemma ScanHeadExtends(s: seq<Byte>, t: seq<Byte>)
    requires ReadScanHead(s).Ok?
    ensures ReadScanHead(s + t) == Ok((ReadScanHead(s).value.0, ReadScanHead(s).value.1 + t))
  {
    var ((_, kind, _), s1) := ReadLead(s).value;
    var (_, s2) := ReadLp(s1, MAX_TITLE_CHARS * 4).value;
    LeadExtends(s, t);
    ReadLpExtends(s1, t, MAX_TITLE_CHARS * 4);
    CountsExtends(s2, t, kind);
  }

  // What the scan sees on canonical bytes.

  lemma SkipItemBack(it: Item, kind: Byte, rest: seq<Byte>)
    requires ItemOk(kind, it)
    ensures SkipItem(ItemBytes(it) + rest, kind) == Ok((it.itemId, rest))
  {
    var s := ItemBytes(it) + rest;
    RecordLayout(it, rest);
    U16Injective(FromBe16(s[..2]), it.itemId);
    U32Injective(FromBe32(s[38..42]), |it.bytes|);
  }

  lemma ScanHeadBack(d: Doc, rest: seq<Byte>)
    requires HeadOk(d)
    ensures ReadScanHead(HeaderThen(d, rest)) == Ok(((d.kind, |d.items|), rest))
  {
    var s2 := U16be(d.iconItemId) + (U16be(|d.items|) + rest);
    ReadLeadBack(d, Lp(d.title) + s2);
    ReadLpBack(d.title, MAX_TITLE_CHARS * 4, s2);
    ReadCountsBack(d, rest);
  }

  /** `k` is the number of whole item records among the first `n` bytes of the item table. */
  ghost predicate WholeRecords(items: seq<Item>, n: nat, k: nat)
    requires Sized(items)
  {
    && k <= |items| && |ItemsBytes(items[..k])| <= n
    && (k < |items| ==> n < |ItemsBytes(items[..k + 1])|)
  }

  /** A record cut short is not stepped over. */
  lemma CutItemFails(it: Item, kind: Byte, rest: seq<Byte>, n: nat)
    requires ItemOk(kind, it) && n < |ItemBytes(it)|
    ensures SkipItem((ItemBytes(it) + rest)[..n], kind).Err?
  {
    var full := ItemBytes(it) + rest;
    SkipItemBack(it, kind, rest);
    assert full[..n] + full[n..] == full;
    if SkipItem(full[..n], kind).Ok? {
      SkipItemExtends(full[..n], full[n..], kind);
    }
  }

  /** A whole first record is stepped over; a cut one ends the count. */
  lemma CountFirst(it: Item, kind: Byte, seen: set<U16>, tail: seq<Byte>, n: nat, more: nat)
    requires ItemOk(kind, it) && it.itemId !in seen && n <= |ItemBytes(it) + tail|
    ensures
      var first := ItemBytes(it);
      CountItems((first + tail)[..n], kind, seen, more + 1)
      == if |first| <= n then 1 + CountItems(tail[..n - |first|], kind, seen + {it.itemId}, more) else 0
  {
    var first := ItemBytes(it);
    if |first| <= n {
      assert (first + tail)[..n] == first + tail[..n - |first|];
      SkipItemBack(it, kind, tail[..n - |first|]);
    } else {
      CutItemFails(it, kind, tail, n);
    }
  }

  /** Whole records from the front within `n` bytes. */
  ghost function Fit(items: seq<Item>, n: nat): (k: nat)
    requires Sized(items)
  {
    if items == [] || n < |ItemBytes(items[0])| then 0
    else 1 + Fit(items[1..], n - |ItemBytes(items[0])|)
  }

  lemma {:induction false} CountFits(items: seq<Item>, kind: Byte, seen: set<U16>, after: seq<Byte>, n: nat)
    requires AllOk(kind, items) && NoRepeat(items, seen) && Sized(items)
    requires n <= |ItemsBytes(items) + after|
    ensures CountItems((ItemsBytes(items) + after)[..n], kind, seen, |items|) == Fit(items, n)
    decreases |items|
  {
    if items != [] {
      var it, more := items[0], items[1..];
      Unconsed(items, kind, seen);
      var first := ItemBytes(it);
      var tail := ItemsBytes(more) + after;
      Assoc(first, ItemsBytes(more), after);
      CountFirst(it, kind, seen, tail, n, |more|);
      if |first| <= n {
        CountFits(more, kind, seen + {it.itemId}, after, n - |first|);
      }
    }
  }

  lemma {:induction false} FitIsWhole(items: seq<Item>, n: nat)
    requires Sized(items)
    ensures WholeRecords(items, n, Fit(items, n))
    decreases |items|
  {
    if items != [] {
      if |ItemBytes(items[0])| <= n {
        FitIsWhole(items[1..], n - |ItemBytes(items[0])|);
        Step(items, n, Fit(items[1..], n - |ItemBytes(items[0])|));
      } else {
        OneMore([], items[0]);
        assert items[..1] == [] + [items[0]];
      }
    }
  }

  lemma Step(items: seq<Item>, n: nat, k: nat)
    requires items != [] && Sized(items) && |ItemBytes(items[0])| <= n
    requires WholeRecords(items[1..], n - |ItemBytes(items[0])|, k)
    ensures WholeRecords(items, n, k + 1)
  {
    assert items[..k + 1][1..] == items[1..][..k];
    if k + 1 < |items| {
      assert items[..k + 2][1..] == items[1..][..k + 1];
    }
  }

  lemma HeadRest(d: Doc, rest: seq<Byte>)
    requires HeadOk(d)
    ensures |HeaderThen(d, rest)| == |HeaderThen(d, [])| + |rest|
    ensures ReadScanHead(HeaderThen(d, rest)).Ok? && ReadScanHead(HeaderThen(d, rest)).value.1 == rest
  {
    HeaderSplits(d, rest);
    ScanHeadBack(d, rest);
  }

  lemma CutReadFails(full: seq<Byte>, n: nat)
    requires n <= |full| && ReadScanHead(full).Ok? && n < |full| - |ReadScanHead(full).value.1|
    ensures ReadScanHead(full[..n]).Err?
  {
    assert full[..n] + full[n..] == full;
    if ReadScanHead(full[..n]).Ok? {
      ScanHeadExtends(full[..n], full[n..]);
    }
  }

  lemma CutHeadFails(d: Doc, rest: seq<Byte>, n: nat)
    requires HeadOk(d) && n < |HeaderThen(d, [])|
    ensures n <= |HeaderThen(d, rest)| && ReadScanHead(HeaderThen(d, rest)[..n]).Err?
  {
    var full := HeaderThen(d, rest);
    HeadRest(d, rest);
    CutReadFails(full, n);
  }

  lemma BlobSplits(d: Doc, sig: seq<Byte>)
    requires Body(d).Ok?
    ensures Body(d).value + sig == HeaderThen(d, ItemsBytes(d.items) + sig)
         == HeaderThen(d, []) + (ItemsBytes(d.items) + sig)
  {
    var header := HeaderThen(d, []);
    HeaderSplits(d, ItemsBytes(d.items));
    HeaderSplits(d, ItemsBytes(d.items) + sig);
    Assoc(header, ItemsBytes(d.items), sig);
  }

  lemma {:induction false} ScanPastHead(d: Doc, part: seq<Byte>)
    requires HeadOk(d) && |HeaderThen(d, []) + part| <= MAX_PACK_DOC_BYTES
    ensures Scan(HeaderThen(d, []) + part) == Some((CountItems(part, d.kind, {}, |d.items|), |d.items|))
  {
    HeaderSplits(d, part);
    ScanHeadBack(d, part);
  }

  lemma PrefixSplits(d: Doc, sig: seq<Byte>, n: nat)
    requires Body(d).Ok? && |sig| == SIGNATURE_BYTES && n <= |ItemsBytes(d.items) + sig|
    ensures |HeaderThen(d, [])| + n <= |Body(d).value + sig| <= MAX_PACK_DOC_BYTES
    ensures (Body(d).value + sig)[..|HeaderThen(d, [])| + n] == HeaderThen(d, []) + (ItemsBytes(d.items) + sig)[..n]
  {
    BodyFits(d);
    BlobSplits(d, sig);
  }

  lemma {:induction false} ScanFits(d: Doc, sig: seq<Byte>, n: nat)
    requires Body(d).Ok? && |sig| == SIGNATURE_BYTES && n <= |ItemsBytes(d.items) + sig|
    ensures |HeaderThen(d, [])| + n <= |Body(d).value + sig|
    ensures Scan((Body(d).value + sig)[..|HeaderThen(d, [])| + n]) == Some((Fit(d.items, n), |d.items|))
  {
    PrefixSplits(d, sig, n);
    ScanPastHead(d, (ItemsBytes(d.items) + sig)[..n]);
    CountFits(d.items, d.kind, {}, sig, n);
  }

  /** On every prefix of an accepted `doc ‖ sig` the scan reports nothing until the header is whole,
      and from then on exactly the number of whole item records inside the prefix. */
  lemma ScanExact(d: Doc, sig: seq<Byte>, n: nat)
    requires Body(d).Ok? && |sig| == SIGNATURE_BYTES && n <= |Body(d).value + sig|
    ensures
      var header := |HeaderThen(d, [])|;
      var scan := Scan((Body(d).value + sig)[..n]);
      if n < header then scan.None?
      else scan.Some? && scan.value.1 == |d.items| && WholeRecords(d.items, n - header, scan.value.0)
  {
    var header, table := HeaderThen(d, []), ItemsBytes(d.items) + sig;
    BlobSplits(d, sig);
    if n < |header| {
      CutHeadFails(d, table, n);
    } else {
      var m: nat := n - |header|;
      ScanFits(d, sig, m);
      FitIsWhole(d.items, m);
    }
  }

  lemma HeaderSplits(d: Doc, rest: seq<Byte>)
    requires |d.title| < LP_LIMIT && |d.items| < 0x1_0000
    ensures HeaderThen(d, []) + rest == HeaderThen(d, rest)
  {
    var a, b, c, e := Lp(d.title), U16be(d.iconItemId), U16be(|d.items|), d.packId;
    assert (a + (b + (c + []))) + rest == a + (b + (c + rest));
    var x := a + (b + (c + []));
    assert (DOMAIN + (e + ([d.kind] + ([d.visibility] + x)))) + rest
        == DOMAIN + (e + ([d.kind] + ([d.visibility] + (x + rest))));
  }

  lemma {:induction false} TableGrows(items: seq<Item>, j: nat, k: nat)
    requires Sized(items) && j <= k <= |items|
    ensures |ItemsBytes(items[..j])| + 42 * (k - j) <= |ItemsBytes(items[..k])|
    decreases k - j
  {
    if j < k {
      TableGrows(items, j, k - 1);
      OneMore(items[..k - 1], items[k - 1]);
      assert items[..k] == items[..k - 1] + [items[k - 1]];
    }
  }

  lemma {:induction false} OneMore(items: seq<Item>, it: Item)
    requires Sized(items) && |it.bytes| < LP_LIMIT
    ensures ItemsBytes(items + [it]) == ItemsBytes(items) + ItemBytes(it)
    decreases |items|
  {
    if items == [] {
      assert [it][1..] == [];
      assert ItemBytes(it) + [] == ItemBytes(it);
    } else {
      assert (items + [it])[1..] == items[1..] + [it];
      OneMore(items[1..], it);
    }
  }

  lemma WholeMonotone(items: seq<Item>, n: nat, n': nat, k: nat, k': nat)
    requires Sized(items) && n <= n' && WholeRecords(items, n, k) && WholeRecords(items, n', k')
    ensures k <= k'
  {
    if k' < k {
      TableGrows(items, k' + 1, k);
    }
  }

  lemma {:induction false} WholeTable(items: seq<Item>, n: nat, k: nat)
    requires Sized(items) && |ItemsBytes(items)| <= n && WholeRecords(items, n, k)
    ensures k == |items|
  {
    assert items[..|items|] == items;
    if k < |items| {
      TableGrows(items, k + 1, |items|);
    }
  }

  lemma ScanWhole(d: Doc, sig: seq<Byte>)
    requires Body(d).Ok? && |sig| == SIGNATURE_BYTES
    ensures Scan(Body(d).value + sig) == Some((|d.items|, |d.items|))
  {
    var blob := Body(d).value + sig;
    ScanExact(d, sig, |blob|);
    assert blob[..|blob|] == blob;
    BlobSplits(d, sig);
    WholeTable(d.items, |blob| - |HeaderThen(d, [])|, Scan(blob).value.0);
  }

  /** Progress never falls as bytes arrive, and the whole blob shows every item complete. */
  lemma ScanMonotone(d: Doc, sig: seq<Byte>, n: nat, n': nat)
    requires Body(d).Ok? && |sig| == SIGNATURE_BYTES && n <= n' <= |Body(d).value + sig|
    ensures
      var blob := Body(d).value + sig;
      && (Scan(blob[..n]).Some? ==> Scan(blob[..n']).Some? && Scan(blob[..n]).value.0 <= Scan(blob[..n']).value.0)
      && Scan(blob) == Some((|d.items|, |d.items|))
  {
    var blob := Body(d).value + sig;
    var header := |HeaderThen(d, [])|;
    ScanExact(d, sig, n);
    ScanExact(d, sig, n');
    ScanWhole(d, sig);
    if header <= n {
      WholeMonotone(d.items, n - header, n' - header, Scan(blob[..n]).value.0, Scan(blob[..n']).value.0);
    }
  }

  // ---- the cursor code ----

  ghost function Ids(items: seq<Item>): set<U16> {
    set i | 0 <= i < |items| :: items[i].itemId
  }

  ghost predicate Fine(kind: Byte, items: seq<Item>) { NoRepeat(items, {}) && AllOk(kind, items) && Sized(items) }

  /** One more item is fine exactly when its id is new and its caps hold. */
  lemma FineStep(kind: Byte, items: seq<Item>, it: Item)
    requires Fine(kind, items)
    ensures Ids(items + [it]) == Ids(items) + {it.itemId}
    ensures it.itemId !in Ids(items) && ItemOk(kind, it) ==> Fine(kind, items + [it])
  {
    var all := items + [it];
    forall id | id in Ids(all) ensures id in Ids(items) + {it.itemId} {
      var i :| 0 <= i < |all| && all[i].itemId == id;
      assert i < |items| ==> items[i].itemId in Ids(items);
    }
    forall id | id in Ids(items) ensures id in Ids(all) {
      var i :| 0 <= i < |items| && items[i].itemId == id;
      assert all[i].itemId == id;
    }
    assert all[|items|].itemId in Ids(all);
    forall i | 0 <= i < |items| ensures items[i].itemId in Ids(items) {
    }
  }

  lemma NotFine(kind: Byte, items: seq<Item>, i: nat)
    requires i < |items| && (items[i].itemId in Ids(items[..i]) || !ItemOk(kind, items[i]))
    ensures !(NoRepeat(items, {}) && AllOk(kind, items))
  {
    if items[i].itemId in Ids(items[..i]) {
      var j :| 0 <= j < i && items[..i][j].itemId == items[i].itemId;
      assert items[j].itemId == items[i].itemId;
    }
  }

  method WriteHeader(w: Writer, d: Doc)
    requires |d.title| < LP_LIMIT && |d.items| < 0x1_0000 && w.buf == []
    modifies w
    ensures w.buf == HeaderThen(d, [])
  {
    w.Raw(DOMAIN);
    w.Raw(d.packId);
    w.U8(d.kind);
    w.U8(d.visibility);
    ghost var half := w.buf;
    w.LpField(d.title);
    w.U16(d.iconItemId);
    w.U16(|d.items|);
    ghost var rest := Lp(d.title) + (U16be(d.iconItemId) + (U16be(|d.items|) + []));
    assert w.buf == half + rest;
    assert half + rest == DOMAIN + (d.packId + ([d.kind] + ([d.visibility] + rest)));
  }

  method WriteItem(w: Writer, it: Item)
    requires |it.bytes| < LP_LIMIT
    modifies w
    ensures w.buf == old(w.buf) + ItemBytes(it)
  {
    w.U16(it.itemId);
    w.U16(it.w);
    w.U16(it.h);
    w.Raw(it.sha);
    w.LpField(it.bytes);
    assert w.buf == old(w.buf) + ItemBytes(it);
  }

  method WriteItems(w: Writer, kind: Byte, items: seq<Item>) returns (ok: bool)
    modifies w
    ensures ok <==> NoRepeat(items, {}) && AllOk(kind, items)
    ensures ok ==> Sized(items) && w.buf == old(w.buf) + ItemsBytes(items)
  {
    var seen: set<U16> := {};
    assert old(w.buf) + ItemsBytes([]) == old(w.buf);
    for i := 0 to |items|
      invariant seen == Ids(items[..i]) && Fine(kind, items[..i])
      invariant w.buf == old(w.buf) + ItemsBytes(items[..i])
    {
      var it := items[i];
      assert items[..i + 1] == items[..i] + [it];
      FineStep(kind, items[..i], it);
      if it.itemId in seen {
        NotFine(kind, items, i);
        return false;
      }
      seen := seen + {it.itemId};
      if !ItemOk(kind, it) {
        NotFine(kind, items, i);
        return false;
      }
      OneMore(items[..i], it);
      Assoc(old(w.buf), ItemsBytes(items[..i]), ItemBytes(it));
      WriteItem(w, it);
    }
    assert items[..|items|] == items;
    return true;
  }

  method BodyBytes(d: Doc) returns (r: Result<seq<Byte>>)
    ensures r == Body(d)
  {
    if !ValidKind(d.kind) || !ValidVisibility(d.visibility) {
      return Err(BadField);
    }
    if |d.title| > MAX_TITLE_CHARS * 4 {
      return Err(TooLarge);
    }
    if |d.items| == 0 || |d.items| > MaxItems(d.kind) {
      return Err(BadField);
    }
    var w := new Writer();
    WriteHeader(w, d);
    var ok := WriteItems(w, d.kind, d.items);
    if !ok {
      return Err(BadField);
    }
    HeaderSplits(d, ItemsBytes(d.items));
    return Ok(w.buf);
  }

  method TakeLead(rd: Reader) returns (r: Result<(Id16, Byte, Byte)>)
    requires rd.Valid()
    modifies rd`pos
    ensures rd.Valid() && Follows(r, rd.Rest(), ReadLead(old(rd.Rest())))
  {
    var domain :- rd.Take(16);
    if domain != DOMAIN {
      return Err(BadField);
    }
    var packId :- rd.Take(16);
    var kind :- rd.U8();
    var visibility :- rd.U8();
    return Ok((packId, kind, visibility));
  }

  method TakeCounts(rd: Reader, kind: Byte) returns (r: Result<(U16, U16)>)
    requires rd.Valid()
    modifies rd`pos
    ensures rd.Valid() && Follows(r, rd.Rest(), ReadCounts(old(rd.Rest()), kind))
  {
    var iconItemId :- rd.U16();
    var count :- rd.U16();
    if count < 1 || count > MaxItems(kind) {
      return Err(BadField);
    }
    return Ok((iconItemId, count));
  }

  method TakeHead(rd: Reader) returns (r: Result<Head>)
    requires rd.Valid()
    modifies rd`pos
    ensures rd.Valid() && Follows(r, rd.Rest(), ReadHead(old(rd.Rest())))
  {
    var lead :- TakeLead(rd);
    var (packId, kind, visibility) := lead;
    if !ValidKind(kind) || !ValidVisibility(visibility) {
      return Err(BadField);
    }
    var title :- rd.LpField(MAX_TITLE_CHARS * 4);
    if !ValidUtf8(title) {
      return Err(BadField);
    }
    if CharCount(title) > MAX_TITLE_CHARS {
      return Err(TooLarge);
    }
    var counts :- TakeCounts(rd, kind);
    return Ok(Head(packId, kind, visibility, title, counts.0, counts.1));
  }

  method TakeRecordHead(rd: Reader) returns (r: Result<(U16, U16, U16, Sha32)>)
    requires rd.Valid()
    modifies rd`pos
    ensures rd.Valid()
    ensures
      var s := old(rd.Rest());
      if |s| < 38 then r == Err(Truncated)
      else r == Ok((FromBe16(s[..2]), FromBe16(s[2..4]), FromBe16(s[4..6]), s[6..38])) && rd.Rest() == s[38..]
  {
    ghost var s := rd.Rest();
    var itemId :- rd.U16();
    var w :- rd.U16();
    assert s[2..][..2] == s[2..4] && rd.Rest() == s[4..];
    var h :- rd.U16();
    assert s[4..][..2] == s[4..6] && rd.Rest() == s[6..];
    var sha :- rd.Take(32);
    assert s[6..][..32] == s[6..38] && rd.Rest() == s[38..];
    return Ok((itemId, w, h, sha));
  }

  method TakeRecord(rd: Reader, max: nat) returns (r: Result<Item>)
    requires rd.Valid()
    modifies rd`pos
    ensures rd.Valid() && Follows(r, rd.Rest(), ReadRecord(old(rd.Rest()), max))
  {
    ghost var s := rd.Rest();
    var head :- TakeRecordHead(rd);
    var n :- rd.U32();
    assert s[38..][..4] == s[38..42] && rd.Rest() == s[42..];
    if n > max {
      return Err(BadLength);
    }
    var bytes :- rd.Take(n);
    assert s[42..][..n] == s[42..42 + n] && rd.Rest() == s[42 + n..];
    return Ok(Item(head.0, head.1, head.2, head.3, bytes));
  }

  method TakeItem(rd: Reader, kind: Byte, seen: set<U16>, hash: Hash) returns (r: Result<Item>)
    requires rd.Valid()
    modifies rd`pos
    ensures rd.Valid() && Follows(r, rd.Rest(), ReadItem(old(rd.Rest()), kind, seen, hash))
  {
    var it :- TakeRecord(rd, MaxBytes(kind));
    if |it.bytes| == 0 {
      return Err(BadField);
    }
    if it.itemId in seen {
      return Err(BadField);
    }
    if hash(it.bytes) != it.sha {
      return Err(BadField);
    }
    if !ItemOk(kind, it) {
      return Err(BadField);
    }
    return Ok(it);
  }

  lemma ResumeOk(items: seq<Item>, s: seq<Byte>, kind: Byte, seen: set<U16>, n: nat, hash: Hash, it: Item, rest: seq<Byte>)
    requires n > 0 && ReadItem(s, kind, seen, hash) == Ok((it, rest))
    ensures Resume(items, ReadItems(s, kind, seen, n, hash))
         == Resume(items + [it], ReadItems(rest, kind, seen + {it.itemId}, n - 1, hash))
  {
    var later := ReadItems(rest, kind, seen + {it.itemId}, n - 1, hash);
    if later.Ok? {
      assert items + ([it] + later.value.0) == items + [it] + later.value.0;
    }
  }

  lemma {:induction false} ResumeErr(items: seq<Item>, s: seq<Byte>, kind: Byte, seen: set<U16>, n: nat, hash: Hash)
    requires n > 0 && ReadItem(s, kind, seen, hash).Err?
    ensures Resume(items, ReadItems(s, kind, seen, n, hash)) == Err(ReadItem(s, kind, seen, hash).error)
  {
  }

  lemma ResumeNothing(more: Read<seq<Item>>)
    ensures Resume([], more) == more
  {
    if more.Ok? {
      assert [] + more.value.0 == more.value.0;
    }
  }

  /** One turn of the item loop: `whole` is what the rest of the table decodes to behind `items`. */
  method NextItem(rd: Reader, kind: Byte, seen: set<U16>, hash: Hash, ghost items: seq<Item>, ghost left: nat,
                  ghost whole: Read<seq<Item>>) returns (r: Result<Item>)
    requires rd.Valid() && left > 0 && whole == Resume(items, ReadItems(rd.Rest(), kind, seen, left, hash))
    modifies rd`pos
    ensures rd.Valid() && (r.Err? ==> whole == Err(r.error))
    ensures r.Ok? ==> whole == Resume(items + [r.value], ReadItems(rd.Rest(), kind, seen + {r.value.itemId}, left - 1, hash))
  {
    ghost var s := rd.Rest();
    r := TakeItem(rd, kind, seen, hash);
    if r.Err? {
      ResumeErr(items, s, kind, seen, left, hash);
    } else {
      ResumeOk(items, s, kind, seen, left, hash, r.value, rd.Rest());
    }
  }

  method TakeItems(rd: Reader, kind: Byte, count: nat, hash: Hash) returns (r: Result<seq<Item>>)
    requires rd.Valid()
    modifies rd`pos
    ensures rd.Valid() && Follows(r, rd.Rest(), ReadItems(old(rd.Rest()), kind, {}, count, hash))
  {
    ghost var whole := ReadItems(rd.Rest(), kind, {}, count, hash);
    var items: seq<Item> := [];
    var seen: set<U16> := {};
    ResumeNothing(whole);
    var left := count;
    while left > 0
      invariant rd.Valid()
      invariant whole == Resume(items, ReadItems(rd.Rest(), kind, seen, left, hash))
    {
      var it :- NextItem(rd, kind, seen, hash, items, left, whole);
      seen := seen + {it.itemId};
      items := items + [it];
      left := left - 1;
    }
    assert items + [] == items;
    return Ok(items);
  }

  method DecodeBody(body: seq<Byte>, hash: Hash) returns (r: Result<Doc>)
    ensures r == Decode(body, hash)
  {
    var rd := new Reader(body);
    var h :- TakeHead(rd);
    var items :- TakeItems(rd, h.kind, h.count, hash);
    var _ :- rd.ExpectEnd();
    if !HasIcon(Assemble(h, items)) {
      return Err(BadField);
    }
    return Ok(Assemble(h, items));
  }

  method TakeScanHead(rd: Reader) returns (r: Result<(Byte, U16)>)
    requires rd.Valid()
    modifies rd`pos
    ensures rd.Valid() && Follows(r, rd.Rest(), ReadScanHead(old(rd.Rest())))
  {
    var lead :- TakeLead(rd);
    var (packId, kind, visibility) := lead;
    if !ValidKind(kind) {
      return Err(BadField);
    }
    var title :- rd.LpField(MAX_TITLE_CHARS * 4);
    var counts :- TakeCounts(rd, kind);
    return Ok((kind, counts.1));
  }

  method StepOver(rd: Reader, kind: Byte) returns (r: Result<U16>)
    requires rd.Valid()
    modifies rd`pos
    ensures rd.Valid() && Follows(r, rd.Rest(), SkipItem(old(rd.Rest()), kind))
  {
    ghost var s := rd.Rest();
    var itemId :- rd.U16();
    var head :- rd.Take(36);
    assert rd.Rest() == s[38..];
    var n :- rd.U32();
    assert s[38..][..4] == s[38..42] && rd.Rest() == s[42..];
    if n == 0 || n > MaxBytes(kind) {
      return Err(BadLength);
    }
    var bytes :- rd.Take(n);
    return Ok(itemId);
  }

  lemma CountOk(s: seq<Byte>, kind: Byte, seen: set<U16>, n: nat, id: U16, rest: seq<Byte>)
    ensures n > 0 && SkipItem(s, kind) == Ok((id, rest)) && id !in seen ==>
      CountItems(s, kind, seen, n) == 1 + CountItems(rest, kind, seen + {id}, n - 1)
  {
  }

  lemma {:induction false} CountStops(s: seq<Byte>, kind: Byte, seen: set<U16>, n: nat)
    ensures SkipItem(s, kind).Err? || SkipItem(s, kind).value.0 in seen ==> CountItems(s, kind, seen, n) == 0
  {
  }

  /** One turn of the scan: step over a whole record with a new id and leave `more` records to count, or stop. */
  method NextRecord(rd: Reader, kind: Byte, seen: set<U16>, ghost left: nat, ghost rest: nat)
    returns (id: Option<U16>, ghost more: nat)
    requires rd.Valid() && rest == CountItems(rd.Rest(), kind, seen, left + 1)
    modifies rd`pos
    ensures rd.Valid() && rest == if id.Some? then 1 + more else 0
    ensures id.Some? ==> more == CountItems(rd.Rest(), kind, seen + {id.value}, left)
  {
    ghost var s := rd.Rest();
    var r := StepOver(rd, kind);
    if r.Err? || r.value in seen {
      CountStops(s, kind, seen, left + 1);
      return None, 0;
    }
    CountOk(s, kind, seen, left + 1, r.value, rd.Rest());
    return Some(r.value), CountItems(rd.Rest(), kind, seen + {r.value}, left);
  }

  method CountWholeItems(rd: Reader, kind: Byte, count: nat) returns (complete: nat)
    requires rd.Valid()
    modifies rd`pos
    ensures complete == CountItems(old(rd.Rest()), kind, {}, count)
  {
    complete := 0;
    var seen: set<U16> := {};
    ghost var whole := CountItems(rd.Rest(), kind, seen, count);
    ghost var rest, left := whole, count;
    while complete < count
      invariant complete + left == count && rd.Valid() && whole == complete + rest
      invariant rest == CountItems(rd.Rest(), kind, seen, left)
    {
      left := left - 1;
      var id;
      id, rest := NextRecord(rd, kind, seen, left, rest);
      if id.None? {
        return;
      }
      seen := seen + {id.value};
      complete := complete + 1;
    }
  }

  /** Progress over a partially reassembled blob: (complete items, total items). */
  method ScanPartial(partial: seq<Byte>) returns (r: Option<(nat, nat)>)
    ensures r == Scan(partial)
  {
    if |partial| > MAX_PACK_DOC_BYTES {
      return None;
    }
    var rd := new Reader(partial);
    var head := TakeScanHead(rd);
    if head.Err? {
      return None;
    }
    var (kind, count) := head.value;
    var complete := CountWholeItems(rd, kind, count);
    return Some((complete, count));
  }
}
