/** Outer wire framing: flag, optional intro, sized record. */
module Framing {
  import opened Bytes
  import opened Bin

  const FLAG_QUIET: Byte := 0x05
  const FLAG_ALERT: Byte := 0x06
  const INTRO_QUIET: Byte := 0xFC
  const INTRO_ALERT: Byte := 0xFD
  const VERSION_V2: Byte := 2
  const MAX_INTRO_BYTES: nat := 8192

  /** The record sizes. */
  predicate IsBucket(n: nat) {
    n == 256 || n == 512 || n == 1024 || n == 4096 || n == 16384 || n == 32768
  }

  /** The two u16-sized fields and the lengths each accepts. */
  datatype Field = Intro | Record

  predicate LenOk(k: Field, n: nat) {
    match k
    case Intro => 1 <= n <= MAX_INTRO_BYTES
    case Record => IsBucket(n)
  }

  datatype OpaqueFrame = OpaqueFrame(intro: Option<seq<Byte>>, frame: seq<Byte>, alert: bool)

  predicate Packable(f: OpaqueFrame) {
    && IsBucket(|f.frame|) && f.frame[0] == VERSION_V2
    && (f.intro.Some? ==> 1 <= |f.intro.value| <= MAX_INTRO_BYTES)
  }

  function Sized(v: seq<Byte>): seq<Byte>
    requires |v| < 0x1_0000
  {
    U16be(|v|) + v
  }

  function Flag(f: OpaqueFrame): Byte {
    if f.intro.None? then (if f.alert then FLAG_ALERT else FLAG_QUIET)
    else (if f.alert then INTRO_ALERT else INTRO_QUIET)
  }

  function PackSpec(f: OpaqueFrame): Result<seq<Byte>> {
    if !Packable(f) then Err(BadField)
    else if f.intro.None? then Ok([Flag(f)] + Sized(f.frame))
    else Ok([Flag(f)] + (Sized(f.intro.value) + Sized(f.frame)))
  }

  /** What reading one frame from a stream yields. */
  datatype Outcome = Eof | Got(f: OpaqueFrame, rest: seq<Byte>) | Malformed

  function ReadSized(s: seq<Byte>, k: Field): (r: Read<seq<Byte>>)
    ensures r.Ok? ==> LenOk(k, |r.value.0|) && |r.value.0| < 0x1_0000 && s == Sized(r.value.0) + r.value.1
  {
    var (n, s1) :- ReadU16(s);
    if !LenOk(k, n) then Err(BadLength) else
    var (v, rest) :- TakeN(s1, n);
    assert s == U16be(n) + (v + rest);
    Ok((v, rest))
  }

  lemma ReadSizedBack(v: seq<Byte>, k: Field, rest: seq<Byte>)
    requires |v| < 0x1_0000 && LenOk(k, |v|)
    ensures ReadSized(Sized(v) + rest, k) == Ok((v, rest))
  {
    assert Sized(v) + rest == U16be(|v|) + (v + rest);
    ReadU16Back(|v|, v + rest);
    TakeBack(v, rest);
  }

  function ReadRecord(s: seq<Byte>, intro: Option<seq<Byte>>, alert: bool): (r: Outcome)
    ensures r.Got? ==> r.f == OpaqueFrame(intro, r.f.frame, alert) && IsBucket(|r.f.frame|)
    ensures r.Got? ==> r.f.frame[0] == VERSION_V2 && s == Sized(r.f.frame) + r.rest
    ensures !r.Eof?
  {
    match ReadSized(s, Record)
    case Err(_) => Malformed
    case Ok((frame, rest)) =>
      if frame[0] == VERSION_V2 then Got(OpaqueFrame(intro, frame, alert), rest) else Malformed
  }

  function ReadSpec(s: seq<Byte>): Outcome {
    if s == [] then Eof
    else
      var flag := s[0];
      if flag == FLAG_QUIET || flag == FLAG_ALERT then ReadRecord(s[1..], None, flag == FLAG_ALERT)
      else if flag == INTRO_QUIET || flag == INTRO_ALERT then
        match ReadSized(s[1..], Intro)
        case Err(_) => Malformed
        case Ok((intro, s2)) => ReadRecord(s2, Some(intro), flag == INTRO_ALERT)
      else Malformed
  }

  // ---- one frame ----

  lemma ReadOfPack(f: OpaqueFrame, rest: seq<Byte>)
    requires PackSpec(f).Ok?
    ensures ReadSpec(PackSpec(f).value + rest) == Got(f, rest)
  {
    var s := PackSpec(f).value + rest;
    ReadSizedBack(f.frame, Record, rest);
    if f.intro.None? {
      Assoc([Flag(f)], Sized(f.frame), rest);
      assert s[1..] == Sized(f.frame) + rest;
    } else {
      Assoc([Flag(f)], Sized(f.intro.value) + Sized(f.frame), rest);
      Assoc(Sized(f.intro.value), Sized(f.frame), rest);
      assert s[1..] == Sized(f.intro.value) + (Sized(f.frame) + rest);
      ReadSizedBack(f.intro.value, Intro, Sized(f.frame) + rest);
    }
  }

  lemma PlainOfRead(s: seq<Byte>)
    requires ReadSpec(s).Got? && ReadSpec(s).f.intro.None?
    ensures PackSpec(ReadSpec(s).f).Ok? && s == PackSpec(ReadSpec(s).f).value + ReadSpec(s).rest
  {
    var f, rest := ReadSpec(s).f, ReadSpec(s).rest;
    Assoc([s[0]], Sized(f.frame), rest);
    assert s == [s[0]] + s[1..];
  }

  lemma IntroOfRead(s: seq<Byte>)
    requires ReadSpec(s).Got? && ReadSpec(s).f.intro.Some?
    ensures PackSpec(ReadSpec(s).f).Ok? && s == PackSpec(ReadSpec(s).f).value + ReadSpec(s).rest
  {
    var f, rest := ReadSpec(s).f, ReadSpec(s).rest;
    Assoc([s[0]], Sized(f.intro.value) + Sized(f.frame), rest);
    Assoc(Sized(f.intro.value), Sized(f.frame), rest);
    assert s == [s[0]] + s[1..];
  }

  lemma PackOfRead(s: seq<Byte>)
    requires ReadSpec(s).Got?
    ensures PackSpec(ReadSpec(s).f).Ok? && s == PackSpec(ReadSpec(s).f).value + ReadSpec(s).rest
  {
    if ReadSpec(s).f.intro.None? {
      PlainOfRead(s);
    } else {
      IntroOfRead(s);
    }
  }

  /** Canonical framing: a frame is read off a stream exactly when its packing is what the
      stream starts with. */
  lemma FrameCanonical(s: seq<Byte>, f: OpaqueFrame, rest: seq<Byte>)
    ensures ReadSpec(s) == Got(f, rest) <==> PackSpec(f).Ok? && s == PackSpec(f).value + rest
  {
    if ReadSpec(s) == Got(f, rest) {
      PackOfRead(s);
    }
    if PackSpec(f).Ok? && s == PackSpec(f).value + rest {
      ReadOfPack(f, rest);
    }
  }

  // ---- a whole connection ----

  ghost predicate AllPack(fs: seq<OpaqueFrame>) {
    forall i :: 0 <= i < |fs| ==> PackSpec(fs[i]).Ok?
  }

  ghost function Stream(fs: seq<OpaqueFrame>): seq<Byte>
    requires AllPack(fs)
  {
    if fs == [] then [] else PackSpec(fs[0]).value + Stream(fs[1..])
  }

  /** Frames until end of stream; None if the stream is malformed anywhere. */
  function ReadAll(s: seq<Byte>): Option<seq<OpaqueFrame>>
    decreases |s|
  {
    match ReadSpec(s)
    case Eof => Some([])
    case Malformed => None
    case Got(f, rest) =>
      PackOfRead(s);
      match ReadAll(rest)
      case None => None
      case Some(fs) => Some([f] + fs)
  }

  lemma {:induction false} ReadAllOfStream(fs: seq<OpaqueFrame>)
    requires AllPack(fs)
    ensures ReadAll(Stream(fs)) == Some(fs)
    decreases |fs|
  {
    if fs != [] {
      ReadOfPack(fs[0], Stream(fs[1..]));
      ReadAllOfStream(fs[1..]);
      assert fs == [fs[0]] + fs[1..];
    }
  }

  lemma {:induction false} StreamOfReadAll(s: seq<Byte>)
    requires ReadAll(s).Some?
    ensures AllPack(ReadAll(s).value) && s == Stream(ReadAll(s).value)
    decreases |s|
  {
    if s != [] {
      PackOfRead(s);
      StreamOfReadAll(ReadSpec(s).rest);
      var fs := ReadAll(s).value;
      assert fs[0] == ReadSpec(s).f && fs[1..] == ReadAll(ReadSpec(s).rest).value;
    }
  }

  /** A connection reads as the frames `fs` and then a clean end exactly when its bytes are the
      packed frames, one after another. */
  lemma {:induction false} StreamCanonical(s: seq<Byte>, fs: seq<OpaqueFrame>)
    ensures ReadAll(s) == Some(fs) <==> AllPack(fs) && s == Stream(fs)
  {
    if ReadAll(s) == Some(fs) {
      StreamOfReadAll(s);
    }
    if AllPack(fs) && s == Stream(fs) {
      ReadAllOfStream(fs);
    }
  }

  // ---- the buffer and stream code ----

  method Pack(intro: Option<seq<Byte>>, frame: seq<Byte>, alert: bool) returns (r: Result<seq<Byte>>)
    ensures r == PackSpec(OpaqueFrame(intro, frame, alert))
  {
    if !IsBucket(|frame|) || frame[0] != VERSION_V2 {
      return Err(BadField);
    }
    var out: seq<Byte> := [];
    if intro.None? {
      out := out + [if alert then FLAG_ALERT else FLAG_QUIET];
      out := out + U16be(|frame|);
    } else {
      if |intro.value| == 0 || |intro.value| > MAX_INTRO_BYTES {
        return Err(BadField);
      }
      out := out + [if alert then INTRO_ALERT else INTRO_QUIET];
      out := out + U16be(|intro.value|);
      out := out + intro.value;
      assert out == [Flag(OpaqueFrame(intro, frame, alert))] + Sized(intro.value);
      out := out + U16be(|frame|);
    }
    out := out + frame;
    assert out == PackSpec(OpaqueFrame(intro, frame, alert)).value;
    return Ok(out);
  }

  class ByteStream {
    var data: seq<Byte>

    constructor (bytes: seq<Byte>)
      ensures data == bytes
    {
      data := bytes;
    }

    method ReadExact(n: nat) returns (r: Result<seq<Byte>>)
      modifies this
      ensures Follows(r, data, TakeN(old(data), n))
      ensures r.Err? ==> data == []
    {
      if |data| < n {
        data := [];
        return Err(Truncated);
      }
      var v := data[..n];
      data := data[n..];
      return Ok(v);
    }

    method ReadSizedField(k: Field) returns (r: Result<seq<Byte>>)
      modifies this
      ensures Follows(r, data, ReadSized(old(data), k))
    {
      var len :- ReadExact(2);
      var n := FromBe16(len);
      if !LenOk(k, n) {
        return Err(BadLength);
      }
      r := ReadExact(n);
    }

    /** One frame, None at a clean end, an error otherwise. */
    method ReadFrame() returns (r: Result<Option<OpaqueFrame>>)
      modifies this
      ensures match ReadSpec(old(data))
        case Eof => r == Ok(None) && data == old(data)
        case Got(f, rest) => r == Ok(Some(f)) && data == rest
        case Malformed => r.Err?
    {
      var first := ReadExact(1);
      if first.Err? {
        return Ok(None);
      }
      var flag := first.value[0];
      assert data == old(data)[1..];
      var intro: Option<seq<Byte>> := None;
      if flag == INTRO_QUIET || flag == INTRO_ALERT {
        var field :- ReadSizedField(Intro);
        intro := Some(field);
      } else if flag != FLAG_QUIET && flag != FLAG_ALERT {
        return Err(BadField);
      }
      var frame :- ReadSizedField(Record);
      if frame[0] != VERSION_V2 {
        return Err(BadVersion);
      }
      return Ok(Some(OpaqueFrame(intro, frame, flag == FLAG_ALERT || flag == INTRO_ALERT)));
    }
  }
}
