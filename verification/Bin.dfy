/** The codec primitives: what each read does to the remaining bytes, the canonical inverse of
    each write, and the cursor objects the codecs use. */
module Bin {
  import opened Bytes

  /** A read yields a value and the bytes that remain. */
  type Read<T> = Result<(T, seq<Byte>)>

  const LP_LIMIT: nat := 0x1_0000_0000

  function Lp(v: seq<Byte>): seq<Byte>
    requires |v| < LP_LIMIT
  {
    U32be(|v|) + v
  }

  lemma Assoc(a: seq<Byte>, b: seq<Byte>, c: seq<Byte>)
    ensures (a + b) + c == a + (b + c)
  {
  }

  lemma AppendFive(a: seq<Byte>, b: seq<Byte>, c: seq<Byte>, d: seq<Byte>, e: seq<Byte>, rest: seq<Byte>)
    ensures (a + (b + (c + (d + e)))) + rest == a + (b + (c + (d + (e + rest))))
  {
  }

  // ---- reads: each success consumed exactly the canonical encoding of its value ----

  function TakeN(s: seq<Byte>, n: nat): (r: Read<seq<Byte>>)
    ensures r.Ok? <==> n <= |s|
    ensures r.Ok? ==> |r.value.0| == n && s == r.value.0 + r.value.1
    ensures r.Err? ==> r.error == Truncated
  {
    if |s| < n then Err(Truncated) else Ok((s[..n], s[n..]))
  }

  function ReadU8(s: seq<Byte>): (r: Read<Byte>)
    ensures r.Ok? ==> s == [r.value.0] + r.value.1
    ensures r.Ok? <==> 1 <= |s|
  {
    if |s| < 1 then Err(Truncated) else Ok((s[0], s[1..]))
  }

  function ReadU16(s: seq<Byte>): (r: Read<U16>)
    ensures r.Ok? ==> s == U16be(r.value.0) + r.value.1
    ensures r.Ok? <==> 2 <= |s|
  {
    if |s| < 2 then Err(Truncated) else
    assert s == s[..2] + s[2..];
    Ok((FromBe16(s[..2]), s[2..]))
  }

  function ReadU32(s: seq<Byte>): (r: Read<U32>)
    ensures r.Ok? ==> s == U32be(r.value.0) + r.value.1
    ensures r.Ok? <==> 4 <= |s|
  {
    if |s| < 4 then Err(Truncated) else
    assert s == s[..4] + s[4..];
    Ok((FromBe32(s[..4]), s[4..]))
  }

  function ReadU64(s: seq<Byte>): (r: Read<U64>)
    ensures r.Ok? ==> s == U64be(r.value.0) + r.value.1
    ensures r.Ok? <==> 8 <= |s|
  {
    if |s| < 8 then Err(Truncated) else
    assert s == s[..8] + s[8..];
    Ok((FromBe64(s[..8]), s[8..]))
  }

  function ReadLp(s: seq<Byte>, max: nat): (r: Read<seq<Byte>>)
    ensures r.Ok? ==> |r.value.0| <= max && |r.value.0| < LP_LIMIT && s == Lp(r.value.0) + r.value.1
  {
    var (n, rest) :- ReadU32(s);
    if n > max then Err(BadLength) else
    var (v, rest') :- TakeN(rest, n);
    assert s == U32be(n) + (v + rest');
    Ok((v, rest'))
  }

  // ---- reads invert writes ----

  lemma TakeBack(v: seq<Byte>, rest: seq<Byte>)
    ensures TakeN(v + rest, |v|) == Ok((v, rest))
  {
    assert (v + rest)[..|v|] == v && (v + rest)[|v|..] == rest;
  }

  lemma ReadU8Back(v: Byte, rest: seq<Byte>)
    ensures ReadU8([v] + rest) == Ok((v, rest))
  {
    assert ([v] + rest)[1..] == rest;
  }

  lemma ReadU16Back(v: U16, rest: seq<Byte>)
    ensures ReadU16(U16be(v) + rest) == Ok((v, rest))
  {
    var s := U16be(v) + rest;
    assert s[..2] == U16be(v) && s[2..] == rest;
    U16Injective(FromBe16(s[..2]), v);
  }

  lemma ReadU32Back(v: U32, rest: seq<Byte>)
    ensures ReadU32(U32be(v) + rest) == Ok((v, rest))
  {
    var s := U32be(v) + rest;
    assert s[..4] == U32be(v) && s[4..] == rest;
    U32Injective(FromBe32(s[..4]), v);
  }

  lemma ReadU64Back(v: U64, rest: seq<Byte>)
    ensures ReadU64(U64be(v) + rest) == Ok((v, rest))
  {
    var s := U64be(v) + rest;
    assert s[..8] == U64be(v) && s[8..] == rest;
    U64Injective(FromBe64(s[..8]), v);
  }

  lemma ReadLpBack(v: seq<Byte>, max: nat, rest: seq<Byte>)
    requires |v| <= max && |v| < LP_LIMIT
    ensures ReadLp(Lp(v) + rest, max) == Ok((v, rest))
  {
    assert Lp(v) + rest == U32be(|v|) + (v + rest);
    ReadU32Back(|v|, v + rest);
    TakeBack(v, rest);
  }

  // ---- cursor objects ----

  /** `r` is what the pure read `spec` yields, and `after` what it leaves. */
  ghost predicate Follows<T>(r: Result<T>, after: seq<Byte>, spec: Read<T>) {
    match spec
    case Ok((v, rest)) => r == Ok(v) && after == rest
    case Err(e) => r == Err(e)
  }

  /** Append-only writer. */
  class Writer {
    var buf: seq<Byte>

    constructor ()
      ensures buf == []
    {
      buf := [];
    }

    method U8(v: Byte)
      modifies this
      ensures buf == old(buf) + [v]
    {
      buf := buf + [v];
    }

    method U16(v: U16)
      modifies this
      ensures buf == old(buf) + U16be(v)
    {
      buf := buf + U16be(v);
    }

    method U32(v: U32)
      modifies this
      ensures buf == old(buf) + U32be(v)
    {
      buf := buf + U32be(v);
    }

    method Raw(v: seq<Byte>)
      modifies this
      ensures buf == old(buf) + v
    {
      buf := buf + v;
    }

    method LpField(v: seq<Byte>)
      requires |v| < LP_LIMIT
      modifies this
      ensures buf == old(buf) + Lp(v)
    {
      U32(|v|);
      Raw(v);
      assert old(buf) + U32be(|v|) + v == old(buf) + Lp(v);
    }
  }

  /** Bounds-checked cursor over a fixed buffer. */
  class Reader {
    const buf: seq<Byte>
    var pos: nat

    ghost predicate Valid() reads this { pos <= |buf| }

    ghost function Rest(): seq<Byte>
      reads this
      requires Valid()
    {
      buf[pos..]
    }

    constructor (bytes: seq<Byte>)
      ensures Valid() && buf == bytes && Rest() == bytes
    {
      buf, pos := bytes, 0;
    }

    method Remaining() returns (n: nat)
      requires Valid()
      ensures n == |Rest()|
    {
      n := |buf| - pos;
    }

    method Take(n: nat) returns (r: Result<seq<Byte>>)
      requires Valid()
      modifies this`pos
      ensures Valid() && Follows(r, Rest(), TakeN(old(Rest()), n))
    {
      if |buf| - pos < n {
        return Err(Truncated);
      }
      var v := buf[pos..pos + n];
      assert v == Rest()[..n];
      pos := pos + n;
      return Ok(v);
    }

    method U8() returns (r: Result<Byte>)
      requires Valid()
      modifies this`pos
      ensures Valid() && Follows(r, Rest(), ReadU8(old(Rest())))
    {
      var v :- Take(1);
      return Ok(v[0]);
    }

    method U16() returns (r: Result<U16>)
      requires Valid()
      modifies this`pos
      ensures Valid() && Follows(r, Rest(), ReadU16(old(Rest())))
    {
      var v :- Take(2);
      return Ok(FromBe16(v));
    }

    method U32() returns (r: Result<U32>)
      requires Valid()
      modifies this`pos
      ensures Valid() && Follows(r, Rest(), ReadU32(old(Rest())))
    {
      var v :- Take(4);
      return Ok(FromBe32(v));
    }

    method U64() returns (r: Result<U64>)
      requires Valid()
      modifies this`pos
      ensures Valid() && Follows(r, Rest(), ReadU64(old(Rest())))
    {
      var v :- Take(8);
      return Ok(FromBe64(v));
    }

    method LpField(max: nat) returns (r: Result<seq<Byte>>)
      requires Valid()
      modifies this`pos
      ensures Valid() && Follows(r, Rest(), ReadLp(old(Rest()), max))
    {
      var n :- U32();
      if n > max {
        return Err(BadLength);
      }
      r := Take(n);
    }

    /** The next u32, without advancing. */
    method PeekU32() returns (r: Result<U32>)
      requires Valid()
      ensures match ReadU32(Rest()) case Ok((v, _)) => r == Ok(v) case Err(e) => r == Err(e)
    {
      if |buf| - pos < 4 {
        return Err(Truncated);
      }
      assert buf[pos..pos + 4] == Rest()[..4];
      return Ok(FromBe32(buf[pos..pos + 4]));
    }

    method ExpectEnd() returns (r: Result<()>)
      requires Valid()
      ensures r == if Rest() == [] then Ok(()) else Err(Trailing)
    {
      return if pos == |buf| then Ok(()) else Err(Trailing);
    }
  }
}
