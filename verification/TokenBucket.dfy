/** The lazily refilled token bucket. */
module TokenBucket {
  import opened Bytes

  const U64_MAX: U64 := 0xffff_ffff_ffff_ffff
  const U32_MAX: U32 := 0xffff_ffff

  datatype Bucket = Bucket(capacity: U32, tokens: U32, refill: U32, last: U64)

  predicate Valid(b: Bucket) { b.tokens <= b.capacity }

  function Fresh(capacity: U32, refill: U32, now: U64): Bucket {
    Bucket(capacity, capacity, refill, now)
  }

  function Min(a: nat, b: nat): nat { if a <= b then a else b }

  /** Tokens earned over `secs` seconds. */
  function Earned(rate: nat, secs: nat): nat { rate * secs }

  /** Top the bucket up to `now`; a clock that stands still or runs back adds nothing. */
  function Refill(b: Bucket, now: U64): (r: Bucket)
    requires Valid(b)
    ensures Valid(r) && b.last <= r.last && r.capacity == b.capacity && r.refill == b.refill
  {
    if now <= b.last then b
    else b.(tokens := Min(b.capacity, b.tokens + Earned(b.refill, now - b.last)), last := now)
  }

  function Spend(b: Bucket): (r: Bucket)
    requires Valid(b)
    ensures Valid(r)
  {
    if b.tokens > 0 then b.(tokens := b.tokens - 1) else b
  }

  predicate Grants(b: Bucket, now: U64)
    requires Valid(b)
  {
    Refill(b, now).tokens > 0
  }

  function Check(b: Bucket, now: U64): (r: Bucket)
    requires Valid(b)
    ensures Valid(r) && b.last <= r.last && r.capacity == b.capacity && r.refill == b.refill
  {
    Spend(Refill(b, now))
  }

  // ---- runs: one check per clock reading, in any order ----

  function After(b: Bucket, clock: seq<U64>): (r: Bucket)
    requires Valid(b)
    ensures Valid(r) && b.last <= r.last && r.capacity == b.capacity && r.refill == b.refill
    decreases |clock|
  {
    if clock == [] then b else After(Check(b, clock[0]), clock[1..])
  }

  function Granted(b: Bucket, clock: seq<U64>): nat
    requires Valid(b)
    decreases |clock|
  {
    if clock == [] then 0
    else (if Grants(b, clock[0]) then 1 else 0) + Granted(Check(b, clock[0]), clock[1..])
  }

  /** Some check of the run tops the bucket up to its capacity. */
  predicate TopsUp(b: Bucket, now: U64)
    requires Valid(b)
  {
    Refill(b, now).tokens == b.capacity
  }

  lemma RefillBound(b: Bucket, now: U64)
    requires Valid(b)
    ensures Refill(b, now).tokens <= b.tokens + b.refill * (Refill(b, now).last - b.last)
    ensures !TopsUp(b, now) ==> Refill(b, now).tokens == b.tokens + b.refill * (Refill(b, now).last - b.last)
  {
  }

  lemma Distribute(r: nat, a: int, b: int)
    ensures r * a + r * b == r * (a + b)
  {
  }

  /** Conservation: whatever the clock does, the tokens granted and those left never exceed those at
      the start plus the refill over the advance of the refill mark. */
  lemma {:induction false} GrantBound(b: Bucket, clock: seq<U64>)
    requires Valid(b)
    ensures Granted(b, clock) + After(b, clock).tokens <= b.tokens + b.refill * (After(b, clock).last - b.last)
    ensures Granted(b, clock) <= b.capacity + b.refill * (After(b, clock).last - b.last)
    decreases |clock|
  {
    if clock != [] {
      var c := Check(b, clock[0]);
      RefillBound(b, clock[0]);
      GrantBound(c, clock[1..]);
      Distribute(b.refill, c.last - b.last, After(b, clock).last - c.last);
    }
  }

  ghost predicate NeverTopsUp(b: Bucket, clock: seq<U64>)
    requires Valid(b)
    decreases |clock|
  {
    clock == [] || (!TopsUp(b, clock[0]) && NeverTopsUp(Check(b, clock[0]), clock[1..]))
  }

  /** With no top-up the books balance exactly. */
  lemma {:induction false} ExactWithoutTopUp(b: Bucket, clock: seq<U64>)
    requires Valid(b) && NeverTopsUp(b, clock)
    ensures Granted(b, clock) + After(b, clock).tokens == b.tokens + b.refill * (After(b, clock).last - b.last)
    decreases |clock|
  {
    if clock != [] {
      var c := Check(b, clock[0]);
      RefillBound(b, clock[0]);
      ExactWithoutTopUp(c, clock[1..]);
      Distribute(b.refill, c.last - b.last, After(b, clock).last - c.last);
    }
  }

  lemma {:induction false} AfterConcat(b: Bucket, c: seq<U64>, d: seq<U64>)
    requires Valid(b)
    ensures After(b, c + d) == After(After(b, c), d)
    decreases |c|
  {
    if c == [] {
      assert c + d == d;
    } else {
      assert (c + d)[1..] == c[1..] + d;
      AfterConcat(Check(b, c[0]), c[1..], d);
    }
  }

  /** A bucket topped up at `i`, and no later check of the run topped it up again. */
  ghost predicate LastTopUp(b: Bucket, clock: seq<U64>, i: nat)
    requires Valid(b) && i < |clock|
  {
    && TopsUp(After(b, clock[..i]), clock[i])
    && NeverTopsUp(Check(After(b, clock[..i]), clock[i]), clock[i + 1..])
  }

  lemma {:induction false} FindLastTopUp(b: Bucket, clock: seq<U64>, n: nat) returns (i: nat)
    requires Valid(b) && b.tokens == b.capacity && 0 < n <= |clock|
    requires NeverTopsUp(After(b, clock[..n]), clock[n..])
    ensures i < |clock| && LastTopUp(b, clock, i)
    decreases n
  {
    if TopsUp(After(b, clock[..n - 1]), clock[n - 1]) {
      i := n - 1;
      AfterOne(b, clock, i);
    } else {
      assert n != 1 by {
        assert clock[..0] == [];
      }
      NeverEarlier(b, clock, n - 1);
      i := FindLastTopUp(b, clock, n - 1);
    }
  }

  lemma {:induction false} AfterOne(b: Bucket, clock: seq<U64>, n: nat)
    requires Valid(b) && n < |clock|
    ensures After(b, clock[..n + 1]) == Check(After(b, clock[..n]), clock[n])
  {
    assert clock[..n + 1] == clock[..n] + [clock[n]];
    AfterConcat(b, clock[..n], [clock[n]]);
    assert [clock[n]][1..] == [];
  }

  lemma {:induction false} NeverEarlier(b: Bucket, clock: seq<U64>, n: nat)
    requires Valid(b) && n < |clock| && !TopsUp(After(b, clock[..n]), clock[n])
    requires NeverTopsUp(After(b, clock[..n + 1]), clock[n + 1..])
    ensures NeverTopsUp(After(b, clock[..n]), clock[n..])
  {
    AfterOne(b, clock, n);
    assert clock[n..][1..] == clock[n + 1..];
  }

  /** Tightness: a refusal is never early. Some check of the run, the last to top the bucket up, starts a
      segment from a full bucket in which exactly capacity + refill × advance tokens were granted. */
  lemma RefusalWitness(capacity: U32, refill: U32, start: U64, clock: seq<U64>, now: U64) returns (i: nat)
    requires !Grants(After(Fresh(capacity, refill, start), clock), now)
    ensures
      var b := Fresh(capacity, refill, start);
      var all := clock + [now];
      && i < |all|
      && var full := Refill(After(b, all[..i]), all[i]);
      && full.tokens == capacity
      && Granted(full, all[i..]) == capacity + refill * (After(b, all).last - full.last)
  {
    var b := Fresh(capacity, refill, start);
    var all := clock + [now];
    assert all[..|all|] == all && all[|all|..] == [];
    i := FindLastTopUp(b, all, |all|);
    SegmentFromFull(b, all, i);
    AfterConcat(b, clock, [now]);
    assert [now][1..] == [];
    assert After(b, all) == Check(After(b, clock), now);
  }

  /** From a full bucket on, tokens granted and left are what was there and what was earned. */
  ghost predicate Balanced(full: Bucket, granted: nat, end: Bucket)
    requires full.last <= end.last
  {
    granted + end.tokens == full.capacity + Earned(full.refill, end.last - full.last)
  }

  lemma {:induction false} SegmentFromFull(b: Bucket, clock: seq<U64>, i: nat)
    requires Valid(b) && i < |clock| && LastTopUp(b, clock, i)
    ensures
      var full := Refill(After(b, clock[..i]), clock[i]);
      full.last <= After(b, clock).last && Balanced(full, Granted(full, clock[i..]), After(b, clock))
  {
    AfterSplit(b, clock, i);
    assert clock[i..][1..] == clock[i + 1..];
    FullSegment(After(b, clock[..i]), clock[i..]);
  }

  lemma {:induction false} AfterSplit(b: Bucket, clock: seq<U64>, i: nat)
    requires Valid(b) && i <= |clock|
    ensures After(b, clock) == After(After(b, clock[..i]), clock[i..])
  {
    assert clock == clock[..i] + clock[i..];
    AfterConcat(b, clock[..i], clock[i..]);
  }

  lemma {:induction false} FullSegment(s: Bucket, clock: seq<U64>)
    requires Valid(s) && clock != [] && TopsUp(s, clock[0]) && NeverTopsUp(Check(s, clock[0]), clock[1..])
    ensures
      var full, end := Refill(s, clock[0]), After(s, clock);
      full.last <= end.last && Balanced(full, Granted(full, clock), end)
  {
    RefillTwice(s, clock[0]);
    ExactWithoutTopUp(Check(s, clock[0]), clock[1..]);
  }

  lemma RefillTwice(b: Bucket, now: U64)
    requires Valid(b)
    ensures Refill(Refill(b, now), now) == Refill(b, now)
  {
  }

  // ---- the bucket object: saturating machine arithmetic ----

  function SaturatingMul64(a: U64, b: U64): U64 { Min(a * b, U64_MAX) }

  function SaturatingAdd32(a: U32, b: U32): U32 { Min(a + b, U32_MAX) }

  lemma SaturationIsExact(b: Bucket, elapsed: U64)
    requires Valid(b)
    ensures Min(SaturatingAdd32(b.tokens, Min(SaturatingMul64(elapsed, b.refill), b.capacity)), b.capacity)
         == Min(b.capacity, b.tokens + b.refill * elapsed)
  {
    assert elapsed * b.refill == b.refill * elapsed;
  }

  class BucketObject {
    const capacity: U32
    const refillPerSec: U32
    var tokens: U32
    var lastRefill: U64

    ghost function State(): Bucket reads this { Bucket(capacity, tokens, refillPerSec, lastRefill) }

    constructor (capacity: U32, refillPerSec: U32, now: U64)
      ensures State() == Fresh(capacity, refillPerSec, now) && Valid(State())
    {
      this.capacity, this.refillPerSec, tokens, lastRefill := capacity, refillPerSec, capacity, now;
    }

    /** Consume one token; false when the bucket is empty. */
    method CheckAt(now: U64) returns (granted: bool)
      requires Valid(State())
      modifies this`tokens, this`lastRefill
      ensures Valid(State()) && State() == Check(old(State()), now)
      ensures granted <==> Grants(old(State()), now)
    {
      var elapsed: U64 := if now > lastRefill then now - lastRefill else 0;
      if elapsed > 0 {
        var add := SaturatingMul64(elapsed, refillPerSec);
        SaturationIsExact(State(), elapsed);
        tokens := Min(SaturatingAdd32(tokens, Min(add, capacity)), capacity);
        lastRefill := now;
      }
      granted := tokens > 0;
      if granted {
        tokens := tokens - 1;
      }
    }
  }
}
