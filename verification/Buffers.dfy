/**
 `expand_packet` of utils.cpp: a buffer grown by doubling its recorded size in
 32-bit arithmetic and reallocating.
 */
module Buffers {
  import opened Wire
  import opened Frames

  /* The doubling loop. */

  /** `size` after `k` turns of `*size *= 2`. */
  function Doubled(size: uint32, k: nat): uint32 {
    if k == 0 then size else Doubled(size, k - 1) * 2 % TWO32
  }

  function Pow2(k: nat): (r: nat)
    ensures r >= 1
  {
    if k == 0 then 1 else 2 * Pow2(k - 1)
  }

  ghost predicate IsPow2(v: nat) {
    exists k: nat :: v == Pow2(k)
  }

  /** Where the loop stops when it starts at `size`. */
  function Grow(size: nat, n: nat): (r: nat)
    requires size >= 1
    ensures r >= size && r >= n
    ensures r > size ==> r < 2 * n
    decreases n - size
  {
    if size < n then Grow(2 * size, n) else size
  }

  /** The value `*size` has after `expand_packet` entered its branch. */
  function Grown(size: nat, n: nat): (r: nat)
    ensures r >= 1 && r >= n && r >= size
  {
    Grow(if size == 0 then 1 else size, n)
  }

  /** Growing in two steps, for no less the second time, is growing once. */
  lemma {:induction false} GrowTwice(size: nat, m: nat, n: nat)
    requires size >= 1 && m <= n
    ensures Grow(Grow(size, m), n) == Grow(size, n)
    decreases m - size
  {
    if size < m {
      GrowTwice(2 * size, m, n);
    }
  }

  lemma GrownTwice(m: nat, n: nat)
    requires m <= n
    ensures Grown(Grown(0, m), n) == Grown(0, n)
  {
    GrowTwice(1, m, n);
  }

  lemma {:induction false} GrowIsPow2(size: nat, n: nat)
    requires size >= 1 && IsPow2(size)
    ensures IsPow2(Grow(size, n))
    decreases n - size
  {
    if size < n {
      var k: nat :| size == Pow2(k);
      assert 2 * size == Pow2(k + 1);
      GrowIsPow2(2 * size, n);
    }
  }

  lemma {:induction false} Pow2Monotone(i: nat, j: nat)
    requires i <= j
    ensures Pow2(i) <= Pow2(j)
    decreases j
  {
    if i < j {
      Pow2Monotone(i, j - 1);
    }
  }

  lemma Pow2At31()
    ensures Pow2(31) == TWO31 && Pow2(32) == TWO32
  {
    assert Pow2(8) == 256;
    assert Pow2(16) == 0x1_0000;
    assert Pow2(24) == 0x100_0000;
    assert Pow2(31) == TWO31;
  }

  /** A power of two below 2^32 is at most 2^31, so growing for n <= 2^31 never wraps. */
  lemma GrownBounded(size: nat, n: nat)
    requires size == 0 || IsPow2(size)
    requires size <= TWO31 && n <= TWO31
    ensures IsPow2(Grown(size, n)) && Grown(size, n) <= TWO31
  {
    var start := if size == 0 then 1 else size;
    assert Pow2(0) == 1;
    assert IsPow2(start);
    GrowIsPow2(start, n);
    var k: nat :| Grown(size, n) == Pow2(k);
    Pow2At31();
    if k >= 32 {
      Pow2Monotone(32, k);
    } else {
      Pow2Monotone(k, 31);
    }
  }

  lemma {:induction false} DoubledPow2(j: nat, k: nat)
    requires j <= 31
    ensures Pow2(j) < TWO32
    ensures j + k <= 31 ==> Pow2(j + k) < TWO32 && Doubled(Pow2(j), k) == Pow2(j + k)
    ensures j + k > 31 ==> Doubled(Pow2(j), k) == 0
    decreases k
  {
    Pow2At31();
    Pow2Monotone(j, 31);
    if k > 0 {
      DoubledPow2(j, k - 1);
      if j + k <= 31 {
        Pow2Monotone(j + k, 31);
      }
    }
  }

  /**
   The loop `while (*size < n) *size *= 2` ends, from any power of two a buffer
   can have, exactly when n is at most 2^31; beyond that it reaches 0 and stays.
   */
  lemma DoublingEndsIff(j: nat, n: uint32)
    requires j <= 31 && Pow2(j) < TWO32
    ensures (exists k: nat :: Doubled(Pow2(j), k) >= n) <==> n <= TWO31
  {
    Pow2At31();
    if n <= TWO31 {
      DoubledPow2(j, 31 - j);
      assert Doubled(Pow2(j), 31 - j) >= n;
    } else {
      forall k: nat ensures Doubled(Pow2(j), k) < n {
        DoubledPow2(j, k);
        if j + k <= 31 {
          Pow2Monotone(j + k, 31);
        }
      }
    }
  }

  /** `size` as the loop first sees it. */
  function FirstSize(size: nat): nat {
    if size == 0 then 1 else size
  }

  lemma Exponent(v: nat) returns (j: nat)
    requires IsPow2(v) && v <= TWO31
    ensures j <= 31 && v == Pow2(j)
  {
    j :| v == Pow2(j);
    Pow2At31();
    if j >= 32 {
      Pow2Monotone(32, j);
    }
  }

  /** The same for any size a buffer can have. */
  lemma EndlessIff(size: uint32, n: uint32)
    requires size == 0 || IsPow2(size)
    requires size <= TWO31
    ensures (forall k: nat :: Doubled(FirstSize(size), k) < n) <==> n > TWO31
  {
    assert Pow2(0) == 1;
    var j := Exponent(FirstSize(size));
    DoublingEndsIff(j, n);
  }

  /* The buffer. */

  /** How `expand_packet` ends: with room, without memory, or not at all. */
  datatype Expansion = Ready | Refused | Endless

  method CopyInto(buf: array<byte>, at: nat, got: bytes)
    requires at + |got| <= buf.Length
    modifies buf
    ensures buf[..at] == old(buf[..at]) && buf[at + |got|..] == old(buf[at + |got|..])
    ensures buf[at..at + |got|] == got
  {
    forall i | 0 <= i < |got| {
      buf[at + i] := got[i];
    }
  }

  /** The three fields, and CONVERT_TO_NETWORK_ORDER. */
  method SetHeader(p: array<byte>, h: Header)
    requires p.Length >= HEADER_SIZE
    modifies p
    ensures p[..HEADER_SIZE] == HeaderBytes(h) && p[HEADER_SIZE..] == old(p[HEADER_SIZE..])
  {
    CopyInto(p, 0, Memory(h));
    assert p[..HEADER_SIZE] == p[0..HEADER_SIZE];
    MemoryRoundTrip(h);
    CopyInto(p, 0, Memory(SwapHeader(FromMemory(p[..HEADER_SIZE]))));
    assert p[..HEADER_SIZE] == p[0..HEADER_SIZE];
  }

  /** A header read into the buffer is converted there: CONVERT_TO_HOST_ORDER. */
  method LandHeader(p: array<byte>, raw: bytes) returns (h: Header)
    requires p.Length >= HEADER_SIZE == |raw|
    modifies p
    ensures h == ReadHeader(raw) && FromMemory(p[..HEADER_SIZE]) == h && p[HEADER_SIZE..] == old(p[HEADER_SIZE..])
  {
    CopyInto(p, 0, raw);
    assert p[..HEADER_SIZE] == p[0..HEADER_SIZE] == raw;
    h := SwapHeader(FromMemory(p[..HEADER_SIZE]));
    CopyInto(p, 0, Memory(h));
    assert p[..HEADER_SIZE] == p[0..HEADER_SIZE] == Memory(h);
    MemoryRoundTrip(h);
  }

  /** `realloc` to a size that is no smaller, when it succeeds. */
  method Realloc(p: array?<byte>, size: nat) returns (q: array<byte>)
    requires p != null ==> p.Length <= size
    ensures fresh(q) && q.Length == size
    ensures p != null ==> q[..p.Length] == p[..]
  {
    q := new byte[size];
    if p != null {
      forall i | 0 <= i < p.Length {
        q[i] := p[i];
      }
      assert q[..p.Length] == p[..];
    }
  }

  class PacketBuffer {
    var p: array?<byte>
    var size: uint32
    /** Bytes handed out by every `realloc` so far. */
    ghost var handedOut: nat

    ghost predicate Valid()
      reads this
    {
      && (size == 0 || IsPow2(size)) && size <= TWO31
      && (p != null ==> p.Length == size)
    }

    constructor ()
      ensures Valid() && p == null && size == 0 && handedOut == 0
    {
      p, size, handedOut := null, 0, 0;
    }

    ghost predicate Needs(n: uint32)
      reads this
    {
      size < n || p == null
    }

    /** The doubling loop. */
    method DoubleSize(n: uint32)
      requires (size == 0 || IsPow2(size)) && size <= TWO31 && n <= TWO31
      modifies this`size
      ensures size == Grown(old(size), n) && IsPow2(size) && size <= TWO31
    {
      GrownBounded(size, n);
      if size == 0 {
        size := 1;
      }
      while size < n
        invariant 1 <= size <= TWO31
        invariant Grow(size, n) == Grown(old(size), n)
      {
        size := size * 2 % TWO32;
      }
    }

    /**
     `expand_packet`; `granted` says what `realloc` would answer. It is endless
     exactly when doubling never gets to `n`; then there is no state after it.
     */
    method Expand(n: uint32, granted: bool) returns (r: Expansion)
      requires Valid()
      modifies this
      ensures Valid()
      ensures r.Endless? <==> old(Needs(n)) && forall k: nat :: Doubled(FirstSize(old(size)), k) < n
      ensures r.Endless? <==> n > TWO31
      ensures r.Refused? <==> n <= TWO31 && old(Needs(n)) && !granted
      ensures r.Endless? || !old(Needs(n)) ==> p == old(p) && size == old(size) && handedOut == old(handedOut)
      ensures !r.Endless? && old(Needs(n)) ==> size == Grown(old(size), n)
      ensures r.Ready? ==> p != null && p.Length >= n
      ensures r.Refused? ==> p == null && handedOut == old(handedOut)
      ensures old(Needs(n)) && r.Ready? ==> fresh(p) && handedOut == old(handedOut) + size
      ensures r.Ready? && old(p) != null ==> p.Length >= old(p.Length) && p[..old(p.Length)] == old(p[..])
    {
      EndlessIff(size, n);
      if size < n || p == null {
        if n > TWO31 {
          return Endless;
        }
        DoubleSize(n);
        if !granted {
          p := null;
          return Refused;
        }
        p := Realloc(p, size);
        handedOut := handedOut + size;
      }
      return Ready;
    }
  }

  /* Any sequence of requests, all of them granted. */

  datatype Usage = Usage(size: nat, handedOut: nat)

  /** `Expand`'s effect on the sizes when `realloc` succeeds; size 0 is a null buffer. */
  function Use(u: Usage, n: nat): Usage {
    if u.size < n || u.size == 0 then Usage(Grown(u.size, n), u.handedOut + Grown(u.size, n)) else u
  }

  function UseAll(u: Usage, ns: seq<nat>): Usage {
    if ns == [] then u else Use(UseAll(u, ns[..|ns| - 1]), ns[|ns| - 1])
  }

  lemma {:induction false} UsageBound(ns: seq<nat>, top: nat)
    requires top >= 1 && forall i | 0 <= i < |ns| :: ns[i] <= top
    ensures var u := UseAll(Usage(0, 0), ns);
      u.size < 2 * top && (u.size == 0 || u.handedOut < 2 * u.size) && (u.size == 0 ==> u.handedOut == 0)
    decreases |ns|
  {
    if ns != [] {
      UsageBound(ns[..|ns| - 1], top);
      var u, n := UseAll(Usage(0, 0), ns[..|ns| - 1]), ns[|ns| - 1];
      if u.size < n || u.size == 0 {
        GrownDoubles(u.size, n);
      }
    }
  }

  lemma {:induction false} GrowDoubles(size: nat, n: nat)
    requires 1 <= size < n
    ensures Grow(size, n) >= 2 * size
    decreases n - size
  {
  }

  lemma GrownDoubles(size: nat, n: nat)
    requires size < n || size == 0
    ensures Grown(size, n) >= 2 * size
    ensures n >= 1 ==> Grown(size, n) < 2 * n
    ensures n == 0 ==> Grown(size, n) == 1
  {
    if 1 <= size {
      GrowDoubles(size, n);
    }
  }

  /** All the memory ever asked for stays below four times the largest positive request. */
  lemma AllocationIsLinear(ns: seq<nat>, top: nat)
    requires top >= 1 && top in ns && forall i | 0 <= i < |ns| :: ns[i] <= top
    ensures UseAll(Usage(0, 0), ns).handedOut < 4 * top
  {
    UsageBound(ns, top);
  }

  /** A run of `Expand` calls that all succeed has the sizes of `UseAll`. */
  method ExpandAll(b: PacketBuffer, ns: seq<nat>)
    requires b.p == null && b.size == 0 && b.handedOut == 0
    requires forall i | 0 <= i < |ns| :: ns[i] <= TWO31
    modifies b
    ensures b.Valid() && Usage(b.size, b.handedOut) == UseAll(Usage(0, 0), ns)
  {
    var i := 0;
    while i < |ns|
      invariant 0 <= i <= |ns|
      invariant b.Valid() && (b.p == null <==> b.size == 0)
      invariant Usage(b.size, b.handedOut) == UseAll(Usage(0, 0), ns[..i])
    {
      var r := b.Expand(ns[i], true);
      assert ns[..i + 1][..i] == ns[..i];
      i := i + 1;
    }
    assert ns[..i] == ns;
  }
}
