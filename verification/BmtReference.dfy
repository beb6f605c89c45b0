/** The reference binary Merkle tree hash (chain/bmt/bmt_r.go) and the shape arithmetic it
    shares with the concurrent hasher.  `hash` stands for the base hash function and may be
    any function on byte strings. */
module BmtReference {

  type Byte = bv8
  type Bytes = seq<Byte>
  type BaseHash = Bytes -> Bytes

  /** Number of bytes below a node of height `h`: height 0 is one segment, height 1 a pair. */
  function Span(size: nat, h: nat): nat {
    if h == 0 then size else 2 * Span(size, h - 1)
  }

  function Bits(l: nat): nat {
    if l == 0 then 0 else 1 + Bits(l / 2)
  }

  /** Depth of the tree for `n` segments (the number of levels above the data nodes). */
  function DepthOf(n: nat): nat {
    if n == 0 then 0 else Bits((n - 1) / 2)
  }

  /** The counting loop of `depth`. */
  method Depth(n: nat) returns (d: nat)
    ensures d == DepthOf(n)
  {
    d := 0;
    var l: nat := if n == 0 then 0 else (n - 1) / 2;
    while l > 0
      invariant d + Bits(l) == DepthOf(n)
    {
      d := d + 1;
      l := l / 2;
    }
  }

  lemma {:induction false} BitsBound(l: nat)
    ensures l < Span(1, Bits(l))
    ensures l > 0 ==> Bits(l) >= 1 && Span(1, Bits(l) - 1) <= l
  {
    if l > 1 {
      BitsBound(l / 2);
    } else if l == 1 {
      assert Bits(1) == 1 + Bits(0) && Bits(0) == 0;
    }
  }

  /** The depth is the least one whose data nodes hold `n` segments, two to a node. */
  lemma DepthIsLeast(n: nat)
    requires n >= 1
    ensures n <= Span(2, DepthOf(n))
    ensures DepthOf(n) > 0 ==> Span(2, DepthOf(n) - 1) < n
  {
    var l := (n - 1) / 2;
    BitsBound(l);
    SpanScales(2, 1, DepthOf(n));
    if DepthOf(n) > 0 {
      assert l > 0;
      SpanScales(2, 1, DepthOf(n) - 1);
    }
  }

  lemma {:induction false} SpanScales(k: nat, size: nat, h: nat)
    ensures Span(k * size, h) == k * Span(size, h)
  {
    if h > 0 { SpanScales(k, size, h - 1); }
  }

  lemma {:induction false} SpanMonotone(size: nat, h: nat, k: nat)
    requires h <= k
    ensures Span(size, h) <= Span(size, k)
  {
    if h < k { SpanMonotone(size, h, k - 1); }
  }

  // ---------------------------------------------------------------- the reference hasher

  /** A legal span: a power of two, at least two, of segments. */
  ghost predicate IsSpan(size: nat, s: nat) {
    exists k: nat :: k >= 1 && s == Span(size, k)
  }

  /** `for ; s >= l; s /= 2 {}` */
  function Halve(s: nat, l: nat): (r: nat)
    requires l > 0
    ensures r < l
  {
    if s < l then s else Halve(s / 2, l)
  }

  lemma {:induction false} HalveSpan(size: nat, k: nat, l: nat)
    requires size >= 1 && k >= 1 && l > 2 * size
    ensures IsSpan(size, Halve(Span(size, k), l))
    decreases k
  {
    if Span(size, k) >= l {
      assert Span(size, 1) == 2 * Span(size, 0) == 2 * size;
      assert k >= 2;
      assert Span(size, k) / 2 == Span(size, k - 1);
      HalveSpan(size, k - 1, l);
    }
  }

  lemma SpanPositive(size: nat, s: nat)
    requires size >= 1 && IsSpan(size, s)
    ensures s >= 2 * size
  {
    var k: nat :| k >= 1 && s == Span(size, k);
    assert Span(size, 1) == 2 * Span(size, 0);
    SpanMonotone(size, 1, k);
  }

  /** The length at which a chunk of `l` bytes is cut, as a legal span shorter than `l`. */
  function Cut(size: nat, s: nat, l: nat): (r: nat)
    requires size >= 1 && IsSpan(size, s) && l > 2 * size
    ensures IsSpan(size, r) && 2 * size <= r < l
    ensures r == Halve(s, l)
  {
    assert IsSpan(size, Halve(s, l)) by {
      var k: nat :| k >= 1 && s == Span(size, k);
      HalveSpan(size, k, l);
    }
    SpanPositive(size, Halve(s, l));
    Halve(s, l)
  }

  /** `RefHasher.hash`. */
  function RefHash(hash: BaseHash, size: nat, d: Bytes, s: nat): Bytes
    requires size >= 1 && IsSpan(size, s)
    decreases |d|
  {
    if |d| > 2 * size then
      var c := Cut(size, s, |d|);
      var left := RefHash(hash, size, d[..c], c);
      var right := if |d| - c > size then RefHash(hash, size, d[c..], c) else d[c..];
      hash(left + right)
    else
      hash(d)
  }

  /** The parameters `NewRefHasher` computes. */
  datatype RefHasher = RefHasher(section: nat, span: nat, cap: nat)

  function RefSpanExponent(count: nat): nat {
    if DepthOf(count) == 0 then 1 else DepthOf(count)
  }

  /** `NewRefHasher`: doubles until `count` segments fit, then steps back once. */
  method NewRefHasher(size: nat, count: nat) returns (rh: RefHasher)
    requires size >= 1 && count >= 1
    ensures rh.section == 2 * size && rh.cap == size * count && rh.span == Span(size, RefSpanExponent(count))
    ensures IsSpan(size, rh.span) && (if count <= 2 then rh.span == 2 * size else rh.span < rh.cap <= 2 * rh.span)
  {
    var c := 2;
    ghost var k := 0;
    while c < count
      invariant c == Span(2, k)
      invariant k > 0 ==> Span(2, k - 1) < count
      invariant c == 2 <==> k == 0
      decreases count - c
    {
      c := c * 2;
      k := k + 1;
    }
    DepthUnique(count, k);
    SpanScales(2, 1, k);
    if c > 2 {
      c := c / 2;
      assert k >= 1;
      assert c == Span(1, k);
    } else {
      assert c == Span(1, 1) by { assert Span(1, 1) == 2 * Span(1, 0); }
    }
    SpanScales(size, 1, RefSpanExponent(count));
    assert c * size == Span(size, RefSpanExponent(count)) by {
      assert c == Span(1, RefSpanExponent(count));
      assert size * 1 == size;
    }
    rh := RefHasher(2 * size, c * size, size * count);
    RefSpanBounds(size, count);
  }

  /** The first span is the largest power of two of segments that is shorter than all segments together. */
  lemma RefSpanBounds(size: nat, count: nat)
    requires size >= 1 && count >= 1
    ensures var span := Span(size, RefSpanExponent(count));
            if count <= 2 then span == 2 * size else span < size * count <= 2 * span
  {
    DepthIsLeast(count);
    var d := DepthOf(count);
    if d == 0 {
      assert Span(size, 1) == 2 * Span(size, 0);
    } else {
      SpanScales(2, 1, d);
      SpanScales(2, 1, d - 1);
      SpanScales(size, 1, d);
      hide Span, DepthOf;
      MulBetween(size, Span(1, d), count);
    }
  }

  lemma MulBetween(size: nat, c: nat, count: nat)
    requires size >= 1 && c < count <= 2 * c
    ensures size * c < size * count <= 2 * (size * c)
  {
    assert size * count == size * c + size * (count - c);
    assert 2 * (size * c) == size * (2 * c) == size * count + size * (2 * c - count);
  }

  lemma DepthUnique(n: nat, k: nat)
    requires n >= 1
    requires n <= Span(2, k)
    requires k > 0 ==> Span(2, k - 1) < n
    ensures k == DepthOf(n)
  {
    DepthIsLeast(n);
    var d := DepthOf(n);
    if k < d { SpanMonotone(2, k, d - 1); }
    if d < k { SpanMonotone(2, d, k - 1); }
  }

  /** `RefHasher.Hash`: truncate, then hash with the full span. */
  function RefChunkHash(hash: BaseHash, size: nat, count: nat, d: Bytes): Bytes
    requires size >= 1 && count >= 1
  {
    var chunk := Truncate(size, count, d);
    assert IsSpan(size, Span(size, RefSpanExponent(count)));
    RefHash(hash, size, chunk, Span(size, RefSpanExponent(count)))
  }

  /** A tree for `count` segments takes no more bytes than they hold. */
  function Truncate(size: nat, count: nat, d: Bytes): Bytes {
    if |d| > size * count then d[..size * count] else d
  }

  // ---------------------------------------------------------------- facts used by the tree

  /** The reference hash with the span of a node of height `h`. */
  ghost function SpanHash(hash: BaseHash, size: nat, d: Bytes, h: nat): Bytes
    requires size >= 1 && h >= 1
  {
    assert IsSpan(size, Span(size, h));
    RefHash(hash, size, d, Span(size, h))
  }

  /** Cutting a chunk that is longer than a node of height `h` but fits in height `h + 1`. */
  lemma RefHashSplit(hash: BaseHash, size: nat, d: Bytes, h: nat)
    requires size >= 1 && h >= 1
    requires Span(size, h) < |d| <= Span(size, h + 1)
    ensures SpanHash(hash, size, d, h + 1) ==
            hash(SpanHash(hash, size, d[..Span(size, h)], h) +
                 (if |d| - Span(size, h) > size then SpanHash(hash, size, d[Span(size, h)..], h) else d[Span(size, h)..]))
  {
    var s := Span(size, h);
    assert IsSpan(size, s) && IsSpan(size, Span(size, h + 1));
    SpanPositive(size, s);
    assert Halve(2 * s, |d|) == s;
  }

  lemma HalveStep(size: nat, k: nat, l: nat)
    requires k >= 1 && 0 < l <= Span(size, k)
    ensures Halve(Span(size, k), l) == Halve(Span(size, k - 1), l)
  {
    assert Span(size, k) / 2 == Span(size, k - 1);
  }

  lemma RefHashDown(hash: BaseHash, size: nat, d: Bytes, k: nat)
    requires size >= 1 && k >= 2 && |d| <= Span(size, k)
    ensures SpanHash(hash, size, d, k) == SpanHash(hash, size, d, k - 1)
  {
    hide Halve, Span;
    assert IsSpan(size, Span(size, k)) && IsSpan(size, Span(size, k - 1));
    if |d| > 2 * size { HalveStep(size, k, |d|); }
  }

  /** The span argument does not matter once it covers the chunk. */
  lemma {:induction false} RefHashStable(hash: BaseHash, size: nat, d: Bytes, h: nat, k: nat)
    requires size >= 1 && 1 <= h <= k
    requires |d| <= Span(size, h + 1)
    ensures SpanHash(hash, size, d, h) == SpanHash(hash, size, d, k)
    decreases k
  {
    hide SpanHash, Span;
    if h < k {
      RefHashStable(hash, size, d, h, k - 1);
      SpanMonotone(size, h + 1, k);
      RefHashDown(hash, size, d, k);
    }
  }
}
