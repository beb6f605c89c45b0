/** The binary Merkle tree that a chunk occupies inside a reusable tree of chain/bmt/bmt.go,
    and the proof that the value at its top is the reference hash.

    A node is named by its height (data nodes have height 1) and its index on its level. */
module BmtShape {
  import opened BmtReference

  /** One chunk to be hashed on a tree of the given depth; `last` is the last data node it reaches. */
  datatype Job = Job(hash: BaseHash, size: nat, depth: nat, data: Bytes, last: nat)

  /** The chunk ends in data node `last`, and the tree has that many data nodes. */
  ghost predicate Fits(j: Job) {
    && j.size >= 1
    && j.last < Span(1, j.depth)
    && (if |j.data| == 0 then j.last == 0
        else Lo(j.size, 1, j.last) < |j.data| <= Lo(j.size, 1, j.last + 1))
  }

  /** Index, on level `h`, of the node above data node `q`. */
  function Path(q: nat, h: nat): nat
    requires h >= 1
  {
    if h == 1 then q else Path(q, h - 1) / 2
  }

  /** Height of the lowest node whose subtree holds data nodes `0..q`. */
  function Summit(q: nat, h: nat := 1): (f: nat)
    requires h >= 1
    ensures f >= h && Path(q, f) == 0
    ensures forall k :: h <= k < f ==> Path(q, k) > 0
    decreases Path(q, h)
  {
    if Path(q, h) == 0 then h else Summit(q, h + 1)
  }

  /** Byte offset of node `i` on level `h`. */
  function Lo(size: nat, h: nat, i: nat): nat
    decreases i
  {
    if i == 0 then 0 else Lo(size, h, i - 1) + Span(size, h)
  }

  lemma {:induction false} LoIsProduct(size: nat, h: nat, i: nat)
    ensures Lo(size, h, i) == i * Span(size, h)
  {
    if i > 0 {
      LoIsProduct(size, h, i - 1);
      assert (i - 1) * Span(size, h) + Span(size, h) == i * Span(size, h);
    }
  }

  lemma {:induction false} LoChildren(size: nat, h: nat, i: nat)
    requires h >= 1
    ensures Lo(size, h, i) == Lo(size, h - 1, 2 * i)
    ensures Lo(size, h, i + 1) == Lo(size, h - 1, 2 * i + 2)
    ensures Lo(size, h - 1, 2 * i + 1) == Lo(size, h, i) + Span(size, h - 1)
    ensures Lo(size, h - 1, 2 * i + 2) == Lo(size, h - 1, 2 * i + 1) + Span(size, h - 1)
  {
    if i > 0 { LoChildren(size, h, i - 1); }
  }

  lemma {:induction false} LoMonotone(size: nat, h: nat, i: nat, k: nat)
    requires i <= k
    ensures Lo(size, h, i) <= Lo(size, h, k)
  {
    if i < k { LoMonotone(size, h, i, k - 1); }
  }

  /** The chunk ends inside the node on the path, on every level. */
  lemma {:induction false} PathBrackets(j: Job, h: nat)
    requires Fits(j) && h >= 1 && |j.data| > 0
    ensures Lo(j.size, h, Path(j.last, h)) < |j.data| <= Lo(j.size, h, Path(j.last, h) + 1)
  {
    var q := j.last;
    if h > 1 {
      PathBrackets(j, h - 1);
      var i, p := Path(q, h - 1), Path(q, h);
      LoChildren(j.size, h, p);
      LoMonotone(j.size, h - 1, 2 * p, i);
      LoMonotone(j.size, h - 1, i + 1, 2 * p + 2);
    }
  }

  lemma {:induction false} PathFits(q: nat, depth: nat, h: nat)
    requires q < Span(1, depth) && 1 <= h <= depth + 1
    ensures Path(q, h) < Span(1, depth + 1 - h)
  {
    if h > 1 { PathFits(q, depth, h - 1); }
  }

  /** The chunk's own summit lies inside the tree. */
  lemma SummitFits(q: nat, depth: nat)
    requires q < Span(1, depth)
    ensures 1 <= Summit(q) <= depth + 1
  {
    PathFits(q, depth, depth + 1);
    assert Path(q, depth + 1) == 0;
  }

  // ---------------------------------------------------------------- node values

  ghost predicate InUse(j: Job, h: nat, i: nat) {
    j.size >= 1 && h >= 1 && i <= Path(j.last, h)
  }

  /** Does node `i` of level `h` have a right subtree holding data? */
  ghost predicate HasRight(j: Job, h: nat, i: nat)
    requires h >= 2 && j.size >= 1
  {
    2 * i + 1 <= Path(j.last, h - 1)
  }

  ghost function Block(j: Job, h: nat, i: nat): Bytes {
    var lo := Lo(j.size, h, i);
    var hi := Lo(j.size, h, i + 1);
    if lo <= hi <= |j.data| then j.data[lo..hi] else if lo <= |j.data| then j.data[lo..] else []
  }

  /** The pair of segments at data node `k`. */
  ghost function Pair(j: Job, k: nat): Bytes { Block(j, 1, k) }

  /** What a data node passes up: a hash, except that a lone last segment travels raw. */
  ghost function LeafValue(j: Job, k: nat): Bytes
    requires j.size >= 1
  {
    if j.last > 0 && |Pair(j, k)| <= j.size then Pair(j, k) else j.hash(Pair(j, k))
  }

  /** What node `i` of level `h` passes up. */
  ghost function Value(j: Job, h: nat, i: nat): Bytes
    requires InUse(j, h, i)
    decreases h
  {
    if h == 1 then LeafValue(j, i)
    else if HasRight(j, h, i) then j.hash(Value(j, h - 1, 2 * i) + Value(j, h - 1, 2 * i + 1))
    else Value(j, h - 1, 2 * i)
  }

  /** The reference hash by height instead of by span: a chunk of at most `Span(size, h)` bytes. */
  ghost function HeightRef(j: Job, d: Bytes, h: nat): Bytes
    requires j.size >= 1 && h >= 1
    decreases h
  {
    var s := Span(j.size, h - 1);
    if h == 1 then j.hash(d)
    else if |d| <= s then HeightRef(j, d, h - 1)
    else j.hash(HeightRef(j, d[..s], h - 1) +
                (if |d| - s <= j.size then d[s..] else HeightRef(j, d[s..], h - 1)))
  }

  lemma HeightRefPair(j: Job, d: Bytes)
    requires j.size >= 1 && |d| <= Span(j.size, 1)
    ensures HeightRef(j, d, 1) == SpanHash(j.hash, j.size, d, 1)
  {
    assert Span(j.size, 0) == j.size;
  }

  lemma {:induction false} HeightRefIsRefHash(j: Job, d: Bytes, h: nat)
    requires j.size >= 1 && h >= 1 && |d| <= Span(j.size, h)
    ensures HeightRef(j, d, h) == SpanHash(j.hash, j.size, d, h)
    decreases h
  {
    assert h > 1 ==> Span(j.size, h) == 2 * Span(j.size, h - 1);
    hide SpanHash, Span;
    var s := Span(j.size, h - 1);
    if h == 1 {
      HeightRefPair(j, d);
    } else if |d| <= s {
      HeightRefIsRefHash(j, d, h - 1);
      RefHashStable(j.hash, j.size, d, h - 1, h);
    } else {
      HeightRefIsRefHash(j, d[..s], h - 1);
      HeightRefIsRefHash(j, d[s..], h - 1);
      RefHashSplit(j.hash, j.size, d, h - 1);
    }
  }

  lemma HeightRefJoin(j: Job, l: Bytes, r: Bytes, h: nat)
    requires j.size >= 1 && h >= 2 && |l| == Span(j.size, h - 1) && |r| > 0
    ensures HeightRef(j, l + r, h) ==
            j.hash(HeightRef(j, l, h - 1) + (if |r| <= j.size then r else HeightRef(j, r, h - 1)))
  {
    assert (l + r)[..|l|] == l && (l + r)[|l|..] == r;
  }

  // Left of the path, blocks are full and split evenly.

  lemma FullRange(j: Job, h: nat, i: nat)
    requires Fits(j) && h >= 1 && |j.data| > 0 && i < Path(j.last, h)
    ensures Lo(j.size, h, i + 1) == Lo(j.size, h, i) + Span(j.size, h) <= |j.data|
  {
    PathBrackets(j, h);
    LoMonotone(j.size, h, i + 1, Path(j.last, h));
  }

  lemma FullLength(j: Job, h: nat, i: nat)
    requires Fits(j) && h >= 1 && |j.data| > 0 && i < Path(j.last, h)
    ensures |Block(j, h, i)| == Span(j.size, h)
  {
    FullRange(j, h, i);
  }

  lemma FullSplit(j: Job, h: nat, i: nat)
    requires Fits(j) && h >= 2 && |j.data| > 0 && i < Path(j.last, h)
    ensures Block(j, h, i) == Block(j, h - 1, 2 * i) + Block(j, h - 1, 2 * i + 1)
  {
    FullRange(j, h, i);
    LoChildren(j.size, h, i);
  }

  // On the path, a block is the rest of the chunk.

  lemma PathTail(j: Job, h: nat, i: nat)
    requires Fits(j) && h >= 1 && |j.data| > 0 && i == Path(j.last, h)
    ensures Lo(j.size, h, i) < |j.data|
    ensures Block(j, h, i) == j.data[Lo(j.size, h, i)..]
    ensures 0 < |Block(j, h, i)| <= Span(j.size, h)
  {
    PathBrackets(j, h);
  }

  lemma PathSplitLeft(j: Job, h: nat, i: nat)
    requires Fits(j) && h >= 2 && |j.data| > 0
    requires i == Path(j.last, h) && 2 * i == Path(j.last, h - 1)
    ensures Block(j, h, i) == Block(j, h - 1, 2 * i)
  {
    hide Block, Lo, Span, Fits;
    PathTail(j, h, i);
    PathTail(j, h - 1, 2 * i);
    LoChildren(j.size, h, i);
  }

  lemma PathMiddle(j: Job, h: nat, i: nat)
    requires Fits(j) && h >= 2 && |j.data| > 0
    requires 2 * i + 1 == Path(j.last, h - 1)
    ensures Lo(j.size, h, i) <= Lo(j.size, h - 1, 2 * i + 1) < |j.data|
    ensures Block(j, h - 1, 2 * i) == j.data[Lo(j.size, h, i)..Lo(j.size, h - 1, 2 * i + 1)]
  {
    PathBrackets(j, h - 1);
    LoChildren(j.size, h, i);
  }

  lemma PathSplitRight(j: Job, h: nat, i: nat)
    requires Fits(j) && h >= 2 && |j.data| > 0
    requires i == Path(j.last, h) && 2 * i + 1 == Path(j.last, h - 1)
    ensures Block(j, h, i) == Block(j, h - 1, 2 * i) + Block(j, h - 1, 2 * i + 1)
  {
    PathMiddle(j, h, i);
    PathTail(j, h, i);
    PathTail(j, h - 1, 2 * i + 1);
    Halves(j.data, Lo(j.size, h, i), Lo(j.size, h - 1, 2 * i + 1));
  }

  lemma Halves(d: Bytes, lo: nat, mid: nat)
    requires lo <= mid <= |d|
    ensures d[lo..] == d[lo..mid] + d[mid..]
  {}

  lemma PairSpan(size: nat, h: nat)
    requires size >= 1 && h >= 1
    ensures Span(size, 1) == 2 * size && size < 2 * size <= Span(size, h)
  {
    assert Span(size, 1) == 2 * Span(size, 0);
    SpanMonotone(size, 1, h);
  }

  /** A node left of the path covers a full block, hashed as the reference does. */
  lemma {:induction false} FullValue(j: Job, h: nat, i: nat)
    requires Fits(j) && h >= 1 && |j.data| > 0 && i < Path(j.last, h)
    ensures Value(j, h, i) == HeightRef(j, Block(j, h, i), h)
  {
    hide Block, Lo;
    if h == 1 {
      FullLength(j, h, i);
      PairSpan(j.size, 1);
    } else {
      FullValue(j, h - 1, 2 * i);
      FullValue(j, h - 1, 2 * i + 1);
      FullLength(j, h - 1, 2 * i);
      FullLength(j, h - 1, 2 * i + 1);
      FullSplit(j, h, i);
      PairSpan(j.size, h - 1);
      HeightRefJoin(j, Block(j, h - 1, 2 * i), Block(j, h - 1, 2 * i + 1), h);
    }
  }

  /** What the node on the path should pass up for the rest `t` of the chunk. */
  ghost function TailRef(j: Job, t: Bytes, h: nat): Bytes
    requires j.size >= 1 && h >= 1
  {
    if j.last > 0 && |t| <= j.size then t else HeightRef(j, t, h)
  }

  lemma {:induction false} PathValue(j: Job, h: nat)
    requires Fits(j) && h >= 1 && |j.data| > 0
    ensures Value(j, h, Path(j.last, h)) == TailRef(j, Block(j, h, Path(j.last, h)), h)
  {
    hide Block, Lo, Span;
    if h > 1 {
      PathValue(j, h - 1);
      PathTail(j, h - 1, Path(j.last, h - 1));
      if HasRight(j, h, Path(j.last, h)) {
        PathValueJoin(j, h, Path(j.last, h));
      } else {
        PathSplitLeft(j, h, Path(j.last, h));
      }
    }
  }

  lemma PathValueJoin(j: Job, h: nat, i: nat)
    requires Fits(j) && h >= 2 && |j.data| > 0
    requires i == Path(j.last, h) && 2 * i + 1 == Path(j.last, h - 1)
    requires Value(j, h - 1, 2 * i + 1) == TailRef(j, Block(j, h - 1, 2 * i + 1), h - 1)
    ensures Value(j, h, i) == TailRef(j, Block(j, h, i), h)
  {
    var l, r := Block(j, h - 1, 2 * i), Block(j, h - 1, 2 * i + 1);
    PathSplitRight(j, h, i);
    FullLength(j, h - 1, 2 * i);
    FullValue(j, h - 1, 2 * i);
    PathValueHash(j, h, i, l, r);
  }

  lemma PathValueHash(j: Job, h: nat, i: nat, l: Bytes, r: Bytes)
    requires Fits(j) && h >= 2 && |j.data| > 0
    requires i == Path(j.last, h) && 2 * i + 1 == Path(j.last, h - 1)
    requires |l| == Span(j.size, h - 1) && Value(j, h - 1, 2 * i) == HeightRef(j, l, h - 1)
    requires r == Block(j, h - 1, 2 * i + 1) && Value(j, h - 1, 2 * i + 1) == TailRef(j, r, h - 1)
    ensures Value(j, h, i) == TailRef(j, l + r, h)
  {
    assert j.last > 0 by { PathZero(h - 1); }
    assert |r| > 0 by { PathTail(j, h - 1, Path(j.last, h - 1)); }
    HeightRefJoin(j, l, r, h);
    PairSpan(j.size, h - 1);
  }

  lemma {:induction false} PathZero(h: nat)
    requires h >= 1
    ensures Path(0, h) == 0
  {
    if h > 1 { PathZero(h - 1); }
  }

  /** The value at the chunk's summit is the reference hash with any covering span. */
  lemma SummitValue(j: Job, k: nat)
    requires Fits(j) && k >= 1
    requires Summit(j.last) <= k + 1
    ensures IsSpan(j.size, Span(j.size, k))
    ensures Value(j, Summit(j.last), 0) == RefHash(j.hash, j.size, j.data, Span(j.size, k))
  {
    var f := Summit(j.last);
    assert IsSpan(j.size, Span(j.size, k));
    hide IsSpan, Value, RefHash, HeightRef;
    SummitHeightRef(j);
    HeightRefIsRefHash(j, j.data, f);
    if f <= k {
      SpanMonotone(j.size, f, f + 1);
      RefHashStable(j.hash, j.size, j.data, f, k);
    } else {
      RefHashStable(j.hash, j.size, j.data, k, f);
    }
  }

  lemma SummitHeightRef(j: Job)
    requires Fits(j)
    ensures |j.data| <= Span(j.size, Summit(j.last))
    ensures Value(j, Summit(j.last), 0) == HeightRef(j, j.data, Summit(j.last))
  {
    var q, f := j.last, Summit(j.last);
    if |j.data| == 0 {
      assert f == 1;
      assert Pair(j, 0) == [];
    } else {
      PathValue(j, f);
      PathTail(j, f, 0);
      assert Block(j, f, 0) == j.data;
      if q > 0 {
        PathBrackets(j, 1);
        LoMonotone(j.size, 1, 1, q);
        assert Lo(j.size, 1, 1) == Lo(j.size, 1, 0) + Span(j.size, 1);
        assert Span(j.size, 1) == 2 * Span(j.size, 0) == 2 * j.size;
      }
    }
  }
}
