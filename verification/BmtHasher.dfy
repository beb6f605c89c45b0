/** The sequential parts of chain/bmt/bmt.go (NewTree, Write, the flag loop of releaseTree) and
    the main theorem about a whole Write followed by Sum. */
module BmtHasher {
  import opened BmtReference
  import opened BmtShape
  import opened BmtMachine
  import opened BmtTheorems

  // ---------------------------------------------------------------- NewTree

  ghost predicate Built(tree: Tree, depth: nat, low: nat) {
    && (forall p :: p in tree <==> InTree(depth, p) && p.h >= low)
    && forall p :: p in tree ==> tree[p] == Node([], [], 0, false, p.h == depth + 1)
  }

  /** Builds the levels from the top down, doubling the node count. */
  method NewTree(depth: nat) returns (tree: Tree)
    ensures Clean(tree, depth)
  {
    tree := map[Pos(depth + 1, 0) := Node([], [], 0, false, true)];
    var count, d := 2, 1;
    assert Built(tree, depth, depth + 1) by {
      forall p ensures InTree(depth, p) && p.h >= depth + 1 <==> p == Pos(depth + 1, 0) {
        if p.h == depth + 1 { assert Span(1, 0) == 1; }
      }
    }
    while d <= depth
      invariant 1 <= d <= depth + 1
      invariant count == Span(1, d)
      invariant Built(tree, depth, depth + 2 - d)
    {
      ghost var upper := tree;
      var h := depth + 1 - d;
      var i := 0;
      while i < count
        invariant 0 <= i <= count
        invariant forall p :: p in tree <==> p in upper || (p.h == h && p.i < i)
        invariant forall p :: p in tree ==> tree[p] == Node([], [], 0, false, p.h == depth + 1)
      {
        tree := tree[Pos(h, i) := Node([], [], 0, false, false)];
        i := i + 1;
      }
      d := d + 1;
      count := count * 2;
    }
    assert Built(tree, depth, 1);
  }

  // ---------------------------------------------------------------- Write

  /** The job that hashing `b` amounts to, once its last data node is known. */
  ghost function ChunkJob(hash: BaseHash, size: nat, count: nat, b: Bytes, last: nat): Job {
    Job(hash, size, DepthOf(count), Truncate(size, count, b), last)
  }

  /** One call of writeSegment. */
  datatype Launch = Launch(k: nat, seg: Bytes, d: nat)

  class Hasher {
    const size: nat                   // segment size
    const count: nat                  // segment count
    const depth: nat                  // index of the last level
    var cur: nat                      // rightmost open data node
    var segment: Bytes                // its bytes so far
    var launched: seq<Launch>         // goroutines started so far

    constructor (size: nat, count: nat)
      ensures this.size == size && this.count == count && this.depth == DepthOf(count)
      ensures cur == 0 && segment == [] && launched == []
    {
      this.size, this.count := size, count;
      var d := Depth(count);
      this.depth := d;
      cur, segment, launched := 0, [], [];
    }

    /** The first Write on a fresh hasher cuts the truncated chunk into the pairs of the job,
        starts a goroutine for each but the last, and keeps the last open for Sum. */
    method Write(b: Bytes, ghost hash: BaseHash) returns (n: nat)
      requires size >= 1 && count >= 1 && depth == DepthOf(count)
      requires cur == 0 && segment == [] && launched == []
      modifies this
      ensures n == |b|
      ensures Fits(ChunkJob(hash, size, count, b, cur))
      ensures segment == Pair(ChunkJob(hash, size, count, b, cur), cur)
      ensures |launched| == cur
      ensures forall k :: 0 <= k < cur ==>
                launched[k] == Launch(k, Pair(ChunkJob(hash, size, count, b, cur), k), depth)
    {
      var l := |b|;
      ghost var d := Truncate(size, count, b);
      if l <= 0 {
        EmptyJob(hash, size, count, b);
        return 0;
      }
      CapFacts(size, count);
      hide PairsSent, OpenPair, Lo, Span, ChunkJob, Fits, Pair;
      var s := segment;
      var i := cur;
      var need: int := size * count;
      var width := size;
      if need > width { width := width * 2; }
      if l < need { need := l; }
      var rest := width - |s|;
      if need < rest { rest := need; }
      s := s + b[..rest];
      need := need - rest;
      FirstPair(d, b, size, depth, rest, need, width);
      launched, s, i := SendPairs(d, b, size, count, depth, s, rest, need, width);
      CutIsJob(hash, size, count, b, d, i, s, launched);
      segment := s;
      cur := i;
      return l;
    }
  }

  /** The loop of Write: hand out full pairs until the last one is open. */
  method SendPairs(ghost d: Bytes, b: Bytes, size: nat, count: nat, depth: nat, s0: Bytes, rest0: int, need0: int, width0: int)
    returns (sent: seq<Launch>, s: Bytes, i: nat)
    requires size >= 1 && count >= 1 && |d| <= |b| && d == b[..|d|] && |d| <= size * count
    requires OpenPair(d, size, 0, s0, rest0, need0, width0)
    ensures i < (count + 1) / 2
    ensures PairsSent(sent, d, size, depth, i)
    ensures Lo(size, 1, i) < |d| <= Lo(size, 1, i + 1) && s == d[Lo(size, 1, i)..]
  {
    hide PairsSent, OpenPair, Lo, Span;
    var nodes := (count + 1) / 2;
    var rest, need, width := rest0, need0, width0;
    sent, s, i := [], s0, 0;
    NoPairs(d, size, depth);
    while need > 0 && i < nodes - 1
      invariant i < nodes
      invariant PairsSent(sent, d, size, depth, i)
      invariant OpenPair(d, size, i, s, rest, need, width)
      decreases nodes - i
    {
      NextPair(sent, d, b, size, depth, i, s, rest, need, width, if need < width then need else width);
      sent := sent + [Launch(i, s, depth)];
      need := need - width;
      if need < 0 { width := width + need; }
      s := b[rest..rest + width];
      rest := rest + width;
      i := i + 1;
    }
    LastPair(d, size, count, i, s, rest, need, width);
  }

  lemma NoPairs(d: Bytes, size: nat, depth: nat)
    ensures PairsSent([], d, size, depth, 0)
  {}

  /** Pairs `0..i-1` of the chunk have been handed out. */
  ghost predicate PairsSent(launched: seq<Launch>, d: Bytes, size: nat, depth: nat, i: nat) {
    && |launched| == i
    && Lo(size, 1, i) <= |d|
    && forall k :: 0 <= k < i ==> launched[k] == Launch(k, Cut1(d, size, k), depth)
  }

  /** The bytes of pair `k`. */
  ghost function Cut1(d: Bytes, size: nat, k: nat): Bytes {
    if Lo(size, 1, k) <= Lo(size, 1, k + 1) <= |d| then d[Lo(size, 1, k)..Lo(size, 1, k + 1)]
    else if Lo(size, 1, k) <= |d| then d[Lo(size, 1, k)..] else []
  }

  /** Pair `i` is held in `s`; `rest` bytes are consumed and `need` remain. */
  ghost predicate OpenPair(d: Bytes, size: nat, i: nat, s: Bytes, rest: int, need: int, width: int) {
    && Span(size, 1) == 2 * size
    && Lo(size, 1, i + 1) == Lo(size, 1, i) + Span(size, 1)
    && Lo(size, 1, i) < rest <= |d|
    && s == d[Lo(size, 1, i)..rest]
    && (need > 0 ==> rest == Lo(size, 1, i + 1) && need == |d| - rest && width == 2 * size)
    && (need <= 0 ==> rest == |d| <= Lo(size, 1, i + 1))
  }

  lemma FirstPair(d: Bytes, b: Bytes, size: nat, depth: nat, rest: int, need: int, width: int)
    requires size >= 1 && 0 < |d| <= |b| && d == b[..|d|]
    requires (width == size && |d| <= size) || width == 2 * size
    requires rest == (if |d| < width then |d| else width) && need == |d| - rest
    ensures OpenPair(d, size, 0, b[..rest], rest, need, width)
  {
    assert Span(size, 1) == 2 * Span(size, 0);
    assert Lo(size, 1, 1) == Lo(size, 1, 0) + Span(size, 1);
  }

  lemma NextPair(launched: seq<Launch>, d: Bytes, b: Bytes, size: nat, depth: nat, i: nat, s: Bytes,
                 rest: int, need: int, width: int, w: int)
    requires size >= 1 && |d| <= |b| && d == b[..|d|]
    requires PairsSent(launched, d, size, depth, i) && OpenPair(d, size, i, s, rest, need, width) && need > 0
    requires w == if need < width then need else width
    ensures PairsSent(launched + [Launch(i, s, depth)], d, size, depth, i + 1)
    ensures 0 <= rest && 0 < w && rest + w <= |b|
    ensures OpenPair(d, size, i + 1, b[rest..rest + w], rest + w, need - width, w)
  {
    assert Lo(size, 1, i + 2) == Lo(size, 1, i + 1) + Span(size, 1);
  }

  lemma LastPair(d: Bytes, size: nat, count: nat, i: nat, s: Bytes, rest: int, need: int, width: int)
    requires size >= 1 && count >= 1 && |d| <= size * count
    requires OpenPair(d, size, i, s, rest, need, width)
    requires i < (count + 1) / 2 && (need > 0 ==> i == (count + 1) / 2 - 1)
    ensures Lo(size, 1, i) < |d| <= Lo(size, 1, i + 1) && s == d[Lo(size, 1, i)..]
  {
    NodesSuffice(size, count, i, need, |d|);
  }

  lemma CapFacts(size: nat, count: nat)
    requires size >= 1 && count >= 1
    ensures size * count >= 1
    ensures count == 1 ==> size * count == size
    ensures count >= 2 ==> size * count >= 2 * size
    ensures Span(size, 1) == 2 * size && Lo(size, 1, 0) == 0 && Lo(size, 1, 1) == 2 * size
  {
    assert Span(size, 1) == 2 * Span(size, 0);
    assert Lo(size, 1, 1) == Lo(size, 1, 0) + Span(size, 1);
    if count >= 2 { assert count * size == (count - 2) * size + 2 * size; }
  }

  lemma EmptyJob(hash: BaseHash, size: nat, count: nat, b: Bytes)
    requires size >= 1 && |b| == 0
    ensures Fits(ChunkJob(hash, size, count, b, 0))
    ensures Pair(ChunkJob(hash, size, count, b, 0), 0) == []
  {
    SpanMonotone(1, 0, DepthOf(count));
  }

  lemma CutIsJob(hash: BaseHash, size: nat, count: nat, b: Bytes, d: Bytes, i: nat, s: Bytes, launched: seq<Launch>)
    requires size >= 1 && count >= 1 && i < (count + 1) / 2 && d == Truncate(size, count, b)
    requires PairsSent(launched, d, size, DepthOf(count), i)
    requires Lo(size, 1, i) < |d| <= Lo(size, 1, i + 1) && s == d[Lo(size, 1, i)..]
    ensures Fits(ChunkJob(hash, size, count, b, i))
    ensures s == Pair(ChunkJob(hash, size, count, b, i), i)
    ensures |launched| == i
    ensures forall k :: 0 <= k < i ==>
              launched[k] == Launch(k, Pair(ChunkJob(hash, size, count, b, i), k), DepthOf(count))
  {
    WidthFits(count, i);
  }

  lemma NodesSuffice(size: nat, count: nat, i: nat, need: int, total: nat)
    requires size >= 1 && count >= 1 && total <= size * count
    requires need > 0 ==> need == total - Lo(size, 1, i + 1) && i == (count + 1) / 2 - 1
    ensures need <= 0
  {
    LoIsProduct(size, 1, i + 1);
    assert Span(size, 1) == 2 * Span(size, 0) == 2 * size;
    var n := (count + 1) / 2;
    assert n * (2 * size) == (2 * n) * size == count * size + (2 * n - count) * size;
  }

  lemma WidthFits(count: nat, i: nat)
    requires count >= 1 && i < (count + 1) / 2
    ensures i < Span(1, DepthOf(count))
  {
    DepthIsLeast(count);
    SpanScales(2, 1, DepthOf(count));
  }

  // ---------------------------------------------------------------- releaseTree

  /** The loop that clears the flags from a data node up to the top. */
  method ReleaseTree(j: Job, tree: Tree) returns (r: Tree)
    requires Fits(j) && forall p :: p in tree <==> InTree(j.depth, p)
    ensures r == Release(j, tree)
  {
    r := tree;
    var n := Pos(1, j.last);
    var live := true;
    while live
      invariant 1 <= n.h <= j.depth + 1
      invariant live ==> n.i == Path(j.last, n.h)
      invariant r.Keys == tree.Keys
      invariant forall p :: p in tree ==>
                  r[p] == if p.h < n.h || !live then Released1(j, p, tree[p]) else tree[p]
      decreases j.depth + 1 - n.h, live
    {
      PathFits(j.last, j.depth, n.h);
      assert InTree(j.depth, n);
      r := r[n := r[n].(unbalanced := false)];
      if n.h <= j.depth {
        r := r[n := r[n].(root := false)];
        n := Up(n);
      } else {
        live := false;
      }
    }
  }

  // ---------------------------------------------------------------- the main theorem

  /** For every segment size and count, every chunk, every clean tree and every schedule, Sum can
      only ever receive the reference hash of the truncated chunk. */
  lemma SumIsReference(hash: BaseHash, size: nat, count: nat, b: Bytes, last: nat, tree: Tree, acts: seq<Act>)
    requires size >= 1 && count >= 1
    requires Fits(ChunkJob(hash, size, count, b, last)) && Clean(tree, DepthOf(count))
    ensures Run(ChunkJob(hash, size, count, b, last), Init(tree), acts).result in
              {[], [RefChunkHash(hash, size, count, b)]}
  {
    var j := ChunkJob(hash, size, count, b, last);
    ResultIsSummit(j, tree, acts);
    SummitFits(last, j.depth);
    SummitValue(j, RefSpanExponent(count));
  }

  /** And once Sum has returned, it has received that hash: of the chunk if it is no longer than its segments
      together, and of as many first bytes as they hold otherwise. */
  lemma SumReturnsReference(hash: BaseHash, size: nat, count: nat, b: Bytes, last: nat, tree: Tree, acts: seq<Act>)
    requires size >= 1 && count >= 1
    requires Fits(ChunkJob(hash, size, count, b, last)) && Clean(tree, DepthOf(count))
    requires Run(ChunkJob(hash, size, count, b, last), Init(tree), acts).caller.Released?
    ensures Run(ChunkJob(hash, size, count, b, last), Init(tree), acts).result == [RefChunkHash(hash, size, count, b)]
    ensures |b| <= size * count ==>
              Run(ChunkJob(hash, size, count, b, last), Init(tree), acts).result == [SpanHash(hash, size, b, RefSpanExponent(count))]
    ensures |b| > size * count ==>
              Run(ChunkJob(hash, size, count, b, last), Init(tree), acts).result
              == [SpanHash(hash, size, b[..size * count], RefSpanExponent(count))]
  {
    hide Run, Fits, Init, RefHash;
    SumIsReference(hash, size, count, b, last, tree, acts);
    ReleasedHasResult(ChunkJob(hash, size, count, b, last), tree, acts);
  }
}
