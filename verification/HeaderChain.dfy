/** The header chain (chain/core/headerchain.go): total difficulties, the number-to-hash index and
    rewinding. */
module HeaderChain {
  import opened Options
  import opened Chain

  /** The database contents and the head, without the caches. */
  datatype State = State(genesis: Block, headers: set<Block>, tds: map<Block, int>, canon: map<nat, Block>, head: Block)

  /** How WriteHeader ends; `NilHeader` is the dereference of a header that is not stored. */
  datatype Status = UnknownAncestor | Canonical | Side | NilHeader

  /** The chain below `b` is stored completely, down to the genesis block. */
  predicate Rooted(s: State, b: Block) { AncestorAt(s.headers, b, 0) == Some(s.genesis) }

  /** The index holds exactly the heights up to the head, each mapped to the head's ancestor. */
  ghost predicate CanonOf(headers: set<Block>, canon: map<nat, Block>, head: Block) {
    && (forall k: nat :: k in canon <==> k <= head.number)
    && forall k: nat :: k in canon ==> AncestorAt(headers, head, k) == Some(canon[k])
  }

  ghost predicate Core(s: State) {
    && s.genesis.number == 0 && s.genesis.parent == Zero && s.genesis in s.headers
    && s.head in s.headers && Rooted(s, s.head)
    && CanonOf(s.headers, s.canon, s.head)
    && s.tds.Keys == s.headers && Summed(s.tds) && Linked(s.genesis, s.headers)
  }

  ghost predicate Summed(tds: map<Block, int>) { forall b :: b in tds ==> tds[b] == TotalDifficulty(b) }

  /** Numbers follow the parents'. */
  ghost predicate Linked(genesis: Block, headers: set<Block>) {
    forall b :: b in headers && b != genesis ==> b.parent.Of? && b.number == b.parent.block.number + 1
  }

  /** Every stored header reaches genesis. */
  ghost predicate Closed(s: State) { forall b :: b in s.headers ==> Rooted(s, b) }

  /** No stored header has more total difficulty than the head. */
  ghost predicate Heaviest(s: State) {
    s.head in s.tds && forall b :: b in s.tds ==> s.tds[b] <= s.tds[s.head]
  }

  ghost predicate Valid(s: State) { Core(s) && Closed(s) && Heaviest(s) }

  /** What the validating callers guarantee: the number follows the parent's. */
  predicate Numbered(s: State, h: Block) {
    h.parent.Of? && h.parent.block in s.headers ==> h.number == h.parent.block.number + 1
  }

  predicate Known(s: State, h: Block) { h.parent.Of? && h.parent.block in s.headers }

  function CanonMap(headers: set<Block>, h: Block): map<nat, Block>
    requires AncestorAt(headers, h, 0).Some?
  {
    map k: nat | 0 <= k <= h.number :: AncestorLower(headers, h, 0, k); AncestorAt(headers, h, k).value
  }

  lemma CanonMapIs(headers: set<Block>, h: Block)
    requires AncestorAt(headers, h, 0).Some?
    ensures CanonOf(headers, CanonMap(headers, h), h)
  {
    forall k: nat | k <= h.number ensures AncestorAt(headers, h, k).Some? { AncestorLower(headers, h, 0, k); }
  }

  /** Is the new header heavier than the head, or equally heavy and the coin says so? */
  ghost predicate Wins(s: State, h: Block, coin: bool)
    requires Known(s, h) && s.tds.Keys == s.headers && s.head in s.headers
  {
    var td := s.tds[h.parent.block] + h.difficulty;
    td > s.tds[s.head] || (td == s.tds[s.head] && coin)
  }

  /** A winning header whose stored ancestors do not reach genesis: the rewrite loop runs off them. */
  ghost predicate RunsOff(s: State, h: Block, coin: bool)
    requires Core(s)
  {
    Known(s, h) && Wins(s, h, coin) && !Rooted(s, h.parent.block)
  }

  /** The effect of WriteHeader: store, and re-route the index when the new header wins. */
  ghost function Written(s: State, h: Block, coin: bool): State
    requires Core(s) && Numbered(s, h) && !RunsOff(s, h, coin)
  {
    if !Known(s, h) then s
    else
      var headers := s.headers + {h};
      var s1 := s.(headers := headers, tds := s.tds[h := s.tds[h.parent.block] + h.difficulty]);
      if Wins(s, h, coin) then
        NewRooted(s, h);
        s1.(canon := CanonMap(headers, h), head := h)
      else s1
  }

  lemma NewRooted(s: State, h: Block)
    requires Known(s, h) && h.number == h.parent.block.number + 1
    ensures Rooted(s, h.parent.block) ==> AncestorAt(s.headers + {h}, h, 0) == Some(s.genesis)
    ensures forall b :: Rooted(s, b) ==> AncestorAt(s.headers + {h}, b, 0) == Some(s.genesis)
  {
    if Rooted(s, h.parent.block) { AncestorGrows(s.headers, s.headers + {h}, h.parent.block, 0); }
    forall b | Rooted(s, b) ensures AncestorAt(s.headers + {h}, b, 0) == Some(s.genesis) {
      AncestorGrows(s.headers, s.headers + {h}, b, 0);
    }
  }

  lemma CanonGrows(s: State, h: Block)
    requires Core(s)
    ensures CanonOf(s.headers + {h}, s.canon, s.head)
  {
    hide Summed, Linked;
    forall k: nat | k in s.canon ensures AncestorAt(s.headers + {h}, s.head, k) == Some(s.canon[k]) {
      AncestorGrows(s.headers, s.headers + {h}, s.head, k);
    }
  }

  /** One WriteHeader keeps the index exact and the difficulties summed; it keeps every header rooted and the
      head heaviest if they were. */
  lemma WrittenKeeps(s: State, h: Block, coin: bool)
    requires Core(s) && Numbered(s, h) && !RunsOff(s, h, coin)
    ensures Core(Written(s, h, coin))
    ensures Closed(s) ==> Closed(Written(s, h, coin))
    ensures Heaviest(s) ==> Heaviest(Written(s, h, coin))
  {
    hide CanonOf, Summed, Linked, AncestorAt;
    if Known(s, h) {
      NewRooted(s, h);
      CanonGrows(s, h);
      if Rooted(s, h.parent.block) { CanonMapIs(s.headers + {h}, h); }
      NewSummed(s, h);
      if Closed(s) { NewClosed(s, h); }
    }
  }

  /** A header of known parent is stored with the difficulty of its chain, and becomes the head exactly if it is
      heavier, or as heavy and chosen by the coin; any other changes nothing. */
  lemma HeadChangesIff(s: State, h: Block, coin: bool)
    requires Core(s) && Numbered(s, h) && !RunsOff(s, h, coin)
    ensures !(h.parent.Of? && h.parent.block in s.headers) ==> Written(s, h, coin) == s
    ensures h.parent.Of? && h.parent.block in s.headers ==>
              var s', td, local := Written(s, h, coin), TotalDifficulty(h), TotalDifficulty(s.head);
              && s'.headers == s.headers + {h} && s'.tds == s.tds[h := td] && s'.genesis == s.genesis
              && s'.head == (if td > local || (td == local && coin) then h else s.head)
  {
    hide CanonOf, Linked, AncestorAt, CanonMap;
    if Known(s, h) { NewRooted(s, h); }
  }

  lemma NewClosed(s: State, h: Block)
    requires Known(s, h) && Numbered(s, h) && Closed(s)
    ensures forall b :: b in s.headers + {h} ==> AncestorAt(s.headers + {h}, b, 0) == Some(s.genesis)
  {
    NewRooted(s, h);
    assert Rooted(s, h.parent.block);
    forall b | b in s.headers + {h} ensures AncestorAt(s.headers + {h}, b, 0) == Some(s.genesis) {
      if b in s.headers { assert Rooted(s, b); }
    }
  }

  lemma NewSummed(s: State, h: Block)
    requires Known(s, h) && Numbered(s, h) && s.tds.Keys == s.headers && Summed(s.tds) && Linked(s.genesis, s.headers)
    ensures Summed(s.tds[h := s.tds[h.parent.block] + h.difficulty]) && Linked(s.genesis, s.headers + {h})
    ensures h in s.tds ==> s.tds[h] == s.tds[h.parent.block] + h.difficulty
  {}

  ghost function Genesis(g: Block): State {
    State(g, {g}, map[g := TotalDifficulty(g)], map[0 := g], g)
  }

  lemma GenesisValid(g: Block)
    requires g.number == 0 && g.parent == Zero
    ensures Valid(Genesis(g))
  {
  }

  // ---------------------------------------------------------------- SetHead

  /** The canonical headers above height `n`. */
  function Above(s: State, n: nat): set<Block> {
    set k | k in s.canon && k > n :: s.canon[k]
  }

  ghost function Rewound(s: State, n: nat): State
    requires Core(s)
  {
    var m := if n < s.head.number then n else s.head.number;
    State(s.genesis, s.headers - Above(s, n), s.tds - Above(s, n), map k | k in s.canon && k <= n :: s.canon[k], s.canon[m])
  }

  lemma {:induction false} RewoundAncestor(s: State, n: nat, b: Block, k: nat)
    requires b.number <= n && AncestorAt(s.headers, b, k).Some?
    requires forall j :: j in s.canon ==> s.canon[j].number == j
    ensures AncestorAt(s.headers - Above(s, n), b, k) == AncestorAt(s.headers, b, k)
    decreases b.number
  {
    if k < b.number {
      var p := Parent(s.headers, b).value;
      assert p !in Above(s, n);
      RewoundAncestor(s, n, p, k);
    }
  }

  /** SetHead leaves exactly the canonical prefix and a state on which WriteHeader works again. */
  lemma RewoundKeeps(s: State, n: nat)
    requires Core(s)
    ensures Core(Rewound(s, n))
    ensures Rewound(s, n).head.number == if n < s.head.number then n else s.head.number
  {
    RewoundSummed(s, n);
    hide Summed, Linked;
    var m := if n < s.head.number then n else s.head.number;
    var h := s.canon[m];
    assert h !in Above(s, n);
    assert h in s.headers;
    assert s.canon[0] == s.genesis && s.genesis !in Above(s, n);
    forall k: nat | k <= m
      ensures AncestorAt(s.headers - Above(s, n), h, k) == Some(s.canon[k])
    {
      AncestorThrough(s.headers, s.head, h, k);
      RewoundAncestor(s, n, h, k);
    }
  }

  /** Exactly the ancestors of the head above the height are removed. */
  lemma RewoundIff(s: State, n: nat, b: Block)
    requires Core(s)
    ensures b in Rewound(s, n).headers <==> b in s.headers && !(b.number > n && IsAncestor(s.headers, b, s.head))
    ensures Rewound(s, n).tds.Keys == Rewound(s, n).headers && (b in Rewound(s, n).tds ==> Rewound(s, n).tds[b] == s.tds[b])
  {
    hide Summed, Linked;
    if b in Above(s, n) {
      var k :| k in s.canon && k > n && s.canon[k] == b;
      assert AncestorAt(s.headers, s.head, k) == Some(b);
    }
    if b.number > n && IsAncestor(s.headers, b, s.head) { assert s.canon[b.number] == b; }
  }

  lemma RewoundSummed(s: State, n: nat)
    requires Core(s)
    ensures Summed(s.tds - Above(s, n)) && Linked(s.genesis, s.headers - Above(s, n))
  {
    hide CanonOf, Rooted;
  }

  /** After SetHead every remaining header still reaches genesis exactly when none of them was
      built on a removed one. */
  lemma RewoundClosedIff(s: State, n: nat)
    requires Core(s) && Closed(s)
    ensures Closed(Rewound(s, n)) <==>
            forall b :: b in s.headers - Above(s, n) && b.number > 0 ==> b.parent.Of? && b.parent.block !in Above(s, n)
  {
    hide Summed, Linked, CanonOf;
    var rest := s.headers - Above(s, n);
    if Closed(Rewound(s, n)) {
      forall b | b in rest && b.number > 0 ensures b.parent.Of? && b.parent.block !in Above(s, n) {
        assert Rooted(Rewound(s, n), b);
        assert Parent(rest, b).Some?;
      }
    }
    if forall b :: b in rest && b.number > 0 ==> b.parent.Of? && b.parent.block !in Above(s, n) {
      forall b | b in rest ensures Rooted(Rewound(s, n), b) {
        assert Rooted(s, b);
        StillRooted(s, rest, b);
      }
    }
  }

  lemma {:induction false} StillRooted(s: State, rest: set<Block>, b: Block)
    requires Rooted(s, b) && b in rest
    requires forall c :: c in rest && c.number > 0 ==> c.parent.Of? && (c.parent.block in s.headers ==> c.parent.block in rest)
    ensures AncestorAt(rest, b, 0) == Some(s.genesis)
    decreases b.number
  {
    if b.number > 0 {
      StillRooted(s, rest, Parent(s.headers, b).value);
    }
  }

  // A side header above the rewind point is orphaned and can outweigh the new head.

  const G: Block := Block(Zero, 0, 1, [], 0)
  const A: Block := Block(Of(G), 1, 1, [], 0)
  const B: Block := Block(Of(A), 2, 2, [], 0)
  const C: Block := Block(Of(A), 2, 1, [], 1)

  ghost function Forked(): State {
    State(G, {G, A, B, C}, map[G := 1, A := 2, B := 4, C := 3], map[0 := G, 1 := A, 2 := B], B)
  }

  lemma ForkedSummed()
    ensures Summed(Forked().tds) && Linked(G, Forked().headers) && Forked().tds.Keys == Forked().headers
  {
    assert TotalDifficulty(A) == 2;
  }

  lemma ForkedRooted(headers: set<Block>)
    requires headers == Forked().headers
    ensures AncestorAt(headers, A, 0) == Some(G) && AncestorAt(headers, B, 0) == Some(G) && AncestorAt(headers, C, 0) == Some(G)
    ensures AncestorAt(headers, B, 1) == Some(A)
  {
    assert Parent(headers, A) == Some(G) && Parent(headers, B) == Some(A) && Parent(headers, C) == Some(A);
    assert AncestorAt(headers, A, 0) == Some(G);
  }

  lemma ForkedValid()
    ensures Valid(Forked())
  {
    ForkedSummed();
    ForkedRooted(Forked().headers);
    hide AncestorAt, Summed, Linked;
  }

  lemma RewoundFork()
    ensures Core(Forked())
    ensures var r := Rewound(Forked(), 0);
            r.head == G && C in r.headers && G in r.headers && r.tds.Keys == r.headers && r.tds[C] == 3 && r.tds[G] == 1 && !Rooted(r, C)
  {
    ForkedValid();
    var s := Forked();
    assert Above(s, 0) == {A, B} by {
      assert s.canon[1] == A && s.canon[2] == B;
      assert forall k :: k in s.canon && k > 0 ==> s.canon[k] in {A, B};
    }
    var r := Rewound(s, 0);
    assert r.head == G && C in r.headers && Parent(r.headers, C).None?;
  }

  lemma RewindCanOrphan()
    ensures Valid(Forked()) && !Closed(Rewound(Forked(), 0)) && !Heaviest(Rewound(Forked(), 0))
  {
    ForkedValid();
    RewoundFork();
  }

  // ---------------------------------------------------------------- runs of both

  datatype Op = Write(header: Block, coin: bool) | Rewind(n: nat)

  datatype Fate = Running(state: State) | Crashed

  /** What the validating callers guarantee of one operation. */
  ghost predicate Offered(s: State, op: Op) { op.Write? ==> Numbered(s, op.header) }

  ghost function Do(s: State, op: Op): (f: Fate)
    requires Core(s) && Offered(s, op)
    ensures f.Running? ==> Core(f.state)
  {
    match op
    case Rewind(n) =>
      RewoundKeeps(s, n);
      Running(Rewound(s, n))
    case Write(h, coin) =>
      if RunsOff(s, h, coin) then Crashed
      else
        WrittenKeeps(s, h, coin);
        Running(Written(s, h, coin))
  }

  /** The callers' guarantee along a whole run. */
  ghost predicate Acceptable(s: State, ops: seq<Op>)
    requires Core(s)
    decreases |ops|
  {
    ops == [] || (Offered(s, ops[0]) && (Do(s, ops[0]).Running? ==> Acceptable(Do(s, ops[0]).state, ops[1..])))
  }

  ghost function Run(s: State, ops: seq<Op>): Fate
    requires Core(s) && Acceptable(s, ops)
    decreases |ops|
  {
    if ops == [] then Running(s)
    else if Do(s, ops[0]).Crashed? then Crashed
    else Run(Do(s, ops[0]).state, ops[1..])
  }

  /** Whatever headers are written and however often the chain is rewound, as long as the node runs the index is
      exactly the head's chain, which is stored down to genesis, and the difficulties are summed to genesis. */
  lemma {:induction false} EveryRun(s: State, ops: seq<Op>)
    requires Core(s) && Acceptable(s, ops)
    ensures Run(s, ops).Running? ==> Core(Run(s, ops).state)
    decreases |ops|
  {
    hide Core, Do;
    if ops != [] && Do(s, ops[0]).Running? {
      DoKeepsCore(s, ops[0]);
      EveryRun(Do(s, ops[0]).state, ops[1..]);
    }
  }

  lemma DoKeepsCore(s: State, op: Op)
    requires Core(s) && Offered(s, op)
    ensures Do(s, op).Running? ==> Core(Do(s, op).state)
  {}

  /** Without a rewind the node never crashes, every header stays rooted and the head stays heaviest. */
  lemma {:induction false} RunWithoutRewind(s: State, ops: seq<Op>)
    requires Valid(s) && Acceptable(s, ops) && forall i :: 0 <= i < |ops| ==> ops[i].Write?
    ensures Run(s, ops).Running? && Valid(Run(s, ops).state)
    decreases |ops|
  {
    if ops != [] {
      WriteStaysValid(s, ops[0]);
      hide Valid, Do, Core;
      RunWithoutRewind(Do(s, ops[0]).state, ops[1..]);
    }
  }

  lemma WriteStaysValid(s: State, op: Op)
    requires Valid(s) && op.Write? && Numbered(s, op.header)
    ensures Do(s, op).Running? && Valid(Do(s, op).state)
  {
    assert Known(s, op.header) ==> Rooted(s, op.header.parent.block);
    WrittenKeeps(s, op.header, op.coin);
  }

  const D: Block := Block(Of(C), 3, 1, [], 0)

  /** After the rewind above, the child of the orphan outweighs the head and brings the node down. */
  lemma RewindThenWriteCrashes(coin: bool)
    ensures Core(Forked()) && Acceptable(Forked(), [Rewind(0), Write(D, coin)])
    ensures Run(Forked(), [Rewind(0), Write(D, coin)]).Crashed?
  {
    RewindCanOrphan();
    var ops := [Rewind(0), Write(D, coin)];
    var r := Rewound(Forked(), 0);
    RewoundKeeps(Forked(), 0);
    RewoundFork();
    assert Do(Forked(), ops[0]) == Running(r);
    assert Known(r, D) && Wins(r, D, coin) && !Rooted(r, C);
    assert ops[1..][0] == Write(D, coin) && ops[1..][1..] == [];
    assert Do(r, ops[1]).Crashed?;
  }

  lemma StepBack(s: State, k: nat)
    requires Core(s) && 0 < k <= s.head.number
    ensures s.canon[k].parent == Of(s.canon[k - 1]) && s.canon[k - 1].number == k - 1
    ensures s.canon[k - 1] in s.headers && s.canon[k - 1] !in Above(s, k - 1)
    ensures Above(s, k - 1) == Above(s, k) + {s.canon[k]}
  {
    hide Summed, Linked;
    AncestorThrough(s.headers, s.head, s.canon[k], k - 1);
    assert Parent(s.headers, s.canon[k]) == Some(s.canon[k - 1]);
    forall b | b in Above(s, k - 1) ensures b in Above(s, k) + {s.canon[k]} {
      var j :| j in s.canon && j > k - 1 && s.canon[j] == b;
    }
  }

  // ---------------------------------------------------------------- the implementation

  /** Cached headers are filed under their own hash. */
  ghost predicate Filed(headerCache: map<Hash, Block>) {
    forall x :: x in headerCache ==> x == Of(headerCache[x])
  }

  /** Cached entries agree with the database. */
  ghost predicate Agree(tdCache: map<Hash, int>, headerCache: map<Hash, Block>, headers: set<Block>, tds: map<Block, int>) {
    && (forall x :: x in tdCache ==> x.Of? && x.block in tds && tds[x.block] == tdCache[x])
    && Filed(headerCache) && (forall x :: x in headerCache ==> headerCache[x] in headers)
  }

  lemma AgreeWrite(tdCache: map<Hash, int>, headerCache: map<Hash, Block>, headers: set<Block>, tds: map<Block, int>, h: Block, td: int)
    requires Agree(tdCache, headerCache, headers, tds) && (h in tds ==> tds[h] == td)
    ensures Agree(tdCache[Of(h) := td], headerCache, headers + {h}, tds[h := td])
  {}

  /** The index while the loop of WriteHeader stands at `p`: the new branch above `p`, the old
      entries at and below it, nothing above the new header. */
  ghost predicate Routing(s0: State, headers: set<Block>, header: Block, canon: map<nat, Block>, p: Block) {
    && IsAncestor(headers, p, header) && p.number < header.number && p in s0.headers
    && (forall k: nat :: k in canon <==> (k in s0.canon && k <= header.number) || p.number < k < header.number)
    && (forall k: nat :: p.number < k < header.number ==> AncestorAt(headers, header, k) == Some(canon[k]))
    && (forall k: nat :: k <= p.number && k in canon ==> canon[k] == s0.canon[k])
  }

  /** `header` extends a stored parent. */
  ghost predicate Extends(s0: State, headers: set<Block>, header: Block) {
    && Core(s0) && headers == s0.headers + {header}
    && header.parent.Of? && header.parent.block in s0.headers
    && header.number == header.parent.block.number + 1
  }

  lemma RoutingStart(s0: State, headers: set<Block>, header: Block, canon: map<nat, Block>)
    requires Extends(s0, headers, header)
    requires canon == map k | k in s0.canon && k <= header.number :: s0.canon[k]
    ensures Routing(s0, headers, header, canon, header.parent.block)
  {
    var p := header.parent.block;
    assert Parent(headers, header) == Some(p);
    assert AncestorAt(headers, header, p.number) == Some(p);
  }

  lemma RoutingParent(s0: State, headers: set<Block>, header: Block, canon: map<nat, Block>, p: Block)
    requires Extends(s0, headers, header) && Routing(s0, headers, header, canon, p)
    requires p.number !in canon || canon[p.number] != p
    ensures p.number > 0 && p.parent.Of? && p.parent.block.number == p.number - 1
  {
    assert 0 in s0.canon && s0.canon[0] == s0.genesis;
  }

  lemma RoutingStep(s0: State, headers: set<Block>, header: Block, canon: map<nat, Block>, p: Block)
    requires Extends(s0, headers, header) && Routing(s0, headers, header, canon, p)
    requires p.number > 0 && p.parent.Of? && p.parent.block.number == p.number - 1 && p.parent.block in headers
    ensures Routing(s0, headers, header, canon[p.number := p], p.parent.block)
  {
    hide Core;
    AncestorThrough(headers, header, p, p.number - 1);
    var q := p.parent.block;
    assert Parent(headers, p) == Some(q) && IsAncestor(headers, q, header);
    assert q != header;
  }

  lemma RoutingDone(s0: State, headers: set<Block>, header: Block, canon: map<nat, Block>, p: Block)
    requires Extends(s0, headers, header) && Routing(s0, headers, header, canon, p)
    requires p.number in canon && canon[p.number] == p
    ensures Rooted(s0, header.parent.block) && AncestorAt(headers, header, 0).Some?
    ensures canon[header.number := header] == CanonMap(headers, header)
  {
    hide Summed, Linked, AncestorAt;
    CanonGrows(s0, header);
    assert AncestorAt(headers, s0.head, p.number) == Some(p);
    AncestorThrough(headers, header, p, 0);
    AncestorThrough(headers, s0.head, p, 0);
    ParentRooted(s0, headers, header);
    CanonMapIs(headers, header);
    forall k: nat | k <= p.number ensures k in canon && AncestorAt(headers, header, k) == Some(canon[k]) {
      AncestorThrough(headers, header, p, k);
      AncestorThrough(headers, s0.head, p, k);
    }
  }

  /** The new header reaches genesis exactly when its parent did. */
  lemma ParentRooted(s0: State, headers: set<Block>, header: Block)
    requires Extends(s0, headers, header)
    ensures AncestorAt(headers, header, 0) == Some(s0.genesis) <==> Rooted(s0, header.parent.block)
  {
    NewRooted(s0, header);
    var p := header.parent.block;
    assert Parent(headers, header) == Some(p);
    if AncestorAt(headers, header, 0).Some? { WithoutNew(s0.headers, headers, header, p, 0); }
  }

  /** Below the new header nothing depends on it. */
  lemma {:induction false} WithoutNew(less: set<Block>, headers: set<Block>, header: Block, b: Block, k: nat)
    requires headers == less + {header} && b.number < header.number && AncestorAt(headers, b, k).Some?
    ensures AncestorAt(less, b, k) == AncestorAt(headers, b, k)
    decreases b.number
  {
    if k < b.number { WithoutNew(less, headers, header, Parent(headers, b).value, k); }
  }

  /** The index a crash leaves behind: the entries above the new header are gone, the branch is written down to
      `p`, the last ancestor that is stored, and below it the hash of the missing parent. */
  ghost predicate Torn(s0: State, headers: set<Block>, header: Block, canon: map<nat, Block>, p: Block) {
    && p.number > 0 && p.parent.Of? && p.parent.block !in headers
    && p.number - 1 in canon && canon[p.number - 1] == p.parent.block
    && IsAncestor(headers, p, header) && p.number < header.number
    && (forall k: nat :: k in canon <==> (k in s0.canon && k <= header.number) || p.number - 1 <= k < header.number)
    && (forall k: nat :: p.number <= k < header.number ==> AncestorAt(headers, header, k) == Some(canon[k]))
    && (forall k: nat :: k < p.number - 1 && k in canon ==> canon[k] == s0.canon[k])
  }

  lemma RoutingLost(s0: State, headers: set<Block>, header: Block, canon: map<nat, Block>, p: Block)
    requires Extends(s0, headers, header) && Routing(s0, headers, header, canon, p)
    requires p.number > 0 && p.parent.Of? && p.parent.block.number == p.number - 1 && p.parent.block !in headers
    ensures !Rooted(s0, header.parent.block)
    ensures p.number - 1 !in canon || canon[p.number - 1] != p.parent.block
    ensures Torn(s0, headers, header, canon[p.number := p][p.number - 1 := p.parent.block], p)
  {
    hide Summed, Linked;
    AncestorThrough(headers, header, p, 0);
    assert Parent(headers, p).None?;
    ParentRooted(s0, headers, header);
  }

  class HeaderChain {
    const genesis: Block
    var headers: set<Block>
    var tds: map<Block, int>
    var canon: map<nat, Block>
    var head: Block
    var tdCache: map<Hash, int>          // both caches may forget any entry at any time
    var headerCache: map<Hash, Block>

    ghost function Contents(): State
      reads this
    {
      State(genesis, headers, tds, canon, head)
    }

    ghost predicate Coherent()
      reads this`headerCache, this`headers, this`tdCache, this`tds
    {
      Agree(tdCache, headerCache, headers, tds)
    }

    constructor (g: Block)
      requires g.number == 0 && g.parent == Zero
      ensures Contents() == Genesis(g) && Coherent()
    {
      genesis, headers, tds, canon, head := g, {g}, map[g := g.difficulty], map[0 := g], g;
      tdCache, headerCache := map[], map[];
    }

    method GetTd(hash: Hash, number: int) returns (td: Option<int>)
      requires Coherent()
      modifies this`tdCache
      ensures Coherent()
      ensures hash.Of? && hash.block in tds && hash.block.number == number ==> td == Some(tds[hash.block])
      ensures !(hash.Of? && hash.block in tds) ==> td == None
    {
      if hash in tdCache { return Some(tdCache[hash]); }
      if hash.Of? && hash.block in tds && hash.block.number == number {
        td := Some(tds[hash.block]);
        var evicted: set<Hash> := *;
        tdCache := tdCache[hash := td.value] - evicted;
      } else {
        td := None;
      }
    }

    method GetHeader(hash: Hash, number: int) returns (h: Option<Block>)
      requires Filed(headerCache)
      modifies this`headerCache
      ensures Filed(headerCache) && (old(Coherent()) ==> Coherent())
      ensures hash.Of? && hash.block in headers && hash.block.number == number ==> h == Some(hash.block)
      ensures h.Some? ==> hash == Of(h.value)
      ensures old(Coherent()) && h.Some? ==> h.value in headers
    {
      if hash in headerCache { return Some(headerCache[hash]); }
      if hash.Of? && hash.block in headers && hash.block.number == number {
        h := Some(hash.block);
        var evicted: set<Hash> := *;
        headerCache := headerCache[hash := h.value] - evicted;
      } else {
        h := None;
      }
    }

    /** `WriteHeader`: computes exactly the state `Written` describes, or runs off the stored headers and leaves
        a torn index under the old head. */
    method WriteHeader(header: Block, coin: bool) returns (status: Status, ghost last: Block)
      requires Core(Contents()) && Coherent()
      requires Numbered(Contents(), header)
      modifies this
      ensures status == old(StatusOf(Contents(), header, coin))
      ensures status.NilHeader? <==> old(RunsOff(Contents(), header, coin))
      ensures !status.NilHeader? ==> Contents() == Written(old(Contents()), header, coin) && Coherent()
      ensures status.NilHeader? ==>
                && headers == old(headers) + {header} && tds == old(tds)[header := TotalDifficulty(header)] && head == old(head)
                && Torn(old(Contents()), headers, header, canon, last)
    {
      hide AncestorAt, CanonMap, CanonOf, Rooted, Agree, Torn;
      last := header;
      ghost var s0 := Contents();
      var ptd := GetTd(header.parent, header.number - 1);
      if ptd.None? { return UnknownAncestor, last; }
      var localTd := GetTd(Of(head), head.number);
      var externTd := header.difficulty + ptd.value;
      AgreeWrite(tdCache, headerCache, headers, tds, header, externTd);
      tds := tds[header := externTd];
      tdCache := tdCache[Of(header) := externTd];
      headers := headers + {header};
      if externTd > localTd.value || (externTd == localTd.value && coin) {
        var ok;
        ok, last := Reroute(header, s0);
        if !ok { return NilHeader, last; }
        head := header;
        status := Canonical;
      } else {
        status := Side;
      }
      AgreeFile(tdCache, headerCache, headers, tds, header);
      headerCache := headerCache[Of(header) := header];
    }

    /** The two loops that make `header` the end of the index; the second one fails on a missing header. */
    method Reroute(header: Block, ghost s0: State) returns (ok: bool, ghost last: Block)
      requires canon == s0.canon && Extends(s0, headers, header) && Coherent()
      modifies this`canon, this`headerCache
      ensures ok <==> Rooted(s0, header.parent.block)
      ensures ok ==> Coherent() && AncestorAt(headers, header, 0).Some? && canon == CanonMap(headers, header)
      ensures !ok ==> Torn(s0, headers, header, canon, last)
    {
      hide AncestorAt, CanonMap, Rooted, Routing, IsAncestor, Torn, Summed, Linked;
      var i := header.number + 1;
      while i in canon
        invariant i > header.number
        invariant canon == map k | k in s0.canon && (k <= header.number || k >= i) :: s0.canon[k]
        decreases s0.head.number + 1 - i
        modifies this`canon
      {
        canon := canon - {i};
        i := i + 1;
      }
      assert canon == map k | k in s0.canon && k <= header.number :: s0.canon[k];
      var p := header.parent.block;
      last := p;
      RoutingStart(s0, headers, header, canon);
      while p.number !in canon || canon[p.number] != p
        invariant Routing(s0, headers, header, canon, p)
        invariant Coherent()
        decreases p.number
      {
        RoutingParent(s0, headers, header, canon, p);
        ghost var before := canon;
        canon := canon[p.number := p];
        var q := GetHeader(p.parent, p.number - 1);
        if q.None? {
          RoutingLost(s0, headers, header, before, p);
          canon := canon[p.number - 1 := p.parent.block];
          return false, p;
        }
        RoutingStep(s0, headers, header, before, p);
        p := q.value;
      }
      RoutingDone(s0, headers, header, canon, p);
      canon := canon[header.number := header];
      ok := true;
    }

    /** The first loop of SetHead: walk the head down, deleting headers and difficulties. */
    method DropHeaders(n: nat, ghost s0: State)
      requires Core(s0) && s0 == Contents() && Filed(headerCache)
      modifies this`headers, this`tds, this`head, this`headerCache
      ensures head.number == (if n < s0.head.number then n else s0.head.number)
      ensures head.number in s0.canon && head == s0.canon[head.number]
      ensures headers == s0.headers - Above(s0, n) && tds == s0.tds - Above(s0, n)
    {
      hide AncestorAt, Rooted, Above, Summed, Linked;
      NoneAbove(s0);
      while head.number > n
        invariant Filed(headerCache)
        invariant head.number <= s0.head.number && head.number in s0.canon && head == s0.canon[head.number]
        invariant head.number >= n || head == s0.head
        invariant headers == s0.headers - Above(s0, head.number)
        invariant tds == s0.tds - Above(s0, head.number)
        decreases head.number
      {
        StepBack(s0, head.number);
        headers := headers - {head};
        tds := tds - {head};
        var p := GetHeader(head.parent, head.number - 1);
        head := p.value;
      }
    }

    /** `SetHead`: removes the canonical headers above `n` and the index entries above `n`. */
    method SetHead(n: nat)
      requires Core(Contents()) && Coherent()
      modifies this
      ensures Contents() == Rewound(old(Contents()), n)
      ensures Coherent()
    {
      hide AncestorAt, Rooted, Above, Summed, Linked;
      ghost var s0 := Contents();
      var height := head.number;
      DropHeaders(n, s0);
      assert forall k :: k in s0.canon ==> k <= height;
      canon := DropIndex(canon, height, n);
      headerCache, tdCache := map[], map[];
    }
  }

  /** The index entries above `n` go. */
  method DropIndex(canon0: map<nat, Block>, height: nat, n: nat) returns (canon: map<nat, Block>)
    requires forall k :: k in canon0 ==> k <= height
    ensures canon == map k | k in canon0 && k <= n :: canon0[k]
  {
    canon := canon0;
    var i := height;
    while i > n
      invariant i >= n || i == height
      invariant canon == map k | k in canon0 && k <= i :: canon0[k]
    {
      canon := canon - {i};
      i := i - 1;
    }
  }

  ghost function StatusOf(s: State, h: Block, coin: bool): Status
    requires Core(s)
  {
    if !Known(s, h) then UnknownAncestor
    else if TotalDifficulty(h) > TotalDifficulty(s.head) || (TotalDifficulty(h) == TotalDifficulty(s.head) && coin) then
      if Rooted(s, h.parent.block) then Canonical else NilHeader
    else Side
  }

  lemma AgreeFile(tdCache: map<Hash, int>, headerCache: map<Hash, Block>, headers: set<Block>, tds: map<Block, int>, h: Block)
    requires Agree(tdCache, headerCache, headers, tds) && h in headers
    ensures Agree(tdCache, headerCache[Of(h) := h], headers, tds)
  {}

  lemma NoneAbove(s: State)
    requires Core(s)
    ensures forall n: nat :: n >= s.head.number ==> Above(s, n) == {}
  {}
}
