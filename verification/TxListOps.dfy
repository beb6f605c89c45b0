/** txList (chain/core/tx_list.go): replacement by price, the cost and gas caps that let Filter skip
    its scan, and the strict mode that keeps pending lists without gaps. */
module TxListOps {
  import opened Options
  import opened TxMap
  import opened TxSortedMap

  // ---------------------------------------------------------------- meanings

  /** May `tx` take the place of `other`?  The price must rise, and by the required percentage. */
  predicate Outbids(other: Tx, tx: Tx, priceBump: nat) {
    other.price < tx.price && other.price * (100 + priceBump) / 100 <= tx.price
  }

  /** The price rises, and by the percentage up to the rounding of one unit. */
  lemma OutbidsIff(other: Tx, tx: Tx, priceBump: nat)
    ensures Outbids(other, tx, priceBump) <==>
              tx.price >= other.price + 1 && 100 * tx.price > other.price * (100 + priceBump) - 100
  {}

  predicate Accepts(m: Txs, tx: Tx, priceBump: nat) {
    tx.nonce in m ==> Outbids(m[tx.nonce], tx, priceBump)
  }

  predicate Costly(costLimit: nat, gasLimit: nat, tx: Tx) { tx.cost > costLimit || tx.gas > gasLimit }

  function CostlyFilter(costLimit: nat, gasLimit: nat): Tx -> bool { (tx: Tx) => Costly(costLimit, gasLimit, tx) }

  function AboveFilter(nonce: nat): Tx -> bool { (tx: Tx) => tx.nonce > nonce }

  function CostlyIn(m: Txs, costLimit: nat, gasLimit: nat): Txs {
    map n | n in m && Costly(costLimit, gasLimit, m[n]) :: m[n]
  }

  function PayableIn(m: Txs, costLimit: nat, gasLimit: nat): Txs {
    map n | n in m && !Costly(costLimit, gasLimit, m[n]) :: m[n]
  }

  function Smallest(m: Txs): (x: nat)
    requires m != map[]
    ensures IsLeast(m, x)
  {
    SmallestExists(m);
    var x :| x in m && forall k :: k in m ==> x <= k;
    x
  }

  lemma SmallestExists(m: Txs)
    requires m != map[]
    ensures exists x: nat :: IsLeast(m, x)
  {
    var x :| x in m;
    while !IsLeast(m, x)
      invariant x in m
      decreases x
    {
      var y :| y in m && y < x;
      x := y;
    }
  }

  /** What Filter keeps; a strict list also loses everything above the lowest unpayable nonce. */
  function FilterKeeps(m: Txs, strict: bool, costLimit: nat, gasLimit: nat): Txs {
    var gone := CostlyIn(m, costLimit, gasLimit);
    var kept := PayableIn(m, costLimit, gasLimit);
    if strict && gone != map[] then Below(kept, Smallest(gone)) else kept
  }

  /** The payable transactions a strict Filter removes with the others. */
  function FilterInvalids(m: Txs, strict: bool, costLimit: nat, gasLimit: nat): Txs {
    var gone := CostlyIn(m, costLimit, gasLimit);
    if strict && gone != map[] then From(PayableIn(m, costLimit, gasLimit), Smallest(gone)) else map[]
  }

  /** What Remove keeps. */
  function RemoveKeeps(m: Txs, strict: bool, nonce: nat): Txs {
    if strict && nonce in m then Below(m, nonce) else m - {nonce}
  }

  function RemoveInvalids(m: Txs, strict: bool, nonce: nat): Txs {
    if strict && nonce in m then From(m, nonce + 1) else map[]
  }

  /** Filter takes nothing from a list but the unpayable and the invalidated, and loses nothing. */
  lemma FilterPartition(m: Txs, strict: bool, costLimit: nat, gasLimit: nat)
    ensures var kept, gone, invalid := FilterKeeps(m, strict, costLimit, gasLimit), CostlyIn(m, costLimit, gasLimit),
                                       FilterInvalids(m, strict, costLimit, gasLimit);
            && m == kept + gone + invalid
            && kept.Keys !! gone.Keys && kept.Keys !! invalid.Keys && gone.Keys !! invalid.Keys
            && (forall n :: n in kept ==> !Costly(costLimit, gasLimit, kept[n]))
  {}

  // ---------------------------------------------------------------- gaps

  ghost predicate Gapless(m: Txs) {
    forall a, b, c :: a in m && c in m && a <= b <= c ==> b in m
  }

  /** On a gapless strict list every operation that removes leaves a gapless list. */
  lemma StaysGapless(m: Txs, t: nat, costLimit: nat, gasLimit: nat)
    requires Gapless(m)
    ensures Gapless(From(m, t))
    ensures Gapless(Lowest(m, t))
    ensures Gapless(RemoveKeeps(m, true, t))
    ensures Gapless(FilterKeeps(m, true, costLimit, gasLimit))
  {
    LowestGapless(m, t);
    FilterGapless(m, costLimit, gasLimit);
    hide FilterKeeps, Lowest;
  }

  lemma LowestGapless(m: Txs, k: nat)
    requires Gapless(m)
    ensures Gapless(Lowest(m, k))
  {
    hide Rank;
    forall a, b, c | a in Lowest(m, k) && c in Lowest(m, k) && a <= b <= c ensures b in Lowest(m, k) {
      RankMonotone(m, b, c);
    }
  }

  lemma FilterGapless(m: Txs, costLimit: nat, gasLimit: nat)
    requires Gapless(m)
    ensures Gapless(FilterKeeps(m, true, costLimit, gasLimit))
  {
    var kept := FilterKeeps(m, true, costLimit, gasLimit);
    var gone := CostlyIn(m, costLimit, gasLimit);
    forall a, b, c | a in kept && c in kept && a <= b <= c ensures b in kept {
      assert b in m;
      BelowSmallest(gone, b);
    }
  }

  lemma BelowSmallest(m: Txs, b: nat)
    requires m != map[] ==> b < Smallest(m)
    ensures b !in m
  {}

  // ---------------------------------------------------------------- the caps

  ghost predicate Capped(m: Txs, costCap: nat, gasCap: nat) {
    forall n :: n in m ==> m[n].cost <= costCap && m[n].gas <= gasCap
  }

  /** Below the caps the full scan would find nothing. */
  lemma CapsDecide(m: Txs, strict: bool, costCap: nat, gasCap: nat, costLimit: nat, gasLimit: nat)
    requires Capped(m, costCap, gasCap) && costCap <= costLimit && gasCap <= gasLimit
    ensures CostlyIn(m, costLimit, gasLimit) == map[]
    ensures FilterKeeps(m, strict, costLimit, gasLimit) == m
    ensures FilterInvalids(m, strict, costLimit, gasLimit) == map[]
  {
    assert PayableIn(m, costLimit, gasLimit) == m;
  }

  // ---------------------------------------------------------------- the class

  class List {
    const strict: bool
    const txs: SortedMap
    var costCap: nat
    var gasCap: nat

    ghost predicate Valid()
      reads this, txs
    {
      txs.Valid() && Capped(txs.items, costCap, gasCap)
    }

    constructor (strict: bool)
      ensures Valid() && this.strict == strict && txs.items == map[] && fresh(txs)
    {
      this.strict := strict;
      txs := new SortedMap();
      costCap, gasCap := 0, 0;
    }

    /** Inserts unless an equally good transaction holds the nonce; returns what it replaced. */
    method Add(tx: Tx, priceBump: nat) returns (inserted: bool, replaced: Option<Tx>)
      requires Valid()
      modifies this, txs
      ensures Valid()
      ensures inserted <==> Accepts(old(txs.items), tx, priceBump)
      ensures inserted && tx.nonce in old(txs.items) ==>
                && tx.price > old(txs.items)[tx.nonce].price
                && 100 * tx.price > old(txs.items)[tx.nonce].price * (100 + priceBump) - 100
      ensures !inserted ==>
                && tx.nonce in old(txs.items)
                && (|| tx.price <= old(txs.items)[tx.nonce].price
                    || 100 * tx.price <= old(txs.items)[tx.nonce].price * (100 + priceBump) - 100)
      ensures txs.items == if inserted then old(txs.items)[tx.nonce := tx] else old(txs.items)
      ensures replaced == if inserted && tx.nonce in old(txs.items) then Some(old(txs.items)[tx.nonce]) else None
    {
      replaced := None;
      if tx.nonce in txs.items {
        var other := txs.items[tx.nonce];
        var threshold := other.price * (100 + priceBump) / 100;
        OutbidsIff(other, tx, priceBump);
        if other.price >= tx.price || threshold > tx.price { return false, None; }
        replaced := Some(other);
      }
      txs.Put(tx);
      if costCap < tx.cost { costCap := tx.cost; }
      if gasCap < tx.gas { gasCap := tx.gas; }
      inserted := true;
    }

    method Forward(t: nat) returns (removed: seq<Tx>)
      requires Valid()
      modifies txs
      ensures Valid() && txs.items == From(old(txs.items), t) && IsFlat(Below(old(txs.items), t), removed)
    {
      removed := txs.Forward(t);
    }

    /** The short cut and the full scan agree: what is removed, invalidated and kept depends only on
        the contents and the limits. */
    method Filter(costLimit: nat, gasLimit: nat) returns (removed: seq<Tx>, invalids: seq<Tx>)
      requires Valid()
      modifies this, txs
      ensures Valid()
      ensures txs.items == FilterKeeps(old(txs.items), strict, costLimit, gasLimit)
      ensures Lists(CostlyIn(old(txs.items), costLimit, gasLimit), removed)
      ensures Lists(FilterInvalids(old(txs.items), strict, costLimit, gasLimit), invalids)
    {
      hide Indexes, IsFlat, Lists, Kept, Dropped, Below, From, PayableIn, CostlyIn, CostlyFilter, Capped;
      ghost var m := txs.items;
      removed, invalids := [], [];
      NoInvalids();
      if costCap <= costLimit && gasCap <= gasLimit {
        CapsDecide(m, strict, costCap, gasCap, costLimit, gasLimit);
        return;
      }
      costCap, gasCap := costLimit, gasLimit;
      FilterIsScan(m, costLimit, gasLimit);
      removed := txs.Filter(CostlyFilter(costLimit, gasLimit));
      ghost var gone, kept := CostlyIn(m, costLimit, gasLimit), txs.items;
      NothingCostly(gone, removed);
      if strict && |removed| > 0 {
        var lowest := LowestNonce(removed);
        SmallestOfList(gone, removed, lowest);
        NotPayable(m, costLimit, gasLimit, lowest);
        assert kept - {lowest} == kept;
        invalids := txs.Filter(AboveFilter(lowest));
        AboveIsFrom(kept, lowest);
        FromNext(kept, lowest);
        CappedBelow(kept, lowest, costLimit, gasLimit);
      }
    }

    method Cap(threshold: nat) returns (drops: seq<Tx>)
      requires Valid()
      modifies txs
      ensures Valid()
      ensures |old(txs.items)| <= threshold ==> txs.items == old(txs.items) && drops == []
      ensures |old(txs.items)| > threshold ==> txs.items == Lowest(old(txs.items), threshold)
      ensures |old(txs.items)| > threshold ==> TopDown(Flat(old(txs.items)), drops, |old(txs.items)| - threshold)
    {
      drops := txs.Cap(threshold);
    }

    method Remove(tx: Tx) returns (found: bool, invalids: seq<Tx>)
      requires Valid()
      modifies txs
      ensures Valid()
      ensures found <==> tx.nonce in old(txs.items)
      ensures txs.items == RemoveKeeps(old(txs.items), strict, tx.nonce)
      ensures Lists(RemoveInvalids(old(txs.items), strict, tx.nonce), invalids)
    {
      hide Indexes, IsFlat, Lists, Kept, Dropped, Below, From;
      ghost var m := txs.items;
      found := txs.Remove(tx.nonce);
      invalids := [];
      if found && strict {
        invalids := txs.Filter(AboveFilter(tx.nonce));
        AboveIsFrom(m, tx.nonce);
        CappedBelow(m, tx.nonce, costCap, gasCap);
      } else {
        NoInvalids();
        assert tx.nonce !in m ==> m - {tx.nonce} == m;
      }
    }

    method Ready(start: nat) returns (ready: seq<Tx>)
      requires Valid()
      modifies txs
      ensures Valid()
      ensures (forall n :: n in old(txs.items) ==> n > start) ==> txs.items == old(txs.items) && ready == []
      ensures forall lo: nat :: IsLeast(old(txs.items), lo) && lo <= start ==>
                txs.items == From(old(txs.items), RunEnd(old(txs.items), lo)) &&
                IsFlat(Below(old(txs.items), RunEnd(old(txs.items), lo)), ready)
    {
      if txs.items != map[] { SmallestExists(txs.items); }
      ready := txs.Ready(start);
    }

    method Flatten() returns (all: seq<Tx>)
      requires Valid()
      modifies txs`cache
      ensures Valid() && all == Flat(txs.items)
    {
      all := txs.Flatten();
    }
  }

  /** The loop over the removed transactions. */
  method LowestNonce(s: seq<Tx>) returns (lowest: nat)
    requires |s| > 0
    ensures exists i :: 0 <= i < |s| && s[i].nonce == lowest
    ensures forall i :: 0 <= i < |s| ==> lowest <= s[i].nonce
  {
    lowest := s[0].nonce;
    var k := 1;
    while k < |s|
      invariant 1 <= k <= |s|
      invariant exists i :: 0 <= i < |s| && s[i].nonce == lowest
      invariant forall i :: 0 <= i < k ==> lowest <= s[i].nonce
    {
      if s[k].nonce < lowest { lowest := s[k].nonce; }
      k := k + 1;
    }
  }

  lemma SmallestOfList(m: Txs, s: seq<Tx>, lowest: nat)
    requires Keyed(m) && Lists(m, s) && exists i :: 0 <= i < |s| && s[i].nonce == lowest
    requires forall i :: 0 <= i < |s| ==> lowest <= s[i].nonce
    ensures m != map[] && Smallest(m) == lowest
  {
    forall n | n in m ensures lowest <= n {
      assert m[n] in s;
    }
    assert lowest in m;
  }

  lemma NothingCostly(m: Txs, s: seq<Tx>)
    requires Lists(m, s)
    ensures |s| == 0 <==> m == map[]
  {
    if m != map[] {
      var n :| n in m;
      assert m[n] in s;
    }
    if |s| > 0 { assert s[0].nonce in m; }
  }

  lemma CappedBelow(m: Txs, t: nat, costCap: nat, gasCap: nat)
    requires Capped(m, costCap, gasCap)
    ensures Capped(Below(m, t), costCap, gasCap)
  {}

  /** The scan keeps the payable and returns the costly ones. */
  lemma FilterIsScan(m: Txs, costLimit: nat, gasLimit: nat)
    requires Keyed(m)
    ensures Kept(m, CostlyFilter(costLimit, gasLimit)) == PayableIn(m, costLimit, gasLimit)
    ensures Dropped(m, CostlyFilter(costLimit, gasLimit)) == CostlyIn(m, costLimit, gasLimit)
    ensures Keyed(CostlyIn(m, costLimit, gasLimit)) && Keyed(PayableIn(m, costLimit, gasLimit))
    ensures Capped(PayableIn(m, costLimit, gasLimit), costLimit, gasLimit)
  {}

  lemma NotPayable(m: Txs, costLimit: nat, gasLimit: nat, n: nat)
    requires CostlyIn(m, costLimit, gasLimit) != map[] && n == Smallest(CostlyIn(m, costLimit, gasLimit))
    ensures n !in PayableIn(m, costLimit, gasLimit)
  {}

  lemma NoInvalids()
    ensures Lists(map[], [])
  {}

  /** Once a nonce is out, what lies above it is what a strict list invalidates. */
  lemma AboveIsFrom(m: Txs, nonce: nat)
    requires Keyed(m)
    ensures Kept(m - {nonce}, AboveFilter(nonce)) == Below(m, nonce)
    ensures Dropped(m - {nonce}, AboveFilter(nonce)) == From(m, nonce + 1)
    ensures Keyed(m - {nonce})
  {}

  lemma FromNext(m: Txs, nonce: nat)
    requires nonce !in m
    ensures From(m, nonce + 1) == From(m, nonce)
  {}
}
