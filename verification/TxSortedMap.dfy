/** txSortedMap (chain/core/tx_list.go): a nonce map with a heap of its keys and a sorted cache,
    each operation proved to do what it does to the plain map. */
module TxSortedMap {
  import opened Options
  import opened Heap
  import opened TxMap

  function NonceKey(n: nat): int { n }

  function NonceOf(tx: Tx): int { tx.nonce }

  /** The heap holds exactly the keys of the map, each once. */
  ghost predicate Indexes(index: seq<nat>, m: Txs) {
    IsHeap(index, NonceKey) && multiset(index) == multiset(m.Keys)
  }

  lemma IndexFacts(index: seq<nat>, m: Txs)
    requires multiset(index) == multiset(m.Keys)
    ensures forall n :: n in index <==> n in m
    ensures |index| == |m|
    ensures forall i, j :: 0 <= i < j < |index| ==> index[i] != index[j]
  {
    forall n ensures n in index <==> n in m {
      assert n in index <==> n in multiset(index);
    }
    assert |multiset(index)| == |index|;
    assert |multiset(m.Keys)| == |m.Keys| == |m|;
    forall i, j | 0 <= i < j < |index| ensures index[i] != index[j] {
      if index[i] == index[j] { TwiceIn(index, i, j); }
    }
  }

  lemma TwiceIn(s: seq<nat>, i: nat, j: nat)
    requires i < j < |s| && s[i] == s[j]
    ensures multiset(s)[s[i]] >= 2
  {
    assert s == s[..i] + [s[i]] + s[i + 1..j] + [s[j]] + s[j + 1..];
  }

  lemma IndexKeys(index: seq<nat>, m: Txs)
    requires Indexes(index, m)
    ensures IsHeap(index, NonceKey) && multiset(index) == multiset(m.Keys)
  {}

  lemma LeastIsRoot(index: seq<nat>, m: Txs)
    requires Indexes(index, m) && |index| > 0
    ensures IsLeast(m, index[0])
  {
    IndexFacts(index, m);
    forall k | k in m ensures index[0] <= k {
      var i :| 0 <= i < |index| && index[i] == k;
      RootLeast(index, NonceKey, i);
    }
  }

  /** The root is the least key; an empty heap means an empty map. */
  lemma IndexHead(index: seq<nat>, m: Txs)
    requires Indexes(index, m)
    ensures IsHeap(index, NonceKey)
    ensures |index| == 0 ==> forall n :: n !in m
    ensures |index| > 0 ==> IsLeast(m, index[0])
  {
    IndexFacts(index, m);
    if |index| > 0 { LeastIsRoot(index, m); } else { assert forall n :: n in index <==> n in m; }
  }

  method FindNonce(index: seq<nat>, ghost m: Txs, nonce: nat) returns (i: nat)
    requires multiset(index) == multiset(m.Keys) && nonce in m
    ensures i < |index| && index[i] == nonce
  {
    IndexFacts(index, m);
    i := 0;
    while i < |index| && index[i] != nonce
      invariant i <= |index| && nonce !in index[..i]
    {
      i := i + 1;
    }
    assert i < |index| by { assert index[..|index|] == index; }
  }

  lemma PopIndexes(index: seq<nat>, m: Txs)
    requires Indexes(index, m) && |index| > 0
    ensures Indexes(Pop(index, NonceKey), m - {index[0]})
  {
    IndexFacts(index, m);
    KeysWithout(m, index[0]);
  }

  lemma KeysWithout(m: Txs, n: nat)
    requires n in m
    ensures multiset((m - {n}).Keys) == multiset(m.Keys) - multiset{n}
  {
    assert (m - {n}).Keys == m.Keys - {n};
  }

  lemma RemoveIndexes(index: seq<nat>, m: Txs, i: nat)
    requires Indexes(index, m) && i < |index|
    ensures Indexes(RemoveAt(index, NonceKey, i), m - {index[i]})
  {
    IndexFacts(index, m);
    KeysWithout(m, index[i]);
  }

  lemma PushIndexes(index: seq<nat>, m: Txs, tx: Tx)
    requires Indexes(index, m) && tx.nonce !in m
    ensures Indexes(Push(index, NonceKey, tx.nonce), m[tx.nonce := tx])
  {
    assert m[tx.nonce := tx].Keys == m.Keys + {tx.nonce};
  }

  /** Any listing of the keys becomes an index. */
  lemma InitIndexes(keys: seq<nat>, m: Txs)
    requires multiset(keys) == multiset(m.Keys)
    ensures Indexes(Init(keys, NonceKey), m)
  {}

  function Listing(index: seq<nat>, m: Txs): seq<Tx>
    requires forall n :: n in index ==> n in m
  {
    seq(|index|, i requires 0 <= i < |index| => m[index[i]])
  }

  lemma ListingFlat(index: seq<nat>, m: Txs)
    requires Keyed(m) && Sorted(index, NonceKey)
    requires (forall n :: n in index <==> n in m) && forall i, j :: 0 <= i < j < |index| ==> index[i] != index[j]
    ensures IsFlat(m, Listing(index, m))
  {
    var t := Listing(index, m);
    forall i, j | 0 <= i < j < |t| ensures t[i].nonce < t[j].nonce {
      assert NonceKey(index[i]) <= NonceKey(index[j]);
    }
    forall n | n in m ensures m[n] in t {
      var i :| 0 <= i < |index| && index[i] == n;
      assert t[i] == m[n];
    }
  }

  /** Sorting the index lists the nonces of the sorted contents. */
  lemma SortedIndex(index: seq<nat>, m: Txs, s: seq<Tx>)
    requires Keyed(m) && IsFlat(m, s) && multiset(index) == multiset(m.Keys) && Sorted(index, NonceKey)
    ensures |index| == |s| && forall i :: 0 <= i < |s| ==> index[i] == s[i].nonce
  {
    hide IsFlat, Sorted;
    IndexFacts(index, m);
    ListingFlat(index, m);
    FlatUnique(m, s, Listing(index, m));
  }

  // ---------------------------------------------------------------- progress of Forward and Ready

  /** `removed` lists, in order, what has left `m0`; what stays in `m` lies above it. */
  ghost predicate Drained(m0: Txs, m: Txs, removed: seq<Tx>) {
    && m.Keys <= m0.Keys && (forall n :: n in m ==> m[n] == m0[n])
    && IsFlat(m0 - m.Keys, removed)
    && (forall n, k :: n in m0 && n !in m && k in m ==> n < k)
  }

  lemma DrainStep(m0: Txs, m: Txs, removed: seq<Tx>, n: nat)
    requires Keyed(m0) && Drained(m0, m, removed) && IsLeast(m, n)
    ensures Drained(m0, m - {n}, removed + [m[n]])
  {
    var gone := m0 - m.Keys;
    var gone' := m0 - (m - {n}).Keys;
    assert gone'.Keys == gone.Keys + {n} && gone' - {n} == gone;
    FlatAppend(gone', n, removed);
  }

  lemma SplitAt(m0: Txs, m: Txs, t: nat)
    requires m.Keys <= m0.Keys && forall n :: n in m ==> m[n] == m0[n]
    requires (forall n :: n in m ==> n >= t) && (forall n :: n in m0 && n !in m ==> n < t)
    ensures m == From(m0, t) && m0 - m.Keys == Below(m0, t)
  {
    assert m.Keys == From(m0, t).Keys;
    assert (m0 - m.Keys).Keys == Below(m0, t).Keys;
  }

  lemma DrainedAt(m0: Txs, m: Txs, removed: seq<Tx>, t: nat)
    requires Keyed(m0) && Drained(m0, m, removed)
    requires (forall n :: n in m ==> n >= t) && (forall n :: n in m0 && n !in m ==> n < t)
    ensures m == From(m0, t) && IsFlat(Below(m0, t), removed)
  {
    hide IsFlat;
    SplitAt(m0, m, t);
  }

  /** The loop of Forward: pop the root while it is below the threshold. */
  method PopBelow(m0: Txs, index0: seq<nat>, t: nat) returns (m: Txs, index: seq<nat>, removed: seq<Tx>)
    requires Keyed(m0) && Indexes(index0, m0)
    ensures Keyed(m) && Indexes(index, m) && m == From(m0, t) && IsFlat(Below(m0, t), removed)
  {
    hide Indexes, IsFlat, IsHeap;
    m, index, removed := m0, index0, [];
    DrainNone(m0);
    IndexHead(index, m);
    while |index| > 0 && index[0] < t
      invariant Keyed(m) && Indexes(index, m) && Drained(m0, m, removed) && IsHeap(index, NonceKey)
      invariant |index| == 0 ==> forall n :: n !in m
      invariant |index| > 0 ==> IsLeast(m, index[0])
      invariant forall n :: n in m0 && n !in m ==> n < t
      decreases |index|
    {
      var n := index[0];
      DrainStep(m0, m, removed, n);
      PopIndexes(index, m);
      index := Pop(index, NonceKey);
      removed := removed + [m[n]];
      m := m - {n};
      IndexHead(index, m);
    }
    DrainedAt(m0, m, removed, t);
  }

  lemma DrainNone(m: Txs)
    ensures Drained(m, m, [])
  {
    assert m - m.Keys == map[];
  }

  lemma CacheFront(m: Txs, c: seq<Tx>, t: nat, removed: seq<Tx>)
    requires Keyed(m) && IsFlat(m, c) && IsFlat(Below(m, t), removed)
    ensures |removed| <= |c| && IsFlat(From(m, t), c[|removed|..])
  {
    hide IsFlat;
    FlatLength(Below(m, t), removed);
    FlatCut(m, c, t);
  }

  /** The loop of Cap: sort the index and delete from the end. */
  method DropHighest(m0: Txs, index0: seq<nat>, threshold: nat) returns (m: Txs, index: seq<nat>, drops: seq<Tx>)
    requires Keyed(m0) && Indexes(index0, m0) && |m0| > threshold
    ensures Keyed(m) && Indexes(index, m) && m == Lowest(m0, threshold)
    ensures TopDown(Flat(m0), drops, |m0| - threshold)
  {
    hide IsFlat, Flat, IsHeap, Lowest, TopDown, Capping, Sort, Sorted, Init, Indexes;
    IndexKeys(index0, m0);
    ghost var flat := Flat(m0);
    m, index, drops := m0, Sort(index0, NonceKey), [];
    SortedIndex(index, m0, flat);
    CapStart(m0, flat);
    var size := |m|;
    while size > threshold
      invariant threshold <= size <= |m0|
      invariant Capping(m0, flat, m, drops, size)
      decreases size
    {
      CapStep(m0, flat, m, drops, size);
      drops := drops + [m[index[size - 1]]];
      m := m - {index[size - 1]};
      size := size - 1;
    }
    CapDone(m0, flat, m, index, drops, threshold);
    index := Init(index[..threshold], NonceKey);
  }

  lemma CacheBack(m: Txs, c: seq<Tx>, k: nat, drops: seq<Tx>)
    requires Keyed(m) && IsFlat(m, c) && k < |m| && TopDown(Flat(m), drops, |m| - k)
    ensures |drops| <= |c| && IsFlat(Lowest(m, k), c[..|c| - |drops|])
  {
    hide IsFlat, Flat, Lowest;
    FlatUnique(m, Flat(m), c);
    FlatLength(m, c);
    LowestIsPrefix(m, c, k);
  }

  // ---------------------------------------------------------------- the class

  class SortedMap {
    var items: Txs
    var index: seq<nat>
    var cache: Option<seq<Tx>>

    ghost predicate Valid()
      reads this
    {
      Keyed(items) && Indexes(index, items) && (cache.Some? ==> IsFlat(items, cache.value))
    }

    constructor ()
      ensures Valid() && items == map[]
    {
      items, index, cache := map[], [], None;
      new;
      assert IsHeap(index, NonceKey) by { forall i ensures Ordered(index, NonceKey, i) {} }
    }

    method Put(tx: Tx)
      requires Valid()
      modifies this
      ensures Valid() && items == old(items)[tx.nonce := tx]
    {
      if tx.nonce !in items {
        PushIndexes(index, items, tx);
        index := Push(index, NonceKey, tx.nonce);
      } else {
        assert items[tx.nonce := tx].Keys == items.Keys;
      }
      items, cache := items[tx.nonce := tx], None;
    }

    /** Removes the nonces below the threshold and returns them in order. */
    method Forward(t: nat) returns (removed: seq<Tx>)
      requires Valid()
      modifies this
      ensures Valid() && items == From(old(items), t) && IsFlat(Below(old(items), t), removed)
      ensures old(cache).Some? ==> cache.Some?
    {
      hide Indexes, IsFlat, IsHeap;
      ghost var m0 := items;
      items, index, removed := PopBelow(items, index, t);
      if cache.Some? {
        CacheFront(m0, cache.value, t, removed);
        cache := Some(cache.value[|removed|..]);
      }
    }

    /** Removes the transactions the filter selects. */
    method Filter(drop: Tx -> bool) returns (removed: seq<Tx>)
      requires Valid()
      modifies this
      ensures Valid() && items == Kept(old(items), drop)
      ensures Lists(Dropped(old(items), drop), removed)
    {
      ghost var m0 := items;
      removed := [];
      var todo := items.Keys;
      while todo != {}
        invariant Filtering(m0, items, todo, drop, removed)
        decreases todo
        modifies this`items
      {
        var n :| n in todo;
        FilterStep(m0, items, todo, drop, removed, n);
        if drop(items[n]) {
          removed := removed + [items[n]];
          items := items - {n};
        }
        todo := todo - {n};
      }
      FilterDone(m0, items, drop, removed);
      if |removed| > 0 {
        var keys := KeyList(items);
        InitIndexes(keys, items);
        index := Init(keys, NonceKey);
        cache := None;
      }
    }

    /** Keeps the lowest nonces up to the limit; returns the others from the highest down. */
    method Cap(threshold: nat) returns (drops: seq<Tx>)
      requires Valid()
      modifies this
      ensures Valid()
      ensures |old(items)| <= threshold ==> items == old(items) && drops == []
      ensures |old(items)| > threshold ==> items == Lowest(old(items), threshold)
      ensures |old(items)| > threshold ==> TopDown(Flat(old(items)), drops, |old(items)| - threshold)
    {
      hide IsFlat, Flat, IsHeap, Lowest, TopDown, Indexes;
      drops := [];
      if |items| <= threshold { return; }
      ghost var m0 := items;
      items, index, drops := DropHighest(items, index, threshold);
      if cache.Some? {
        CacheBack(m0, cache.value, threshold, drops);
        cache := Some(cache.value[..|cache.value| - |drops|]);
      }
    }

    /** Deletes one nonce; reports whether it was there. */
    method Remove(nonce: nat) returns (found: bool)
      requires Valid()
      modifies this
      ensures Valid() && items == old(items) - {nonce}
      ensures found <==> nonce in old(items)
    {
      hide Indexes, IsFlat, IsHeap;
      if nonce !in items {
        assert items - {nonce} == items;
        return false;
      }
      IndexKeys(index, items);
      var i := FindNonce(index, items, nonce);
      RemoveIndexes(index, items, i);
      index := RemoveAt(index, NonceKey, i);
      items := items - {nonce};
      cache := None;
      return true;
    }

    /** Takes out the consecutive run from the lowest nonce, if that is at most `start`. */
    method Ready(start: nat) returns (ready: seq<Tx>)
      requires Valid()
      modifies this
      ensures Valid()
      ensures (forall n :: n in old(items) ==> n > start) ==> items == old(items) && ready == []
      ensures forall lo: nat :: IsLeast(old(items), lo) && lo <= start ==>
                items == From(old(items), RunEnd(old(items), lo)) && IsFlat(Below(old(items), RunEnd(old(items), lo)), ready)
    {
      hide Indexes, IsFlat, RunEnd, IsHeap;
      ready := [];
      IndexHead(index, items);
      if |index| == 0 || index[0] > start { return; }
      ghost var m0, lo := items, index[0];
      var m, idx := items, index;
      var next := idx[0];
      RunStart(m0, lo);
      while |idx| > 0 && idx[0] == next
        invariant Indexes(idx, m) && Running(m0, m, ready, lo, next)
        decreases |idx|
      {
        IndexHead(idx, m);
        RunStep(m0, m, ready, lo, next);
        PopIndexes(idx, m);
        ready := ready + [m[next]];
        m := m - {next};
        idx := Pop(idx, NonceKey);
        next := next + 1;
      }
      IndexHead(idx, m);
      RunDone(m0, m, ready, lo, next);
      items, index, cache := m, idx, None;
    }

    /** The nonce-sorted contents, computed once and cached. */
    method Flatten() returns (txs: seq<Tx>)
      requires Valid()
      modifies this`cache
      ensures Valid() && txs == Flat(items)
    {
      if cache.None? {
        var list := TxList(items);
        var sorted := Sort(list, NonceOf);
        SortedContents(items, list, sorted);
        cache := Some(sorted);
      }
      FlatUnique(items, cache.value, Flat(items));
      return cache.value;
    }
  }

  // ---------------------------------------------------------------- Filter

  function Kept(m: Txs, drop: Tx -> bool): Txs { map n | n in m && !drop(m[n]) :: m[n] }

  function Dropped(m: Txs, drop: Tx -> bool): Txs { map n | n in m && drop(m[n]) :: m[n] }

  /** `s` lists the transactions of `m`, each once, in any order. */
  ghost predicate Lists(m: Txs, s: seq<Tx>) {
    && (forall i :: 0 <= i < |s| ==> s[i].nonce in m && m[s[i].nonce] == s[i])
    && (forall i, j :: 0 <= i < j < |s| ==> s[i].nonce != s[j].nonce)
    && (forall n :: n in m ==> m[n] in s)
  }

  ghost predicate Filtering(m0: Txs, m: Txs, todo: set<nat>, drop: Tx -> bool, removed: seq<Tx>) {
    && Keyed(m0) && todo <= m.Keys <= m0.Keys
    && (forall n :: n in m ==> m[n] == m0[n] && (n !in todo ==> !drop(m0[n])))
    && (forall n :: n in m0 && n !in m ==> drop(m0[n]))
    && Lists(m0 - m.Keys, removed)
  }

  lemma FilterStep(m0: Txs, m: Txs, todo: set<nat>, drop: Tx -> bool, removed: seq<Tx>, n: nat)
    requires Filtering(m0, m, todo, drop, removed) && n in todo
    ensures drop(m[n]) ==> Filtering(m0, m - {n}, todo - {n}, drop, removed + [m[n]])
    ensures !drop(m[n]) ==> Filtering(m0, m, todo - {n}, drop, removed)
  {
    if drop(m[n]) {
      var r, g := removed + [m[n]], m0 - (m - {n}).Keys;
      assert g.Keys == (m0 - m.Keys).Keys + {n};
      assert r[|removed|] == m[n];
      forall k | k in g ensures g[k] in r { if k != n { assert (m0 - m.Keys)[k] in removed; } }
    }
  }

  lemma FilterDone(m0: Txs, m: Txs, drop: Tx -> bool, removed: seq<Tx>)
    requires Filtering(m0, m, {}, drop, removed)
    ensures m == Kept(m0, drop) && Keyed(m) && Lists(Dropped(m0, drop), removed)
    ensures |removed| == 0 ==> m == m0
  {
    assert m0 - m.Keys == Dropped(m0, drop);
    forall n | n in m0 ensures |removed| == 0 ==> n in m {
      assert n !in m ==> (m0 - m.Keys)[n] in removed;
    }
  }

  /** The keys of the map in some order. */
  method KeyList(m: Txs) returns (keys: seq<nat>)
    ensures multiset(keys) == multiset(m.Keys)
  {
    keys := [];
    var todo := m.Keys;
    while todo != {}
      invariant todo <= m.Keys && multiset(keys) + multiset(todo) == multiset(m.Keys)
    {
      var n :| n in todo;
      keys := keys + [n];
      todo := todo - {n};
    }
  }

  /** The transactions of the map in some order. */
  method TxList(m: Txs) returns (txs: seq<Tx>)
    requires Keyed(m)
    ensures Lists(m, txs)
  {
    txs := [];
    var todo := m.Keys;
    ghost var rest := m;
    assert m - todo == map[];
    while todo != {}
      invariant todo <= m.Keys && Lists(m - todo, txs)
    {
      var n :| n in todo;
      ListsOneMore(m, todo, txs, n);
      txs := txs + [m[n]];
      todo := todo - {n};
    }
    assert m - {} == m;
  }

  lemma ListsOneMore(m: Txs, todo: set<nat>, txs: seq<Tx>, n: nat)
    requires Keyed(m) && Lists(m - todo, txs) && n in todo && todo <= m.Keys
    ensures Lists(m - (todo - {n}), txs + [m[n]])
  {
    var r, g := txs + [m[n]], m - (todo - {n});
    assert g.Keys == (m - todo).Keys + {n};
    assert r[|txs|] == m[n];
    forall k | k in g ensures g[k] in r { if k != n { assert (m - todo)[k] in txs; } }
  }

  /** Sorting a listing gives the sorted contents. */
  lemma SortedContents(m: Txs, list: seq<Tx>, sorted: seq<Tx>)
    requires Keyed(m) && Lists(m, list) && Sorted(sorted, NonceOf) && multiset(sorted) == multiset(list)
    ensures IsFlat(m, sorted)
  {
    forall x ensures x in sorted <==> x in list { assert x in sorted <==> x in multiset(sorted); }
    forall i | 0 <= i < |sorted| ensures sorted[i].nonce in m && m[sorted[i].nonce] == sorted[i] {
      assert sorted[i] in list;
    }
    forall i, j | 0 <= i < j < |sorted| ensures sorted[i].nonce < sorted[j].nonce {
      assert NonceOf(sorted[i]) <= NonceOf(sorted[j]);
      if sorted[i].nonce == sorted[j].nonce { SortedTwice(m, list, sorted, i, j); }
    }
  }

  lemma SortedTwice(m: Txs, list: seq<Tx>, sorted: seq<Tx>, i: nat, j: nat)
    requires Lists(m, list) && multiset(sorted) == multiset(list) && i < j < |sorted|
    ensures sorted[i].nonce != sorted[j].nonce
  {
    assert sorted[i] in multiset(sorted) && sorted[j] in multiset(sorted);
    if sorted[i] == sorted[j] {
      assert sorted == sorted[..i] + [sorted[i]] + sorted[i + 1..j] + [sorted[j]] + sorted[j + 1..];
      ListedOnce(list, sorted[i]);
    }
  }

  lemma {:induction false} ListedOnce(s: seq<Tx>, x: Tx)
    requires forall i, j :: 0 <= i < j < |s| ==> s[i].nonce != s[j].nonce
    ensures multiset(s)[x] <= 1
    decreases |s|
  {
    if |s| > 0 {
      var k := |s| - 1;
      assert s == s[..k] + [s[k]];
      ListedOnce(s[..k], x);
    }
  }

  // ---------------------------------------------------------------- Cap

  /** `drops` is the top `n` of `flat`, from the last down. */
  ghost predicate TopDown(flat: seq<Tx>, drops: seq<Tx>, n: nat) {
    |drops| == n <= |flat| && forall i :: 0 <= i < n ==> drops[i] == flat[|flat| - 1 - i]
  }

  lemma LowestAll(m: Txs, s: seq<Tx>)
    requires Keyed(m) && IsFlat(m, s)
    ensures Lowest(m, |s|) == m
  {
    forall n | n in m ensures Rank(m, n) < |s| {
      var i :| 0 <= i < |s| && s[i] == m[n];
      RankIsPosition(m, s, i);
    }
  }

  lemma LowestStep(m: Txs, s: seq<Tx>, k: nat)
    requires Keyed(m) && IsFlat(m, s) && k < |s|
    ensures s[k].nonce in Lowest(m, k + 1) && Lowest(m, k + 1)[s[k].nonce] == s[k]
    ensures Lowest(m, k) == Lowest(m, k + 1) - {s[k].nonce}
  {
    RankIsPosition(m, s, k);
    var x := s[k].nonce;
    assert x in m && m[x] == s[k];
    hide IsFlat, Rank;
    forall n | n in m && Rank(m, n) == k ensures n == x { SameRank(m, n, x); }
  }

  /** The loop of Cap has reduced the map to its `size` lowest nonces. */
  ghost predicate Capping(m0: Txs, s: seq<Tx>, m: Txs, drops: seq<Tx>, size: nat) {
    && Keyed(m0) && IsFlat(m0, s) && |s| == |m0| && size <= |m0|
    && m == Lowest(m0, size) && TopDown(s, drops, |m0| - size)
  }

  lemma CapStart(m: Txs, s: seq<Tx>)
    requires Keyed(m) && IsFlat(m, s)
    ensures |s| == |m| && Capping(m, s, m, [], |m|)
  {
    FlatLength(m, s);
    LowestAll(m, s);
  }

  lemma CapStep(m0: Txs, s: seq<Tx>, m: Txs, drops: seq<Tx>, size: nat)
    requires Capping(m0, s, m, drops, size) && 0 < size <= |s|
    ensures s[size - 1].nonce in m
    ensures Capping(m0, s, m - {s[size - 1].nonce}, drops + [m[s[size - 1].nonce]], size - 1)
  {
    hide Lowest, IsFlat;
    LowestStep(m0, s, size - 1);
  }

  lemma CapDone(m0: Txs, s: seq<Tx>, m: Txs, index: seq<nat>, drops: seq<Tx>, k: nat)
    requires Capping(m0, s, m, drops, k) && |index| == |s| && forall i :: 0 <= i < |s| ==> index[i] == s[i].nonce
    ensures m == Lowest(m0, k) && Keyed(m) && TopDown(s, drops, |m0| - k)
    ensures k <= |index| && Indexes(Init(index[..k], NonceKey), m)
  {
    hide Lowest, IsFlat, Indexes;
    LowestSub(m0, k);
    SortedPrefix(index, m0, s, k);
  }

  lemma SortedPrefix(index: seq<nat>, m: Txs, s: seq<Tx>, k: nat)
    requires Keyed(m) && IsFlat(m, s) && k <= |s|
    requires |index| == |s| && forall i :: 0 <= i < |s| ==> index[i] == s[i].nonce
    ensures Indexes(Init(index[..k], NonceKey), Lowest(m, k))
  {
    LowestIsPrefix(m, s, k);
    ListIsKeys(index[..k], Lowest(m, k), s[..k]);
    InitIndexes(index[..k], Lowest(m, k));
  }

  lemma FlatEnds(m: Txs, s: seq<Tx>)
    requires IsFlat(m, s)
    ensures |s| == 0 ==> m.Keys == {}
    ensures |s| > 0 ==> s[|s| - 1].nonce in m
  {}

  lemma {:induction false} ListIsKeys(index: seq<nat>, m: Txs, s: seq<Tx>)
    requires Keyed(m) && IsFlat(m, s) && |index| == |s| && forall i :: 0 <= i < |s| ==> index[i] == s[i].nonce
    ensures multiset(index) == multiset(m.Keys)
    decreases |s|
  {
    hide IsFlat;
    FlatEnds(m, s);
    var k := |s| - 1;
    if k >= 0 {
      FlatDropLast(m, s);
      ListIsKeys(index[..k], m - {s[k].nonce}, s[..k]);
      KeysWithout(m, s[k].nonce);
      assert index == index[..k] + [index[k]];
    }
  }

  // ---------------------------------------------------------------- Ready

  /** Ready has taken the run from `lo` up to, but excluding, `next`. */
  ghost predicate Running(m0: Txs, m: Txs, ready: seq<Tx>, lo: nat, next: nat) {
    && Keyed(m0) && Keyed(m) && Drained(m0, m, ready)
    && IsLeast(m0, lo) && lo <= next && (forall n :: lo <= n < next ==> n in m0)
    && (forall n :: n in m0 && n !in m ==> n < next)
    && (forall n :: n in m ==> n >= next)
  }

  lemma RunStart(m0: Txs, lo: nat)
    requires Keyed(m0) && IsLeast(m0, lo)
    ensures Running(m0, m0, [], lo, lo)
  {
    assert m0 - m0.Keys == map[];
  }

  lemma RunStep(m0: Txs, m: Txs, ready: seq<Tx>, lo: nat, next: nat)
    requires Running(m0, m, ready, lo, next) && IsLeast(m, next)
    ensures Running(m0, m - {next}, ready + [m[next]], lo, next + 1)
  {
    DrainStep(m0, m, ready, next);
  }

  lemma RunDone(m0: Txs, m: Txs, ready: seq<Tx>, lo: nat, next: nat)
    requires Running(m0, m, ready, lo, next) && next !in m
    ensures forall k: nat :: IsLeast(m0, k) ==> k == lo
    ensures m == From(m0, RunEnd(m0, lo)) && IsFlat(Below(m0, RunEnd(m0, lo)), ready)
  {
    RunEndIs(m0, lo, next);
    DrainedAt(m0, m, ready, next);
  }

  lemma {:induction false} RunEndIs(m: Txs, n: nat, e: nat)
    requires n <= e && e !in m && forall k :: n <= k < e ==> k in m
    ensures RunEnd(m, n) == e
  {
    var r := RunEnd(m, n);
    assert r >= e && r <= e;
  }
}
