/** txPricedList (chain/core/tx_list.go): a price heap that is cleaned lazily.  It may hold entries of
    transactions that have left the pool; the pool's set of live transactions decides. */
module PricedList {
  import opened Heap
  import opened TxMap

  function PriceKey(tx: Tx): int { tx.price }

  /** Every live transaction is in the heap. */
  ghost predicate Covers(items: seq<Tx>, live: set<Tx>) { forall tx :: tx in live ==> tx in items }

  /** Nothing live got lost. */
  ghost predicate Retains(before: seq<Tx>, after: seq<Tx>, live: set<Tx>) {
    forall tx :: tx in live && tx in before ==> tx in after
  }

  ghost predicate PriceHeap(items: seq<Tx>) { IsHeap(items, PriceKey) }

  lemma PopFacts(items: seq<Tx>)
    requires PriceHeap(items) && |items| > 0
    ensures PriceHeap(Pop(items, PriceKey))
    ensures forall x :: x in items <==> x == items[0] || x in Pop(items, PriceKey)
    ensures forall x :: x in items ==> items[0].price <= x.price
  {
    var r := Pop(items, PriceKey);
    forall x ensures x in items <==> x == items[0] || x in r {
      assert x in items <==> x in multiset(items);
      assert x in r <==> x in multiset(r);
    }
    forall x | x in items ensures items[0].price <= x.price {
      var i :| 0 <= i < |items| && items[i] == x;
      RootLeast(items, PriceKey, i);
    }
  }

  lemma PushFacts(items: seq<Tx>, tx: Tx)
    requires PriceHeap(items)
    ensures PriceHeap(Push(items, PriceKey, tx))
    ensures forall x :: x in Push(items, PriceKey, tx) <==> x == tx || x in items
  {
    var r := Push(items, PriceKey, tx);
    forall x ensures x in r <==> x == tx || x in items {
      assert x in r <==> x in multiset(r);
      assert x in items <==> x in multiset(items);
    }
  }

  // ---------------------------------------------------------------- what the scans promise

  /** The live remote transactions below the threshold. */
  ghost function Cheap(live: set<Tx>, locals: set<Address>, threshold: nat): set<Tx> {
    set tx | tx in live && tx.sender !in locals && tx.price < threshold
  }

  /** The dropped ones are live and remote, and no live remote one that stays is cheaper. */
  ghost predicate Cheapest(drop: seq<Tx>, live: set<Tx>, locals: set<Address>) {
    && (forall tx :: tx in drop ==> tx in live && tx.sender !in locals)
    && (forall d, t :: d in drop && t in live && t.sender !in locals && t !in drop ==> d.price <= t.price)
  }

  /** As many are dropped as asked for, or every live remote one. */
  ghost predicate Enough(drop: seq<Tx>, count: nat, live: set<Tx>, locals: set<Address>) {
    |drop| <= count && (|drop| == count || forall tx :: tx in live && tx.sender !in locals ==> tx in drop)
  }

  ghost predicate NoTwice(items: seq<Tx>) { forall i, j :: 0 <= i < j < |items| ==> items[i] != items[j] }

  /** Is the new transaction no better than every live one? */
  ghost predicate NoBetter(tx: Tx, live: set<Tx>, locals: set<Address>) {
    tx.sender !in locals && live != {} && forall t :: t in live ==> t.price >= tx.price
  }

  // ---------------------------------------------------------------- the loops of Cap and Discard

  /** Taken so far: every live entry is still in the heap, set aside, or dropped; what was taken is no
      dearer than what remains. */
  ghost predicate Sifting(start: seq<Tx>, items: seq<Tx>, save: seq<Tx>, drop: seq<Tx>, live: set<Tx>, locals: set<Address>) {
    && PriceHeap(items)
    && (forall x :: x in items || x in save ==> x in start)
    && (forall x :: x in live && x in start ==> x in items || x in save || x in drop)
    && (forall x :: x in drop ==> x in live && x in start && x.sender !in locals)
    && (forall x, y :: (x in drop || x in save) && y in items ==> x.price <= y.price)
  }

  lemma SiftStep(start: seq<Tx>, items: seq<Tx>, save: seq<Tx>, drop: seq<Tx>, live: set<Tx>, locals: set<Address>)
    requires Sifting(start, items, save, drop, live, locals) && |items| > 0
    ensures items[0] !in live ==> Sifting(start, Pop(items, PriceKey), save, drop, live, locals)
    ensures Sifting(start, Pop(items, PriceKey), save + [items[0]], drop, live, locals)
    ensures items[0] in live && items[0].sender !in locals ==>
              Sifting(start, Pop(items, PriceKey), save, drop + [items[0]], live, locals)
  {
    hide PriceHeap, Pop;
    PopFacts(items);
    assert items[0] in items;
  }

  /** Putting the saved entries back. */
  method Restore(items0: seq<Tx>, save: seq<Tx>) returns (items: seq<Tx>)
    requires PriceHeap(items0)
    ensures PriceHeap(items) && forall x :: x in items <==> x in items0 || x in save
  {
    hide PriceHeap;
    items := items0;
    var i := 0;
    while i < |save|
      invariant 0 <= i <= |save|
      invariant PriceHeap(items) && forall x :: x in items <==> x in items0 || x in save[..i]
    {
      PushFacts(items, save[i]);
      HeapIs(items);
      items := Push(items, PriceKey, save[i]);
      assert save[..i + 1] == save[..i] + [save[i]];
      i := i + 1;
    }
    assert save[..|save|] == save;
  }

  lemma HeapIs(items: seq<Tx>)
    requires PriceHeap(items)
    ensures IsHeap(items, PriceKey)
  {}

  // ---------------------------------------------------------------- the class

  class Priced {
    var items: seq<Tx>
    var stales: int

    constructor ()
      ensures PriceHeap(items) && items == []
    {
      items, stales := [], 0;
      new;
      assert IsHeap(items, PriceKey) by { forall i ensures Ordered(items, PriceKey, i) {} }
    }

    method Put(tx: Tx)
      requires PriceHeap(items)
      modifies this
      ensures PriceHeap(items) && forall x :: x in items <==> x == tx || x in old(items)
    {
      PushFacts(items, tx);
      items := Push(items, PriceKey, tx);
    }

    /** A transaction has left the pool: count it, and rebuild the heap from the live ones when too many
        stale entries have gathered.  Either way nothing live is lost. */
    method Removed(live: set<Tx>)
      requires PriceHeap(items)
      modifies this
      ensures PriceHeap(items)
      ensures old(stales) + 1 <= |old(items)| / 4 ==> items == old(items) && stales == old(stales) + 1
      ensures old(stales) + 1 > |old(items)| / 4 ==> multiset(items) == multiset(live) && stales == 0
      ensures Retains(old(items), items, live)
    {
      stales := stales + 1;
      if stales <= |items| / 4 { return; }
      var reheap := ListOf(live);
      stales := 0;
      items := Init(reheap, PriceKey);
      forall x ensures x in items <==> x in live {
        assert x in items <==> x in multiset(items);
        assert x in reheap <==> x in multiset(reheap);
      }
    }

    /** Drops exactly the live remote transactions below the threshold. */
    method Cap(threshold: nat, live: set<Tx>, locals: set<Address>) returns (drop: seq<Tx>)
      requires PriceHeap(items) && Covers(items, live)
      modifies this
      ensures PriceHeap(items)
      ensures forall tx :: tx in drop <==> tx in Cheap(live, locals, threshold)
      ensures Covers(items, live - Cheap(live, locals, threshold))
    {
      hide PriceHeap;
      ghost var start := items;
      var save: seq<Tx> := [];
      drop := [];
      var done := false;
      while |items| > 0 && !done
        invariant Sifting(start, items, save, drop, live, locals)
        invariant forall x :: x in drop ==> x.price < threshold
        invariant forall x :: x in save ==> x.sender in locals || x.price >= threshold
        invariant done ==> forall y :: y in items ==> y.price >= threshold
        decreases |items|, !done
      {
        SiftStep(start, items, save, drop, live, locals);
        HeapIs(items);
        var tx := items[0];
        ghost var before := items;
        PopFacts(items);
        items := Pop(items, PriceKey);
        if tx !in live {
          stales := stales - 1;
        } else if tx.price >= threshold {
          save := save + [tx];
          done := true;
        } else if tx.sender in locals {
          save := save + [tx];
        } else {
          drop := drop + [tx];
        }
      }
      items := Restore(items, save);
    }

    /** Agrees with a scan of the live transactions for the lowest price. */
    method Underpriced(tx: Tx, live: set<Tx>, locals: set<Address>) returns (b: bool)
      requires PriceHeap(items) && Covers(items, live)
      modifies this
      ensures PriceHeap(items) && Covers(items, live)
      ensures b <==> NoBetter(tx, live, locals)
      ensures NoTwice(old(items)) ==> NoTwice(items)
    {
      if tx.sender in locals { return false; }
      ghost var start := items;
      while |items| > 0 && items[0] !in live
        invariant PriceHeap(items) && Covers(items, live) && multiset(items) <= multiset(start)
        decreases |items|
      {
        PopFacts(items);
        PopCounts(items);
        stales := stales - 1;
        items := Pop(items, PriceKey);
      }
      TwiceIn(start, items);
      if |items| == 0 {
        assert forall t :: t in live ==> t in items;
        return false;
      }
      PopFacts(items);
      return items[0].price >= tx.price;
    }

    /** Drops the cheapest live remote transactions, as many as asked for or all there are. */
    method Discard(count0: nat, live: set<Tx>, locals: set<Address>) returns (drop: seq<Tx>)
      requires PriceHeap(items) && Covers(items, live)
      modifies this
      ensures PriceHeap(items)
      ensures Cheapest(drop, live, locals) && Enough(drop, count0, live, locals)
      ensures NoTwice(old(items)) ==> NoTwice(drop)
      ensures forall tx :: tx in live && tx !in drop ==> tx in items
    {
      hide PriceHeap, Taken, NoTwice;
      ghost var start := items;
      var save: seq<Tx> := [];
      var count := count0;
      drop := [];
      TakenNone(start);
      while |items| > 0 && count > 0
        invariant Sifting(start, items, save, drop, live, locals)
        invariant forall x :: x in save ==> x.sender in locals
        invariant |drop| + count == count0
        invariant Taken(start, items, drop)
        decreases |items|
      {
        SiftStep(start, items, save, drop, live, locals);
        TakenOnce(start, items, drop);
        HeapIs(items);
        var tx := items[0];
        items := Pop(items, PriceKey);
        if tx !in live {
          stales := stales - 1;
        } else if tx.sender in locals {
          save := save + [tx];
        } else {
          drop := drop + [tx];
          count := count - 1;
        }
      }
      TakenNotTwice(start, items, drop);
      items := Restore(items, save);
    }
  }

  /** No entry of the heap is counted twice among the dropped ones and the rest. */
  ghost predicate Taken(start: seq<Tx>, items: seq<Tx>, drop: seq<Tx>) { multiset(drop) + multiset(items) <= multiset(start) }

  lemma TakenNone(start: seq<Tx>)
    ensures Taken(start, start, [])
  {}

  lemma TakenNotTwice(start: seq<Tx>, items: seq<Tx>, drop: seq<Tx>)
    requires Taken(start, items, drop)
    ensures NoTwice(start) ==> NoTwice(drop)
  {
    hide NoTwice;
    TwiceIn(start, drop);
  }

  lemma TakenOnce(start: seq<Tx>, items: seq<Tx>, drop: seq<Tx>)
    requires PriceHeap(items) && |items| > 0 && Taken(start, items, drop)
    ensures Taken(start, Pop(items, PriceKey), drop) && Taken(start, Pop(items, PriceKey), drop + [items[0]])
  {
    PopCounts(items);
    hide Pop;
    assert multiset(drop + [items[0]]) == multiset(drop) + multiset{items[0]};
  }

  lemma PopCounts(items: seq<Tx>)
    requires PriceHeap(items) && |items| > 0
    ensures multiset(Pop(items, PriceKey)) + multiset{items[0]} == multiset(items)
  {}

  lemma TwiceIn(start: seq<Tx>, drop: seq<Tx>)
    requires multiset(drop) <= multiset(start)
    ensures NoTwice(start) ==> NoTwice(drop)
  {
    if NoTwice(start) {
      forall i, j | 0 <= i < j < |drop| ensures drop[i] != drop[j] {
        if drop[i] == drop[j] {
          TwiceCounts(drop, i, j);
          OnceCounts(start, drop[i]);
          assert false;
        }
      }
    }
  }

  lemma TwiceCounts(s: seq<Tx>, i: nat, j: nat)
    requires i < j < |s| && s[i] == s[j]
    ensures multiset(s)[s[i]] >= 2
  {
    assert s == s[..i] + [s[i]] + s[i + 1..j] + [s[j]] + s[j + 1..];
  }

  lemma {:induction false} OnceCounts(s: seq<Tx>, x: Tx)
    requires NoTwice(s)
    ensures multiset(s)[x] <= 1
  {
    if |s| > 0 {
      var t, y := s[..|s| - 1], s[|s| - 1];
      assert s == t + [y];
      OnceCounts(t, x);
      if x == y { assert x !in t; }
    }
  }

  method ListOf(s: set<Tx>) returns (list: seq<Tx>)
    ensures multiset(list) == multiset(s)
  {
    list := [];
    var todo := s;
    while todo != {}
      invariant todo <= s && multiset(list) + multiset(todo) == multiset(s)
    {
      var x :| x in todo;
      list := list + [x];
      todo := todo - {x};
    }
  }
}
