/** poolEntryQueue (chain/les/serverpool.go): known nodes by recency, kept as a map from ever growing
    positions, with two cursors instead of a list. */
module EntryQueue {
  import opened Options

  type Entry = nat

  // ---------------------------------------------------------------- the recency list

  /** The entries at positions from `lo` up to `hi`, oldest first. */
  ghost function Listing(queue: map<nat, Entry>, lo: nat, hi: nat): seq<Entry>
    decreases hi - lo
  {
    if lo >= hi then [] else (if lo in queue then [queue[lo]] else []) + Listing(queue, lo + 1, hi)
  }

  function Without(s: seq<Entry>, e: Entry): seq<Entry> {
    if |s| == 0 then [] else if s[0] == e then s[1..] else [s[0]] + Without(s[1..], e)
  }

  /** Positions lie between the cursors, and each entry knows its own. */
  ghost predicate Placed(queue: map<nat, Entry>, at: map<Entry, nat>, lo: nat, hi: nat) {
    && lo <= hi && (forall k: nat :: k in queue ==> lo <= k < hi)
    && (forall k: nat :: k in queue ==> queue[k] in at && at[queue[k]] == k)
  }

  /** Is the entry queued?  The test the code makes. */
  predicate Holds(queue: map<nat, Entry>, at: map<Entry, nat>, e: Entry) {
    var k := if e in at then at[e] else 0;
    k in queue && queue[k] == e
  }

  lemma {:induction false} ListingHas(queue: map<nat, Entry>, lo: nat, hi: nat)
    ensures forall e :: e in Listing(queue, lo, hi) <==> exists k: nat :: lo <= k < hi && k in queue && queue[k] == e
    decreases hi - lo
  {
    if lo < hi {
      ListingHas(queue, lo + 1, hi);
      forall e | e in Listing(queue, lo, hi) ensures exists k: nat :: lo <= k < hi && k in queue && queue[k] == e {
        if lo in queue && queue[lo] == e {
        } else {
          assert e in Listing(queue, lo + 1, hi);
        }
      }
      forall e, k: nat | lo <= k < hi && k in queue && queue[k] == e ensures e in Listing(queue, lo, hi) {
        if k > lo { assert e in Listing(queue, lo + 1, hi); }
      }
    }
  }

  /** The code's test finds exactly the entries of the list. */
  lemma HoldsIff(queue: map<nat, Entry>, at: map<Entry, nat>, lo: nat, hi: nat, e: Entry)
    requires Placed(queue, at, lo, hi)
    ensures Holds(queue, at, e) <==> e in Listing(queue, lo, hi)
  {
    ListingHas(queue, lo, hi);
  }

  lemma {:induction false} ListingAppend(queue: map<nat, Entry>, lo: nat, hi: nat, e: Entry)
    requires lo <= hi && forall k: nat :: k in queue ==> k < hi
    ensures Listing(queue[hi := e], lo, hi + 1) == Listing(queue, lo, hi) + [e]
    decreases hi - lo
  {
    if lo < hi {
      ListingAppend(queue, lo + 1, hi, e);
    } else {
      assert Listing(queue[hi := e], lo + 1, hi + 1) == [];
    }
  }

  lemma {:induction false} ListingSame(queue: map<nat, Entry>, k: nat, lo: nat, hi: nat)
    requires k < lo
    ensures Listing(queue - {k}, lo, hi) == Listing(queue, lo, hi)
    decreases hi - lo
  {
    if lo < hi { ListingSame(queue, k, lo + 1, hi); }
  }

  /** Deleting a position takes its entry out of the list. */
  lemma {:induction false} ListingDelete(queue: map<nat, Entry>, at: map<Entry, nat>, k: nat, lo: nat, hi: nat)
    requires lo <= k < hi && k in queue && forall i: nat :: i in queue ==> queue[i] in at && at[queue[i]] == i
    ensures Listing(queue - {k}, lo, hi) == Without(Listing(queue, lo, hi), queue[k])
    decreases hi - lo
  {
    var rest := Listing(queue, lo + 1, hi);
    if k == lo {
      ListingSame(queue, k, lo + 1, hi);
      assert Listing(queue, lo, hi) == [queue[k]] + rest;
    } else {
      ListingDelete(queue, at, k, lo + 1, hi);
      if lo in queue {
        assert queue[lo] != queue[k];
        assert Listing(queue, lo, hi) == [queue[lo]] + rest;
        assert ([queue[lo]] + rest)[1..] == rest;
      } else {
        assert Listing(queue, lo, hi) == rest;
        assert Listing(queue - {k}, lo, hi) == Listing(queue - {k}, lo + 1, hi);
      }
    }
  }

  lemma {:induction false} ListingLength(queue: map<nat, Entry>, lo: nat, hi: nat)
    requires forall k: nat :: k in queue ==> lo <= k < hi
    ensures |Listing(queue, lo, hi)| == |queue|
    decreases hi - lo
  {
    hide Listing;
    if lo >= hi {
      NoneHeld(queue, lo, hi);
    } else {
      NextHeld(queue, lo, hi);
      if lo in queue {
        ShrinksBy(queue, lo);
        ListingSame(queue, lo, lo + 1, hi);
        ListingLength(queue - {lo}, lo + 1, hi);
      } else {
        ListingLength(queue, lo + 1, hi);
      }
    }
  }

  lemma NoneHeld(queue: map<nat, Entry>, lo: nat, hi: nat)
    requires lo >= hi && forall k: nat :: k in queue ==> lo <= k < hi
    ensures Listing(queue, lo, hi) == [] && |queue| == 0
  {
    assert queue.Keys == {};
    assert |queue| == |queue.Keys|;
  }

  lemma ShrinksBy(queue: map<nat, Entry>, k: nat)
    requires k in queue
    ensures |queue - {k}| == |queue| - 1
  {
    assert queue.Keys == (queue - {k}).Keys + {k};
    assert |queue| == |queue.Keys| && |queue - {k}| == |(queue - {k}).Keys|;
  }

  lemma GrowsBy(queue: map<nat, Entry>, k: nat, e: Entry)
    requires k !in queue
    ensures |queue[k := e]| == |queue| + 1
  {
    assert queue[k := e].Keys == queue.Keys + {k};
    assert |queue| == |queue.Keys| && |queue[k := e]| == |queue[k := e].Keys|;
  }

  lemma NextHeld(queue: map<nat, Entry>, lo: nat, hi: nat)
    requires lo < hi
    ensures lo !in queue ==> Listing(queue, lo, hi) == Listing(queue, lo + 1, hi)
    ensures lo in queue ==> Listing(queue, lo, hi) == [queue[lo]] + Listing(queue, lo + 1, hi)
  {}

  lemma {:induction false} NotThere(s: seq<Entry>, e: Entry)
    requires e !in s
    ensures Without(s, e) == s
  {
    if |s| > 0 { NotThere(s[1..], e); }
  }

  /** An entry that is not queued gets the newest position. */
  lemma PlacedAppend(queue: map<nat, Entry>, at: map<Entry, nat>, lo: nat, hi: nat, e: Entry)
    requires Placed(queue, at, lo, hi) && !Holds(queue, at, e)
    ensures Placed(queue[hi := e], at[e := hi], lo, hi + 1)
    ensures Listing(queue[hi := e], lo, hi + 1) == Listing(queue, lo, hi) + [e]
    ensures |queue[hi := e]| == |queue| + 1
  {
    ListingAppend(queue, lo, hi, e);
    GrowsBy(queue, hi, e);
  }

  /** A queued entry leaves its position. */
  lemma PlacedDelete(queue: map<nat, Entry>, at: map<Entry, nat>, lo: nat, hi: nat, e: Entry, k: nat)
    requires Placed(queue, at, lo, hi) && Holds(queue, at, e) && k == if e in at then at[e] else 0
    ensures Placed(queue - {k}, at, lo, hi) && !Holds(queue - {k}, at, e)
    ensures Listing(queue - {k}, lo, hi) == Without(Listing(queue, lo, hi), e)
    ensures |queue - {k}| == |queue| - 1
  {
    ListingDelete(queue, at, k, lo, hi);
    ShrinksBy(queue, k);
  }

  // ---------------------------------------------------------------- the object

  class Queue {
    var queue: map<nat, Entry>
    var at: map<Entry, nat>
    var newPtr: nat
    var oldPtr: nat
    const maxCnt: nat

    ghost predicate Valid()
      reads this
    {
      Placed(queue, at, oldPtr, newPtr) && |queue| <= maxCnt && maxCnt > 0
    }

    /** The entries, least recently set first. */
    ghost function Recent(): seq<Entry>
      reads this
    {
      Listing(queue, oldPtr, newPtr)
    }

    constructor (maxCnt: nat)
      requires maxCnt > 0
      ensures Valid() && Recent() == [] && this.maxCnt == maxCnt
    {
      this.maxCnt := maxCnt;
      queue, at, newPtr, oldPtr := map[], map[], 0, 0;
    }

    /** fetchOldest: the least recently set entry; the scan for it ends. */
    method FetchOldest() returns (e: Option<Entry>)
      requires Valid()
      modifies this`queue, this`oldPtr
      ensures Valid()
      ensures old(Recent()) == [] ==> e == None && queue == old(queue) && oldPtr == old(oldPtr)
      ensures old(Recent()) != [] ==> e == Some(old(Recent())[0]) && Recent() == old(Recent())[1..] && |queue| == old(|queue|) - 1
      ensures e.Some? ==> !Holds(queue, at, e.value)
    {
      hide Listing, Placed;
      LengthIs(queue, at, oldPtr, newPtr);
      if |queue| == 0 { return None; }
      var k := ScanFrom(queue, at, oldPtr, newPtr);
      FetchAt(queue, at, k, newPtr);
      e := Some(queue[k]);
      queue := queue - {k};
      oldPtr := k + 1;
    }

    /** remove. */
    method Remove(e: Entry)
      requires Valid()
      modifies this`queue
      ensures Valid() && Recent() == Without(old(Recent()), e) && (!Holds(old(queue), at, e) ==> queue == old(queue))
    {
      hide Listing, Without, Placed;
      HoldsIff(queue, at, oldPtr, newPtr, e);
      if Holds(queue, at, e) {
        var k := if e in at then at[e] else 0;
        PlacedDelete(queue, at, oldPtr, newPtr, e, k);
        queue := queue - {k};
      } else {
        NotThere(Recent(), e);
      }
    }

    /** setLatest: the entry becomes the most recent; a new one evicts the least recent of a full queue. */
    method SetLatest(e: Entry) returns (evicted: Option<Entry>)
      requires Valid()
      modifies this
      ensures Valid()
      ensures e in old(Recent()) ==> evicted == None && Recent() == Without(old(Recent()), e) + [e]
      ensures e !in old(Recent()) && |old(Recent())| < maxCnt ==> evicted == None && Recent() == old(Recent()) + [e]
      ensures e !in old(Recent()) && |old(Recent())| == maxCnt ==>
                evicted == Some(old(Recent())[0]) && Recent() == old(Recent())[1..] + [e]
    {
      hide Listing, Without, Placed;
      evicted := None;
      LengthIs(queue, at, oldPtr, newPtr);
      HoldsIff(queue, at, oldPtr, newPtr, e);
      if Holds(queue, at, e) {
        var k := if e in at then at[e] else 0;
        PlacedDelete(queue, at, oldPtr, newPtr, e, k);
        queue := queue - {k};
      } else if |queue| == maxCnt {
        evicted := FetchOldest();
        HoldsIff(queue, at, oldPtr, newPtr, e);
        Remove(evicted.value);
      }
      PlacedAppend(queue, at, oldPtr, newPtr, e);
      at := at[e := newPtr];
      queue := queue[newPtr := e];
      newPtr := newPtr + 1;
    }
  }

  lemma LengthIs(queue: map<nat, Entry>, at: map<Entry, nat>, lo: nat, hi: nat)
    requires Placed(queue, at, lo, hi)
    ensures |Listing(queue, lo, hi)| == |queue|
  {
    ListingLength(queue, lo, hi);
  }

  lemma SomeHeld(queue: map<nat, Entry>, lo: nat, hi: nat)
    requires |queue| > 0 && forall k: nat :: k in queue ==> lo <= k < hi
    ensures lo < hi
  {
    ListingLength(queue, lo, hi);
  }

  /** The scan for the oldest entry. */
  method ScanFrom(queue: map<nat, Entry>, ghost at: map<Entry, nat>, lo: nat, hi: nat) returns (k: nat)
    requires Placed(queue, at, lo, hi) && |queue| > 0
    ensures k in queue && Placed(queue, at, k, hi) && Listing(queue, k, hi) == Listing(queue, lo, hi)
  {
    hide Listing;
    k := lo;
    SomeHeld(queue, lo, hi);
    while k !in queue
      invariant Placed(queue, at, k, hi) && k < hi && Listing(queue, k, hi) == Listing(queue, lo, hi)
      decreases hi - k
    {
      NextHeld(queue, k, hi);
      k := k + 1;
      SomeHeld(queue, k, hi);
    }
  }

  lemma FetchAt(queue: map<nat, Entry>, at: map<Entry, nat>, k: nat, hi: nat)
    requires Placed(queue, at, k, hi) && k in queue
    ensures Placed(queue - {k}, at, k + 1, hi) && !Holds(queue - {k}, at, queue[k])
    ensures Listing(queue, k, hi) == [queue[k]] + Listing(queue - {k}, k + 1, hi)
    ensures |queue - {k}| == |queue| - 1
  {
    hide Listing;
    NextHeld(queue, k, hi);
    ListingSame(queue, k, k + 1, hi);
    ShrinksBy(queue, k);
  }
}
