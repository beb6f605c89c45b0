/** Binary heaps over sequences, as Go's container/heap arranges them; used for the nonce index and
    the price heap of chain/core/tx_list.go. */
module Heap {

  function Par(i: int): int
    requires i >= 1
  {
    (i - 1) / 2
  }

  /** Entry `i` is not smaller than its parent. */
  ghost predicate Ordered<T>(h: seq<T>, key: T -> int, i: int) {
    1 <= i < |h| ==> key(h[Par(i)]) <= key(h[i])
  }

  ghost predicate IsHeap<T>(h: seq<T>, key: T -> int) {
    forall i {:trigger Ordered(h, key, i)} :: Ordered(h, key, i)
  }

  function Swap<T>(h: seq<T>, i: nat, j: nat): seq<T>
    requires i < |h| && j < |h|
  {
    h[i := h[j]][j := h[i]]
  }

  lemma SwapMultiset<T>(h: seq<T>, i: nat, j: nat)
    requires i < |h| && j < |h|
    ensures multiset(Swap(h, i, j)) == multiset(h)
  {}

  /** The root is least. */
  lemma {:induction false} RootLeast<T>(h: seq<T>, key: T -> int, i: nat)
    requires IsHeap(h, key) && i < |h|
    ensures key(h[0]) <= key(h[i])
    decreases i
  {
    if i > 0 {
      assert Ordered(h, key, i);
      RootLeast(h, key, Par(i));
    }
  }

  // ---------------------------------------------------------------- sifting up

  function Up<T>(h: seq<T>, key: T -> int, j: nat): (r: seq<T>)
    requires j < |h|
    ensures |r| == |h| && multiset(r) == multiset(h)
    decreases j
  {
    if j == 0 || key(h[j]) >= key(h[Par(j)]) then h
    else
      SwapMultiset(h, Par(j), j);
      Up(Swap(h, Par(j), j), key, Par(j))
  }

  /** Heap order except that entry `j` may be too small. */
  ghost predicate AlmostUp<T>(h: seq<T>, key: T -> int, j: nat) {
    && j < |h|
    && (forall i {:trigger Ordered(h, key, i)} :: i != j ==> Ordered(h, key, i))
    && (forall i :: 1 <= i < |h| && Par(i) == j && j >= 1 ==> key(h[Par(j)]) <= key(h[i]))
  }

  lemma {:induction false} UpKeeps<T>(h: seq<T>, key: T -> int, j: nat)
    requires AlmostUp(h, key, j)
    ensures IsHeap(Up(h, key, j), key)
    decreases j
  {
    if j == 0 || key(h[j]) >= key(h[Par(j)]) {
      forall i ensures Ordered(h, key, i) {}
    } else {
      UpStep(h, key, j);
      UpKeeps(Swap(h, Par(j), j), key, Par(j));
    }
  }

  lemma UpStep<T>(h: seq<T>, key: T -> int, j: nat)
    requires AlmostUp(h, key, j) && j >= 1 && key(h[j]) < key(h[Par(j)])
    ensures AlmostUp(Swap(h, Par(j), j), key, Par(j))
  {
    var p := Par(j);
    var s := Swap(h, p, j);
    forall i {:trigger Ordered(s, key, i)} | i != p ensures Ordered(s, key, i) {
      assert i != j ==> Ordered(h, key, i);
      if 1 <= i < |h| && i != j && Par(i) == j { assert key(h[p]) <= key(h[i]); }
    }
    if p >= 1 {
      assert Ordered(h, key, p);
      forall i | 1 <= i < |s| && Par(i) == p ensures key(s[Par(p)]) <= key(s[i]) {
        assert i != j ==> Ordered(h, key, i);
      }
    }
  }

  // ---------------------------------------------------------------- sifting down

  /** The child of `i` that `down` compares with: the right one unless the left is smaller. */
  function Lesser<T>(h: seq<T>, key: T -> int, i: nat): (c: nat)
    requires 2 * i + 1 < |h|
    ensures c < |h| && (c == 2 * i + 1 || c == 2 * i + 2)
    ensures 2 * i + 2 < |h| ==> key(h[c]) <= key(h[2 * i + 1]) && key(h[c]) <= key(h[2 * i + 2])
  {
    if 2 * i + 2 < |h| && key(h[2 * i + 1]) >= key(h[2 * i + 2]) then 2 * i + 2 else 2 * i + 1
  }

  function Down<T>(h: seq<T>, key: T -> int, i: nat): (r: seq<T>)
    requires i < |h|
    ensures |r| == |h| && multiset(r) == multiset(h)
    decreases |h| - i
  {
    if 2 * i + 1 >= |h| then h
    else
      var c := Lesser(h, key, i);
      if key(h[c]) >= key(h[i]) then h
      else
        SwapMultiset(h, i, c);
        Down(Swap(h, i, c), key, c)
  }

  /** Heap order from entry `from` on, except that entry `k` may be too large for its children. */
  ghost predicate AlmostDown<T>(h: seq<T>, key: T -> int, k: nat, from: nat) {
    && k < |h| && from <= k
    && (forall i {:trigger Ordered(h, key, i)} :: 1 <= i < |h| && Par(i) >= from && Par(i) != k ==> Ordered(h, key, i))
    && (forall i :: 1 <= i < |h| && Par(i) == k && k >= 1 && Par(k) >= from ==> key(h[Par(k)]) <= key(h[i]))
  }

  /** Heap order below every entry from `from` on. */
  ghost predicate HeapFrom<T>(h: seq<T>, key: T -> int, from: nat) {
    forall i {:trigger Ordered(h, key, i)} :: 1 <= i < |h| && Par(i) >= from ==> Ordered(h, key, i)
  }

  lemma {:induction false} DownKeeps<T>(h: seq<T>, key: T -> int, k: nat, from: nat)
    requires AlmostDown(h, key, k, from)
    ensures HeapFrom(Down(h, key, k), key, from)
    decreases |h| - k
  {
    if 2 * k + 1 >= |h| {
      forall i {:trigger Ordered(h, key, i)} | 1 <= i < |h| && Par(i) >= from ensures Ordered(h, key, i) {
        assert Par(i) != k;
      }
    } else {
      var c := Lesser(h, key, k);
      if key(h[c]) >= key(h[k]) {
        forall i {:trigger Ordered(h, key, i)} | 1 <= i < |h| && Par(i) >= from ensures Ordered(h, key, i) {
          if Par(i) == k { assert i == 2 * k + 1 || i == 2 * k + 2; }
        }
      } else {
        DownStep(h, key, k, from, c);
        DownKeeps(Swap(h, k, c), key, c, from);
      }
    }
  }

  lemma DownStep<T>(h: seq<T>, key: T -> int, k: nat, from: nat, c: nat)
    requires AlmostDown(h, key, k, from) && 2 * k + 1 < |h| && c == Lesser(h, key, k) && key(h[c]) < key(h[k])
    ensures AlmostDown(Swap(h, k, c), key, c, from)
  {
    var s := Swap(h, k, c);
    assert Par(c) == k;
    forall i {:trigger Ordered(s, key, i)} | 1 <= i < |s| && Par(i) >= from && Par(i) != c ensures Ordered(s, key, i) {
      if Par(i) == k { assert i == 2 * k + 1 || i == 2 * k + 2; }
      else { assert Ordered(h, key, i); }
    }
    forall i | 1 <= i < |s| && Par(i) == c ensures key(s[Par(c)]) <= key(s[i]) {
      assert Ordered(h, key, i);
    }
  }

  lemma HeapFromZero<T>(h: seq<T>, key: T -> int)
    requires HeapFrom(h, key, 0)
    ensures IsHeap(h, key)
  {
    forall i ensures Ordered(h, key, i) {}
  }

  // ---------------------------------------------------------------- the operations

  /** heap.Push */
  function Push<T>(h: seq<T>, key: T -> int, x: T): (r: seq<T>)
    requires IsHeap(h, key)
    ensures IsHeap(r, key) && multiset(r) == multiset(h) + multiset{x} && |r| == |h| + 1
  {
    PushKeeps(h, key, x);
    Up(h + [x], key, |h|)
  }

  lemma PushKeeps<T>(h: seq<T>, key: T -> int, x: T)
    requires IsHeap(h, key)
    ensures IsHeap(Up(h + [x], key, |h|), key)
  {
    var s := h + [x];
    forall i {:trigger Ordered(s, key, i)} | i != |h| ensures Ordered(s, key, i) { assert Ordered(h, key, i); }
    forall i | 1 <= i < |s| ensures Par(i) != |h| {}
    UpKeeps(s, key, |h|);
  }

  /** What heap.Pop leaves; it returns the root. */
  function Pop<T>(h: seq<T>, key: T -> int): (r: seq<T>)
    requires IsHeap(h, key) && |h| > 0
    ensures IsHeap(r, key) && multiset(h) == multiset(r) + multiset{h[0]} && |r| == |h| - 1
  {
    var n := |h| - 1;
    PopKeeps(h, key);
    if n == 0 then
      assert h == [h[0]];
      []
    else
      Down(h[0 := h[n]][..n], key, 0)
  }

  lemma PopKeeps<T>(h: seq<T>, key: T -> int)
    requires IsHeap(h, key) && |h| > 0
    ensures |h| == 1 ==> IsHeap([], key)
    ensures |h| > 1 ==> IsHeap(Down(h[0 := h[|h| - 1]][..|h| - 1], key, 0), key)
    ensures |h| > 1 ==> multiset(h) == multiset(h[0 := h[|h| - 1]][..|h| - 1]) + multiset{h[0]}
  {
    var n := |h| - 1;
    if n > 0 {
      var s := h[0 := h[n]][..n];
      ReplacedMultiset(h, 0);
      forall i {:trigger Ordered(s, key, i)} | 1 <= i < |s| && Par(i) >= 0 && Par(i) != 0 ensures Ordered(s, key, i) {
        assert Ordered(h, key, i);
      }
      DownKeeps(s, key, 0, 0);
      HeapFromZero(Down(s, key, 0), key);
    } else {
      forall i ensures Ordered([], key, i) {}
    }
  }

  /** What heap.Remove leaves: the last entry replaces entry `i` and is sifted down, then up. */
  function RemoveAt<T>(h: seq<T>, key: T -> int, i: nat): (r: seq<T>)
    requires IsHeap(h, key) && i < |h|
    ensures IsHeap(r, key) && multiset(h) == multiset(r) + multiset{h[i]} && |r| == |h| - 1
  {
    var n := |h| - 1;
    RemoveKeeps(h, key, i);
    if i == n then h[..n] else Up(Down(h[i := h[n]][..n], key, i), key, i)
  }

  lemma RemoveKeeps<T>(h: seq<T>, key: T -> int, i: nat)
    requires IsHeap(h, key) && i < |h|
    ensures i == |h| - 1 ==> IsHeap(h[..i], key) && multiset(h) == multiset(h[..i]) + multiset{h[i]}
    ensures i < |h| - 1 ==> IsHeap(Up(Down(h[i := h[|h| - 1]][..|h| - 1], key, i), key, i), key)
    ensures i < |h| - 1 ==> multiset(h) == multiset(h[i := h[|h| - 1]][..|h| - 1]) + multiset{h[i]}
  {
    var n := |h| - 1;
    if i == n {
      assert h == h[..n] + [h[n]];
      forall k ensures Ordered(h[..n], key, k) { assert Ordered(h, key, k); }
    } else {
      ReplacedMultiset(h, i);
      ReplacedHeap(h, key, i, h[i := h[n]][..n]);
    }
  }

  lemma ReplacedMultiset<T>(h: seq<T>, i: nat)
    requires i < |h| - 1
    ensures multiset(h) == multiset(h[i := h[|h| - 1]][..|h| - 1]) + multiset{h[i]}
  {
    var n := |h| - 1;
    var s := h[i := h[n]][..n];
    var u := h[i := h[n]];
    assert multiset(u) == multiset(h) - multiset{h[i]} + multiset{h[n]};
    assert u == s + [h[n]];
    assert multiset(u) == multiset(s) + multiset{h[n]};
  }

  lemma ReplacedHeap<T>(h: seq<T>, key: T -> int, i: nat, s: seq<T>)
    requires IsHeap(h, key) && i < |h| - 1 && s == h[i := h[|h| - 1]][..|h| - 1]
    ensures IsHeap(Up(Down(s, key, i), key, i), key)
  {
    hide Down, Up, IsHeap, AlmostUp, AlmostDown, HeapFrom;
    if i > 0 && key(h[|h| - 1]) < key(h[Par(i)]) {
      ReplacedSmall(h, key, i, s);
    } else {
      ReplacedLarge(h, key, i, s);
      DownKeeps(s, key, i, 0);
      HeapFromZero(Down(s, key, i), key);
      HeapIsAlmostUp(Down(s, key, i), key, i);
    }
    UpKeeps(Down(s, key, i), key, i);
  }

  lemma HeapIsAlmostUp<T>(h: seq<T>, key: T -> int, i: nat)
    requires IsHeap(h, key) && i < |h|
    ensures AlmostUp(h, key, i)
  {
    forall k | 1 <= k < |h| && Par(k) == i && i >= 1 ensures key(h[Par(i)]) <= key(h[k]) {
      assert Ordered(h, key, k) && Ordered(h, key, i);
    }
  }

  lemma ReplacedSmall<T>(h: seq<T>, key: T -> int, i: nat, s: seq<T>)
    requires IsHeap(h, key) && 0 < i < |h| - 1 && s == h[i := h[|h| - 1]][..|h| - 1]
    requires key(h[|h| - 1]) < key(h[Par(i)])
    ensures Down(s, key, i) == s && AlmostUp(s, key, i)
  {
    forall k {:trigger Ordered(s, key, k)} | k != i ensures Ordered(s, key, k) {
      assert Ordered(h, key, k) && Ordered(h, key, i);
    }
    forall k | 1 <= k < |s| && Par(k) == i ensures key(s[Par(i)]) <= key(s[k]) {
      assert Ordered(h, key, k) && Ordered(h, key, i);
    }
    if 2 * i + 1 < |s| {
      var c := Lesser(s, key, i);
      assert Par(c) == i && Ordered(s, key, c);
    }
  }

  lemma ReplacedLarge<T>(h: seq<T>, key: T -> int, i: nat, s: seq<T>)
    requires IsHeap(h, key) && i < |h| - 1 && s == h[i := h[|h| - 1]][..|h| - 1]
    requires i == 0 || key(h[|h| - 1]) >= key(h[Par(i)])
    ensures AlmostDown(s, key, i, 0)
  {
    forall k {:trigger Ordered(s, key, k)} | 1 <= k < |s| && Par(k) != i ensures Ordered(s, key, k) {
      assert Ordered(h, key, k);
    }
    forall k | 1 <= k < |s| && Par(k) == i && i >= 1 ensures key(s[Par(i)]) <= key(s[k]) {
      assert Ordered(h, key, k) && Ordered(h, key, i);
    }
  }

  /** `heap.Init`, from entry `n - 1` down to the root. */
  function Heapify<T>(h: seq<T>, key: T -> int, n: nat): (r: seq<T>)
    requires n <= |h|
    ensures |r| == |h| && multiset(r) == multiset(h)
    decreases n
  {
    if n == 0 then h else Heapify(Down(h, key, n - 1), key, n - 1)
  }

  lemma {:induction false} HeapifyKeeps<T>(h: seq<T>, key: T -> int, n: nat)
    requires n <= |h| && HeapFrom(h, key, n)
    ensures IsHeap(Heapify(h, key, n), key)
    decreases n
  {
    if n == 0 {
      HeapFromZero(h, key);
    } else {
      DownKeeps(h, key, n - 1, n - 1);
      HeapifyKeeps(Down(h, key, n - 1), key, n - 1);
    }
  }

  /** heap.Init */
  function Init<T>(h: seq<T>, key: T -> int): (r: seq<T>)
    ensures IsHeap(r, key) && multiset(r) == multiset(h) && |r| == |h|
  {
    assert HeapFrom(h, key, |h| / 2) by {
      assert forall i :: 1 <= i < |h| ==> Par(i) < |h| / 2;
    }
    HeapifyKeeps(h, key, |h| / 2);
    Heapify(h, key, |h| / 2)
  }

  // ---------------------------------------------------------------- sorting

  ghost predicate Sorted<T>(h: seq<T>, key: T -> int) {
    forall i, j :: 0 <= i < j < |h| ==> key(h[i]) <= key(h[j])
  }

  function Insert<T>(h: seq<T>, key: T -> int, x: T): (r: seq<T>)
    requires Sorted(h, key)
    ensures Sorted(r, key) && multiset(r) == multiset(h) + multiset{x} && |r| == |h| + 1
  {
    var n := |h|;
    if n == 0 || key(h[n - 1]) <= key(x) then h + [x]
    else
      assert h == h[..n - 1] + [h[n - 1]];
      var r := Insert(h[..n - 1], key, x);
      InsertBelow(h[..n - 1], key, x, r, h[n - 1]);
      r + [h[n - 1]]
  }

  lemma InsertBelow<T>(h: seq<T>, key: T -> int, x: T, r: seq<T>, y: T)
    requires multiset(r) == multiset(h) + multiset{x} && key(x) <= key(y) && forall i :: 0 <= i < |h| ==> key(h[i]) <= key(y)
    ensures forall i :: 0 <= i < |r| ==> key(r[i]) <= key(y)
  {
    forall i | 0 <= i < |r| ensures key(r[i]) <= key(y) {
      assert r[i] in multiset(r);
      assert r[i] in h || r[i] == x;
    }
  }

  /** sort.Sort by the key. */
  function Sort<T>(h: seq<T>, key: T -> int): (r: seq<T>)
    ensures Sorted(r, key) && multiset(r) == multiset(h) && |r| == |h|
  {
    if h == [] then []
    else
      assert h == h[..|h| - 1] + [h[|h| - 1]];
      Insert(Sort(h[..|h| - 1], key), key, h[|h| - 1])
  }
}
