/** Transactions and nonce-indexed collections of them: what the list operations of
    chain/core/tx_list.go mean, without the heap, the cache and the caps that speed them up. */
module TxMap {

  type Address = nat

  /** A transaction; its hash is injective, so the transaction itself stands for it. */
  datatype Tx = Tx(sender: Address, nonce: nat, price: nat, cost: nat, gas: nat, salt: nat)

  /** Transactions of one sender by nonce. */
  type Txs = map<nat, Tx>

  ghost predicate Keyed(m: Txs) { forall n :: n in m ==> m[n].nonce == n }

  // ---------------------------------------------------------------- meanings

  /** Forward: what stays when all nonces below `t` go. */
  function From(m: Txs, t: nat): (r: Txs) { map n | n in m && n >= t :: m[n] }

  function Below(m: Txs, t: nat): (r: Txs) { map n | n in m && n < t :: m[n] }

  function Rank(m: Txs, n: nat): nat { |set k | k in m && k < n| }

  /** Cap: the `k` lowest nonces. */
  function Lowest(m: Txs, k: nat): (r: Txs) { map n | n in m && Rank(m, n) < k :: m[n] }

  /** First missing nonce from `n` on. */
  function RunEnd(m: Txs, n: nat): (e: nat)
    ensures e >= n && e !in m && forall k :: n <= k < e ==> k in m
    decreases |From(m, n)|
  {
    if n !in m then n
    else
      assert From(m, n).Keys == From(m, n + 1).Keys + {n};
      RunEnd(m, n + 1)
  }

  predicate IsLeast(m: Txs, n: nat) { n in m && forall k :: k in m ==> n <= k }

  /** The nonce-sorted contents. */
  ghost predicate IsFlat(m: Txs, s: seq<Tx>) {
    && (forall i, j :: 0 <= i < j < |s| ==> s[i].nonce < s[j].nonce)
    && (forall i :: 0 <= i < |s| ==> s[i].nonce in m && m[s[i].nonce] == s[i])
    && (forall n :: n in m ==> m[n] in s)
  }

  // ---------------------------------------------------------------- facts

  lemma FlatDropLast(m: Txs, s: seq<Tx>)
    requires Keyed(m) && IsFlat(m, s) && |s| > 0
    ensures IsFlat(m - {s[|s| - 1].nonce}, s[..|s| - 1])
  {
    var x := s[|s| - 1];
    forall n | n in m && n != x.nonce ensures m[n] in s[..|s| - 1] {
      assert m[n] in s;
      assert s == s[..|s| - 1] + [x];
    }
  }

  lemma {:induction false} FlatLength(m: Txs, s: seq<Tx>)
    requires Keyed(m) && IsFlat(m, s)
    ensures |s| == |m|
    decreases |s|
  {
    if |s| == 0 {
      assert m.Keys == {};
      assert |m| == |m.Keys|;
    } else {
      var x := s[|s| - 1].nonce;
      FlatDropLast(m, s);
      FlatLength(m - {x}, s[..|s| - 1]);
      assert m.Keys == (m - {x}).Keys + {x};
      assert |m| == |m.Keys| && |m - {x}| == |(m - {x}).Keys|;
    }
  }

  lemma PositionOf(m: Txs, s: seq<Tx>, n: nat) returns (i: nat)
    requires Keyed(m) && IsFlat(m, s) && n in m
    ensures i < |s| && s[i] == m[n] && s[i].nonce == n
  {
    i :| 0 <= i < |s| && s[i] == m[n];
  }

  /** Any part of the map that is a contiguous part of the sorted contents is sorted by it. */
  lemma FlatPart(m: Txs, s: seq<Tx>, p: Txs, lo: nat, hi: nat)
    requires Keyed(m) && IsFlat(m, s) && lo <= hi <= |s|
    requires p.Keys <= m.Keys && forall n :: n in p ==> p[n] == m[n]
    requires forall i :: 0 <= i < |s| ==> (s[i].nonce in p <==> lo <= i < hi)
    ensures IsFlat(p, s[lo..hi])
  {
    var r := s[lo..hi];
    forall i | 0 <= i < |r| ensures r[i].nonce in p && p[r[i].nonce] == r[i] {
      assert r[i] == s[lo + i];
    }
    forall n | n in p ensures p[n] in r {
      var i := PositionOf(m, s, n);
      assert r[i - lo] == p[n];
    }
  }

  lemma FlatIn(m: Txs, s: seq<Tx>)
    requires IsFlat(m, s)
    ensures forall i :: 0 <= i < |s| ==> s[i].nonce in m
  {}

  /** The sorted contents split at any nonce. */
  lemma FlatSplit(m: Txs, s: seq<Tx>, t: nat, k: nat)
    requires Keyed(m) && IsFlat(m, s) && k <= |s|
    requires forall i :: 0 <= i < k ==> s[i].nonce < t
    requires forall i :: k <= i < |s| ==> s[i].nonce >= t
    ensures IsFlat(Below(m, t), s[..k]) && IsFlat(From(m, t), s[k..])
  {
    FlatIn(m, s);
    hide IsFlat;
    FlatPart(m, s, Below(m, t), 0, k);
    FlatPart(m, s, From(m, t), k, |s|);
    assert s[0..k] == s[..k] && s[k..|s|] == s[k..];
  }

  /** So a prefix of the sorted contents of the right length is what lies below a nonce. */
  lemma FlatCut(m: Txs, s: seq<Tx>, t: nat)
    requires Keyed(m) && IsFlat(m, s)
    ensures |Below(m, t)| <= |s|
    ensures IsFlat(Below(m, t), s[..|Below(m, t)|]) && IsFlat(From(m, t), s[|Below(m, t)|..])
  {
    var k := CountBelow(s, t);
    FlatSplit(m, s, t, k);
    FlatLength(Below(m, t), s[..k]);
  }

  /** How many leading entries have a nonce below `t`. */
  function CountBelow(s: seq<Tx>, t: nat): (k: nat)
    requires forall i, j :: 0 <= i < j < |s| ==> s[i].nonce < s[j].nonce
    ensures k <= |s|
    ensures forall i :: 0 <= i < k ==> s[i].nonce < t
    ensures forall i :: k <= i < |s| ==> s[i].nonce >= t
  {
    if s == [] || s[|s| - 1].nonce < t then |s| else CountBelow(s[..|s| - 1], t)
  }

  // ---------------------------------------------------------------- ranks

  lemma RankMonotone(m: Txs, a: nat, b: nat)
    requires a <= b
    ensures Rank(m, a) <= Rank(m, b)
    ensures a in m && a < b ==> Rank(m, a) < Rank(m, b)
  {
    var x, y := set k | k in m && k < a, set k | k in m && k < b;
    assert x <= y;
    SubsetSize(x, y);
    if a in m && a < b {
      assert x + {a} <= y;
      SubsetSize(x + {a}, y);
    }
  }

  lemma {:induction false} SubsetSize<T>(x: set<T>, y: set<T>)
    requires x <= y
    ensures |x| <= |y|
  {
    if x != {} {
      var e :| e in x;
      SubsetSize(x - {e}, y - {e});
    }
  }

  lemma BelowSize(m: Txs, t: nat)
    ensures |Below(m, t)| == Rank(m, t)
  {
    assert Below(m, t).Keys == set k | k in m && k < t;
    assert |Below(m, t)| == |Below(m, t).Keys|;
  }

  lemma FlatAround(m: Txs, s: seq<Tx>, i: nat)
    requires IsFlat(m, s) && i < |s|
    ensures forall k :: 0 <= k < i ==> s[k].nonce < s[i].nonce
    ensures forall k :: i <= k < |s| ==> s[k].nonce >= s[i].nonce
  {}

  /** In the sorted contents, the rank is the position. */
  lemma RankIsPosition(m: Txs, s: seq<Tx>, i: nat)
    requires Keyed(m) && IsFlat(m, s) && i < |s|
    ensures Rank(m, s[i].nonce) == i
  {
    hide IsFlat, Rank, Below;
    var t := s[i].nonce;
    FlatAround(m, s, i);
    FlatSplit(m, s, t, i);
    BelowKeyed(m, t);
    FlatLength(Below(m, t), s[..i]);
    BelowSize(m, t);
  }

  lemma BelowKeyed(m: Txs, t: nat)
    requires Keyed(m)
    ensures Keyed(Below(m, t))
  {}

  lemma FlatUnique(m: Txs, s: seq<Tx>, t: seq<Tx>)
    requires Keyed(m) && IsFlat(m, s) && IsFlat(m, t)
    ensures s == t
  {
    FlatLength(m, s);
    FlatLength(m, t);
    forall i | 0 <= i < |s| ensures s[i] == t[i] {
      RankIsPosition(m, s, i);
      RankIsPosition(m, t, i);
      SameRank(m, s[i].nonce, t[i].nonce);
    }
  }

  lemma SameRank(m: Txs, a: nat, b: nat)
    requires a in m && b in m && Rank(m, a) == Rank(m, b)
    ensures a == b
  {
    if a < b { RankMonotone(m, a, b); } else { RankMonotone(m, b, a); }
  }

  /** Cap keeps a prefix of the sorted contents. */
  lemma LowestIsPrefix(m: Txs, s: seq<Tx>, k: nat)
    requires Keyed(m) && IsFlat(m, s) && k <= |s|
    ensures IsFlat(Lowest(m, k), s[..k])
    ensures |Lowest(m, k)| == k
  {
    LowestNonces(m, s, k);
    hide IsFlat, Lowest;
    LowestSub(m, k);
    FlatPart(m, s, Lowest(m, k), 0, k);
    assert s[0..k] == s[..k];
    FlatLength(Lowest(m, k), s[..k]);
  }

  lemma LowestSub(m: Txs, k: nat)
    requires Keyed(m)
    ensures Lowest(m, k).Keys <= m.Keys && forall n :: n in Lowest(m, k) ==> Lowest(m, k)[n] == m[n]
    ensures Keyed(Lowest(m, k))
  {}

  lemma LowestNonces(m: Txs, s: seq<Tx>, k: nat)
    requires Keyed(m) && IsFlat(m, s) && k <= |s|
    ensures forall i :: 0 <= i < |s| ==> (s[i].nonce in Lowest(m, k) <==> i < k)
  {
    hide Rank;
    forall i | 0 <= i < |s| ensures s[i].nonce in Lowest(m, k) <==> i < k { RankIsPosition(m, s, i); }
  }

  // ---------------------------------------------------------------- existence of the sorted contents

  /** Nonce-sorted contents, built from the largest nonce down. */
  function Flat(m: Txs): (s: seq<Tx>)
    requires Keyed(m)
    ensures IsFlat(m, s)
    decreases |m|
  {
    if m == map[] then []
    else
      var n := Largest(m.Keys);
      var m' := m - {n};
      assert m.Keys == m'.Keys + {n};
      FlatAppend(m, n, Flat(m'));
      Flat(m') + [m[n]]
  }

  lemma FlatAppend(m: Txs, n: nat, s: seq<Tx>)
    requires Keyed(m) && n in m && (forall k :: k in m ==> k <= n) && IsFlat(m - {n}, s)
    ensures IsFlat(m, s + [m[n]])
  {
    var r := s + [m[n]];
    forall i, j | 0 <= i < j < |r| ensures r[i].nonce < r[j].nonce {
      assert s[i].nonce in m - {n};
    }
    forall k | k in m ensures m[k] in r {
      if k != n { assert (m - {n})[k] in s; } else { assert r[|s|] == m[n]; }
    }
  }

  function Largest(s: set<nat>): (x: nat)
    requires s != {}
    ensures x in s && forall y :: y in s ==> y <= x
    decreases s
  {
    LargestExists(s);
    var x :| x in s && forall y :: y in s ==> y <= x;
    x
  }

  lemma LargestExists(s: set<nat>)
    requires s != {}
    ensures exists x :: x in s && forall y :: y in s ==> y <= x
  {
    var x := LargestOf(s);
  }

  lemma {:induction false} LargestOf(s: set<nat>) returns (x: nat)
    requires s != {}
    ensures x in s && forall y :: y in s ==> y <= x
    decreases s
  {
    var e :| e in s;
    var r := s - {e};
    x := e;
    if r != {} {
      var z := LargestOf(r);
      if e < z { x := z; }
    }
    assert forall y :: y in s ==> y == e || y in r;
  }
}
