/** requestDistributor (chain/les/distributor.go): requests are kept in creation order and handed to peers
    that can serve them. */
module Distributor {
  import opened Options
  import opened WeightedSelect

  type Peer = nat
  type Req = nat

  /** What the peers and requests answer while a request is looked for. */
  datatype View = View(canQueue: Peer -> bool, canSend: (Req, Peer) -> bool, wait: (Req, Peer) -> nat, buffer: (Req, Peer) -> nat)

  predicate Able(v: View, r: Req, p: Peer) { v.canQueue(p) && v.canSend(r, p) }

  predicate Served(v: View, r: Req, peers: set<Peer>) { exists p :: p in peers && Able(v, r, p) }

  // ---------------------------------------------------------------- order

  /** Strictly sorted by creation order. */
  ghost predicate Ordered(queue: seq<Req>, orders: map<Req, nat>) {
    && (forall r :: r in queue ==> r in orders)
    && (forall i, j :: 0 <= i < j < |queue| ==> orders[queue[i]] < orders[queue[j]])
  }

  /** Order numbers are handed out once, from one upwards. */
  ghost predicate Numbered(orders: map<Req, nat>, last: nat) {
    && (forall r :: r in orders ==> 1 <= orders[r] <= last)
    && (forall r, s :: r in orders && s in orders && orders[r] == orders[s] ==> r == s)
  }

  /** Taking a request out keeps the order. */
  function Without(queue: seq<Req>, r: Req): (q: seq<Req>) {
    if |queue| == 0 then []
    else if queue[|queue| - 1] == r then queue[..|queue| - 1]
    else Without(queue[..|queue| - 1], r) + [queue[|queue| - 1]]
  }

  lemma {:induction false} WithoutOrdered(queue: seq<Req>, orders: map<Req, nat>, r: Req)
    requires Ordered(queue, orders)
    ensures Ordered(Without(queue, r), orders)
    ensures forall s :: s in Without(queue, r) <==> s in queue && s != r
  {
    if |queue| > 0 {
      var rest, x := queue[..|queue| - 1], queue[|queue| - 1];
      assert queue == rest + [x];
      LastIsLatest(queue, orders);
      WithoutOrdered(rest, orders, r);
      assert x == r ==> r !in rest;
    }
  }

  lemma LastIsLatest(queue: seq<Req>, orders: map<Req, nat>)
    requires Ordered(queue, orders) && |queue| > 0
    ensures Ordered(queue[..|queue| - 1], orders)
    ensures forall s :: s in queue[..|queue| - 1] ==> orders[s] < orders[queue[|queue| - 1]]
  {}

  lemma InsertOrdered(queue: seq<Req>, orders: map<Req, nat>, r: Req, k: nat)
    requires Ordered(queue, orders) && r in orders && k <= |queue|
    requires forall i :: 0 <= i < k ==> orders[queue[i]] < orders[r]
    requires forall i :: k <= i < |queue| ==> orders[r] < orders[queue[i]]
    ensures Ordered(queue[..k] + [r] + queue[k..], orders)
    ensures forall s :: s in queue[..k] + [r] + queue[k..] <==> s == r || s in queue
  {
    var q := queue[..k] + [r] + queue[k..];
    InsertMembers(queue, r, k);
    forall i, j | 0 <= i < j < |q| ensures orders[q[i]] < orders[q[j]] {
      var i', j' := if i < k then i else i - 1, if j < k then j else j - 1;
      assert q[i] == (if i == k then r else queue[i']) && q[j] == (if j == k then r else queue[j']);
    }
  }

  lemma InsertMembers(queue: seq<Req>, r: Req, k: nat)
    requires k <= |queue|
    ensures forall s :: s in queue[..k] + [r] + queue[k..] <==> s == r || s in queue
  {
    assert queue == queue[..k] + queue[k..];
  }

  lemma NewNumber(queue: seq<Req>, orders: map<Req, nat>, last: nat, r: Req)
    requires Ordered(queue, orders) && Numbered(orders, last) && r !in orders && r !in queue
    ensures Ordered(queue, orders[r := last + 1]) && Numbered(orders[r := last + 1], last + 1)
    ensures Free(queue, orders[r := last + 1], r) && forall s :: s in queue ==> orders[r := last + 1][s] < last + 1
  {}

  lemma FrontGone(queue: seq<Req>, orders: map<Req, nat>, k: nat)
    requires Ordered(queue, orders) && k <= |queue|
    ensures Ordered(queue[k..], orders) && queue == queue[..k] + queue[k..]
  {}

  /** The request's number is not in the queue. */
  ghost predicate Free(queue: seq<Req>, orders: map<Req, nat>, r: Req) {
    r in orders && forall s :: s in queue ==> s in orders && orders[s] != orders[r]
  }

  lemma OtherNumbers(queue: seq<Req>, orders: map<Req, nat>, last: nat, r: Req)
    requires Ordered(queue, orders) && Numbered(orders, last) && r in orders && r !in queue
    ensures Free(queue, orders, r)
  {}

  // ---------------------------------------------------------------- who serves what

  /** The first request of the queue the peer can serve. */
  function First(v: View, queue: seq<Req>, p: Peer): (i: Option<nat>)
    ensures i.Some? ==> i.value < |queue| && Able(v, queue[i.value], p) && forall j :: 0 <= j < i.value ==> !Able(v, queue[j], p)
    ensures i.None? ==> forall j :: 0 <= j < |queue| ==> !Able(v, queue[j], p)
  {
    if |queue| == 0 then None
    else match First(v, queue[..|queue| - 1], p)
         case Some(i) => Some(i)
         case None => if Able(v, queue[|queue| - 1], p) then Some(|queue| - 1) else None
  }

  /** Every peer with the earliest request it can serve. */
  ghost function Matches(v: View, queue: seq<Req>, peers: set<Peer>): set<(Peer, Req)> {
    set p | p in peers && First(v, queue, p).Some? :: (p, queue[First(v, queue, p).value])
  }

  /** The peers that a request is new for and that can serve it. */
  function Takers(v: View, peers: set<Peer>, checked: set<Peer>, r: Req): set<Peer> { set p | p in peers && p !in checked && Able(v, r, p) }

  ghost function PairUp(ps: set<Peer>, r: Req): set<(Peer, Req)> { set p | p in ps :: (p, r) }

  lemma MatchesNone(v: View, peers: set<Peer>)
    ensures Matches(v, [], peers) == {}
  {}

  /** A further request is matched with the peers that could serve none before it. */
  lemma MatchesNext(v: View, queue: seq<Req>, r: Req, peers: set<Peer>, checked: set<Peer>)
    requires Checked(v, queue, peers, checked)
    ensures Matches(v, queue + [r], peers) == Matches(v, queue, peers) + PairUp(Takers(v, peers, checked, r), r)
    ensures Checked(v, queue + [r], peers, checked + Takers(v, peers, checked, r))
  {
    var q := queue + [r];
    assert q[..|q| - 1] == queue;
    forall p | p in peers
      ensures First(v, queue, p).Some? ==>
                First(v, q, p) == First(v, queue, p) && q[First(v, q, p).value] == queue[First(v, queue, p).value]
      ensures First(v, queue, p).None? && Able(v, r, p) ==> First(v, q, p) == Some(|queue|) && q[|queue|] == r
      ensures First(v, queue, p).None? && !Able(v, r, p) ==> First(v, q, p) == None
    {}
    MatchSets(v, queue, r, peers, checked);
  }

  lemma MatchSets(v: View, queue: seq<Req>, r: Req, peers: set<Peer>, checked: set<Peer>)
    requires forall p :: p in checked <==> p in peers && First(v, queue, p).Some?
    requires forall p :: p in peers && First(v, queue, p).Some? ==>
               First(v, queue + [r], p).Some? && (queue + [r])[First(v, queue + [r], p).value] == queue[First(v, queue, p).value]
    requires forall p :: p in peers && First(v, queue, p).None? && Able(v, r, p) ==>
               First(v, queue + [r], p).Some? && (queue + [r])[First(v, queue + [r], p).value] == r
    requires forall p :: p in peers && First(v, queue, p).None? && !Able(v, r, p) ==> First(v, queue + [r], p) == None
    ensures Matches(v, queue + [r], peers) == Matches(v, queue, peers) + PairUp(Takers(v, peers, checked, r), r)
  {
    hide First;
    var a, b := Matches(v, queue, peers), PairUp(Takers(v, peers, checked, r), r);
    forall x | x in Matches(v, queue + [r], peers) ensures x in a + b {
      var p :| p in peers && First(v, queue + [r], p).Some? && x == (p, (queue + [r])[First(v, queue + [r], p).value]);
    }
    forall x | x in a + b ensures x in Matches(v, queue + [r], peers) {
      if x in a {
        var p :| p in peers && First(v, queue, p).Some? && x == (p, queue[First(v, queue, p).value]);
      }
    }
  }

  /** The length of the longest prefix no peer can serve. */
  function Unserved(v: View, queue: seq<Req>, peers: set<Peer>): (k: nat)
    ensures k <= |queue| && (forall i :: 0 <= i < k ==> !Served(v, queue[i], peers)) && (k < |queue| ==> Served(v, queue[k], peers))
  {
    if |queue| == 0 || Served(v, queue[0], peers) then 0 else 1 + Unserved(v, queue[1..], peers)
  }

  // ---------------------------------------------------------------- the best pair

  datatype Best = NoBest | Best(pair: (Peer, Req), wait: nat)

  function WaitOf(v: View, x: (Peer, Req)): nat { v.wait(x.1, x.0) }

  /** The pairs that can be sent at once are in the selection, and `best` waits least of the others. */
  ghost predicate Sorted(v: View, pairs: set<(Peer, Req)>, weights: map<(Peer, Req), nat>, best: Best) {
    && (forall x :: x in weights <==> x in pairs && WaitOf(v, x) == 0)
    && (forall x :: x in weights ==> weights[x] == v.buffer(x.1, x.0) + 1)
    && (best.NoBest? ==> forall x :: x in pairs ==> WaitOf(v, x) == 0)
    && (best.Best? ==>
          && best.pair in pairs && best.wait == WaitOf(v, best.pair) > 0
          && forall x :: x in pairs && WaitOf(v, x) > 0 ==> best.wait <= WaitOf(v, x))
  }

  lemma SortedAdd(v: View, pairs: set<(Peer, Req)>, weights: map<(Peer, Req), nat>, best: Best, x: (Peer, Req))
    requires Sorted(v, pairs, weights, best)
    ensures WaitOf(v, x) == 0 ==> Sorted(v, pairs + {x}, weights[x := v.buffer(x.1, x.0) + 1], best)
    ensures WaitOf(v, x) > 0 && (best.NoBest? || WaitOf(v, x) < best.wait) ==> Sorted(v, pairs + {x}, weights, Best(x, WaitOf(v, x)))
    ensures WaitOf(v, x) > 0 && best.Best? && WaitOf(v, x) >= best.wait ==> Sorted(v, pairs + {x}, weights, best)
  {}

  /** What nextRequest answers: a pair that can be sent at once if there is one, else one that waits least. */
  ghost predicate Answers(v: View, pairs: set<(Peer, Req)>, answer: Best) {
    && (answer.NoBest? <==> pairs == {})
    && (answer.Best? ==>
          && answer.pair in pairs && answer.wait == WaitOf(v, answer.pair)
          && forall x :: x in pairs ==> answer.wait <= WaitOf(v, x))
  }

  /** Request `i` is the first of the queue that the peer may be sent. */
  ghost predicate Earliest(v: View, queue: seq<Req>, p: Peer, i: nat) {
    i < |queue| && v.canSend(queue[i], p) && forall j :: 0 <= j < i ==> !v.canSend(queue[j], p)
  }

  /** The answer in terms of the peers and the queue: a peer that takes requests, with the first one it may be sent,
      such that no other such pair waits less; and none exactly if no peer takes a request it may be sent. */
  ghost predicate Serves(v: View, queue: seq<Req>, peers: set<Peer>, answer: Best) {
    && (answer.NoBest? <==> forall p, i :: p in peers && v.canQueue(p) && 0 <= i < |queue| ==> !v.canSend(queue[i], p))
    && (answer.Best? ==>
          && answer.pair.0 in peers && v.canQueue(answer.pair.0) && answer.wait == v.wait(answer.pair.1, answer.pair.0)
          && (exists i: nat :: Earliest(v, queue, answer.pair.0, i) && queue[i] == answer.pair.1)
          && (forall p, i: nat :: p in peers && v.canQueue(p) && Earliest(v, queue, p, i) ==> answer.wait <= v.wait(queue[i], p)))
  }

  lemma AnswersServe(v: View, queue: seq<Req>, peers: set<Peer>, answer: Best)
    requires Answers(v, Matches(v, queue, peers), answer)
    ensures Serves(v, queue, peers, answer)
  {
    forall p, i: nat | p in peers && v.canQueue(p) && Earliest(v, queue, p, i) ensures (p, queue[i]) in Matches(v, queue, peers) {
      assert Able(v, queue[i], p);
      assert First(v, queue, p) == Some(i);
    }
    if answer.Best? {
      var p := answer.pair.0;
      var i := First(v, queue, p).value;
      assert Earliest(v, queue, p, i) && queue[i] == answer.pair.1;
    }
    if p, i :| p in peers && v.canQueue(p) && 0 <= i < |queue| && v.canSend(queue[i], p) {
      assert First(v, queue, p).Some?;
      assert (p, queue[First(v, queue, p).value]) in Matches(v, queue, peers);
    }
  }

  // ---------------------------------------------------------------- the object

  class Requests {
    var queue: seq<Req>
    var orders: map<Req, nat>
    var last: nat
    var peers: set<Peer>

    ghost predicate Valid()
      reads this
    {
      Ordered(queue, orders) && Numbered(orders, last)
    }

    constructor ()
      ensures Valid() && queue == [] && peers == {}
    {
      queue, orders, last, peers := [], map[], 0, {};
    }

    /** queue: a new request goes to the back, a resent one to the place of its first creation.  One that is
        still queued is queued a second time, in front of itself. */
    method Queue(r: Req)
      requires Valid()
      modifies this`queue, this`orders, this`last
      ensures r !in old(queue) ==> Valid()
      ensures forall s :: s in queue <==> s == r || s in old(queue)
      ensures r in old(orders) ==> orders == old(orders) && last == old(last)
      ensures r !in old(orders) ==> orders == old(orders)[r := old(last) + 1] && queue == old(queue) + [r]
      ensures r in old(queue) ==> Doubled(old(queue), r, queue)
    {
      hide Ordered, Numbered;
      QueuedNumbered(queue, orders);
      if r !in orders {
        NewNumber(queue, orders, last, r);
        last := last + 1;
        orders := orders[r := last];
      } else if r !in queue {
        OtherNumbers(queue, orders, last, r);
      }
      queue := Place(queue, orders, r);
    }

    /** cancel, and the removal of a request that was sent. */
    method Cancel(r: Req) returns (found: bool)
      requires Valid()
      modifies this`queue
      ensures Valid() && found == (r in old(queue)) && forall s :: s in queue <==> s in old(queue) && s != r
    {
      WithoutOrdered(queue, orders, r);
      found := r in queue;
      queue := Without(queue, r);
    }

    /** nextRequest: closes exactly the longest prefix of the queue that no peer can serve, and answers with
        a peer and the earliest request that peer can serve. */
    method NextRequest(v: View, draw: nat -> nat, coin: nat -> nat) returns (answer: Best, closed: seq<Req>)
      requires Valid()
      modifies this`queue
      ensures Valid() && old(queue) == closed + queue
      ensures |closed| == Unserved(v, old(queue), peers)
      ensures Answers(v, Matches(v, old(queue), peers), answer) && Serves(v, old(queue), peers, answer)
    {
      hide Serves, Sorted, Answers, Matches, Unserved, Ordered, Numbered;
      var sel := new Select<(Peer, Req)>();
      var best, front := ScanQueue(v, sel, queue, peers);
      answer := Pick(v, sel, best, draw, coin, Matches(v, queue, peers));
      AnswersServe(v, queue, peers, answer);
      FrontGone(queue, orders, front);
      closed := queue[..front];
      queue := queue[front..];
    }
  }

  lemma QueuedNumbered(queue: seq<Req>, orders: map<Req, nat>)
    requires Ordered(queue, orders)
    ensures forall s :: s in queue ==> s in orders
  {}

  lemma OwnPlace(queue: seq<Req>, orders: map<Req, nat>, r: Req, k: nat)
    requires Ordered(queue, orders) && r in queue && k < |queue| && orders[queue[k]] >= orders[r]
    requires forall i :: 0 <= i < k ==> orders[queue[i]] < orders[r]
    ensures queue[k] == r
  {
    var i :| 0 <= i < |queue| && queue[i] == r;
    assert i >= k;
  }

  /** The request stands twice in a row where it stood once. */
  ghost predicate Doubled(queue: seq<Req>, r: Req, q: seq<Req>) {
    exists k :: 0 <= k < |queue| && queue[k] == r && q == queue[..k] + [r] + queue[k..]
  }

  /** The place of a request by its number. */
  method Place(queue: seq<Req>, orders: map<Req, nat>, r: Req) returns (q: seq<Req>)
    requires Ordered(queue, orders) && r in orders && (r in queue || Free(queue, orders, r))
    ensures forall s :: s in q <==> s == r || s in queue
    ensures Free(queue, orders, r) ==> Ordered(q, orders)
    ensures (forall s :: s in queue ==> orders[s] < orders[r]) ==> q == queue + [r]
    ensures r in queue ==> Doubled(queue, r, q)
  {
    if |queue| == 0 || orders[r] > orders[queue[|queue| - 1]] {
      assert queue[..|queue|] + [r] + queue[|queue|..] == queue + [r];
      InsertOrdered(queue, orders, r, |queue|);
      q := queue + [r];
    } else {
      var k := 0;
      while orders[queue[k]] < orders[r]
        invariant 0 <= k < |queue| && forall i :: 0 <= i < k ==> orders[queue[i]] < orders[r]
        decreases |queue| - k
      {
        k := k + 1;
      }
      InsertMembers(queue, r, k);
      if Free(queue, orders, r) { InsertOrdered(queue, orders, r, k); } else { OwnPlace(queue, orders, r, k); }
      q := queue[..k] + [r] + queue[k..];
      assert queue[|queue| - 1] in queue;
    }
  }

  /** The loop over the queue: `front` requests are closed, as long as nobody can serve the first. */
  method ScanQueue(v: View, sel: Select<(Peer, Req)>, queue: seq<Req>, peers: set<Peer>) returns (best: Best, front: nat)
    requires sel.Valid() && sel.Weights() == map[]
    modifies sel
    ensures sel.Valid() && Sorted(v, Matches(v, queue, peers), sel.Weights(), best)
    ensures front == Unserved(v, queue, peers)
  {
    hide Sorted, Matches, First, Able, Served, Unserved, Takers, PairUp;
    var checked: set<Peer> := {};
    best, front := NoBest, 0;
    var i := 0;
    MatchesNone(v, peers);
    NoneSorted(v);
    NoneChecked(v, peers);
    while i < |queue|
      invariant 0 <= i <= |queue| && sel.Valid()
      invariant front <= i && (front == i ==> checked == {})
      invariant Checked(v, queue[..i], peers, checked)
      invariant FrontOk(v, queue, peers, front, i)
      invariant Sorted(v, Matches(v, queue[..i], peers), sel.Weights(), best)
    {
      var r := queue[i];
      var takers := Takers(v, peers, checked, r);
      best := Ask(v, sel, r, takers, best, Matches(v, queue[..i], peers));
      assert queue[..i + 1] == queue[..i] + [r];
      MatchesNext(v, queue[..i], r, peers, checked);
      if front == i { TakersServe(v, peers, r); }
      checked := checked + takers;
      if takers == {} && front == i { front := front + 1; }
      i := i + 1;
    }
    assert queue[..|queue|] == queue;
    UnservedIs(v, queue, peers, front);
  }

  /** The peers matched so far. */
  ghost predicate Checked(v: View, queue: seq<Req>, peers: set<Peer>, checked: set<Peer>) {
    forall p :: p in checked <==> p in peers && First(v, queue, p).Some?
  }

  /** Nobody serves the closed requests; of those looked at, the first that stays is served. */
  ghost predicate FrontOk(v: View, queue: seq<Req>, peers: set<Peer>, front: nat, i: nat) {
    && front <= i <= |queue| && (forall k :: 0 <= k < front ==> !Served(v, queue[k], peers))
    && (front < i ==> Served(v, queue[front], peers))
  }

  /** The loop over the peers that can serve the request and have no earlier one: those that can take it at
      once enter the selection, of the others the one that waits least is remembered. */
  method Ask(v: View, sel: Select<(Peer, Req)>, r: Req, takers: set<Peer>, best0: Best, ghost pairs: set<(Peer, Req)>)
    returns (best: Best)
    requires sel.Valid() && Sorted(v, pairs, sel.Weights(), best0)
    modifies sel
    ensures sel.Valid() && Sorted(v, pairs + PairUp(takers, r), sel.Weights(), best)
  {
    hide Sorted, WithWeight, OneSlot, Indexed, Ok, Stored;
    best := best0;
    var todo := takers;
    ghost var seen := pairs;
    while todo != {}
      invariant todo <= takers && sel.Valid() && Sorted(v, seen, sel.Weights(), best)
      invariant seen == pairs + PairUp(takers - todo, r)
    {
      var p :| p in todo;
      SortedAdd(v, seen, sel.Weights(), best, (p, r));
      var wait := v.wait(r, p);
      if wait == 0 {
        Weighted(sel.Weights(), (p, r), v.buffer(r, p) + 1);
        sel.SetItem((p, r), v.buffer(r, p) + 1);
      } else if best.NoBest? || wait < best.wait {
        best := Best((p, r), wait);
      }
      seen := seen + {(p, r)};
      todo := todo - {p};
    }
    assert takers - todo == takers;
  }

  /** A pair that can be sent at once is drawn if there is one. */
  method Pick(v: View, sel: Select<(Peer, Req)>, best: Best, draw: nat -> nat, coin: nat -> nat, ghost pairs: set<(Peer, Req)>)
    returns (answer: Best)
    requires sel.Valid() && Sorted(v, pairs, sel.Weights(), best)
    modifies sel
    ensures Answers(v, pairs, answer)
  {
    ghost var weights := sel.Weights();
    var choice, rounds := sel.ChooseItem(draw, coin, (k, x) => PairWeight(v, x));
    answer := if choice.Some? then Best(choice.value, 0) else best;
  }

  function PairWeight(v: View, x: (Peer, Req)): nat { v.buffer(x.1, x.0) + 1 }

  lemma Weighted(weights: map<(Peer, Req), nat>, x: (Peer, Req), w: nat)
    requires w > 0
    ensures WithWeight(weights, x, w) == weights[x := w]
  {}

  lemma NoneSorted(v: View)
    ensures Sorted(v, {}, map[], NoBest)
  {}

  lemma NoneChecked(v: View, peers: set<Peer>)
    ensures Checked(v, [], peers, {})
  {}

  lemma TakersServe(v: View, peers: set<Peer>, r: Req)
    ensures Takers(v, peers, {}, r) == {} <==> !Served(v, r, peers)
  {
    if Served(v, r, peers) {
      var p :| p in peers && Able(v, r, p);
      assert p in Takers(v, peers, {}, r);
    }
  }

  lemma UnservedIs(v: View, queue: seq<Req>, peers: set<Peer>, k: nat)
    requires k <= |queue| && (forall i :: 0 <= i < k ==> !Served(v, queue[i], peers)) && (k < |queue| ==> Served(v, queue[k], peers))
    ensures Unserved(v, queue, peers) == k
  {
    var u := Unserved(v, queue, peers);
    assert !(u < k) && !(k < u);
  }
}
