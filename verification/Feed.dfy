/** The event feed (chain/event/feed.go): one sender at a time works through a case list in place
    while other goroutines subscribe and unsubscribe. */
module Feed {

  /** A select case: slot 0 receives unsubscriptions, the others send on a subscribed channel. */
  datatype Case = RemoveSub | Sub(ch: nat)

  // ---------------------------------------------------------------- case lists

  /** The first case with the given channel, -1 if there is none. */
  function Find(cs: seq<Case>, c: Case, from: nat := 0): (r: int)
    requires from <= |cs|
    ensures r == -1 <==> c !in cs[from..]
    ensures r != -1 ==> from <= r < |cs| && cs[r] == c && c !in cs[from..r]
    decreases |cs| - from
  {
    if from == |cs| then -1
    else if cs[from] == c then from
    else
      assert cs[from..] == [cs[from]] + cs[from + 1..];
      var r := Find(cs, c, from + 1);
      assert r != -1 ==> cs[from..r] == [cs[from]] + cs[from + 1..r];
      r
  }

  function DeleteAt(cs: seq<Case>, i: nat): seq<Case>
    requires i < |cs|
  {
    cs[..i] + cs[i + 1..]
  }

  /** `deactivate` on the first `n` cases: swap case `k` with the last of them. */
  function Swap(cs: seq<Case>, k: nat, n: nat): seq<Case>
    requires k < n <= |cs|
  {
    cs[k := cs[n - 1]][n - 1 := cs[k]]
  }

  method FindCase(cs: seq<Case>, c: Case) returns (r: int)
    ensures r == Find(cs, c)
  {
    r := 0;
    while r < |cs|
      invariant 0 <= r <= |cs|
      invariant Find(cs, c) == Find(cs, c, r)
    {
      if cs[r] == c { return; }
      r := r + 1;
    }
    r := -1;
  }

  lemma Without(a: seq<Case>, x: Case, b: seq<Case>)
    ensures multiset(a + [x] + b) - multiset{x} == multiset(a + b)
  {}

  lemma DeleteMultiset(cs: seq<Case>, i: nat)
    requires i < |cs|
    ensures multiset(DeleteAt(cs, i)) == multiset(cs) - multiset{cs[i]}
  {
    assert cs == cs[..i] + [cs[i]] + cs[i + 1..];
    Without(cs[..i], cs[i], cs[i + 1..]);
  }

  lemma SwapTail(cs: seq<Case>, k: nat, n: nat)
    requires 1 <= k < n <= |cs|
    ensures multiset(Swap(cs, k, n)[n - 1..]) == multiset(cs[n..]) + multiset{cs[k]}
  {
    assert Swap(cs, k, n)[n - 1..] == [cs[k]] + cs[n..];
  }

  lemma SwapPrefix(cs: seq<Case>, k: nat, n: nat)
    requires 1 <= k < n <= |cs|
    ensures multiset(Swap(cs, k, n)[1..n - 1]) == multiset(cs[1..n]) - multiset{cs[k]}
  {
    var s := Swap(cs, k, n);
    if k == n - 1 {
      assert cs[1..n] == s[1..n - 1] + [cs[k]] + [];
      Without(s[1..n - 1], cs[k], []);
      assert s[1..n - 1] + [] == s[1..n - 1];
    } else {
      SwapInner(cs, k, n);
      Without(cs[1..k], cs[k], cs[k + 1..n - 1] + [cs[n - 1]]);
      Without(cs[1..k], cs[n - 1], cs[k + 1..n - 1]);
    }
  }

  lemma SwapInner(cs: seq<Case>, k: nat, n: nat)
    requires 1 <= k < n - 1 && n <= |cs|
    ensures Swap(cs, k, n)[1..n - 1] == cs[1..k] + [cs[n - 1]] + cs[k + 1..n - 1]
    ensures cs[1..n] == cs[1..k] + [cs[k]] + (cs[k + 1..n - 1] + [cs[n - 1]])
    ensures multiset(cs[1..k] + [cs[n - 1]] + cs[k + 1..n - 1]) == multiset(cs[1..k] + (cs[k + 1..n - 1] + [cs[n - 1]]))
  {}

  // Deleting case `i` from the list and from the prefix of length `n` that may contain it.

  lemma DeleteInPrefix(cs: seq<Case>, i: nat, n: nat)
    requires 1 <= i < n <= |cs|
    ensures multiset(DeleteAt(cs, i)[1..n - 1]) == multiset(cs[1..n]) - multiset{cs[i]}
    ensures DeleteAt(cs, i)[n - 1..] == cs[n..]
  {
    assert DeleteAt(cs, i)[1..n - 1] == cs[1..i] + cs[i + 1..n];
    assert cs[1..n] == cs[1..i] + [cs[i]] + cs[i + 1..n];
    Without(cs[1..i], cs[i], cs[i + 1..n]);
  }

  lemma DeleteAfterPrefix(cs: seq<Case>, i: nat, n: nat)
    requires 1 <= n <= i < |cs|
    ensures DeleteAt(cs, i)[1..n] == cs[1..n]
    ensures multiset(DeleteAt(cs, i)[n..]) == multiset(cs[n..]) - multiset{cs[i]}
  {
    assert DeleteAt(cs, i)[n..] == cs[n..i] + cs[i + 1..];
    assert cs[n..] == cs[n..i] + [cs[i]] + cs[i + 1..];
    Without(cs[n..i], cs[i], cs[i + 1..]);
  }

  // ---------------------------------------------------------------- the protocol

  /** Where the sender stands; `n` is the length of `cases`, the undelivered prefix of sendCases. */
  datatype Phase = Idle | Trying(n: nat, i: nat) | Selecting(n: nat)

  datatype State = State(
    sendCases: seq<Case>, inbox: seq<Case>, phase: Phase, nsent: nat,
    live: multiset<Case>,       // subscriptions not yet cancelled
    leaving: multiset<Case>,    // cancelling goroutines that did not find their channel in the inbox
    present: multiset<Case>,    // subscriptions the running Send started with
    delivered: multiset<Case>,  // those that received the value
    dropped: multiset<Case>,    // those removed before receiving it
    gone: multiset<Case>)       // those removed after receiving it

  datatype Event =
    | Subscribe(ch: nat)
    | CancelInInbox(ch: nat)    // remove: found in the inbox
    | CancelWait(ch: nat)       // remove: not in the inbox, on to the select
    | CancelLocked(ch: nat)     // remove: got the send lock
    | SendStart
    | TrySend(ready: bool)
    | EndTry
    | SelectSend(k: nat)
    | SelectRemove(ch: nat)

  const INIT: State := State([RemoveSub], [], Idle, 0, multiset{}, multiset{}, multiset{}, multiset{}, multiset{}, multiset{})

  /** Can the event happen?  A cancel belongs to a live subscription nobody else is cancelling. */
  predicate Enabled(s: State, e: Event) {
    match e
    case Subscribe(_) => true
    case CancelInInbox(ch) => s.live[Sub(ch)] > s.leaving[Sub(ch)] && Sub(ch) in s.inbox
    case CancelWait(ch) => s.live[Sub(ch)] > s.leaving[Sub(ch)] && Sub(ch) !in s.inbox
    case CancelLocked(ch) => s.phase.Idle? && Sub(ch) in s.leaving
    case SendStart => s.phase.Idle?
    case TrySend(_) => s.phase.Trying? && s.phase.i < s.phase.n <= |s.sendCases|
    case EndTry => s.phase.Trying? && s.phase.i >= s.phase.n
    case SelectSend(k) => s.phase.Selecting? && 1 <= k < s.phase.n <= |s.sendCases|
    case SelectRemove(ch) => s.phase.Selecting? && Sub(ch) in s.leaving
  }

  /** Removing a cancelled channel from sendCases, in a Send (`n > 0`) or outside one.  Go would
      panic on a missing channel; then nothing is modelled to happen. */
  function RemoveCase(s: State, ch: nat, n: nat): State {
    var c := Sub(ch);
    var i := Find(s.sendCases, c);
    if i < 0 then s
    else
      var s1 := s.(sendCases := DeleteAt(s.sendCases, i), leaving := s.leaving - multiset{c}, live := s.live - multiset{c});
      if n == 0 then s1
      else if i < n then s1.(phase := Trying(n - 1, 1), dropped := s.dropped + multiset{c})
      else s1.(phase := Trying(n, 1), gone := s.gone + multiset{c})
  }

  function Deliver(s: State, k: nat, n: nat): State
    requires k < n <= |s.sendCases|
  {
    s.(sendCases := Swap(s.sendCases, k, n), nsent := s.nsent + 1, delivered := s.delivered + multiset{s.sendCases[k]})
  }

  function Step(s: State, e: Event): State
    requires Enabled(s, e)
  {
    match e
    case Subscribe(ch) => s.(inbox := s.inbox + [Sub(ch)], live := s.live + multiset{Sub(ch)})
    case CancelInInbox(ch) => s.(inbox := DeleteAt(s.inbox, Find(s.inbox, Sub(ch))), live := s.live - multiset{Sub(ch)})
    case CancelWait(ch) => s.(leaving := s.leaving + multiset{Sub(ch)})
    case CancelLocked(ch) => RemoveCase(s, ch, 0)
    case SendStart =>
      var cases := s.sendCases + s.inbox;
      s.(sendCases := cases, inbox := [], phase := Trying(|cases|, 1), nsent := 0,
         present := multiset(cases) - multiset{RemoveSub}, delivered := multiset{}, dropped := multiset{}, gone := multiset{})
    case TrySend(ready) =>
      var Trying(n, i) := s.phase;
      if ready then Deliver(s, i, n).(phase := Trying(n - 1, i)) else s.(phase := Trying(n, i + 1))
    case EndTry => s.(phase := if s.phase.n <= 1 then Idle else Selecting(s.phase.n))
    case SelectSend(k) => Deliver(s, k, s.phase.n).(phase := Trying(s.phase.n - 1, 1))
    case SelectRemove(ch) => RemoveCase(s, ch, s.phase.n)
  }

  // ---------------------------------------------------------------- the invariant

  ghost predicate Shaped(cs: seq<Case>) {
    |cs| >= 1 && cs[0] == RemoveSub && forall i :: 1 <= i < |cs| ==> cs[i].Sub?
  }

  /** What a running Send keeps: the prefix of length `n` holds exactly the undelivered
      subscriptions, the rest the delivered ones that are still subscribed. */
  ghost predicate Tally(cs: seq<Case>, n: nat, nsent: nat, present: multiset<Case>, delivered: multiset<Case>,
                        dropped: multiset<Case>, gone: multiset<Case>) {
    && 1 <= n <= |cs|
    && present == multiset(cs[1..n]) + delivered + dropped
    && delivered == multiset(cs[n..]) + gone
    && nsent == |delivered|
  }

  ghost predicate Books(s: State, n: nat) {
    Tally(s.sendCases, n, s.nsent, s.present, s.delivered, s.dropped, s.gone)
  }

  /** Who is subscribed, and that cancelling goroutines past the inbox are owed a case. */
  ghost predicate Owed(cs: seq<Case>, inbox: seq<Case>, live: multiset<Case>, leaving: multiset<Case>) {
    && |cs| >= 1
    && (forall i :: 0 <= i < |inbox| ==> inbox[i].Sub?)
    && live == multiset(cs[1..]) + multiset(inbox)
    && leaving <= multiset(cs[1..])
  }

  ghost predicate Inv(s: State) {
    && Shaped(s.sendCases)
    && Owed(s.sendCases, s.inbox, s.live, s.leaving)
    && match s.phase
       case Idle => true
       case Trying(n, i) => Books(s, n) && 1 <= i <= n
       case Selecting(n) => Books(s, n) && n >= 2
  }

  /** What is left in sendCases when a Send has ended. */
  ghost predicate Settled(s: State) {
    && |s.sendCases| >= 1
    && s.present == s.delivered + s.dropped
    && s.nsent == |s.delivered|
    && s.delivered == multiset(s.sendCases[1..]) + s.gone
  }

  lemma LeavingFound(s: State, c: Case)
    requires Inv(s) && c in s.leaving
    ensures Find(s.sendCases, c) >= 1 && s.sendCases[Find(s.sendCases, c)] == c
  {
    assert c in s.sendCases[1..];
    assert s.sendCases[0..] == s.sendCases;
  }

  lemma DeleteLength(cs: seq<Case>, i: nat)
    requires i < |cs|
    ensures |DeleteAt(cs, i)| == |cs| - 1
  {}

  lemma ShapedDelete(cs: seq<Case>, i: nat)
    requires Shaped(cs) && 1 <= i < |cs|
    ensures Shaped(DeleteAt(cs, i))
  {}

  /** Taking one cancelled channel out of the list keeps the books of who is subscribed. */
  lemma RemoveOwed(cs: seq<Case>, inbox: seq<Case>, live: multiset<Case>, leaving: multiset<Case>, i: nat)
    requires Owed(cs, inbox, live, leaving) && 1 <= i < |cs| && cs[i] in leaving
    ensures Owed(DeleteAt(cs, i), inbox, live - multiset{cs[i]}, leaving - multiset{cs[i]})
  {
    DeleteAfterPrefix(cs, i, 1);
    assert cs[1..][i - 1] == cs[i];
  }

  lemma RemoveTally(cs: seq<Case>, i: nat, n: nat, nsent: nat, present: multiset<Case>, delivered: multiset<Case>,
                    dropped: multiset<Case>, gone: multiset<Case>)
    requires Tally(cs, n, nsent, present, delivered, dropped, gone) && 1 <= i < |cs|
    ensures i < n ==> n >= 2 && Tally(DeleteAt(cs, i), n - 1, nsent, present, delivered, dropped + multiset{cs[i]}, gone)
    ensures i >= n ==> Tally(DeleteAt(cs, i), n, nsent, present, delivered, dropped, gone + multiset{cs[i]})
  {
    DeleteLength(cs, i);
    if i < n {
      DeleteInPrefix(cs, i, n);
      assert cs[1..n][i - 1] == cs[i];
    } else {
      DeleteAfterPrefix(cs, i, n);
      assert cs[n..][i - n] == cs[i];
    }
  }

  lemma RemoveKeeps(s: State, ch: nat, n: nat)
    requires Inv(s) && Sub(ch) in s.leaving
    requires (n == 0 && s.phase.Idle?) || (n >= 2 && s.phase == Selecting(n))
    ensures Find(s.sendCases, Sub(ch)) >= 1
    ensures Inv(RemoveCase(s, ch, n))
  {
    hide DeleteAt, Shaped, Find, Owed, Tally;
    LeavingFound(s, Sub(ch));
    var i := Find(s.sendCases, Sub(ch));
    if n == 0 { RemoveIdleKeeps(s, ch, i); } else { RemoveSelectKeeps(s, ch, n, i); }
  }

  lemma RemoveIdleKeeps(s: State, ch: nat, i: nat)
    requires Inv(s) && Sub(ch) in s.leaving && s.phase.Idle?
    requires i == Find(s.sendCases, Sub(ch)) && 1 <= i < |s.sendCases| && s.sendCases[i] == Sub(ch)
    ensures Inv(RemoveCase(s, ch, 0))
  {
    hide DeleteAt, Shaped, Find, Owed, Tally;
    ShapedDelete(s.sendCases, i);
    RemoveOwed(s.sendCases, s.inbox, s.live, s.leaving, i);
  }

  lemma RemoveSelectKeeps(s: State, ch: nat, n: nat, i: nat)
    requires Inv(s) && Sub(ch) in s.leaving && n >= 2 && s.phase == Selecting(n)
    requires i == Find(s.sendCases, Sub(ch)) && 1 <= i < |s.sendCases| && s.sendCases[i] == Sub(ch)
    ensures Inv(RemoveCase(s, ch, n))
  {
    hide DeleteAt, Shaped, Find, Owed, Tally;
    ShapedDelete(s.sendCases, i);
    RemoveOwed(s.sendCases, s.inbox, s.live, s.leaving, i);
    RemoveTally(s.sendCases, i, n, s.nsent, s.present, s.delivered, s.dropped, s.gone);
  }

  lemma SwapShaped(cs: seq<Case>, k: nat, n: nat)
    requires Shaped(cs) && 1 <= k < n <= |cs|
    ensures Shaped(Swap(cs, k, n))
  {}

  lemma SplitAt(cs: seq<Case>, n: nat)
    requires 1 <= n <= |cs|
    ensures multiset(cs[1..]) == multiset(cs[1..n]) + multiset(cs[n..])
  {
    assert cs[1..] == cs[1..n] + cs[n..];
  }

  lemma Exchange(a: multiset<Case>, b: multiset<Case>, x: Case)
    requires x in a
    ensures (a - multiset{x}) + (b + multiset{x}) == a + b
  {}

  lemma SwapWhole(cs: seq<Case>, k: nat, n: nat)
    requires 1 <= k < n <= |cs|
    ensures multiset(Swap(cs, k, n)[1..]) == multiset(cs[1..])
  {
    SwapLength(cs, k, n);
    SwapPrefix(cs, k, n);
    SwapTail(cs, k, n);
    assert cs[1..n][k - 1] == cs[k];
    hide Swap;
    SplitAt(Swap(cs, k, n), n - 1);
    SplitAt(cs, n);
    Exchange(multiset(cs[1..n]), multiset(cs[n..]), cs[k]);
  }

  lemma SwapOwed(cs: seq<Case>, inbox: seq<Case>, live: multiset<Case>, leaving: multiset<Case>, k: nat, n: nat)
    requires Owed(cs, inbox, live, leaving) && 1 <= k < n <= |cs|
    ensures Owed(Swap(cs, k, n), inbox, live, leaving)
  {
    SwapWhole(cs, k, n);
    hide Swap;
  }

  lemma SwapTally(cs: seq<Case>, k: nat, n: nat, nsent: nat, present: multiset<Case>, delivered: multiset<Case>,
                  dropped: multiset<Case>, gone: multiset<Case>)
    requires Tally(cs, n, nsent, present, delivered, dropped, gone) && 1 <= k < n
    ensures Tally(Swap(cs, k, n), n - 1, nsent + 1, present, delivered + multiset{cs[k]}, dropped, gone)
  {
    SwapPrefix(cs, k, n);
    SwapTail(cs, k, n);
    assert cs[1..n][k - 1] == cs[k];
  }

  lemma DeliverKeeps(s: State, k: nat, n: nat, phase: Phase)
    requires Inv(s) && Books(s, n) && 1 <= k < n <= |s.sendCases| && !s.phase.Idle?
    requires phase.Trying? && phase.n == n - 1 && 1 <= phase.i <= n - 1
    ensures Inv(Deliver(s, k, n).(phase := phase))
  {
    hide Shaped, Owed, Tally, Swap;
    SwapShaped(s.sendCases, k, n);
    SwapOwed(s.sendCases, s.inbox, s.live, s.leaving, k, n);
    SwapTally(s.sendCases, k, n, s.nsent, s.present, s.delivered, s.dropped, s.gone);
  }

  lemma StartPresent(cs: seq<Case>, inbox: seq<Case>)
    requires Shaped(cs)
    ensures multiset(cs + inbox) - multiset{RemoveSub} == multiset(cs[1..]) + multiset(inbox)
  {
    assert cs + inbox == [RemoveSub] + (cs[1..] + inbox);
  }

  lemma StartOwed(cs: seq<Case>, inbox: seq<Case>, live: multiset<Case>, leaving: multiset<Case>)
    requires Owed(cs, inbox, live, leaving)
    ensures Owed(cs + inbox, [], live, leaving)
  {
    assert (cs + inbox)[1..] == cs[1..] + inbox;
  }

  lemma StartTally(cs: seq<Case>, inbox: seq<Case>, present: multiset<Case>)
    requires |cs| >= 1
    requires present == multiset(cs[1..]) + multiset(inbox)
    ensures Tally(cs + inbox, |cs + inbox|, 0, present, multiset{}, multiset{}, multiset{})
  {
    var all := cs + inbox;
    assert all[1..|all|] == cs[1..] + inbox && all[|all|..] == [];
  }

  lemma StartShaped(cs: seq<Case>, inbox: seq<Case>)
    requires Shaped(cs) && forall i :: 0 <= i < |inbox| ==> inbox[i].Sub?
    ensures Shaped(cs + inbox)
  {}

  lemma StartKeeps(s: State)
    requires Inv(s) && s.phase.Idle?
    ensures Inv(Step(s, SendStart))
  {
    StartShaped(s.sendCases, s.inbox);
    StartPresent(s.sendCases, s.inbox);
    StartOwed(s.sendCases, s.inbox, s.live, s.leaving);
    StartTally(s.sendCases, s.inbox, multiset(s.sendCases[1..]) + multiset(s.inbox));
    hide Shaped, Owed, Tally;
  }

  lemma SubscribeOwed(cs: seq<Case>, inbox: seq<Case>, live: multiset<Case>, leaving: multiset<Case>, c: Case)
    requires Owed(cs, inbox, live, leaving) && c.Sub?
    ensures Owed(cs, inbox + [c], live + multiset{c}, leaving)
  {}

  lemma CancelOwed(cs: seq<Case>, inbox: seq<Case>, live: multiset<Case>, leaving: multiset<Case>, c: Case)
    requires Owed(cs, inbox, live, leaving) && c in inbox
    ensures Find(inbox, c) >= 0
    ensures Owed(cs, DeleteAt(inbox, Find(inbox, c)), live - multiset{c}, leaving)
  {
    assert inbox[0..] == inbox;
    DeleteMultiset(inbox, Find(inbox, c));
  }

  lemma WaitOwed(cs: seq<Case>, inbox: seq<Case>, live: multiset<Case>, leaving: multiset<Case>, c: Case)
    requires Owed(cs, inbox, live, leaving) && c !in inbox && live[c] > leaving[c]
    ensures Owed(cs, inbox, live, leaving + multiset{c})
  {}

  /** Every event keeps the invariant. */
  lemma StepKeeps(s: State, e: Event)
    requires Inv(s) && Enabled(s, e)
    ensures Inv(Step(s, e))
  {
    hide Shaped, Tally, Owed, RemoveCase, Deliver, DeleteAt, Find;
    match e
    case Subscribe(ch) => SubscribeOwed(s.sendCases, s.inbox, s.live, s.leaving, Sub(ch));
    case CancelInInbox(ch) => CancelOwed(s.sendCases, s.inbox, s.live, s.leaving, Sub(ch));
    case CancelWait(ch) => WaitOwed(s.sendCases, s.inbox, s.live, s.leaving, Sub(ch));
    case CancelLocked(ch) => RemoveKeeps(s, ch, 0);
    case SendStart => StartKeeps(s);
    case TrySend(ready) => if ready { DeliverKeeps(s, s.phase.i, s.phase.n, Trying(s.phase.n - 1, s.phase.i)); }
    case EndTry =>
    case SelectSend(k) => DeliverKeeps(s, k, s.phase.n, Trying(s.phase.n - 1, 1));
    case SelectRemove(ch) => RemoveKeeps(s, ch, s.phase.n);
  }

  ghost predicate Possible(s: State, es: seq<Event>)
    decreases |es|
  {
    es == [] || (Enabled(s, es[0]) && Possible(Step(s, es[0]), es[1..]))
  }

  ghost function Run(s: State, es: seq<Event>): State
    requires Possible(s, es)
    decreases |es|
  {
    if es == [] then s else Run(Step(s, es[0]), es[1..])
  }

  lemma {:induction false} RunKeeps(s: State, es: seq<Event>)
    requires Inv(s) && Possible(s, es)
    ensures Inv(Run(s, es))
    decreases |es|
  {
    if es != [] {
      StepKeeps(s, es[0]);
      RunKeeps(Step(s, es[0]), es[1..]);
    }
  }

  lemma EveryRun(es: seq<Event>)
    requires Possible(INIT, es)
    ensures Inv(Run(INIT, es))
  {
    RunKeeps(INIT, es);
  }

  /** In every reachable state a cancelling goroutine finds its channel in sendCases, never in slot 0:
      the deletion with index -1, which would panic, cannot happen. */
  lemma CancelFindsCase(es: seq<Event>, ch: nat)
    requires Possible(INIT, es) && Sub(ch) in Run(INIT, es).leaving
    ensures Find(Run(INIT, es).sendCases, Sub(ch)) >= 1
  {
    EveryRun(es);
    var s := Run(INIT, es);
    assert Sub(ch) in s.sendCases[1..];
    assert s.sendCases[0..] == s.sendCases;
  }

  /** When a Send ends, every subscription it started with has received the value exactly once or was
      removed before receiving it, the count is right, and exactly the removed ones are gone. */
  lemma SendSettles(es: seq<Event>)
    requires Possible(INIT, es) && Enabled(Run(INIT, es), EndTry) && Step(Run(INIT, es), EndTry).phase.Idle?
    ensures Settled(Step(Run(INIT, es), EndTry))
    ensures multiset(Run(INIT, es).sendCases) ==
            multiset{RemoveSub} + Run(INIT, es).present - Run(INIT, es).dropped - Run(INIT, es).gone
  {
    EveryRun(es);
    var s := Run(INIT, es);
    assert s.phase.n == 1;
    assert s.sendCases[1..1] == [];
    assert s.sendCases == [RemoveSub] + s.sendCases[1..];
  }

  /** The case of `SendSettles` that subscribers count on, written out: a channel subscribed once has one delivery
      or one removal before delivery, never both, never neither. */
  lemma ExactlyOnce(s: State, ch: nat)
    requires Settled(s) && s.present[Sub(ch)] == 1
    ensures s.delivered[Sub(ch)] + s.dropped[Sub(ch)] == 1
    ensures s.dropped[Sub(ch)] == 0 ==> s.delivered[Sub(ch)] == 1
  {}

  // ---------------------------------------------------------------- termination of a Send

  predicate SenderEvent(e: Event) { e.TrySend? || e.EndTry? || e.SelectSend? || e.SelectRemove? }

  /** Lexicographic measure: cases left, then the position in the inner loop. */
  function Cases(s: State): nat {
    match s.phase case Idle => 0 case Trying(n, _) => |s.sendCases| + n case Selecting(n) => |s.sendCases| + n
  }

  function Inner(s: State): int {
    match s.phase case Idle => 0 case Trying(n, i) => n - i + 2 case Selecting(_) => 1
  }

  /** Each step of the sender makes progress and no step of another goroutine undoes it. */
  lemma SendProgress(s: State, e: Event)
    requires Inv(s) && Enabled(s, e) && !s.phase.Idle?
    ensures Inner(s) >= 0
    ensures SenderEvent(e) ==> Cases(Step(s, e)) < Cases(s) || (Cases(Step(s, e)) == Cases(s) && Inner(Step(s, e)) < Inner(s))
    ensures !SenderEvent(e) ==> Cases(Step(s, e)) == Cases(s) && Inner(Step(s, e)) == Inner(s)
  {
    hide Find, DeleteAt, Shaped, Owed, Tally, Swap;
    PrefixFits(s);
    if e.SelectRemove? {
      LeavingFound(s, Sub(e.ch));
      DeleteLength(s.sendCases, Find(s.sendCases, Sub(e.ch)));
    } else if e.SelectSend? || e.TrySend? {
      var k := if e.SelectSend? then e.k else s.phase.i;
      assert |Swap(s.sendCases, k, s.phase.n)| == |s.sendCases| by { SwapLength(s.sendCases, k, s.phase.n); }
    }
  }

  /** Nobody is held up but by a channel that is not ready: the nonblocking pass can try every undelivered case and
      then ends, the select can take any undelivered case and any removal, a removal gets the free lock, and every
      live subscription nobody cancels can be cancelled. */
  lemma NobodyHeldUp(s: State, ch: nat, k: nat, ready: bool)
    requires Inv(s)
    ensures s.phase.Idle? ==> Enabled(s, SendStart) && (Sub(ch) in s.leaving ==> Enabled(s, CancelLocked(ch)))
    ensures s.phase.Trying? ==> if s.phase.i < s.phase.n then Enabled(s, TrySend(ready)) else Enabled(s, EndTry)
    ensures s.phase.Selecting? ==> s.phase.n > 1 && (1 <= k < s.phase.n ==> Enabled(s, SelectSend(k)))
    ensures s.phase.Selecting? && Sub(ch) in s.leaving ==> Enabled(s, SelectRemove(ch))
    ensures s.live[Sub(ch)] > s.leaving[Sub(ch)] ==> Enabled(s, CancelInInbox(ch)) || Enabled(s, CancelWait(ch))
  {
    if !s.phase.Idle? { PrefixFits(s); }
  }

  /** A channel that takes the value is delivered to and counted, one that is not ready is passed over. */
  lemma ReadyDelivered(s: State, e: Event)
    requires Inv(s) && Enabled(s, e) && (e.TrySend? || e.SelectSend?)
    ensures var k := if e.TrySend? then s.phase.i else e.k;
            && k < |s.sendCases| && s.sendCases[k].Sub?
            && if e.TrySend? && !e.ready then Step(s, e) == s.(phase := Trying(s.phase.n, k + 1))
               else Step(s, e).delivered == s.delivered + multiset{s.sendCases[k]} && Step(s, e).nsent == s.nsent + 1
  {
    hide Swap, Owed, Tally;
    PrefixFits(s);
  }

  lemma PrefixFits(s: State)
    requires Inv(s) && !s.phase.Idle?
    ensures 1 <= s.phase.n <= |s.sendCases|
  {}

  // ---------------------------------------------------------------- the implementation

  class Feed {
    var sendCases: seq<Case>
    var inbox: seq<Case>

    constructor ()
      ensures sendCases == [RemoveSub] && inbox == []
    {
      sendCases, inbox := [RemoveSub], [];
    }

    method Subscribe(ch: nat)
      modifies this`inbox
      ensures inbox == old(inbox) + [Sub(ch)]
    {
      inbox := inbox + [Sub(ch)];
    }

    /** The part of `remove` that needs no Send to finish: the inbox, or sendCases under the lock. */
    method Remove(ch: nat)
      requires Shaped(sendCases) && (Sub(ch) in inbox || Sub(ch) in sendCases)
      modifies this
      ensures Shaped(sendCases)
      ensures multiset(sendCases) + multiset(inbox) + multiset{Sub(ch)} == old(multiset(sendCases) + multiset(inbox))
      ensures Sub(ch) in old(inbox) ==> sendCases == old(sendCases)
      ensures Sub(ch) !in old(inbox) ==> inbox == old(inbox)
    {
      assert inbox[0..] == inbox && sendCases[0..] == sendCases;
      var index := FindCase(inbox, Sub(ch));
      if index != -1 {
        DeleteMultiset(inbox, index);
        inbox := DeleteAt(inbox, index);
        return;
      }
      index := FindCase(sendCases, Sub(ch));
      DeleteMultiset(sendCases, index);
      ShapedDelete(sendCases, index);
      sendCases := DeleteAt(sendCases, index);
    }

    /** The fast path of Send: try every undelivered channel once; any of them may be ready. */
    method TryAll(n0: nat, nsent0: nat, ghost present: multiset<Case>, ghost delivered0: multiset<Case>,
                  ghost dropped: multiset<Case>, ghost gone: multiset<Case>)
      returns (n: nat, nsent: nat, ghost delivered: multiset<Case>)
      requires Shaped(sendCases) && n0 <= |sendCases|
      requires Tally(sendCases, n0, nsent0, present, delivered0, dropped, gone)
      modifies this`sendCases
      ensures Shaped(sendCases) && |sendCases| == old(|sendCases|)
      ensures 1 <= n <= n0
      ensures Tally(sendCases, n, nsent, present, delivered, dropped, gone)
    {
      hide Shaped, Tally, Swap;
      n, nsent, delivered := n0, nsent0, delivered0;
      TallyBounds(sendCases, n0, nsent0, present, delivered0, dropped, gone);
      var i := 1;
      while i < n
        invariant Shaped(sendCases) && |sendCases| == old(|sendCases|)
        invariant 1 <= i <= n <= n0
        invariant Tally(sendCases, n, nsent, present, delivered, dropped, gone)
        decreases n - i
      {
        var ready: bool := *;
        if ready {
          SwapShaped(sendCases, i, n);
          SwapTally(sendCases, i, n, nsent, present, delivered, dropped, gone);
          SwapLength(sendCases, i, n);
          nsent, delivered := nsent + 1, delivered + multiset{sendCases[i]};
          sendCases := Swap(sendCases, i, n);
          n := n - 1;
        } else {
          i := i + 1;
        }
      }
    }

    /** The select of Send picks up a cancellation. */
    method TakeRemoval(n0: nat, nsent: nat, ghost present: multiset<Case>, ghost delivered: multiset<Case>,
                       ghost dropped0: multiset<Case>, ghost gone0: multiset<Case>)
      returns (n: nat, ghost dropped: multiset<Case>, ghost gone: multiset<Case>)
      requires Shaped(sendCases) && n0 > 1 && Tally(sendCases, n0, nsent, present, delivered, dropped0, gone0)
      modifies this`sendCases
      ensures Shaped(sendCases) && Tally(sendCases, n, nsent, present, delivered, dropped, gone)
      ensures |sendCases| < |old(sendCases)| && n <= n0
    {
      hide Shaped, Tally, DeleteAt, Find;
      TallyBounds(sendCases, n0, nsent, present, delivered, dropped0, gone0);
      SomeSub(sendCases);
      var c :| c in sendCases && c.Sub?;
      var index := FindCase(sendCases, c);
      FoundSub(sendCases, c);
      ShapedDelete(sendCases, index);
      DeleteLength(sendCases, index);
      RemoveTally(sendCases, index, n0, nsent, present, delivered, dropped0, gone0);
      sendCases := DeleteAt(sendCases, index);
      n, dropped, gone := n0, dropped0, gone0;
      if index < n0 {
        n, dropped := n0 - 1, dropped0 + multiset{c};
      } else {
        gone := gone0 + multiset{c};
      }
    }

    /** `Send` against any readiness of the channels and any cancellations it picks up: each
        subscription it starts with gets the value once, or is removed before it could. */
    method Send() returns (nsent: nat, ghost delivered: multiset<Case>, ghost dropped: multiset<Case>, ghost gone: multiset<Case>)
      requires Shaped(sendCases) && forall i :: 0 <= i < |inbox| ==> inbox[i].Sub?
      modifies this
      ensures Shaped(sendCases) && inbox == []
      ensures old(multiset(sendCases[1..]) + multiset(inbox)) == delivered + dropped
      ensures nsent == |delivered|
      ensures delivered == multiset(sendCases[1..]) + gone
    {
      ghost var present := multiset(sendCases[1..]) + multiset(inbox);
      delivered, dropped, gone := multiset{}, multiset{}, multiset{};
      nsent := 0;
      StartTally(sendCases, inbox, present);
      StartShaped(sendCases, inbox);
      sendCases := sendCases + inbox;
      inbox := [];
      var n := |sendCases|;
      hide Shaped, Tally, Swap;
      n, nsent, delivered := TryAll(n, nsent, present, delivered, dropped, gone);
      while n > 1
        invariant Shaped(sendCases) && inbox == [] && 1 <= n <= |sendCases|
        invariant Tally(sendCases, n, nsent, present, delivered, dropped, gone)
        decreases |sendCases| + n
      {
        var chosen: nat :| chosen < n;
        if chosen == 0 {
          n, dropped, gone := TakeRemoval(n, nsent, present, delivered, dropped, gone);
          TallyBounds(sendCases, n, nsent, present, delivered, dropped, gone);
        } else {
          SwapShaped(sendCases, chosen, n);
          SwapTally(sendCases, chosen, n, nsent, present, delivered, dropped, gone);
          SwapLength(sendCases, chosen, n);
          nsent, delivered := nsent + 1, delivered + multiset{sendCases[chosen]};
          sendCases := Swap(sendCases, chosen, n);
          n := n - 1;
        }
        n, nsent, delivered := TryAll(n, nsent, present, delivered, dropped, gone);
      }
      EndTally(sendCases, nsent, present, delivered, dropped, gone);
    }
  }

  lemma TallyBounds(cs: seq<Case>, n: nat, nsent: nat, present: multiset<Case>, delivered: multiset<Case>,
                    dropped: multiset<Case>, gone: multiset<Case>)
    requires Tally(cs, n, nsent, present, delivered, dropped, gone)
    ensures 1 <= n <= |cs|
  {}

  lemma EndTally(cs: seq<Case>, nsent: nat, present: multiset<Case>, delivered: multiset<Case>, dropped: multiset<Case>, gone: multiset<Case>)
    requires Tally(cs, 1, nsent, present, delivered, dropped, gone)
    ensures present == delivered + dropped && nsent == |delivered| && delivered == multiset(cs[1..]) + gone
  {
    assert cs[1..1] == [];
  }

  lemma SwapLength(cs: seq<Case>, k: nat, n: nat)
    requires k < n <= |cs|
    ensures |Swap(cs, k, n)| == |cs|
  {}

  lemma SomeSub(cs: seq<Case>)
    requires Shaped(cs) && |cs| >= 2
    ensures exists c :: c in cs && c.Sub?
  {
    assert cs[1] in cs;
  }

  lemma FoundSub(cs: seq<Case>, c: Case)
    requires Shaped(cs) && c in cs && c.Sub?
    ensures 1 <= Find(cs, c) < |cs| && cs[Find(cs, c)] == c
  {
    assert cs[0..] == cs;
  }
}
