/** Round-robin selection (src/lb/LoadBalancer.cpp): the order it visits healthy backends in, and its fairness. */
module Routing {
  import opened Collections

  /** The selection loop: up to `attempts` more indices are looked at, starting at `next`. */
  function PickFrom(healthy: seq<bool>, next: nat, attempts: nat): (r: (nat, nat))
    requires healthy != []
    ensures r.0 <= |healthy| && (r.0 < |healthy| ==> healthy[r.0])
    decreases attempts
  {
    if attempts == 0 then (|healthy|, next)
    else
      var index := next % |healthy|;
      var next' := (next + 1) % |healthy|;
      if healthy[index] then (index, next') else PickFrom(healthy, next', attempts - 1)
  }

  /** The index chosen (the number of backends when none is healthy) and the index to start from next time. */
  function Pick(healthy: seq<bool>, next: nat): (r: (nat, nat))
    ensures r.0 <= |healthy| && (r.0 < |healthy| ==> healthy[r.0])
  {
    if healthy == [] then (0, next) else PickFrom(healthy, next, |healthy|)
  }

  /** Going one step round a circle of `n` indices. */
  function After(next: nat, n: nat): nat { if next + 1 == n then 0 else next + 1 }

  lemma Wraps(next: nat, n: nat)
    requires next < n
    ensures next % n == next && (next + 1) % n == After(next, n)
  {
  }

  lemma {:induction false} PickFromStep(healthy: seq<bool>, next: nat, attempts: nat)
    requires next < |healthy| && attempts > 0
    ensures PickFrom(healthy, next, attempts)
         == if healthy[next] then (next, After(next, |healthy|)) else PickFrom(healthy, After(next, |healthy|), attempts - 1)
  {
    Wraps(next, |healthy|);
  }

  // ----- the cyclic order -----

  /** The healthy indices from `low` up to `high`, in order. */
  function Between(healthy: seq<bool>, low: nat, high: nat): (r: seq<nat>)
    requires low <= high <= |healthy|
    decreases high - low
  {
    if low == high then [] else (if healthy[low] then [low] else []) + Between(healthy, low + 1, high)
  }

  /** The healthy backends in the order they come up from `next` on. */
  function Order(healthy: seq<bool>, next: nat): seq<nat>
    requires next <= |healthy|
  {
    Between(healthy, next, |healthy|) + Between(healthy, 0, next)
  }

  /** The numbers rise along the sequence. */
  predicate Rising(s: seq<nat>) { forall a, b :: 0 <= a < b < |s| ==> s[a] < s[b] }

  lemma {:induction false} BetweenHolds(healthy: seq<bool>, low: nat, high: nat)
    requires low <= high <= |healthy|
    ensures forall i :: i in Between(healthy, low, high) <==> low <= i < high && healthy[i]
    decreases high - low
  {
    if low < high {
      BetweenHolds(healthy, low + 1, high);
    }
  }

  lemma RisingFrom(first: nat, rest: seq<nat>)
    requires Rising(rest) && forall i :: i in rest ==> first < i
    ensures Rising([first] + rest)
  {
    assert forall a :: 0 <= a < |rest| ==> rest[a] in rest;
  }

  lemma {:induction false} BetweenIs(healthy: seq<bool>, low: nat, high: nat)
    requires low <= high <= |healthy|
    ensures forall i :: i in Between(healthy, low, high) <==> low <= i < high && healthy[i]
    ensures Rising(Between(healthy, low, high))
    decreases high - low
  {
    hide Rising;
    BetweenHolds(healthy, low, high);
    if low < high {
      var rest := Between(healthy, low + 1, high);
      BetweenIs(healthy, low + 1, high);
      if healthy[low] { RisingFrom(low, rest); } else { assert Between(healthy, low, high) == rest; }
    } else {
      RisingNothing();
    }
  }

  lemma RisingNothing()
    ensures Rising([])
  {
  }

  lemma {:induction false} BetweenSplits(healthy: seq<bool>, low: nat, cut: nat, high: nat)
    requires low <= cut <= high <= |healthy|
    ensures Between(healthy, low, high) == Between(healthy, low, cut) + Between(healthy, cut, high)
    decreases cut - low
  {
    if low < cut {
      BetweenSplits(healthy, low + 1, cut, high);
    }
  }

  /** The order holds each healthy backend exactly once. */
  lemma OrderIsFair(healthy: seq<bool>, next: nat)
    requires next <= |healthy|
    ensures forall i :: i in Order(healthy, next) <==> 0 <= i < |healthy| && healthy[i]
    ensures Distinct(Order(healthy, next))
  {
    hide Between;
    BetweenIs(healthy, next, |healthy|);
    BetweenIs(healthy, 0, next);
    var f, b := Between(healthy, next, |healthy|), Between(healthy, 0, next);
    assert forall i :: 0 <= i < |f| ==> f[i] in f;
    assert forall i :: 0 <= i < |b| ==> b[i] in b;
  }

  /** An unhealthy backend is passed over. */
  lemma {:induction false} SkipSick(healthy: seq<bool>, next: nat)
    requires next < |healthy| && !healthy[next]
    ensures Order(healthy, After(next, |healthy|)) == Order(healthy, next)
  {
    var n := |healthy|;
    BetweenSplits(healthy, 0, next, next + 1);
    BetweenSplits(healthy, next, next + 1, n);
    OneBetween(healthy, next);
    hide Between;
    if next + 1 == n { Empty(healthy, n); Empty(healthy, 0); }
  }

  lemma OneBetween(healthy: seq<bool>, i: nat)
    requires i < |healthy|
    ensures Between(healthy, i, i + 1) == if healthy[i] then [i] else []
  {
    assert Between(healthy, i + 1, i + 1) == [];
  }

  lemma Empty(healthy: seq<bool>, i: nat)
    requires i <= |healthy|
    ensures Between(healthy, i, i) == []
  {
  }

  /** A healthy backend is at the head of the order when its turn comes, and at its end afterwards. */
  lemma {:induction false} HeadRotates(healthy: seq<bool>, next: nat)
    requires next < |healthy| && healthy[next]
    ensures Order(healthy, next) != [] && Order(healthy, next)[0] == next
    ensures Order(healthy, After(next, |healthy|)) == Rotated(Order(healthy, next))
  {
    var n := |healthy|;
    BetweenSplits(healthy, 0, next, next + 1);
    BetweenSplits(healthy, next, next + 1, n);
    OneBetween(healthy, next);
    hide Between;
    if next + 1 == n { Empty(healthy, n); Empty(healthy, 0); }
    assert Order(healthy, next) == [next] + (Between(healthy, next + 1, n) + Between(healthy, 0, next));
  }

  function Rotated(o: seq<nat>): seq<nat>
    requires o != []
  {
    o[1..] + [o[0]]
  }

  /** How many steps ahead of `next` the index `i` is, going round. */
  function Ahead(n: nat, next: nat, i: nat): nat
    requires next < n && i < n
  {
    if i >= next then i - next else n - next + i
  }

  /** One selection takes the head of the order and moves it to the end. */
  lemma {:induction false} PickTakesHead(healthy: seq<bool>, next: nat, attempts: nat)
    requires next < |healthy| && Order(healthy, next) != []
    requires forall i :: 0 <= i < |healthy| && healthy[i] ==> Ahead(|healthy|, next, i) < attempts
    ensures var (index, next') := PickFrom(healthy, next, attempts);
            index == Order(healthy, next)[0] && next' < |healthy| && Order(healthy, next') == Rotated(Order(healthy, next))
    decreases attempts
  {
    hide Order, PickFrom, Rotated;
    var n := |healthy|;
    OrderIsFair(healthy, next);
    assert Order(healthy, next)[0] in Order(healthy, next);
    assert attempts > 0;
    PickFromStep(healthy, next, attempts);
    if healthy[next] {
      HeadRotates(healthy, next);
    } else {
      SkipSick(healthy, next);
      forall i | 0 <= i < n && healthy[i] ensures Ahead(n, After(next, n), i) < attempts - 1 {
        assert Ahead(n, next, i) < attempts;
      }
      PickTakesHead(healthy, After(next, n), attempts - 1);
    }
  }

  /** A selection takes the head of the order, and none is made exactly when there is no healthy backend. */
  lemma PickIs(healthy: seq<bool>, next: nat)
    requires next < |healthy| && Order(healthy, next) != []
    ensures var (index, next') := Pick(healthy, next);
            index == Order(healthy, next)[0] && next' < |healthy| && Order(healthy, next') == Rotated(Order(healthy, next))
  {
    hide Order, PickFrom, Rotated;
    PickTakesHead(healthy, next, |healthy|);
  }

  /** A selection fails only when no backend is healthy. */
  lemma PickFailsExactly(healthy: seq<bool>, next: nat)
    requires healthy != [] && next < |healthy|
    ensures Pick(healthy, next).0 == |healthy| <==> forall i :: 0 <= i < |healthy| ==> !healthy[i]
  {
    hide PickFrom, Order, Rotated;
    OrderIsFair(healthy, next);
    if i :| 0 <= i < |healthy| && healthy[i] {
      assert i in Order(healthy, next);
      PickIs(healthy, next);
      assert Order(healthy, next)[0] in Order(healthy, next);
    }
  }

  /** A selection from a good index leaves a good index, and fails only when no backend is healthy. */
  lemma PickStays(healthy: seq<bool>, next: nat)
    requires next < |healthy|
    ensures Pick(healthy, next).1 < |healthy|
    ensures Pick(healthy, next).0 == |healthy| <==> true !in healthy
  {
    hide Order, PickFrom, Rotated;
    PickFailsExactly(healthy, next);
    PickFromStays(healthy, next, |healthy|);
  }

  lemma {:induction false} PickFromStays(healthy: seq<bool>, next: nat, attempts: nat)
    requires next < |healthy|
    ensures PickFrom(healthy, next, attempts).1 < |healthy|
    decreases attempts
  {
    if attempts > 0 {
      PickFromStep(healthy, next, attempts);
      PickFromStays(healthy, After(next, |healthy|), attempts - 1);
    }
  }

  // ----- many selections -----

  /** The outcomes of `count` selections in a row while no backend changes its health. */
  function Picks(healthy: seq<bool>, next: nat, count: nat): seq<nat>
    decreases count
  {
    if count == 0 then []
    else
      var (index, next') := Pick(healthy, next);
      [index] + Picks(healthy, next', count - 1)
  }

  /** Taking the head of an order `count` times, each time moving it to the end. */
  function Cycle(o: seq<nat>, count: nat): seq<nat>
    requires o != []
    decreases count
  {
    if count == 0 then [] else [o[0]] + Cycle(Rotated(o), count - 1)
  }

  /** Selections go round the order for ever. */
  lemma {:induction false} PicksGoRound(healthy: seq<bool>, next: nat, count: nat)
    requires next < |healthy| && Order(healthy, next) != []
    ensures Picks(healthy, next, count) == Cycle(Order(healthy, next), count)
    decreases count
  {
    hide Order, Pick;
    if count > 0 {
      PickIs(healthy, next);
      PicksGoRound(healthy, Pick(healthy, next).1, count - 1);
    }
  }

  lemma {:induction false} OneRound(a: seq<nat>, b: seq<nat>)
    requires a + b != []
    ensures Cycle(a + b, |a|) == a
  {
    if a != [] {
      assert Rotated(a + b) == a[1..] + (b + [a[0]]);
      OneRound(a[1..], b + [a[0]]);
    }
  }

  /** With h healthy backends, any h selections in a row choose each of them exactly once. */
  lemma EachOnce(healthy: seq<bool>, next: nat)
    requires next < |healthy| && Order(healthy, next) != []
    ensures var picks := Picks(healthy, next, |Order(healthy, next)|);
            (forall i :: i in picks <==> 0 <= i < |healthy| && healthy[i]) && Distinct(picks)
  {
    hide Order, Picks, Cycle;
    var o := Order(healthy, next);
    PicksGoRound(healthy, next, |o|);
    OrderIsFair(healthy, next);
    OneRound(o, []);
    assert o + [] == o;
  }

  function Times(i: nat, picks: seq<nat>): nat {
    if picks == [] then 0 else (if picks[0] == i then 1 else 0) + Times(i, picks[1..])
  }

  /** Of two backends the one that comes up first is never behind and never more than one ahead. */
  lemma {:induction false} FirstLeads(o: seq<nat>, count: nat, i: nat, j: nat)
    requires i < j < |o| && Distinct(o)
    ensures Times(o[j], Cycle(o, count)) <= Times(o[i], Cycle(o, count)) <= Times(o[j], Cycle(o, count)) + 1
    decreases count
  {
    if count > 0 {
      var r, rest := Rotated(o), Cycle(Rotated(o), count - 1);
      assert Cycle(o, count) == [o[0]] + rest && ([o[0]] + rest)[1..] == rest;
      if i == 0 { FirstLeads(r, count - 1, j - 1, |o| - 1); } else { FirstLeads(r, count - 1, i - 1, j - 1); }
    }
  }

  /** Over any number of selections the counts of two healthy backends differ by at most one. */
  lemma CountsStayClose(healthy: seq<bool>, next: nat, count: nat, a: nat, b: nat)
    requires next < |healthy| && a < |healthy| && b < |healthy| && healthy[a] && healthy[b]
    ensures Times(a, Picks(healthy, next, count)) <= Times(b, Picks(healthy, next, count)) + 1
  {
    hide Order, Picks, Times, Cycle;
    OrderIsFair(healthy, next);
    var o := Order(healthy, next);
    assert a in o && b in o;
    var i :| 0 <= i < |o| && o[i] == a;
    var j :| 0 <= j < |o| && o[j] == b;
    PicksGoRound(healthy, next, count);
    if i < j { FirstLeads(o, count, i, j); } else if j < i { FirstLeads(o, count, j, i); }
  }
}
