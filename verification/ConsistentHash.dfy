/** The hash ring (src/lb/ConsistentHash.cpp) against its specification: the nearest usable node clockwise. */
module ConsistentHash {
  import opened Text
  import Fnv

  const VIRTUAL_NODES_PER_BACKEND: nat := 128
  const CIRCLE: nat := 0x1_0000_0000_0000_0000

  datatype Node = Node(hash: nat, owner: nat)

  // ----- keys and positions -----

  function Decimal(n: nat): string {
    if n < 10 then [('0' as int + n) as char] else Decimal(n / 10) + [('0' as int + n % 10) as char]
  }

  /** `std::to_string` of an int. */
  function Signed(n: int): string { if n < 0 then "-" + Decimal(-n) else Decimal(n) }

  function BackendKey(host: string, port: int): string { host + ":" + Signed(port) }

  function VirtualKey(key: string, virtualNode: nat): string { key + "#" + Decimal(virtualNode) }

  function Bytes(s: string): seq<bv8> { seq(|s|, i requires 0 <= i < |s| => (s[i] as int % 256) as bv8) }

  function Position(key: string): (r: nat)
    ensures r < CIRCLE
  {
    Fnv.Fold(Fnv.OFFSET, Bytes(key)) as nat
  }

  method HashOf(key: string) returns (position: nat)
    ensures position == Position(key)
  {
    var value := Fnv.Hash(Bytes(key));
    position := value as nat;
  }

  // ----- which backend owns a position: the specification of `build` -----

  /** Backend `key` places one of its first `limit` virtual nodes at position `x`. */
  predicate Claims(key: string, limit: nat, x: nat) {
    exists v: nat :: v < limit && Position(VirtualKey(key, v)) == x
  }

  /** The first backend in the list with a node at `x`. */
  function Owner(keys: seq<string>, x: nat): (r: Option<nat>)
    ensures r.Some? ==> r.value < |keys|
  {
    if keys == [] then None
    else
      var first := Owner(keys[..|keys| - 1], x);
      if first.Some? then first
      else if Claims(keys[|keys| - 1], VIRTUAL_NODES_PER_BACKEND, x) then Some(|keys| - 1)
      else None
  }

  /** `Owner` is the least index of a backend that claims the position. */
  lemma {:induction false} OwnerIsFirst(keys: seq<string>, x: nat)
    ensures Owner(keys, x).None? <==> forall i :: 0 <= i < |keys| ==> !Claims(keys[i], VIRTUAL_NODES_PER_BACKEND, x)
    ensures Owner(keys, x).Some? ==>
              var o := Owner(keys, x).value;
              Claims(keys[o], VIRTUAL_NODES_PER_BACKEND, x) && forall i :: 0 <= i < o ==> !Claims(keys[i], VIRTUAL_NODES_PER_BACKEND, x)
  {
    hide Claims;
    if keys != [] {
      OwnerIsFirst(keys[..|keys| - 1], x);
    }
  }

  /** A backend appended to the list only adds positions that nobody owned. */
  lemma OwnersStay(keys: seq<string>, key: string, x: nat)
    ensures Owner(keys, x).Some? ==> Owner(keys + [key], x) == Owner(keys, x)
    ensures Owner(keys, x).None? ==> Owner(keys + [key], x).None? || Owner(keys + [key], x) == Some(|keys|)
  {
    assert (keys + [key])[..|keys|] == keys;
  }

  // ----- which backend a position is routed to: the specification of `getBackend` -----

  /** How far `x` is from `from`, going clockwise round the circle. */
  function Distance(from: nat, x: nat): nat
    requires from < CIRCLE && x < CIRCLE
  {
    if x >= from then x - from else x + CIRCLE - from
  }

  lemma DistanceTells(from: nat, x: nat, y: nat)
    requires from < CIRCLE && x < CIRCLE && y < CIRCLE && Distance(from, x) == Distance(from, y)
    ensures x == y
  {
  }

  /** A node stands at `x` and its backend is healthy. */
  predicate Usable(keys: seq<string>, healthy: seq<bool>, x: nat) {
    x < CIRCLE && Owner(keys, x).Some? && Owner(keys, x).value < |healthy| && healthy[Owner(keys, x).value]
  }

  /** `x` is the nearest usable position clockwise from `from`. */
  ghost predicate Nearest(keys: seq<string>, healthy: seq<bool>, from: nat, x: nat)
    requires from < CIRCLE
  {
    Usable(keys, healthy, x) && forall y: nat | Usable(keys, healthy, y) :: Distance(from, x) <= Distance(from, y)
  }

  /** The answer `r` to a lookup is the owner of the nearest usable position, and none exactly when there is none. */
  ghost predicate Routes(keys: seq<string>, healthy: seq<bool>, from: nat, r: Option<nat>)
    requires from < CIRCLE
  {
    && (r.None? ==> forall x: nat :: !Usable(keys, healthy, x))
    && (r.Some? ==> exists x: nat :: Nearest(keys, healthy, from, x) && Owner(keys, x) == r)
  }

  /** There is only one right answer. */
  lemma RoutesIsFunctional(keys: seq<string>, healthy: seq<bool>, from: nat, r: Option<nat>, r': Option<nat>)
    requires from < CIRCLE && Routes(keys, healthy, from, r) && Routes(keys, healthy, from, r')
    ensures r == r'
  {
    hide Owner, Distance;
    if r.Some? && r'.Some? {
      var x: nat :| Nearest(keys, healthy, from, x) && Owner(keys, x) == r;
      var y: nat :| Nearest(keys, healthy, from, y) && Owner(keys, y) == r';
      DistanceTells(from, x, y);
    }
  }

  /** No backend is healthy: nothing is routed anywhere. */
  lemma NowhereToRoute(keys: seq<string>, healthy: seq<bool>, from: nat)
    requires from < CIRCLE && true !in healthy
    ensures Routes(keys, healthy, from, None)
  {
    hide Owner, Distance;
  }

  /** A key keeps its backend when others become unhealthy. */
  lemma StaysWithItsBackend(keys: seq<string>, healthy: seq<bool>, healthy': seq<bool>, from: nat, r: Option<nat>)
    requires from < CIRCLE && Routes(keys, healthy, from, r) && |healthy'| == |healthy|
    requires forall i :: 0 <= i < |healthy| && healthy'[i] ==> healthy[i]
    requires r.Some? && r.value < |healthy'| && healthy'[r.value]
    ensures Routes(keys, healthy', from, r)
  {
    hide Owner, Distance;
    var x: nat :| Nearest(keys, healthy, from, x) && Owner(keys, x) == r;
    forall y: nat | Usable(keys, healthy', y) ensures Distance(from, x) <= Distance(from, y) {
      assert Usable(keys, healthy, y);
    }
    assert Nearest(keys, healthy', from, x);
  }

  /** When one backend recovers, a key keeps its backend or moves to the one that recovered. */
  lemma MovesOnlyToTheRecovered(keys: seq<string>, healthy: seq<bool>, b: nat, from: nat, r: Option<nat>, r': Option<nat>)
    requires from < CIRCLE && b < |healthy| && Routes(keys, healthy, from, r) && Routes(keys, healthy[b := true], from, r')
    ensures r' == r || r' == Some(b)
  {
    hide Owner, Distance;
    forall x: nat | Usable(keys, healthy, x) ensures Usable(keys, healthy[b := true], x) {
    }
    if r'.Some? && r'.value != b {
      var x: nat :| Nearest(keys, healthy[b := true], from, x) && Owner(keys, x) == r';
      StaysWithItsBackend(keys, healthy[b := true], healthy, from, r');
      RoutesIsFunctional(keys, healthy, from, r, r');
    }
  }

  /** When a backend is appended to the pool, a key keeps its backend or moves to the new one. */
  lemma MovesOnlyToTheNew(keys: seq<string>, key: string, healthy: seq<bool>, up: bool, from: nat, r: Option<nat>, r': Option<nat>)
    requires from < CIRCLE && |healthy| == |keys|
    requires Routes(keys, healthy, from, r) && Routes(keys + [key], healthy + [up], from, r')
    ensures r' == r || r' == Some(|keys|)
  {
    hide Owner, Distance;
    forall x: nat | Usable(keys, healthy, x) ensures Usable(keys + [key], healthy + [up], x) && Owner(keys + [key], x) == Owner(keys, x) {
      OwnersStay(keys, key, x);
    }
    if r'.Some? && r'.value != |keys| {
      var x: nat :| Nearest(keys + [key], healthy + [up], from, x) && Owner(keys + [key], x) == r';
      OwnersStay(keys, key, x);
      assert Nearest(keys, healthy, from, x);
      RoutesIsFunctional(keys, healthy, from, r, r');
    }
  }

  // ----- the ring: an ordered map from positions to backends -----

  predicate Ordered(ring: seq<Node>) {
    && (forall a, b :: 0 <= a < b < |ring| ==> ring[a].hash < ring[b].hash)
    && (forall a :: 0 <= a < |ring| ==> ring[a].hash < CIRCLE)
  }

  /** The first node at or after `h`. */
  function LowerBound(ring: seq<Node>, h: nat): (r: nat)
    ensures r <= |ring|
  {
    if ring == [] || ring[0].hash >= h then 0 else 1 + LowerBound(ring[1..], h)
  }

  lemma {:induction false} LowerBoundIs(ring: seq<Node>, h: nat)
    requires Ordered(ring)
    ensures forall a :: 0 <= a < |ring| ==> (ring[a].hash < h <==> a < LowerBound(ring, h))
  {
    if ring != [] && ring[0].hash < h {
      LowerBoundIs(ring[1..], h);
      forall a | 0 < a < |ring| ensures ring[a].hash < h <==> a < LowerBound(ring, h) {
        assert ring[a] == ring[1..][a - 1];
      }
    }
  }

  /** Inserts unless the position is taken. */
  function Emplaced(ring: seq<Node>, node: Node): seq<Node> {
    var i := LowerBound(ring, node.hash);
    if i < |ring| && ring[i].hash == node.hash then ring else ring[..i] + [node] + ring[i..]
  }

  lemma EmplacedIs(ring: seq<Node>, node: Node)
    requires Ordered(ring) && node.hash < CIRCLE
    ensures Ordered(Emplaced(ring, node))
    ensures forall m :: m in Emplaced(ring, node) <==> m in ring || (m == node && forall a :: 0 <= a < |ring| ==> ring[a].hash != node.hash)
  {
    hide LowerBound;
    LowerBoundIs(ring, node.hash);
    var i, ring' := LowerBound(ring, node.hash), Emplaced(ring, node);
    if i < |ring| && ring[i].hash == node.hash {
    } else {
      forall a | 0 <= a < |ring| ensures ring[a].hash != node.hash && ring[a] in ring' {
        assert ring[a] == if a < i then ring'[a] else ring'[a + 1];
      }
      assert ring'[i] == node;
    }
  }

  /** The ring holds a node at every owned position, with its owner, and nothing else. */
  ghost predicate RingIs(ring: seq<Node>, owner: nat -> Option<nat>) {
    Ordered(ring) && forall x: nat, o: nat :: Node(x, o) in ring <==> (x < CIRCLE && owner(x) == Some(o))
  }

  /** Owners while backend |keys| has inserted its first `limit` virtual nodes. */
  function OwnerSoFar(keys: seq<string>, key: string, limit: nat): nat -> Option<nat> {
    (x: nat) => if Owner(keys, x).Some? then Owner(keys, x) else if Claims(key, limit, x) then Some(|keys|) else None
  }

  function OwnerOf(keys: seq<string>): nat -> Option<nat> { (x: nat) => Owner(keys, x) }

  lemma StartBackend(ring: seq<Node>, keys: seq<string>, key: string)
    requires RingIs(ring, OwnerOf(keys))
    ensures RingIs(ring, OwnerSoFar(keys, key, 0))
  {
    hide Owner, Position, VirtualKey;
    forall x: nat ensures OwnerSoFar(keys, key, 0)(x) == OwnerOf(keys)(x) {
    }
  }

  lemma OneMoreNode(ring: seq<Node>, keys: seq<string>, key: string, v: nat)
    requires RingIs(ring, OwnerSoFar(keys, key, v))
    ensures RingIs(Emplaced(ring, Node(Position(VirtualKey(key, v)), |keys|)), OwnerSoFar(keys, key, v + 1))
  {
    hide Owner, Position, VirtualKey, Emplaced, Claims;
    var h := Position(VirtualKey(key, v));
    var node := Node(h, |keys|);
    EmplacedIs(ring, node);
    var ring' := Emplaced(ring, node);
    forall x: nat, o: nat ensures Node(x, o) in ring' <==> (x < CIRCLE && OwnerSoFar(keys, key, v + 1)(x) == Some(o)) {
      ClaimsStep(key, v, x);
      if x == h && OwnerSoFar(keys, key, v)(x).Some? {
        assert Node(x, OwnerSoFar(keys, key, v)(x).value) in ring;
      }
      if x == h && OwnerSoFar(keys, key, v)(x).None? {
        forall a | 0 <= a < |ring| ensures ring[a].hash != h {
          assert Node(ring[a].hash, ring[a].owner) in ring;
        }
      }
    }
  }

  lemma ClaimsStep(key: string, v: nat, x: nat)
    ensures Claims(key, v + 1, x) <==> Claims(key, v, x) || x == Position(VirtualKey(key, v))
  {
    hide Position, VirtualKey;
    if Claims(key, v, x) {
      var w: nat :| w < v && Position(VirtualKey(key, w)) == x;
      assert w < v + 1;
    }
  }

  lemma EndBackend(ring: seq<Node>, keys: seq<string>, key: string)
    requires RingIs(ring, OwnerSoFar(keys, key, VIRTUAL_NODES_PER_BACKEND))
    ensures RingIs(ring, OwnerOf(keys + [key]))
  {
    hide Position, VirtualKey, Claims;
    assert (keys + [key])[..|keys|] == keys;
    forall x: nat ensures OwnerSoFar(keys, key, VIRTUAL_NODES_PER_BACKEND)(x) == OwnerOf(keys + [key])(x) {
    }
  }

  // ----- the walk -----

  /** The index `n` steps after `start`, wrapping at the end. */
  function At(start: nat, n: nat, size: nat): nat
    requires start < size && n < size
  {
    if start + n < size then start + n else start + n - size
  }

  /** Where the walk starts. */
  function Start(ring: seq<Node>, h: nat): (r: nat)
    requires ring != []
    ensures r < |ring|
  {
    if LowerBound(ring, h) == |ring| then 0 else LowerBound(ring, h)
  }

  /** The walk meets the nodes in the order of their distance. */
  lemma WalkIsClockwise(ring: seq<Node>, h: nat, m: nat, n: nat)
    requires Ordered(ring) && h < CIRCLE && m < n < |ring|
    ensures var s := Start(ring, h);
            Distance(h, ring[At(s, m, |ring|)].hash) < Distance(h, ring[At(s, n, |ring|)].hash)
  {
    hide LowerBound;
    LowerBoundIs(ring, h);
    var s := Start(ring, h);
    var a, b := At(s, m, |ring|), At(s, n, |ring|);
    assert ring[a].hash < CIRCLE && ring[b].hash < CIRCLE;
    assert a < b ==> ring[a].hash < ring[b].hash;
    assert b < a ==> ring[b].hash < ring[a].hash;
  }

  predicate Up(healthy: seq<bool>, owner: nat) { owner < |healthy| && healthy[owner] }

  /** The first usable node of the walk is the nearest one. */
  lemma FirstFoundIsNearest(ring: seq<Node>, keys: seq<string>, healthy: seq<bool>, h: nat, n: nat)
    requires RingIs(ring, OwnerOf(keys)) && h < CIRCLE && n < |ring|
    requires var s := Start(ring, h);
             Up(healthy, ring[At(s, n, |ring|)].owner) && forall m :: 0 <= m < n ==> !Up(healthy, ring[At(s, m, |ring|)].owner)
    ensures Routes(keys, healthy, h, Some(ring[At(Start(ring, h), n, |ring|)].owner))
  {
    hide Owner, Start, Distance;
    var s := Start(ring, h);
    var node := ring[At(s, n, |ring|)];
    assert Node(node.hash, node.owner) in ring && OwnerOf(keys)(node.hash) == Some(node.owner);
    forall y: nat | Usable(keys, healthy, y) ensures Distance(h, node.hash) <= Distance(h, y) {
      assert OwnerOf(keys)(y) == Owner(keys, y);
      var other := Node(y, Owner(keys, y).value);
      assert other in ring;
      var k :| 0 <= k < |ring| && ring[k] == other;
      var m := Back(s, k, |ring|);
      if m > n { WalkIsClockwise(ring, h, n, m); }
    }
    assert Nearest(keys, healthy, h, node.hash) && Owner(keys, node.hash) == Some(node.owner);
  }

  /** How many steps lead to index `k`. */
  function Back(start: nat, k: nat, size: nat): (n: nat)
    requires start < size && k < size
    ensures n < size && At(start, n, size) == k
  {
    if k >= start then k - start else k + size - start
  }

  lemma NoneFound(ring: seq<Node>, keys: seq<string>, healthy: seq<bool>, h: nat)
    requires RingIs(ring, OwnerOf(keys)) && h < CIRCLE
    requires forall k :: 0 <= k < |ring| ==> !Up(healthy, ring[k].owner)
    ensures Routes(keys, healthy, h, None)
  {
    hide Owner, Distance;
    forall x: nat, o: nat | x < CIRCLE && Owner(keys, x) == Some(o) ensures !Up(healthy, o) {
      assert OwnerOf(keys)(x) == Owner(keys, x);
      assert Node(x, o) in ring;
    }
  }

  class ConsistentHash {
    var ring: seq<Node>
    /** The keys of the backends the ring was last built for. */
    ghost var keys: seq<string>

    ghost predicate Valid()
      reads this
    {
      RingIs(ring, OwnerOf(keys))
    }

    constructor ()
      ensures Valid() && keys == [] && ring == []
    {
      ring, keys := [], [];
    }

    /** Afterwards every position belongs to the first backend of the pool that has a node there. */
    method Build(pool: seq<string>)
      modifies this
      ensures Valid() && keys == pool
    {
      hide Owner, OwnerSoFar, OwnerOf, RingIs, Emplaced, Position, VirtualKey;
      ring, keys := [], [];
      EmptyRing();
      for b := 0 to |pool|
        invariant keys == pool[..b] && Valid()
      {
        StartBackend(ring, keys, pool[b]);
        for v := 0 to VIRTUAL_NODES_PER_BACKEND
          invariant keys == pool[..b] && RingIs(ring, OwnerSoFar(keys, pool[b], v))
        {
          OneMoreNode(ring, keys, pool[b], v);
          var position := HashOf(VirtualKey(pool[b], v));
          ring := Emplaced(ring, Node(position, b));
        }
        EndBackend(ring, keys, pool[b]);
        assert pool[..b + 1] == keys + [pool[b]];
        keys := pool[..b + 1];
      }
      assert pool[..|pool|] == pool;
    }

    /** Walks clockwise from the key's position to the first healthy backend. */
    method GetBackend(clientKey: string, healthy: seq<bool>) returns (r: Option<nat>)
      requires Valid()
      ensures Routes(keys, healthy, Position(clientKey), r)
    {
      hide Owner, Routes, OwnerOf, RingIs, LowerBound, Position;
      if ring == [] || |healthy| == 0 {
        NoneFound(ring, keys, healthy, Position(clientKey));
        return None;
      }
      var h := HashOf(clientKey);
      var i := LowerBound(ring, h);
      if i == |ring| { i := 0; }
      var start := i;
      ghost var n := 0;
      var done := false;
      while !done
        invariant 0 <= n <= |ring| && (done <==> n == |ring|)
        invariant start == Start(ring, h) && i == if n == |ring| then start else At(start, n, |ring|)
        invariant forall m :: 0 <= m < n ==> !Up(healthy, ring[At(start, m, |ring|)].owner)
        decreases |ring| - n
      {
        var owner := ring[i].owner;
        if owner < |healthy| && healthy[owner] {
          FirstFoundIsNearest(ring, keys, healthy, h, n);
          return Some(owner);
        }
        i := i + 1;
        if i == |ring| { i := 0; }
        done := i == start;
        n := n + 1;
      }
      forall k | 0 <= k < |ring| ensures !Up(healthy, ring[k].owner) {
        assert At(start, Back(start, k, |ring|), |ring|) == k;
      }
      NoneFound(ring, keys, healthy, h);
      r := None;
    }
  }

  lemma EmptyRing()
    ensures RingIs([], OwnerOf([]))
  {
    forall x: nat ensures OwnerOf([])(x) == None {
      assert Owner([], x) == None;
    }
  }
}
