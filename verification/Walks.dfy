/** Walks, distances and cycles in a finite directed graph of configuration items. */
module Walks {
  import opened Prelude

  /** A configuration item as an edge endpoint names it: its type and its id. */
  datatype Node = Node(ciType: string, oid: nat)

  type Arcs = set<(Node, Node)>

  predicate IsWalk(arcs: Arcs, p: seq<Node>) {
    && |p| >= 1
    && forall i :: 0 <= i < |p| - 1 ==> (p[i], p[i + 1]) in arcs
  }

  /** `p` is a walk from `a` to `b`. */
  predicate Joins(arcs: Arcs, p: seq<Node>, a: Node, b: Node) {
    IsWalk(arcs, p) && p[0] == a && p[|p| - 1] == b
  }

  ghost predicate Reachable(arcs: Arcs, a: Node, b: Node) {
    exists p :: Joins(arcs, p, a, b)
  }

  /** Some walk from `a` to `b` takes at most `k` arcs. */
  ghost predicate Within(arcs: Arcs, a: Node, b: Node, k: nat) {
    exists p :: Joins(arcs, p, a, b) && |p| <= k + 1
  }

  /** The shortest walk from `a` to `b` takes exactly `d` arcs. */
  ghost predicate AtDistance(arcs: Arcs, a: Node, b: Node, d: nat) {
    Within(arcs, a, b, d) && (d > 0 ==> !Within(arcs, a, b, d - 1))
  }

  function Reversed(arcs: Arcs): Arcs {
    set a | a in arcs :: (a.1, a.0)
  }

  lemma WithinSelf(arcs: Arcs, a: Node, k: nat)
    ensures Within(arcs, a, a, k)
  {
    assert Joins(arcs, [a], a, a);
  }

  lemma WithinZero(arcs: Arcs, a: Node, b: Node)
    ensures Within(arcs, a, b, 0) <==> a == b
  {
    WithinSelf(arcs, a, 0);
  }

  lemma WithinMonotone(arcs: Arcs, more: Arcs, a: Node, b: Node, k: nat, l: nat)
    requires arcs <= more && k <= l
    requires Within(arcs, a, b, k)
    ensures Within(more, a, b, l)
  {
    var p :| Joins(arcs, p, a, b) && |p| <= k + 1;
    assert Joins(more, p, a, b);
  }

  /** One more arc: the recurrence of bounded reachability. */
  lemma WithinStep(arcs: Arcs, a: Node, b: Node, k: nat)
    ensures Within(arcs, a, b, k + 1) <==>
            Within(arcs, a, b, k) || exists m :: Within(arcs, a, m, k) && (m, b) in arcs
  {
    if Within(arcs, a, b, k + 1) {
      var p :| Joins(arcs, p, a, b) && |p| <= k + 2;
      if |p| == k + 2 {
        var q := p[..k + 1];
        assert (p[k], p[k + 1]) in arcs;
        assert Joins(arcs, q, a, p[k]);
      }
    }
    if Within(arcs, a, b, k) {
      WithinMonotone(arcs, arcs, a, b, k, k + 1);
    }
    forall m | Within(arcs, a, m, k) && (m, b) in arcs
      ensures Within(arcs, a, b, k + 1)
    {
      var p :| Joins(arcs, p, a, m) && |p| <= k + 1;
      assert Joins(arcs, p + [b], a, b);
    }
  }

  /** The recurrence needs only the nodes of the last layer, which is what the search expands. */
  lemma LayerStep(arcs: Arcs, a: Node, b: Node, k: nat)
    ensures Within(arcs, a, b, k + 1) <==>
            Within(arcs, a, b, k) || exists m :: AtDistance(arcs, a, m, k) && (m, b) in arcs
  {
    WithinStep(arcs, a, b, k);
    if k > 0 {
      WithinStep(arcs, a, b, k - 1);
    }
  }

  /** An empty layer means that no later layer has a node either. */
  lemma {:induction false} EmptyLayer(arcs: Arcs, a: Node, d: nat, k: nat)
    requires forall n :: !AtDistance(arcs, a, n, d)
    requires d <= k
    ensures forall n :: Within(arcs, a, n, k) <==> Within(arcs, a, n, d)
    ensures forall n :: !AtDistance(arcs, a, n, k)
    decreases k
  {
    if d < k {
      EmptyLayer(arcs, a, d, k - 1);
      forall n
        ensures Within(arcs, a, n, k) <==> Within(arcs, a, n, k - 1)
      {
        LayerStep(arcs, a, n, k - 1);
      }
    }
  }

  /** Without a node at distance `d`, the ball of radius `d` is everything reachable. */
  lemma EmptyLayerMeansAll(arcs: Arcs, a: Node, b: Node, d: nat)
    requires forall n :: !AtDistance(arcs, a, n, d)
    ensures Reachable(arcs, a, b) <==> Within(arcs, a, b, d)
  {
    if Reachable(arcs, a, b) {
      var p :| Joins(arcs, p, a, b);
      if |p| <= d + 1 {
      } else {
        assert Within(arcs, a, b, |p| - 1);
        EmptyLayer(arcs, a, d, |p| - 1);
      }
    }
  }

  /** A reachable node has a distance. */
  lemma {:induction false} WithinHasDistance(arcs: Arcs, a: Node, b: Node, k: nat)
    requires Within(arcs, a, b, k)
    ensures exists d: nat :: d <= k && AtDistance(arcs, a, b, d)
  {
    if k == 0 || !Within(arcs, a, b, k - 1) {
      assert AtDistance(arcs, a, b, k);
    } else {
      WithinHasDistance(arcs, a, b, k - 1);
    }
  }

  lemma ReverseWalk(arcs: Arcs, a: Node, b: Node, p: seq<Node>)
    requires Joins(arcs, p, a, b)
    ensures exists q :: Joins(Reversed(arcs), q, b, a) && |q| == |p|
  {
    var q := seq(|p|, i requires 0 <= i < |p| => p[|p| - 1 - i]);
    forall i | 0 <= i < |q| - 1
      ensures (q[i], q[i + 1]) in Reversed(arcs)
    {
      assert (p[|p| - 2 - i], p[|p| - 2 - i + 1]) in arcs;
    }
    assert Joins(Reversed(arcs), q, b, a);
  }

  lemma ReversedTwice(arcs: Arcs)
    ensures Reversed(Reversed(arcs)) == arcs
  {
    forall x | x in arcs
      ensures x in Reversed(Reversed(arcs))
    {
      assert (x.1, x.0) in Reversed(arcs);
    }
  }

  /** Walking the arcs backwards from `b` finds `a` exactly when walking forwards from `a` finds `b`. */
  lemma WithinReversed(arcs: Arcs, a: Node, b: Node, k: nat)
    ensures Within(arcs, a, b, k) <==> Within(Reversed(arcs), b, a, k)
  {
    ReversedTwice(arcs);
    if Within(arcs, a, b, k) {
      var p :| Joins(arcs, p, a, b) && |p| <= k + 1;
      ReverseWalk(arcs, a, b, p);
    }
    if Within(Reversed(arcs), b, a, k) {
      var p :| Joins(Reversed(arcs), p, b, a) && |p| <= k + 1;
      ReverseWalk(Reversed(arcs), b, a, p);
    }
  }

  // ---------------------------------------------------------------- cycles

  /** `c` visits pairwise different nodes and its last node has an arc back to its first. */
  predicate SimpleCycle(arcs: Arcs, c: seq<Node>) {
    IsWalk(arcs, c) && Distinct(c) && (c[|c| - 1], c[0]) in arcs
  }

  /** No simple cycle has between 2 and `k` nodes. Self-loops do not count. */
  ghost predicate NoCycleUpTo(arcs: Arcs, k: nat) {
    forall c :: SimpleCycle(arcs, c) && |c| >= 2 ==> |c| > k
  }

  /** No simple cycle other than self-loops. */
  ghost predicate Acyclic(arcs: Arcs) {
    forall c :: SimpleCycle(arcs, c) ==> |c| == 1
  }

  lemma FewerArcsFewerCycles(arcs: Arcs, fewer: Arcs, k: nat)
    requires fewer <= arcs
    ensures NoCycleUpTo(arcs, k) ==> NoCycleUpTo(fewer, k)
    ensures Acyclic(arcs) ==> Acyclic(fewer)
  {
    forall c | SimpleCycle(fewer, c)
      ensures SimpleCycle(arcs, c)
    {
    }
  }

  /** A cycle that appears when `f -> t` is added leaves a walk from `t` back to `f` that was there before. */
  lemma NewCycleWalksBack(arcs: Arcs, f: Node, t: Node, c: seq<Node>)
    requires SimpleCycle(arcs + {(f, t)}, c) && !SimpleCycle(arcs, c) && |c| >= 2
    ensures f != t && Within(arcs, t, f, |c| - 1)
  {
    var more := arcs + {(f, t)};
    var n := |c|;
    var j: nat;
    if (c[n - 1], c[0]) !in arcs {
      j := n - 1;
    } else {
      assert !IsWalk(arcs, c);
      j :| 0 <= j < n - 1 && (c[j], c[j + 1]) !in arcs;
    }
    // start the cycle right after the new arc
    var r := c[j + 1..] + c[..j + 1];
    assert r[0] == t && r[n - 1] == f;
    forall i | 0 <= i < n - 1
      ensures (r[i], r[i + 1]) in arcs
    {
      if i < n - 1 - j - 1 {
        assert r[i] == c[j + 1 + i] && r[i + 1] == c[j + 2 + i];
        assert (c[j + 1 + i], c[j + 1 + i + 1]) in more;
      } else if i == n - 1 - j - 1 {
        assert r[i] == c[n - 1] && r[i + 1] == c[0];
      } else {
        var m := i - (n - 1 - j);
        assert r[i] == c[m] && r[i + 1] == c[m + 1];
        assert (c[m], c[m + 1]) in more;
      }
      assert r[i] != f;
    }
    assert Joins(arcs, r, t, f);
  }

  /** If `f` is not within `k` arcs of `t`, the arc `f -> t` closes no cycle of at most `k + 1` nodes. */
  lemma ArcClosesNoShortCycle(arcs: Arcs, f: Node, t: Node, k: nat)
    requires NoCycleUpTo(arcs, k + 1)
    requires f == t || !Within(arcs, t, f, k)
    ensures NoCycleUpTo(arcs + {(f, t)}, k + 1)
  {
    forall c | SimpleCycle(arcs + {(f, t)}, c) && |c| >= 2
      ensures |c| > k + 1
    {
      if !SimpleCycle(arcs, c) && |c| <= k + 1 {
        NewCycleWalksBack(arcs, f, t, c);
      }
    }
  }

  /** A shortest walk repeats no node. */
  lemma {:induction false} SimpleWalk(arcs: Arcs, a: Node, b: Node, p: seq<Node>) returns (q: seq<Node>)
    requires Joins(arcs, p, a, b)
    ensures Joins(arcs, q, a, b) && Distinct(q) && |q| <= |p|
    decreases |p|
  {
    if Distinct(p) {
      q := p;
    } else {
      var i, j :| 0 <= i < j < |p| && p[i] == p[j];
      var cut := p[..i] + p[j..];
      forall x | 0 <= x < |cut| - 1
        ensures (cut[x], cut[x + 1]) in arcs
      {
        if x + 1 < i {
          assert (p[x], p[x + 1]) in arcs;
        } else if x + 1 == i {
          assert (p[x], p[x + 1]) in arcs;
        } else {
          assert (p[x - i + j], p[x - i + j + 1]) in arcs;
        }
      }
      q := SimpleWalk(arcs, a, b, cut);
    }
  }

  /** Without short cycles, no short walk leads back along an arc that is there. */
  lemma ArcHasNoShortWayBack(arcs: Arcs, f: Node, t: Node, k: nat)
    requires NoCycleUpTo(arcs, k + 1) && (f, t) in arcs && f != t
    ensures !Within(arcs, t, f, k)
  {
    if Within(arcs, t, f, k) {
      var p :| Joins(arcs, p, t, f) && |p| <= k + 1;
      var c := SimpleWalk(arcs, t, f, p);
      assert SimpleCycle(arcs, c) && |c| >= 2;
      assert false;
    }
  }

  /** Adding `f -> t` to an acyclic graph keeps it acyclic exactly when `f` is not reachable from `t`. */
  lemma ArcKeepsAcyclicIff(arcs: Arcs, f: Node, t: Node)
    requires Acyclic(arcs) && f != t
    ensures Acyclic(arcs + {(f, t)}) <==> !Reachable(arcs, t, f)
  {
    var more := arcs + {(f, t)};
    if Reachable(arcs, t, f) {
      var p :| Joins(arcs, p, t, f);
      var q := SimpleWalk(arcs, t, f, p);
      assert SimpleCycle(more, q) && |q| >= 2;
    } else {
      forall c | SimpleCycle(more, c)
        ensures |c| == 1
      {
        if |c| >= 2 {
          assert !SimpleCycle(arcs, c);
          NewCycleWalksBack(arcs, f, t, c);
        }
      }
    }
  }

  lemma SelfArcKeepsAcyclic(arcs: Arcs, n: Node)
    requires Acyclic(arcs)
    ensures Acyclic(arcs + {(n, n)})
  {
    forall c | SimpleCycle(arcs + {(n, n)}, c)
      ensures |c| == 1
    {
      if |c| >= 2 {
        assert !SimpleCycle(arcs, c);
        NewCycleWalksBack(arcs, n, n, c);
      }
    }
  }

  /** With at most `k` nodes a bound of `k` on cycle length is no bound at all. */
  lemma FewNodesNoCycle(arcs: Arcs, nodes: set<Node>, k: nat)
    requires forall x :: x in arcs ==> x.0 in nodes && x.1 in nodes
    requires |nodes| <= k
    requires NoCycleUpTo(arcs, k)
    ensures Acyclic(arcs)
  {
    forall c | SimpleCycle(arcs, c)
      ensures |c| == 1
    {
      if |c| >= 2 {
        forall x | x in c
          ensures x in nodes
        {
          var i :| 0 <= i < |c| && c[i] == x;
          if i < |c| - 1 {
            assert (c[i], c[i + 1]) in arcs;
          }
        }
        Pigeonhole(c, nodes);
      }
    }
  }

  /** A closed walk that moves at every step contains a simple cycle of two or more nodes. */
  lemma {:induction false} ClosedWalkHasCycle(arcs: Arcs, p: seq<Node>) returns (c: seq<Node>)
    requires IsWalk(arcs, p) && |p| >= 3 && p[0] == p[|p| - 1]
    requires forall i :: 0 <= i < |p| - 1 ==> p[i] != p[i + 1]
    ensures SimpleCycle(arcs, c) && |c| >= 2
    decreases |p|
  {
    var body := p[..|p| - 1];
    if Distinct(body) {
      assert (p[|p| - 2], p[|p| - 1]) in arcs;
      c := body;
    } else {
      var i, j :| 0 <= i < j < |body| && body[i] == body[j];
      assert j != i + 1;
      c := ClosedWalkHasCycle(arcs, p[i..j + 1]);
    }
  }

  /** Acyclic means what impact analysis needs: no two different items reach one another. */
  lemma AcyclicIffOneWay(arcs: Arcs)
    ensures Acyclic(arcs) <==>
            forall a, b :: a != b && Reachable(arcs, a, b) ==> !Reachable(arcs, b, a)
  {
    if Acyclic(arcs) {
      forall a, b | a != b && Reachable(arcs, a, b)
        ensures !Reachable(arcs, b, a)
      {
        if Reachable(arcs, b, a) {
          var p :| Joins(arcs, p, a, b);
          var q :| Joins(arcs, q, b, a);
          p := SimpleWalk(arcs, a, b, p);
          q := SimpleWalk(arcs, b, a, q);
          var w := p + q[1..];
          forall i | 0 <= i < |w| - 1
            ensures (w[i], w[i + 1]) in arcs && w[i] != w[i + 1]
          {
            if i < |p| - 1 {
              assert w[i] == p[i] && w[i + 1] == p[i + 1];
            } else {
              var m := i - (|p| - 1);
              assert w[i] == q[m] && w[i + 1] == q[m + 1];
            }
          }
          var c := ClosedWalkHasCycle(arcs, w);
        }
      }
    } else {
      var c :| SimpleCycle(arcs, c) && |c| != 1;
      var first, last := c[0], c[|c| - 1];
      assert Joins(arcs, c, first, last);
      assert Joins(arcs, [last, first], last, first);
      assert first != last && Reachable(arcs, first, last) && Reachable(arcs, last, first);
    }
  }
}
