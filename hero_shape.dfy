/**
 * The hero sketch's node network: `numNodes` nodes around a ring, each with
 * its own hue, and a connection between every two nodes at most two steps
 * apart around the ring.
 */
module HeroShape {

  /** `numNodes` of the sketch. */
  const NumNodes: nat := 8

  /** The part of a `Node` the network is built from: its id and its hue. */
  datatype Node = Node(id: nat, hue: real)

  /** A `Connection`, by the ids of the two nodes it joins. */
  datatype Connection = Connection(node1: nat, node2: nat)

  /** The hue of node `i` out of `n`: an equal share of the colour wheel per node. */
  function Hue(i: nat, n: nat): real
    requires i < n
  {
    (360.0 / n as real) * i as real
  }

  /** `new Node(i)` in a ring of `n` nodes. */
  function MakeNode(i: nat, n: nat): Node
    requires i < n
  {
    Node(i, Hue(i, n))
  }

  /** The first `count` nodes of a ring of `n`, in creation order. */
  function FirstNodes(count: nat, n: nat): (r: seq<Node>)
    requires count <= n
    ensures |r| == count
    ensures forall i :: 0 <= i < count ==> r[i].id == i && r[i].hue == Hue(i, n)
  {
    if count == 0 then [] else FirstNodes(count - 1, n) + [MakeNode(count - 1, n)]
  }

  /** The connection rule: distance at most two, or at least `n - 2` (the wrap-around of the ring). */
  predicate Linked(i: int, j: int, n: int)
    ensures 0 <= i < n && 0 <= j < n ==> (Linked(i, j, n) <==> RingSteps(i, j, n) <= 2)
  {
    var distance := if i <= j then j - i else i - j;
    distance <= 2 || distance >= n - 2
  }

  /** The number of steps from `i` to `j` around a ring of `n`, going the shorter way. */
  function RingSteps(i: int, j: int, n: int): int {
    var forward := if i <= j then j - i else i - j;
    if forward <= n - forward then forward else n - forward
  }

  /** The connections node `i` gets from the inner loop once it has reached `j`. */
  function RowUpTo(i: nat, j: nat, n: nat): seq<Connection>
    decreases j
  {
    if j <= i + 1 then []
    else RowUpTo(i, j - 1, n) + (if Linked(i, j - 1, n) then [Connection(i, j - 1)] else [])
  }

  /** The connections of the first `k` rounds of the outer loop. */
  function Rows(k: nat, n: nat): seq<Connection> {
    if k == 0 then [] else Rows(k - 1, n) + RowUpTo(k - 1, n, n)
  }

  /** The `connections` array setup builds for a ring of `n` nodes. */
  function Pairs(n: nat): (r: seq<Connection>)
    // every connection joins a lower id to a higher one, so there are no self-loops
    ensures forall c :: c in r ==> c.node1 < c.node2 < n
  {
    var r := Rows(n, n);
    assert forall c :: c in r ==> c.node1 < c.node2 < n by {
      forall c | c in r ensures c.node1 < c.node2 < n {
        RowsMembers(n, n, c);
      }
    }
    r
  }

  /** Strict lexicographic order on connections. */
  predicate Before(c: Connection, d: Connection) {
    c.node1 < d.node1 || (c.node1 == d.node1 && c.node2 < d.node2)
  }

  predicate Ordered(cs: seq<Connection>) {
    forall p, q :: 0 <= p < q < |cs| ==> Before(cs[p], cs[q])
  }

  /** The state of one sketch instance: its nodes and connections. */
  class HeroSketch {
    const numNodes: nat
    var nodes: seq<Node>
    var connections: seq<Connection>

    /** The sketch function's locals, before setup runs. */
    constructor()
      ensures numNodes == NumNodes && nodes == [] && connections == []
    {
      numNodes := NumNodes;
      nodes := [];
      connections := [];
    }

    /** p.setup: create the nodes, then every linked pair in lexicographic order. */
    method Setup()
      requires nodes == [] && connections == []
      modifies this
      ensures nodes == FirstNodes(numNodes, numNodes)
      ensures connections == Pairs(numNodes)
    {
      CreateNodes();
      CreateConnections();
    }

    /** The first loop of setup: one node per index. */
    method CreateNodes()
      requires nodes == []
      modifies this
      ensures nodes == FirstNodes(numNodes, numNodes)
      ensures connections == old(connections)
    {
      var i := 0;
      while i < numNodes
        invariant 0 <= i <= numNodes
        invariant nodes == FirstNodes(i, numNodes)
        invariant connections == old(connections)
      {
        nodes := nodes + [MakeNode(i, numNodes)];
        i := i + 1;
      }
    }

    /** The nested loops of setup, over the nodes created. */
    method CreateConnections()
      requires connections == []
      modifies this
      ensures connections == Pairs(|nodes|)
      ensures nodes == old(nodes)
    {
      var n := |nodes|;
      var i := 0;
      while i < n
        invariant 0 <= i <= n && nodes == old(nodes)
        invariant connections == Rows(i, n)
      {
        ConnectRow(i, n);
        i := i + 1;
      }
    }

    /** One round of the outer loop: node `i` against every later node. */
    method ConnectRow(i: nat, n: nat)
      requires i < n
      modifies this
      ensures connections == old(connections) + RowUpTo(i, n, n)
      ensures nodes == old(nodes)
    {
      var j := i + 1;
      while j < n
        invariant i + 1 <= j <= n && nodes == old(nodes)
        invariant connections == old(connections) + RowUpTo(i, j, n)
      {
        var distance := if i <= j then j - i else i - j;
        if distance <= 2 || distance >= n - 2 {
          connections := connections + [Connection(i, j)];
        }
        j := j + 1;
      }
    }
  }

  /** Node `i` has id `i`; the hues are strictly increasing, so pairwise distinct, and lie in [0, 360). */
  lemma NodesWellFormed(n: nat)
    ensures |FirstNodes(n, n)| == n
    ensures forall i :: 0 <= i < n ==> FirstNodes(n, n)[i].id == i
    ensures forall i :: 0 <= i < n ==> 0.0 <= FirstNodes(n, n)[i].hue < 360.0
    ensures forall i, j :: 0 <= i < j < n ==> FirstNodes(n, n)[i].hue < FirstNodes(n, n)[j].hue
  {
    var r := FirstNodes(n, n);
    forall i | 0 <= i < n ensures 0.0 <= r[i].hue < 360.0 {
      HueBounds(i, n);
    }
    forall i, j | 0 <= i < j < n ensures r[i].hue < r[j].hue {
      HueIncreasing(i, j, n);
    }
  }

  lemma HueBounds(i: nat, n: nat)
    requires i < n
    ensures 0.0 <= Hue(i, n) < 360.0
  {
    var share := 360.0 / n as real;
    assert share > 0.0;
    assert share * n as real == 360.0;
    var gap := (n - i) as real;
    assert gap >= 1.0;
    assert share * gap > 0.0;
    assert share * n as real == share * i as real + share * gap;
  }

  lemma HueIncreasing(i: nat, j: nat, n: nat)
    requires i < j < n
    ensures Hue(i, n) < Hue(j, n)
  {
    var share := 360.0 / n as real;
    assert share > 0.0;
    assert share * j as real - share * i as real == share * (j - i) as real;
  }

  /** What the inner loop adds for node `i`: exactly its linked successors below `j`. */
  lemma {:induction false} RowUpToMembers(i: nat, j: nat, n: nat, c: Connection)
    ensures c in RowUpTo(i, j, n) <==> c.node1 == i && i < c.node2 < j && Linked(i, c.node2, n)
    decreases j
  {
    if j > i + 1 {
      RowUpToMembers(i, j - 1, n, c);
    }
  }

  /** What the first `k` rounds add: exactly the linked pairs whose first node is below `k`. */
  lemma {:induction false} RowsMembers(k: nat, n: nat, c: Connection)
    ensures c in Rows(k, n) <==> c.node1 < k && c.node1 < c.node2 < n && Linked(c.node1, c.node2, n)
  {
    if k > 0 {
      RowsMembers(k - 1, n, c);
      RowUpToMembers(k - 1, n, n, c);
    }
  }

  /** A pair is connected iff i < j < n and the two nodes are at most two steps apart around the ring. */
  lemma PairsMembers(n: nat, i: nat, j: nat)
    ensures Connection(i, j) in Pairs(n) <==> i < j < n && Linked(i, j, n)
  {
    RowsMembers(n, n, Connection(i, j));
  }

  lemma {:induction false} RowUpToOrdered(i: nat, j: nat, n: nat)
    ensures Ordered(RowUpTo(i, j, n))
    ensures forall c :: c in RowUpTo(i, j, n) ==> c.node1 == i && c.node2 < j
    decreases j
  {
    if j > i + 1 {
      RowUpToOrdered(i, j - 1, n);
      forall c | c in RowUpTo(i, j, n) ensures c.node1 == i && c.node2 < j {
        RowUpToMembers(i, j, n, c);
      }
    }
  }

  lemma {:induction false} RowsOrdered(k: nat, n: nat)
    ensures Ordered(Rows(k, n))
    ensures forall c :: c in Rows(k, n) ==> c.node1 < k
  {
    if k > 0 {
      RowsOrdered(k - 1, n);
      RowUpToOrdered(k - 1, n, n);
      forall c | c in Rows(k, n) ensures c.node1 < k {
        RowsMembers(k, n, c);
      }
      var a := Rows(k - 1, n);
      var b := RowUpTo(k - 1, n, n);
      forall p, q | 0 <= p < q < |a + b| ensures Before((a + b)[p], (a + b)[q]) {
        if q < |a| {
        } else if p >= |a| {
          assert (a + b)[p] == b[p - |a|] && (a + b)[q] == b[q - |a|];
        } else {
          assert (a + b)[p] == a[p] && a[p] in a;
          assert (a + b)[q] == b[q - |a|] && b[q - |a|] in b;
        }
      }
    }
  }

  /** The connections are in strict lexicographic order, so no pair appears twice. */
  lemma PairsOrdered(n: nat)
    ensures Ordered(Pairs(n))
    ensures forall p, q :: 0 <= p < q < |Pairs(n)| ==> Pairs(n)[p] != Pairs(n)[q]
  {
    RowsOrdered(n, n);
  }

  /** The nodes of a ring of `n` that setup joins to node `v`. */
  function Neighbours(n: nat, v: nat): set<nat> {
    set u: nat | u < n && (Connection(v, u) in Pairs(n) || Connection(u, v) in Pairs(n))
  }

  /** Node `u` is a neighbour of `v` exactly when it is another node of the ring within two steps of it. */
  lemma NeighbourRule(n: nat, v: nat, u: nat)
    ensures u in Neighbours(n, v) <==> u < n && v < n && u != v && Linked(v, u, n)
  {
    PairsMembers(n, v, u);
    PairsMembers(n, u, v);
  }

  /** The connections of the sketch's ring of eight, listed. */
  function EightPairs(): seq<Connection> {
    [ Connection(0, 1), Connection(0, 2), Connection(0, 6), Connection(0, 7),
      Connection(1, 2), Connection(1, 3), Connection(1, 7),
      Connection(2, 3), Connection(2, 4),
      Connection(3, 4), Connection(3, 5),
      Connection(4, 5), Connection(4, 6),
      Connection(5, 6), Connection(5, 7),
      Connection(6, 7) ]
  }

  lemma PairsOfEight()
    ensures Pairs(8) == EightPairs()
  {
    FirstRowsOfEight();
    LastRowsOfEight();
  }

  lemma FirstRowsOfEight()
    ensures RowUpTo(0, 8, 8) == [Connection(0, 1), Connection(0, 2), Connection(0, 6), Connection(0, 7)]
    ensures RowUpTo(1, 8, 8) == [Connection(1, 2), Connection(1, 3), Connection(1, 7)]
    ensures RowUpTo(2, 8, 8) == [Connection(2, 3), Connection(2, 4)]
    ensures RowUpTo(3, 8, 8) == [Connection(3, 4), Connection(3, 5)]
  {
  }

  lemma LastRowsOfEight()
    ensures RowUpTo(4, 8, 8) == [Connection(4, 5), Connection(4, 6)]
    ensures RowUpTo(5, 8, 8) == [Connection(5, 6), Connection(5, 7)]
    ensures RowUpTo(6, 8, 8) == [Connection(6, 7)]
    ensures RowUpTo(7, 8, 8) == []
  {
  }

  lemma NeighboursOfEight(v: nat, expected: set<nat>)
    requires v < 8
    requires forall u: nat :: u in expected <==> u < 8 && u != v && Linked(v, u, 8)
    requires |expected| == 4
    ensures Neighbours(8, v) == expected
    ensures |Neighbours(8, v)| == 4
  {
    forall u: nat ensures u in Neighbours(8, v) <==> u in expected {
      NeighbourRule(8, v, u);
    }
  }

  /** In the sketch's ring of eight, every node is joined to exactly four others. */
  lemma EightNodeDegree(v: nat)
    requires v < NumNodes
    ensures |Neighbours(NumNodes, v)| == 4
  {
    if v == 0 {
      NeighboursOfEight(v, {1, 2, 6, 7});
    } else if v == 1 {
      NeighboursOfEight(v, {0, 2, 3, 7});
    } else if v == 2 {
      NeighboursOfEight(v, {0, 1, 3, 4});
    } else if v == 3 {
      NeighboursOfEight(v, {1, 2, 4, 5});
    } else if v == 4 {
      NeighboursOfEight(v, {2, 3, 5, 6});
    } else if v == 5 {
      NeighboursOfEight(v, {3, 4, 6, 7});
    } else if v == 6 {
      NeighboursOfEight(v, {0, 4, 5, 7});
    } else {
      NeighboursOfEight(v, {0, 1, 5, 6});
    }
  }

  /** The sketch's ring of eight has sixteen connections. */
  lemma EightNodeConnections()
    ensures |Pairs(NumNodes)| == 16
  {
    PairsOfEight();
  }
}
