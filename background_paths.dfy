/**
  The node-and-edge network drawn behind the landing page (NeuralNetwork3D in
  src/components/ui/background-paths.tsx): nodes are placed at random in a cube,
  every node is connected greedily to its nearest neighbours, and the
  per-node connection lists are flattened into the line segments that are drawn.

  Randomness and the Euclidean distance are inputs here: the Math.random()
  draws are passed in as sequences of reals and the distance as a function
  value over reals.
*/
module BackgroundPaths {
  import Decimal

  /** A point in the scene, the source's `[number, number, number]`. */
  datatype Position = Position(x: real, y: real, z: real)

  /** One node: its position and the indices of the nodes it connects to. */
  datatype NodeData = NodeData(position: Position, connections: seq<nat>)

  /** The three Math.random() draws that place one node. */
  datatype PositionDraw = PositionDraw(rx: real, ry: real, rz: real)

  /** One entry of a node's candidate list: another node and its distance. */
  datatype Candidate = Candidate(index: nat, distance: real)

  /** A segment handed to the renderer, keyed `i-j`. */
  datatype Line = Line(start: Position, end: Position, key: string)

  /** The distance between two positions (Math.sqrt of the squared differences in the source). */
  type DistanceFn = (Position, Position) -> real

  /** The number of nodes the component draws. */
  const NumNodes: nat := 100
  /** Edge length of the cube the nodes are placed in. */
  const CubeSize: real := 15.0
  /** Only nodes strictly closer than this are connected. */
  const MaxDistance: real := 8.0
  /** Every node may take at least this many connections ... */
  const BaseConnections: int := 4
  /** ... plus floor(draw * ConnectionSpread) more. */
  const ConnectionSpread: real := 3.0

  /** What Math.random() returns: a real in [0, 1). */
  predicate IsUnitDraw(r: real) {
    0.0 <= r < 1.0
  }

  predicate IsUnitPositionDraw(d: PositionDraw) {
    IsUnitDraw(d.rx) && IsUnitDraw(d.ry) && IsUnitDraw(d.rz)
  }

  /** The cube of edge CubeSize centred on the origin, open at the top. */
  predicate InCube(p: Position) {
    && -7.5 <= p.x < 7.5
    && -7.5 <= p.y < 7.5
    && -7.5 <= p.z < 7.5
  }

  // ---------------------------------------------------------------------------
  // Node placement
  // ---------------------------------------------------------------------------

  /** One coordinate, `(Math.random() - 0.5) * 15`. */
  function Coordinate(r: real): (c: real)
    ensures IsUnitDraw(r) ==> -7.5 <= c < 7.5
  {
    (r - 0.5) * CubeSize
  }

  function PlaceNode(d: PositionDraw): (p: Position)
    ensures IsUnitPositionDraw(d) ==> InCube(p)
  {
    Position(Coordinate(d.rx), Coordinate(d.ry), Coordinate(d.rz))
  }

  /** The first loop of the builder: NumNodes nodes, one per draw, each without connections. */
  method GenerateNodes(draws: seq<PositionDraw>) returns (nodeList: seq<NodeData>)
    requires |draws| == NumNodes
    ensures |nodeList| == NumNodes
    ensures forall i :: 0 <= i < |draws| ==> nodeList[i] == NodeData(PlaceNode(draws[i]), [])
    ensures forall i :: 0 <= i < |draws| && IsUnitPositionDraw(draws[i]) ==> InCube(nodeList[i].position)
  {
    nodeList := [];
    var i := 0;
    while i < NumNodes
      invariant 0 <= i <= NumNodes
      invariant |nodeList| == i
      invariant forall k :: 0 <= k < i ==> nodeList[k] == NodeData(PlaceNode(draws[k]), [])
    {
      nodeList := nodeList + [NodeData(PlaceNode(draws[i]), [])];
      i := i + 1;
    }
  }

  // ---------------------------------------------------------------------------
  // The connection rule
  // ---------------------------------------------------------------------------

  /** The per-node cap, `4 + Math.floor(Math.random() * 3)`. */
  function MaxConnections(r: real): (m: int)
    ensures IsUnitDraw(r) ==> BaseConnections <= m <= BaseConnections + 2
  {
    BaseConnections + (r * ConnectionSpread).Floor
  }

  function Positions(nodes: seq<NodeData>): (ps: seq<Position>)
    ensures |ps| == |nodes|
    ensures forall k :: 0 <= k < |nodes| ==> ps[k] == nodes[k].position
  {
    seq(|nodes|, k requires 0 <= k < |nodes| => nodes[k].position)
  }

  /**
    The candidates of node `i` among the first `n` nodes: every other node
    with its distance, in index order (the `map` that yields null for j == i,
    followed by the `filter` that drops it).
  */
  function CandidatesUpTo(positions: seq<Position>, i: nat, dist: DistanceFn, n: nat): (c: seq<Candidate>)
    requires i < |positions| && n <= |positions|
    ensures |c| == if i < n then n - 1 else n
    ensures forall k :: 0 <= k < |c| ==> c[k].index < n && c[k].index != i
    ensures forall k :: 0 <= k < |c| ==> c[k].distance == dist(positions[c[k].index], positions[i])
    ensures forall k, l :: 0 <= k < l < |c| ==> c[k].index < c[l].index
  {
    if n == 0 then []
    else
      var prev := CandidatesUpTo(positions, i, dist, n - 1);
      if n - 1 == i then prev else prev + [Candidate(n - 1, dist(positions[n - 1], positions[i]))]
  }

  /** Every other node among the first `n` is a candidate, with its distance. */
  lemma {:induction false} CandidatesUpToComplete(positions: seq<Position>, i: nat, dist: DistanceFn, n: nat)
    requires i < |positions| && n <= |positions|
    ensures forall j :: 0 <= j < n && j != i ==>
      Candidate(j, dist(positions[j], positions[i])) in CandidatesUpTo(positions, i, dist, n)
  {
    if n > 0 {
      CandidatesUpToComplete(positions, i, dist, n - 1);
    }
  }

  function Candidates(positions: seq<Position>, i: nat, dist: DistanceFn): seq<Candidate>
    requires i < |positions|
  {
    CandidatesUpTo(positions, i, dist, |positions|)
  }

  predicate SortedByDistance(s: seq<Candidate>) {
    forall k, l :: 0 <= k < l < |s| ==> s[k].distance <= s[l].distance
  }

  /** No two entries name the same node. */
  predicate DistinctIndices(s: seq<Candidate>) {
    forall k, l :: 0 <= k < l < |s| ==> s[k].index != s[l].index
  }

  /** The position of the first entry of `s` that is not closer than `c`. */
  function InsertionPoint(c: Candidate, s: seq<Candidate>): (p: nat)
    ensures p <= |s|
    ensures forall k :: 0 <= k < p ==> s[k].distance < c.distance
    ensures p < |s| ==> c.distance <= s[p].distance
  {
    if s == [] || c.distance <= s[0].distance then 0 else 1 + InsertionPoint(c, s[1..])
  }

  /** Inserts `c` in front of the first entry that is not closer than it. */
  function Insert(c: Candidate, s: seq<Candidate>): (r: seq<Candidate>)
    ensures multiset(r) == multiset(s) + multiset{c}
    ensures forall x :: x in r <==> x == c || x in s
    ensures SortedByDistance(s) ==> SortedByDistance(r)
  {
    var p := InsertionPoint(c, s);
    assert s == s[..p] + s[p..];
    InsertSorted(c, s);
    s[..p] + [c] + s[p..]
  }

  lemma InsertSorted(c: Candidate, s: seq<Candidate>)
    ensures var p := InsertionPoint(c, s);
      SortedByDistance(s) ==> SortedByDistance(s[..p] + [c] + s[p..])
  {
    var p := InsertionPoint(c, s);
    var r := s[..p] + [c] + s[p..];
    if SortedByDistance(s) {
      forall k, l | 0 <= k < l < |r| ensures r[k].distance <= r[l].distance {
        if l < p {
          assert r[k] == s[k] && r[l] == s[l];
        } else if l == p {
          assert r[k] == s[k] && r[l] == c;
        } else if k < p {
          assert r[k] == s[k] && r[l] == s[l - 1];
        } else if k == p {
          assert r[k] == c && r[l] == s[l - 1];
          assert s[p].distance <= s[l - 1].distance;
        } else {
          assert r[k] == s[k - 1] && r[l] == s[l - 1];
        }
      }
    }
  }

  lemma InsertDistinct(c: Candidate, s: seq<Candidate>)
    requires DistinctIndices(s) && forall x :: x in s ==> x.index != c.index
    ensures DistinctIndices(Insert(c, s))
  {
    var p := InsertionPoint(c, s);
    var r := Insert(c, s);
    forall k, l | 0 <= k < l < |r| ensures r[k].index != r[l].index {
      if k < p && l > p {
        assert r[k] == s[k] && r[l] == s[l - 1];
      } else if k > p {
        assert r[k] == s[k - 1] && r[l] == s[l - 1];
      } else if k == p {
        assert r[l] == s[l - 1];
      } else if l == p {
        assert r[l] == c && r[k] == s[k];
      } else {
        assert r[k] == s[k] && r[l] == s[l];
      }
    }
  }

  /**
    The ascending `sort` by distance. ECMAScript requires Array.prototype.sort
    to be stable, and this insertion sort is: the first entry goes in front of
    every later entry of equal distance.
  */
  function SortByDistance(s: seq<Candidate>): (r: seq<Candidate>)
    ensures multiset(r) == multiset(s)
    ensures forall x :: x in r <==> x in s
    ensures SortedByDistance(r)
    ensures DistinctIndices(s) ==> DistinctIndices(r)
  {
    if s == [] then []
    else
      var rest := SortByDistance(s[1..]);
      assert s == [s[0]] + s[1..];
      if DistinctIndices(s) then
        InsertDistinct(s[0], rest);
        Insert(s[0], rest)
      else
        Insert(s[0], rest)
  }

  /** The entries of `s` closer than MaxDistance, in order. */
  function InRange(s: seq<Candidate>): (r: seq<Candidate>)
    ensures |r| <= |s|
    ensures forall k :: 0 <= k < |r| ==> r[k].distance < MaxDistance
  {
    if s == [] then []
    else
      var last := s[|s| - 1];
      InRange(s[..|s| - 1]) + if last.distance < MaxDistance then [last] else []
  }

  /** How many connections a cap admits out of `available` in-range candidates. */
  function Limit(cap: int, available: nat): (n: nat)
    ensures n <= available
    ensures cap >= 0 ==> n <= cap
    ensures n < available ==> cap <= n
  {
    if cap <= 0 then 0 else if cap < available then cap else available
  }

  /** The first `cap` in-range entries of `s`. */
  function FirstInRange(s: seq<Candidate>, cap: int): seq<Candidate> {
    var r := InRange(s);
    r[..Limit(cap, |r|)]
  }

  function Indices(s: seq<Candidate>): (ix: seq<nat>)
    ensures |ix| == |s|
    ensures forall k :: 0 <= k < |s| ==> ix[k] == s[k].index
  {
    seq(|s|, k requires 0 <= k < |s| => s[k].index)
  }

  /** The connection list the builder computes for node `i` with cap `cap`. */
  function Chosen(positions: seq<Position>, i: nat, cap: int, dist: DistanceFn): (c: seq<nat>)
    requires i < |positions|
    ensures |c| < |positions|
    ensures cap <= 0 ==> c == []
    ensures 0 <= cap ==> |c| <= cap
  {
    var candidates := Candidates(positions, i, dist);
    var sorted := SortByDistance(candidates);
    assert |sorted| == |multiset(sorted)| == |multiset(candidates)| == |candidates|;
    Indices(FirstInRange(sorted, cap))
  }

  lemma {:induction false} InRangePrefix(s: seq<Candidate>, p: nat, q: nat)
    requires p <= q <= |s|
    ensures |InRange(s[..p])| <= |InRange(s[..q])|
    ensures InRange(s[..p]) == InRange(s[..q])[..|InRange(s[..p])|]
    decreases q
  {
    if p < q {
      InRangePrefix(s, p, q - 1);
      assert s[..q][..q - 1] == s[..q - 1];
    }
  }

  /**
    The inner loop of the builder: walk the sorted candidates, stop once the
    cap is reached, and keep each candidate closer than MaxDistance.
  */
  method SelectNeighbours(sorted: seq<Candidate>, maxConnections: int) returns (chosen: seq<nat>)
    ensures chosen == Indices(FirstInRange(sorted, maxConnections))
  {
    chosen := [];
    var connectionCount := 0;
    var p := 0;
    while p < |sorted|
      invariant 0 <= p <= |sorted|
      invariant |chosen| == |InRange(sorted[..p])|
      invariant forall k :: 0 <= k < |chosen| ==> chosen[k] == InRange(sorted[..p])[k].index
      invariant connectionCount == |chosen|
      invariant connectionCount <= if maxConnections <= 0 then 0 else maxConnections
    {
      if connectionCount >= maxConnections {
        break;
      }
      ghost var before := InRange(sorted[..p]);
      assert sorted[..p + 1][..p] == sorted[..p];
      assert InRange(sorted[..p + 1]) == before + if sorted[p].distance < MaxDistance then [sorted[p]] else [];
      if sorted[p].distance < MaxDistance {
        chosen := chosen + [sorted[p].index];
        connectionCount := connectionCount + 1;
      }
      p := p + 1;
    }
    InRangePrefix(sorted, p, |sorted|);
    assert sorted[..|sorted|] == sorted;
  }

  /** Changing one node's connections leaves every position as it was. */
  lemma PositionsKeep(nodes: seq<NodeData>, i: nat, connections: seq<nat>)
    requires i < |nodes|
    ensures Positions(nodes[i := nodes[i].(connections := connections)]) == Positions(nodes)
  {
    var updated := nodes[i := nodes[i].(connections := connections)];
    assert forall k :: 0 <= k < |nodes| ==> Positions(updated)[k] == Positions(nodes)[k];
  }

  /** The second loop of the builder: each node gets its chosen neighbours appended. */
  method ConnectNodes(nodeList: seq<NodeData>, capDraws: seq<real>, dist: DistanceFn) returns (result: seq<NodeData>)
    requires |capDraws| == |nodeList|
    ensures |result| == |nodeList|
    ensures Positions(result) == Positions(nodeList)
    ensures forall i :: 0 <= i < |nodeList| ==>
      result[i] == NodeData(nodeList[i].position,
                            nodeList[i].connections + Chosen(Positions(nodeList), i, MaxConnections(capDraws[i]), dist))
  {
    ghost var positions := Positions(nodeList);
    result := nodeList;
    var i := 0;
    while i < |result|
      invariant 0 <= i <= |nodeList| == |result|
      invariant Positions(result) == positions
      invariant forall k :: 0 <= k < i ==>
        result[k] == NodeData(nodeList[k].position,
                              nodeList[k].connections + Chosen(positions, k, MaxConnections(capDraws[k]), dist))
      invariant forall k :: i <= k < |nodeList| ==> result[k] == nodeList[k]
    {
      var maxConnections := MaxConnections(capDraws[i]);
      var distances := SortByDistance(Candidates(Positions(result), i, dist));
      var chosen := SelectNeighbours(distances, maxConnections);
      PositionsKeep(result, i, result[i].connections + chosen);
      result := result[i := result[i].(connections := result[i].connections + chosen)];
      i := i + 1;
    }
  }

  /** Nodes whose lists are exactly the chosen neighbours are well connected, and a unit cap draw keeps each list to at most six. */
  lemma ChosenEverywhere(nodes: seq<NodeData>, capDraws: seq<real>, dist: DistanceFn)
    requires |capDraws| == |nodes|
    requires forall i :: 0 <= i < |nodes| ==>
      nodes[i].connections == Chosen(Positions(nodes), i, MaxConnections(capDraws[i]), dist)
    ensures WellConnected(nodes, dist)
    ensures (forall i :: 0 <= i < |capDraws| ==> IsUnitDraw(capDraws[i])) ==>
      forall i :: 0 <= i < |nodes| ==> |nodes[i].connections| <= BaseConnections + 2
  {
    forall i | 0 <= i < |nodes|
      ensures ChosenWellFormed(Positions(nodes), i, nodes[i].connections, dist)
      ensures MaxConnections(capDraws[i]) >= 0 ==> |nodes[i].connections| <= MaxConnections(capDraws[i])
    {
      ChosenProperties(Positions(nodes), i, MaxConnections(capDraws[i]), dist);
    }
  }

  /** The whole `nodes` computation: placement, then connection. */
  method NeuralNetworkNodes(posDraws: seq<PositionDraw>, capDraws: seq<real>, dist: DistanceFn)
    returns (nodes: seq<NodeData>)
    requires |posDraws| == NumNodes && |capDraws| == NumNodes
    ensures |nodes| == |posDraws|
    ensures forall i :: 0 <= i < |nodes| ==> nodes[i].position == PlaceNode(posDraws[i])
    ensures forall i :: 0 <= i < |nodes| ==>
      nodes[i].connections == Chosen(Positions(nodes), i, MaxConnections(capDraws[i]), dist)
    ensures WellConnected(nodes, dist)
    ensures (forall i :: 0 <= i < |capDraws| ==> IsUnitDraw(capDraws[i])) ==>
      forall i :: 0 <= i < |nodes| ==> |nodes[i].connections| <= BaseConnections + 2
  {
    var placed := GenerateNodes(posDraws);
    nodes := ConnectNodes(placed, capDraws, dist);
    forall i | 0 <= i < |nodes|
      ensures nodes[i].connections == Chosen(Positions(nodes), i, MaxConnections(capDraws[i]), dist)
    {
      assert [] + Chosen(Positions(placed), i, MaxConnections(capDraws[i]), dist)
          == Chosen(Positions(placed), i, MaxConnections(capDraws[i]), dist);
    }
    ChosenEverywhere(nodes, capDraws, dist);
  }

  // ---------------------------------------------------------------------------
  // Properties of the connection rule
  // ---------------------------------------------------------------------------

  /** No repeated entries. */
  predicate NoDuplicates(s: seq<nat>) {
    forall k, l :: 0 <= k < l < |s| ==> s[k] != s[l]
  }

  /** A connection list for node `i`: in range, no self-loop, distances below MaxDistance, no repeats. */
  predicate ChosenWellFormed(positions: seq<Position>, i: nat, c: seq<nat>, dist: DistanceFn)
    requires i < |positions|
  {
    && (forall k :: 0 <= k < |c| ==> c[k] < |positions| && c[k] != i)
    && (forall k :: 0 <= k < |c| && c[k] < |positions| ==> dist(positions[c[k]], positions[i]) < MaxDistance)
    && NoDuplicates(c)
  }

  /** Every node's connection list is well formed. */
  predicate WellConnected(nodes: seq<NodeData>, dist: DistanceFn) {
    forall i :: 0 <= i < |nodes| ==> ChosenWellFormed(Positions(nodes), i, nodes[i].connections, dist)
  }

  /** On a list sorted by distance the in-range entries form a prefix, and all later entries are out of range. */
  lemma {:induction false} InRangeOfSortedIsPrefix(s: seq<Candidate>)
    requires SortedByDistance(s)
    ensures |InRange(s)| <= |s| && InRange(s) == s[..|InRange(s)|]
    ensures forall q :: |InRange(s)| <= q < |s| ==> MaxDistance <= s[q].distance
  {
    if s != [] {
      var init := s[..|s| - 1];
      var last := s[|s| - 1];
      assert SortedByDistance(init);
      InRangeOfSortedIsPrefix(init);
      if last.distance < MaxDistance {
        AllInRange(init, last.distance);
        assert InRange(s) == init + [last];
        assert init + [last] == s == s[..|s|];
      } else {
        var m := |InRange(init)|;
        assert InRange(s) == InRange(init);
        assert init[..m] == s[..m];
        forall q | m <= q < |s| ensures MaxDistance <= s[q].distance {
          if q < |init| {
            assert s[q] == init[q];
          }
        }
      }
    }
  }

  /** When the entries are sorted and the last one is in range, all are. */
  lemma {:induction false} AllInRange(s: seq<Candidate>, bound: real)
    requires SortedByDistance(s)
    requires forall k :: 0 <= k < |s| ==> s[k].distance <= bound
    requires bound < MaxDistance
    ensures InRange(s) == s
  {
    if s != [] {
      var init := s[..|s| - 1];
      assert SortedByDistance(init);
      AllInRange(init, bound);
      assert init + [s[|s| - 1]] == s;
    }
  }

  /** The sorted candidate list of node `i` and the facts the properties below rest on. */
  lemma SortedCandidates(positions: seq<Position>, i: nat, dist: DistanceFn)
    requires i < |positions|
    ensures var s := SortByDistance(Candidates(positions, i, dist));
      && SortedByDistance(s)
      && DistinctIndices(s)
      && (forall k :: 0 <= k < |s| ==> s[k].index < |positions| && s[k].index != i)
      && (forall k :: 0 <= k < |s| ==> s[k].distance == dist(positions[s[k].index], positions[i]))
      && (forall j :: 0 <= j < |positions| && j != i ==> Candidate(j, dist(positions[j], positions[i])) in s)
  {
    var c := Candidates(positions, i, dist);
    var s := SortByDistance(c);
    CandidatesUpToComplete(positions, i, dist, |positions|);
    assert DistinctIndices(c);
    forall k | 0 <= k < |s|
      ensures s[k].index < |positions| && s[k].index != i
      ensures s[k].distance == dist(positions[s[k].index], positions[i])
    {
      assert s[k] in c;
    }
  }

  /**
    One connection list is the first min(cap, m) entries of the ascending
    candidate list, m being the number of candidates closer than
    MaxDistance; so it names existing nodes other than `i`, each closer than
    MaxDistance, without repeats, and at most `cap` of them.
  */
  lemma ChosenProperties(positions: seq<Position>, i: nat, cap: int, dist: DistanceFn)
    requires i < |positions|
    ensures var s := SortByDistance(Candidates(positions, i, dist));
      && |InRange(s)| <= |s|
      && Chosen(positions, i, cap, dist) == Indices(s[..Limit(cap, |InRange(s)|)])
    ensures ChosenWellFormed(positions, i, Chosen(positions, i, cap, dist), dist)
    ensures cap >= 0 ==> |Chosen(positions, i, cap, dist)| <= cap
  {
    var s := SortByDistance(Candidates(positions, i, dist));
    SortedCandidates(positions, i, dist);
    PrefixChoice(s, cap);
  }

  /** The chosen neighbours come in ascending order of distance. */
  lemma ChosenOrderedByDistance(positions: seq<Position>, i: nat, cap: int, dist: DistanceFn)
    requires i < |positions|
    ensures var c := Chosen(positions, i, cap, dist);
      forall k, l :: 0 <= k < l < |c| ==>
        c[k] < |positions| && c[l] < |positions| &&
        dist(positions[c[k]], positions[i]) <= dist(positions[c[l]], positions[i])
  {
    var s := SortByDistance(Candidates(positions, i, dist));
    SortedCandidates(positions, i, dist);
    PrefixChoice(s, cap);
    var c := Chosen(positions, i, cap, dist);
    forall k, l | 0 <= k < l < |c|
      ensures c[k] < |positions| && c[l] < |positions|
      ensures dist(positions[c[k]], positions[i]) <= dist(positions[c[l]], positions[i])
    {
      assert c[k] == s[k].index && c[l] == s[l].index;
    }
  }

  /** No in-range node left out is closer than a chosen one. */
  lemma ChosenAreNearest(positions: seq<Position>, i: nat, cap: int, dist: DistanceFn, j: nat)
    requires i < |positions| && j < |positions| && j != i
    requires dist(positions[j], positions[i]) < MaxDistance
    requires j !in Chosen(positions, i, cap, dist)
    ensures var c := Chosen(positions, i, cap, dist);
      forall k :: 0 <= k < |c| ==>
        c[k] < |positions| && dist(positions[c[k]], positions[i]) <= dist(positions[j], positions[i])
  {
    var s := SortByDistance(Candidates(positions, i, dist));
    SortedCandidates(positions, i, dist);
    PrefixChoice(s, cap);
    var c := Chosen(positions, i, cap, dist);
    var q :| 0 <= q < |s| && s[q] == Candidate(j, dist(positions[j], positions[i]));
    forall k | 0 <= k < |c|
      ensures c[k] < |positions| && dist(positions[c[k]], positions[i]) <= dist(positions[j], positions[i])
    {
      assert c[k] == s[k].index;
    }
  }

  /** Fewer than `cap` connections means every in-range node was connected. */
  lemma ChosenComplete(positions: seq<Position>, i: nat, cap: int, dist: DistanceFn, j: nat)
    requires i < |positions| && j < |positions| && j != i
    requires dist(positions[j], positions[i]) < MaxDistance
    requires |Chosen(positions, i, cap, dist)| < cap
    ensures j in Chosen(positions, i, cap, dist)
  {
    var s := SortByDistance(Candidates(positions, i, dist));
    SortedCandidates(positions, i, dist);
    PrefixChoice(s, cap);
    var q :| 0 <= q < |s| && s[q] == Candidate(j, dist(positions[j], positions[i]));
  }

  /**
    Taking the first Limit(cap, m) entries of a sorted candidate list whose
    first m entries are the in-range ones: the result is in range, ordered,
    free of repeats, no in-range entry left out is closer than one taken,
    and if fewer than `cap` were taken then every in-range entry was.
  */
  lemma PrefixChoice(s: seq<Candidate>, cap: int)
    requires SortedByDistance(s) && DistinctIndices(s)
    ensures |InRange(s)| <= |s|
    ensures var len := Limit(cap, |InRange(s)|);
      var c := Indices(FirstInRange(s, cap));
      && c == Indices(s[..len])
      && (forall k :: 0 <= k < |c| ==> c[k] == s[k].index && s[k].distance < MaxDistance)
      && NoDuplicates(c)
      && (cap >= 0 ==> |c| <= cap)
      && (forall q, k :: 0 <= q < |s| && s[q].distance < MaxDistance && s[q].index !in c && 0 <= k < |c| ==>
            s[k].distance <= s[q].distance)
      && (|c| < cap ==> forall q :: 0 <= q < |s| && s[q].distance < MaxDistance ==> s[q].index in c)
  {
    InRangeOfSortedIsPrefix(s);
    var m := |InRange(s)|;
    var len := Limit(cap, m);
    var c := Indices(FirstInRange(s, cap));
    assert InRange(s)[..len] == s[..len];
    forall q | 0 <= q < |s| && s[q].distance < MaxDistance
      ensures q < m
      ensures s[q].index !in c ==> len <= q
      ensures |c| < cap ==> s[q].index in c
    {
      if q < len {
        assert c[q] == s[q].index;
      }
    }
    forall k | 0 <= k < |c| ensures s[k].distance < MaxDistance {
      assert s[k] == InRange(s)[k];
    }
  }

  // ---------------------------------------------------------------------------
  // Flattening the connection lists into drawable lines
  // ---------------------------------------------------------------------------

  /** Every stored connection names an existing node (otherwise `nodes[connIndex].position` throws). */
  predicate ValidIndices(nodes: seq<NodeData>) {
    forall i, k :: 0 <= i < |nodes| && 0 <= k < |nodes[i].connections| ==> nodes[i].connections[k] < |nodes|
  }

  /**
    The React key of the line from node `i` to node `j`: `${i}-${j}`. Its
    first '-' ends the digits of `i`.
  */
  function EdgeKey(i: nat, j: nat): (k: string)
    ensures Decimal.FirstIndexOf(k, '-') == |Decimal.NatToString(i)|
  {
    var a, b := Decimal.NatToString(i), Decimal.NatToString(j);
    assert forall m :: 0 <= m < |a| ==> a[m] != '-';
    Decimal.FirstIndexAfter(a, b, '-');
    a + "-" + b
  }

  /** The key reads back as its pair: the digits before its first '-' have the value `i`, those after it `j`. */
  lemma EdgeKeyReadBack(i: nat, j: nat)
    ensures var k, n := EdgeKey(i, j), |Decimal.NatToString(i)|;
      && n < |k| && Decimal.FirstIndexOf(k, '-') == n
      && Decimal.AllDigits(k[..n]) && Decimal.DecimalValue(k[..n]) == i
      && Decimal.AllDigits(k[n + 1..]) && Decimal.DecimalValue(k[n + 1..]) == j
  {
    var a, b := Decimal.NatToString(i), Decimal.NatToString(j);
    var k := EdgeKey(i, j);
    Decimal.DecimalRoundTrip(i);
    Decimal.DecimalRoundTrip(j);
    assert k[..|a|] == a;
    assert k[|a| + 1..] == b;
  }

  /** The sum of the connection-list lengths of the first `n` nodes. */
  function TotalConnections(nodes: seq<NodeData>, n: nat): nat
    requires n <= |nodes|
  {
    if n == 0 then 0 else TotalConnections(nodes, n - 1) + |nodes[n - 1].connections|
  }

  /** The (owner, neighbour) pairs of node `i`, in list order. */
  function NodePairs(nodes: seq<NodeData>, i: nat): (ps: seq<(nat, nat)>)
    requires i < |nodes|
    ensures |ps| == |nodes[i].connections|
    ensures forall k :: 0 <= k < |ps| ==> ps[k] == (i, nodes[i].connections[k])
  {
    seq(|nodes[i].connections|, k requires 0 <= k < |nodes[i].connections| => (i, nodes[i].connections[k]))
  }

  /** The (owner, neighbour) pairs of the first `n` nodes, in the order `forEach` visits them. */
  function EdgePairsUpTo(nodes: seq<NodeData>, n: nat): (ps: seq<(nat, nat)>)
    requires n <= |nodes|
    ensures |ps| == TotalConnections(nodes, n)
    ensures forall e :: 0 <= e < |ps| ==> ps[e].0 < n
    ensures ValidIndices(nodes) ==> forall e :: 0 <= e < |ps| ==> ps[e].1 < |nodes|
  {
    if n == 0 then [] else EdgePairsUpTo(nodes, n - 1) + NodePairs(nodes, n - 1)
  }

  function EdgePairs(nodes: seq<NodeData>): seq<(nat, nat)> {
    EdgePairsUpTo(nodes, |nodes|)
  }

  /** Every pair comes from a stored connection. */
  lemma {:induction false} EdgePairOrigin(nodes: seq<NodeData>, n: nat, e: nat)
    requires n <= |nodes| && e < |EdgePairsUpTo(nodes, n)|
    ensures var p := EdgePairsUpTo(nodes, n)[e];
      p.0 < n && p.1 in nodes[p.0].connections
  {
    var prev := EdgePairsUpTo(nodes, n - 1);
    if e < |prev| {
      EdgePairOrigin(nodes, n - 1, e);
    } else {
      assert EdgePairsUpTo(nodes, n)[e] == NodePairs(nodes, n - 1)[e - |prev|];
    }
  }

  /**
    The line for the pair (i, j): from node i's position to node j's, keyed
    `i-j`. Two mutual neighbours give two lines, and their keys differ.
  */
  function LineFor(nodes: seq<NodeData>, e: (nat, nat)): (l: Line)
    requires e.0 < |nodes| && e.1 < |nodes|
    ensures l.start == nodes[e.0].position && l.end == nodes[e.1].position
    ensures e.0 != e.1 ==> l.key != EdgeKey(e.1, e.0)
  {
    EdgeKeyInjective(e.0, e.1, e.1, e.0);
    Line(nodes[e.0].position, nodes[e.1].position, EdgeKey(e.0, e.1))
  }

  /** The inner `forEach`: pushes one line per connection of node `i`, in list order. */
  method PushNodeLines(nodes: seq<NodeData>, i: nat, lines: seq<Line>) returns (out: seq<Line>)
    requires i < |nodes| && ValidIndices(nodes)
    ensures |out| == |lines| + |nodes[i].connections|
    ensures out[..|lines|] == lines
    ensures forall k :: 0 <= k < |nodes[i].connections| ==>
      out[|lines| + k] == LineFor(nodes, (i, nodes[i].connections[k]))
  {
    var node := nodes[i];
    out := lines;
    var k := 0;
    while k < |node.connections|
      invariant 0 <= k <= |node.connections|
      invariant |out| == |lines| + k
      invariant out[..|lines|] == lines
      invariant forall e :: 0 <= e < k ==> out[|lines| + e] == LineFor(nodes, (i, node.connections[e]))
    {
      var connIndex := node.connections[k];
      out := out + [Line(node.position, nodes[connIndex].position, EdgeKey(i, connIndex))];
      k := k + 1;
    }
  }

  /** The `connections` memo: one line per stored connection, node by node. */
  method FlattenEdges(nodes: seq<NodeData>) returns (lines: seq<Line>)
    requires ValidIndices(nodes)
    ensures |lines| == TotalConnections(nodes, |nodes|)
    ensures forall e :: 0 <= e < |lines| ==> lines[e] == LineFor(nodes, EdgePairs(nodes)[e])
  {
    lines := [];
    var i := 0;
    while i < |nodes|
      invariant 0 <= i <= |nodes|
      invariant |lines| == |EdgePairsUpTo(nodes, i)|
      invariant forall e :: 0 <= e < |lines| ==> lines[e] == LineFor(nodes, EdgePairsUpTo(nodes, i)[e])
    {
      ghost var done := EdgePairsUpTo(nodes, i);
      ghost var before := lines;
      lines := PushNodeLines(nodes, i, lines);
      ghost var next := EdgePairsUpTo(nodes, i + 1);
      assert next == done + NodePairs(nodes, i);
      forall e | 0 <= e < |lines| ensures lines[e] == LineFor(nodes, next[e]) {
        if e < |done| {
          assert lines[e] == lines[..|before|][e] == before[e];
        } else {
          assert next[e] == NodePairs(nodes, i)[e - |done|];
        }
      }
      i := i + 1;
    }
  }

  predicate DistinctPairs(ps: seq<(nat, nat)>) {
    forall e, f :: 0 <= e < f < |ps| ==> ps[e] != ps[f]
  }

  /** Pairs are distinct when every connection list is. */
  lemma {:induction false} EdgePairsDistinct(nodes: seq<NodeData>, n: nat)
    requires n <= |nodes|
    requires forall i :: 0 <= i < |nodes| ==> NoDuplicates(nodes[i].connections)
    ensures DistinctPairs(EdgePairsUpTo(nodes, n))
  {
    if n > 0 {
      EdgePairsDistinct(nodes, n - 1);
      var prev := EdgePairsUpTo(nodes, n - 1);
      var mine := NodePairs(nodes, n - 1);
      var ps := EdgePairsUpTo(nodes, n);
      assert ps == prev + mine;
      forall e, f | 0 <= e < f < |ps| ensures ps[e] != ps[f] {
        if f < |prev| {
          assert ps[e] == prev[e] && ps[f] == prev[f];
        } else if e < |prev| {
          assert ps[e] == prev[e] && ps[e].0 < n - 1;
          assert ps[f] == mine[f - |prev|];
          assert ps[f].0 == n - 1;
        } else {
          var c := nodes[n - 1].connections;
          assert ps[e] == mine[e - |prev|] && ps[f] == mine[f - |prev|];
          assert NoDuplicates(c);
          assert c[e - |prev|] != c[f - |prev|];
        }
      }
    }
  }

  /** Two keys are equal only for the same pair. */
  lemma EdgeKeyInjective(i: nat, j: nat, i': nat, j': nat)
    ensures EdgeKey(i, j) == EdgeKey(i', j') ==> i == i' && j == j'
  {
    if EdgeKey(i, j) == EdgeKey(i', j') {
      Decimal.SplitAtSeparator(Decimal.NatToString(i), Decimal.NatToString(j),
                               Decimal.NatToString(i'), Decimal.NatToString(j'), '-');
      Decimal.NatToStringInjective(i, i');
      Decimal.NatToStringInjective(j, j');
    }
  }

  /** For connection lists without repeats (which the builder guarantees) the line keys are pairwise distinct. */
  lemma FlattenedKeysDistinct(nodes: seq<NodeData>)
    requires ValidIndices(nodes)
    requires forall i :: 0 <= i < |nodes| ==> NoDuplicates(nodes[i].connections)
    ensures var ps := EdgePairs(nodes);
      forall e, f :: 0 <= e < f < |ps| ==> LineFor(nodes, ps[e]).key != LineFor(nodes, ps[f]).key
  {
    var ps := EdgePairs(nodes);
    EdgePairsDistinct(nodes, |nodes|);
    assert DistinctPairs(ps);
    forall e, f | 0 <= e < f < |ps| ensures LineFor(nodes, ps[e]).key != LineFor(nodes, ps[f]).key {
      EdgeKeyInjective(ps[e].0, ps[e].1, ps[f].0, ps[f].1);
    }
  }

  /** A line of the drawn network: it joins two distinct nodes closer than MaxDistance. */
  predicate IsNetworkLine(nodes: seq<NodeData>, dist: DistanceFn, line: Line) {
    exists i: nat, j: nat :: i < |nodes| && j < |nodes| && i != j && j in nodes[i].connections &&
      line == Line(nodes[i].position, nodes[j].position, EdgeKey(i, j)) &&
      dist(nodes[j].position, nodes[i].position) < MaxDistance
  }

  /** A well-connected network names only existing nodes and repeats no connection. */
  lemma WellConnectedLists(nodes: seq<NodeData>, dist: DistanceFn)
    requires WellConnected(nodes, dist)
    ensures ValidIndices(nodes)
    ensures forall i :: 0 <= i < |nodes| ==> NoDuplicates(nodes[i].connections)
  {
    forall i, k | 0 <= i < |nodes| && 0 <= k < |nodes[i].connections|
      ensures nodes[i].connections[k] < |nodes|
    {
      assert ChosenWellFormed(Positions(nodes), i, nodes[i].connections, dist);
    }
    forall i | 0 <= i < |nodes| ensures NoDuplicates(nodes[i].connections) {
      assert ChosenWellFormed(Positions(nodes), i, nodes[i].connections, dist);
    }
  }

  /** In a well-connected network every flattened pair is drawn as a network line. */
  lemma PairIsNetworkLine(nodes: seq<NodeData>, dist: DistanceFn, e: nat)
    requires WellConnected(nodes, dist) && ValidIndices(nodes)
    requires e < |EdgePairs(nodes)|
    ensures IsNetworkLine(nodes, dist, LineFor(nodes, EdgePairs(nodes)[e]))
  {
    EdgePairOrigin(nodes, |nodes|, e);
    var i, j := EdgePairs(nodes)[e].0, EdgePairs(nodes)[e].1;
    var c := nodes[i].connections;
    var k :| 0 <= k < |c| && c[k] == j;
    assert ChosenWellFormed(Positions(nodes), i, c, dist);
    assert Positions(nodes)[j] == nodes[j].position && Positions(nodes)[i] == nodes[i].position;
  }

  /** The built network, flattened: one line per connection, every line an edge of the network, keys unique. */
  method NetworkLines(posDraws: seq<PositionDraw>, capDraws: seq<real>, dist: DistanceFn)
    returns (nodes: seq<NodeData>, lines: seq<Line>)
    requires |posDraws| == NumNodes && |capDraws| == NumNodes
    ensures |nodes| == |posDraws| && WellConnected(nodes, dist)
    ensures forall i :: 0 <= i < |nodes| ==> nodes[i].position == PlaceNode(posDraws[i])
    ensures forall i :: 0 <= i < |nodes| ==>
      nodes[i].connections == Chosen(Positions(nodes), i, MaxConnections(capDraws[i]), dist)
    ensures ValidIndices(nodes) && |lines| == TotalConnections(nodes, |nodes|)
    ensures forall e :: 0 <= e < |lines| ==> lines[e] == LineFor(nodes, EdgePairs(nodes)[e])
    ensures forall e :: 0 <= e < |lines| ==> IsNetworkLine(nodes, dist, lines[e])
    ensures forall e, f :: 0 <= e < f < |lines| ==> lines[e].key != lines[f].key
  {
    nodes := NeuralNetworkNodes(posDraws, capDraws, dist);
    WellConnectedLists(nodes, dist);
    lines := FlattenEdges(nodes);
    FlattenedKeysDistinct(nodes);
    forall e | 0 <= e < |lines| ensures IsNetworkLine(nodes, dist, lines[e]) {
      PairIsNetworkLine(nodes, dist, e);
    }
  }
}
