/** References between schemas as a finite graph, and the layers that a bottom-up order goes through. */
module SchemaGraph {

  type Name = string

  /** Every schema with the names it references, which need not all exist. */
  type Graph = map<Name, set<Name>>

  /** Layer 0 is empty; a schema is in layer k + 1 when everything it references is in layer k. */
  function Layer(g: Graph, k: nat): set<Name> {
    if k == 0 then {} else set n | n in g && g[n] <= Layer(g, k - 1)
  }

  /** A chain of references, from dependent to referent. */
  ghost predicate IsChain(g: Graph, chain: seq<Name>) {
    && (forall i | 0 <= i < |chain| :: chain[i] in g)
    && (forall i | 0 <= i < |chain| - 1 :: chain[i + 1] in g[chain[i]])
  }

  ghost predicate IsCycle(g: Graph, chain: seq<Name>) {
    IsChain(g, chain) && |chain| >= 2 && chain[0] == chain[|chain| - 1]
  }

  ghost predicate Acyclic(g: Graph) {
    forall chain :: !IsCycle(g, chain)
  }

  /** All referenced schemas exist. */
  ghost predicate Closed(g: Graph) {
    forall n | n in g :: g[n] <= g.Keys
  }

  ghost predicate DepthAtMost(g: Graph, depth: nat) {
    forall chain | IsChain(g, chain) :: |chain| <= depth
  }

  lemma {:induction false} LayersGrow(g: Graph, k: nat)
    ensures Layer(g, k) <= Layer(g, k + 1)
  {
    if k > 0 {
      LayersGrow(g, k - 1);
    }
  }

  lemma {:induction false} LaterLayer(g: Graph, k: nat, l: nat)
    requires k <= l
    ensures Layer(g, k) <= Layer(g, l)
    decreases l - k
  {
    if k < l {
      LaterLayer(g, k, l - 1);
      LayersGrow(g, l - 1);
    }
  }

  // ---------------------------------------------------------------- a schema in a layer is well founded

  /** Along a chain the layer number goes down by one each time. */
  lemma {:induction false} ChainDescends(g: Graph, chain: seq<Name>, k: nat, i: nat)
    requires IsChain(g, chain) && i < |chain| && chain[0] in Layer(g, k)
    ensures i < k && chain[i] in Layer(g, k - i)
    decreases i
  {
    if i > 0 {
      ChainDescends(g, chain, k, i - 1);
      assert chain[i - 1 + 1] in g[chain[i - 1]];
    }
  }

  /** No chain ever leads from a schema in a layer to a cycle, nor to a schema that does not exist. */
  lemma {:induction false} LayeredReachesNoCycle(g: Graph, k: nat, chain: seq<Name>, cycle: seq<Name>)
    requires IsChain(g, chain) && chain != [] && IsCycle(g, cycle) && chain[|chain| - 1] == cycle[0]
    ensures chain[0] !in Layer(g, k)
  {
    if chain[0] in Layer(g, k) {
      ChainDescends(g, chain, k, |chain| - 1);
      CycleHasNoLayer(g, k - (|chain| - 1), cycle);
      assert false;
    }
  }

  lemma {:induction false} CycleHasNoLayer(g: Graph, k: nat, cycle: seq<Name>)
    requires IsCycle(g, cycle)
    ensures cycle[0] !in Layer(g, k)
    decreases k
  {
    if cycle[0] in Layer(g, k) {
      ChainDescends(g, cycle, k, |cycle| - 1);
      CycleHasNoLayer(g, k - (|cycle| - 1), cycle);
      assert false;
    }
  }

  lemma LayeredReachesNothingMissing(g: Graph, k: nat, chain: seq<Name>, missing: Name)
    requires IsChain(g, chain) && chain != [] && missing in g[chain[|chain| - 1]] && missing !in g
    ensures chain[0] !in Layer(g, k)
  {
    if chain[0] in Layer(g, k) {
      ChainDescends(g, chain, k, |chain| - 1);
      assert false;
    }
  }

  // ---------------------------------------------------------------- a well-founded graph is all layers

  /** What is in no layer up to k starts a chain of more than k schemas. */
  lemma {:induction false} OutsideLayerChain(g: Graph, n: Name, k: nat) returns (chain: seq<Name>)
    requires Closed(g) && n in g && n !in Layer(g, k)
    ensures IsChain(g, chain) && |chain| == k + 1 && chain[0] == n
    decreases k
  {
    if k == 0 {
      chain := [n];
    } else {
      var m :| m in g[n] && m !in Layer(g, k - 1);
      var rest := OutsideLayerChain(g, m, k - 1);
      chain := [n] + rest;
    }
  }

  lemma DepthBoundsLayers(g: Graph, depth: nat)
    requires Closed(g) && DepthAtMost(g, depth)
    ensures Layer(g, depth) == g.Keys
  {
    forall n | n in g
      ensures n in Layer(g, depth)
    {
      if n !in Layer(g, depth) {
        var chain := OutsideLayerChain(g, n, depth);
        assert false;
      }
    }
    assert Layer(g, depth) <= g.Keys;
  }

  lemma {:induction false} Pigeonhole(s: seq<Name>, holes: set<Name>) returns (i: nat, j: nat)
    requires |s| > |holes| && forall x | x in s :: x in holes
    ensures i < j < |s| && s[i] == s[j]
    decreases |s|
  {
    var last := s[|s| - 1];
    if k :| 0 <= k < |s| - 1 && s[k] == last {
      i, j := k, |s| - 1;
    } else {
      var front := s[..|s| - 1];
      assert last in s && forall x | x in front :: x in s;
      i, j := Pigeonhole(front, holes - {last});
    }
  }

  lemma AcyclicDepth(g: Graph)
    requires Acyclic(g)
    ensures DepthAtMost(g, |g|)
  {
    assert |g| == |g.Keys|;
    forall chain | IsChain(g, chain)
      ensures |chain| <= |g|
    {
      if |chain| > |g| {
        var i, j := Pigeonhole(chain, g.Keys);
        assert IsCycle(g, chain[i..j + 1]);
        assert false;
      }
    }
  }

  /** In a finite acyclic graph without missing schemas everything is in a layer, at the latest in
      the one numbered like the size of the graph. */
  lemma AcyclicIsLayered(g: Graph)
    requires Closed(g) && Acyclic(g)
    ensures Layer(g, |g|) == g.Keys
  {
    AcyclicDepth(g);
    DepthBoundsLayers(g, |g|);
  }
}
