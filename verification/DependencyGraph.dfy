/** DependencyGraph of utils/utils.go: layering a graph into rounds such that
    every node comes after all it depends on. */
module DependencyGraph {
  import opened Sequences

  /** Nodes by id, each with the ids of the nodes it depends on. */
  type Graph = map<string, set<string>>

  ghost predicate Closed(g: Graph) {
    forall n :: n in g ==> g[n] <= g.Keys && n !in g[n]
  }

  /** A walk along dependencies. */
  ghost predicate Chain(g: Graph, c: seq<string>) {
    && (forall i :: 0 <= i < |c| ==> c[i] in g)
    && (forall i :: 0 <= i < |c| - 1 ==> c[i + 1] in g[c[i]])
  }

  ghost predicate Acyclic(g: Graph) {
    forall c :: Chain(g, c) && |c| > 1 ==> c[0] != c[|c| - 1]
  }

  /** The nodes that can be processed after `done`. */
  ghost function Ready(g: Graph, done: set<string>): set<string> {
    set n | n in g && n !in done && g[n] <= done
  }

  ghost function Union(rounds: seq<seq<string>>): set<string> {
    set i, n | 0 <= i < |rounds| && n in rounds[i] :: n
  }

  /** Each round is, without repetition, all that can be processed after the
      rounds before it. */
  ghost predicate Round(g: Graph, rounds: seq<seq<string>>, i: nat)
    requires i < |rounds|
  {
    && NoDup(rounds[i]) && rounds[i] != []
    && forall n :: n in rounds[i] <==> n in Ready(g, Union(rounds[..i]))
  }

  ghost predicate IsLayering(g: Graph, rounds: seq<seq<string>>) {
    forall i :: 0 <= i < |rounds| ==> Round(g, rounds, i)
  }

  ghost predicate Layers(g: Graph, rounds: seq<seq<string>>) {
    IsLayering(g, rounds) && Union(rounds) == g.Keys
  }

  class Dependencies {
    var nodes: Graph

    constructor ()
      ensures nodes == map[]
    {
      nodes := map[];
    }

    ghost predicate Valid()
      reads this
    {
      Closed(nodes)
    }

    /** A node that is there keeps its dependencies. */
    method NewNode(id: string)
      requires Valid()
      modifies this
      ensures Valid()
      ensures nodes == if id in old(nodes) then old(nodes) else old(nodes)[id := {}]
    {
      if id !in nodes {
        nodes := nodes[id := {}];
      }
    }

    method AddDependency(node: string, to: string) returns (ok: bool)
      requires Valid()
      modifies this
      ensures Valid()
      ensures ok <==> node in old(nodes) && to in old(nodes) && node != to
      ensures nodes == if ok then old(nodes)[node := old(nodes)[node] + {to}] else old(nodes)
    {
      if node !in nodes || to !in nodes || node == to {
        return false;
      }
      nodes := nodes[node := nodes[node] + {to}];
      return true;
    }

    /** Nodes and dependencies are visited in no particular order. */
    method GenerateTraversalMap() returns (r: Result<seq<seq<string>>>)
      requires Valid()
      ensures r.Ok? <==> Acyclic(nodes)
      ensures r.Ok? ==> Layers(nodes, r.value)
    {
      var result: seq<seq<string>> := [];
      var processed: set<string> := {};
      assert Union(result) == {};
      while |processed| < |nodes|
        invariant processed <= nodes.Keys && processed == Union(result)
        invariant IsLayering(nodes, result)
        decreases |nodes| - |processed|
      {
        var tmpProcessed: seq<string> := [];
        var todo := nodes.Keys;
        while todo != {}
          invariant todo <= nodes.Keys
          invariant NoDup(tmpProcessed)
          invariant forall n :: n in tmpProcessed <==> n in Ready(nodes, processed) && n !in todo
        {
          var node :| node in todo;
          todo := todo - {node};
          if |nodes[node]| > |processed| {
            SubsetSize(nodes[node], processed);
            continue;
          }
          if node in processed {
            continue;
          }
          if |nodes[node]| == 0 {
            tmpProcessed := tmpProcessed + [node];
            continue;
          }
          var ok := true;
          var deps := nodes[node];
          while deps != {}
            invariant deps <= nodes[node]
            invariant ok <==> nodes[node] - deps <= processed
          {
            var dep :| dep in deps;
            deps := deps - {dep};
            if dep !in processed {
              ok := false;
              break;
            }
          }
          if ok {
            tmpProcessed := tmpProcessed + [node];
          }
        }
        if |tmpProcessed| == 0 {
          StuckHasCycle(nodes, processed);
          return Err;
        }
        ExtendLayering(nodes, result, tmpProcessed);
        assert tmpProcessed[0] in tmpProcessed;
        SubsetSize(processed, processed + (set n | n in tmpProcessed));
        processed := processed + (set n | n in tmpProcessed);
        result := result + [tmpProcessed];
        SubsetSize(processed, nodes.Keys);
      }
      SameSize(processed, nodes.Keys);
      LayeredIsAcyclic(nodes, result);
      return Ok(result);
    }
  }

  lemma SubsetSize<T>(a: set<T>, b: set<T>)
    ensures a <= b ==> |a| <= |b|
    ensures a < b ==> |a| < |b|
  {
    if a <= b {
      assert b == a + (b - a);
    }
  }

  lemma SameSize<T>(a: set<T>, b: set<T>)
    requires a <= b && |a| >= |b|
    ensures a == b
  {
    SubsetSize(a, b);
  }

  lemma UnionAppend(rounds: seq<seq<string>>, round: seq<string>)
    ensures Union(rounds + [round]) == Union(rounds) + (set n | n in round)
  {
    var more := rounds + [round];
    forall n
      ensures n in Union(more) <==> n in Union(rounds) || n in round
    {
      if n in round {
        assert more[|rounds|] == round;
      }
      if i :| 0 <= i < |rounds| && n in rounds[i] {
        assert more[i] == rounds[i];
      }
    }
  }

  lemma ExtendLayering(g: Graph, rounds: seq<seq<string>>, round: seq<string>)
    requires IsLayering(g, rounds) && NoDup(round) && round != []
    requires forall n :: n in round <==> n in Ready(g, Union(rounds))
    ensures IsLayering(g, rounds + [round])
    ensures Union(rounds + [round]) == Union(rounds) + (set n | n in round)
  {
    var more := rounds + [round];
    forall i | 0 <= i < |more|
      ensures Round(g, more, i)
    {
      if i < |rounds| {
        assert Round(g, rounds, i);
        assert more[..i] == rounds[..i];
      } else {
        assert more[..i] == rounds;
      }
    }
    UnionAppend(rounds, round);
  }

  /** From any unprocessed node one can walk on for ever if none is ready. */
  lemma {:induction false} Walk(g: Graph, done: set<string>, start: string, length: nat) returns (c: seq<string>)
    requires Closed(g) && Ready(g, done) == {} && start in g && start !in done && length > 0
    ensures Chain(g, c) && |c| == length && c[0] == start
    ensures forall n :: n in c ==> n in g.Keys - done
    decreases length
  {
    if length == 1 {
      c := [start];
    } else {
      assert start !in Ready(g, done);
      var next :| next in g[start] && next !in done;
      var rest := Walk(g, done, next, length - 1);
      c := [start] + rest;
    }
  }

  lemma {:induction false} Pigeonhole(c: seq<string>, s: set<string>) returns (i: nat, j: nat)
    requires |c| > |s| && forall n :: n in c ==> n in s
    ensures i < j < |c| && c[i] == c[j]
  {
    var last := |c| - 1;
    assert c[last] in c;
    if c[last] in c[..last] {
      i :| 0 <= i < last && c[..last][i] == c[last];
      j := last;
    } else {
      i, j := Pigeonhole(c[..last], s - {c[last]});
    }
  }

  /** No progress means a cycle. */
  lemma StuckHasCycle(g: Graph, done: set<string>)
    requires Closed(g) && done <= g.Keys && done != g.Keys && Ready(g, done) == {}
    ensures !Acyclic(g)
  {
    var left := g.Keys - done;
    var start :| start in g.Keys && start !in done;
    var c := Walk(g, done, start, |left| + 1);
    var i, j := Pigeonhole(c, left);
    var cycle := c[i..j + 1];
    assert Chain(g, cycle) && |cycle| > 1 && cycle[0] == cycle[|cycle| - 1];
  }

  /** A dependency lies in an earlier round. */
  lemma DependencyEarlier(g: Graph, rounds: seq<seq<string>>, i: nat, n: string, d: string) returns (j: nat)
    requires IsLayering(g, rounds) && i < |rounds| && n in rounds[i] && n in g && d in g[n]
    ensures j < i && d in rounds[j]
  {
    assert Round(g, rounds, i);
    assert d in Union(rounds[..i]);
    j :| 0 <= j < i && d in rounds[..i][j];
  }

  /** A node that is not in the first round has a dependency in the one before. */
  lemma DependencyJustBefore(g: Graph, rounds: seq<seq<string>>, i: nat, n: string) returns (d: string)
    requires IsLayering(g, rounds) && 0 < i < |rounds| && n in rounds[i]
    ensures n in g && d in g[n] && d in rounds[i - 1]
  {
    assert Round(g, rounds, i) && Round(g, rounds, i - 1);
    assert rounds[..i] == rounds[..i - 1] + [rounds[i - 1]];
    UnionAppend(rounds[..i - 1], rounds[i - 1]);
    assert n !in Ready(g, Union(rounds[..i - 1]));
    d :| d in g[n] && d !in Union(rounds[..i - 1]);
  }

  lemma {:induction false} ChainBound(g: Graph, rounds: seq<seq<string>>, i: nat, c: seq<string>)
    requires IsLayering(g, rounds) && i < |rounds| && Chain(g, c) && c != [] && c[0] in rounds[i]
    ensures |c| <= i + 1
    ensures |c| > 1 ==> exists j :: 0 <= j < i && c[|c| - 1] in rounds[j]
  {
    if |c| > 1 {
      var j := DependencyEarlier(g, rounds, i, c[0], c[1]);
      ChainBound(g, rounds, j, c[1..]);
    }
  }

  lemma {:induction false} ChainExists(g: Graph, rounds: seq<seq<string>>, i: nat, n: string) returns (c: seq<string>)
    requires IsLayering(g, rounds) && i < |rounds| && n in rounds[i]
    ensures Chain(g, c) && |c| == i + 1 && c[0] == n
  {
    assert Round(g, rounds, i);
    c := [n];
    if i > 0 {
      var d := DependencyJustBefore(g, rounds, i, n);
      var rest := ChainExists(g, rounds, i - 1, d);
      c := c + rest;
    }
  }

  /** A node is in one round only. */
  lemma OneRound(g: Graph, rounds: seq<seq<string>>, i: nat, j: nat, n: string)
    requires IsLayering(g, rounds) && i < |rounds| && j < |rounds| && n in rounds[i] && n in rounds[j]
    ensures i == j
  {
    var c := ChainExists(g, rounds, i, n);
    ChainBound(g, rounds, j, c);
    c := ChainExists(g, rounds, j, n);
    ChainBound(g, rounds, i, c);
  }

  lemma LayeredIsAcyclic(g: Graph, rounds: seq<seq<string>>)
    requires Layers(g, rounds)
    ensures Acyclic(g)
  {
    forall c | Chain(g, c) && |c| > 1
      ensures c[0] != c[|c| - 1]
    {
      assert c[0] in Union(rounds);
      var i :| 0 <= i < |rounds| && c[0] in rounds[i];
      ChainBound(g, rounds, i, c);
      var j :| 0 <= j < i && c[|c| - 1] in rounds[j];
      if c[|c| - 1] == c[0] {
        OneRound(g, rounds, i, j, c[0]);
      }
    }
  }

  /** The rounds partition the nodes, and the number of a node's round is the
      length of the longest chain of dependencies below it. */
  lemma RoundIsDepth(g: Graph, rounds: seq<seq<string>>, n: string) returns (i: nat, longest: seq<string>)
    requires Layers(g, rounds) && n in g
    ensures i < |rounds| && n in rounds[i] && NoDup(rounds[i])
    ensures forall j :: 0 <= j < |rounds| && n in rounds[j] ==> j == i
    ensures Chain(g, longest) && longest != [] && longest[0] == n && |longest| == i + 1
    ensures forall c :: Chain(g, c) && c != [] && c[0] == n ==> |c| <= i + 1
  {
    assert n in Union(rounds);
    i :| 0 <= i < |rounds| && n in rounds[i];
    assert Round(g, rounds, i);
    forall j | 0 <= j < |rounds| && n in rounds[j]
      ensures j == i
    {
      OneRound(g, rounds, i, j, n);
    }
    longest := ChainExists(g, rounds, i, n);
    forall c | Chain(g, c) && c != [] && c[0] == n
      ensures |c| <= i + 1
    {
      ChainBound(g, rounds, i, c);
    }
  }

  /** Any way to place the nodes such that dependencies come strictly earlier. */
  ghost predicate Schedule(g: Graph, place: map<string, nat>) {
    && place.Keys == g.Keys
    && forall n, d :: n in g && d in g[n] ==> d in place && place[d] < place[n]
  }

  /** No schedule has any node earlier, so none needs fewer rounds. */
  lemma {:induction false} RoundsAreMinimal(
    g: Graph, rounds: seq<seq<string>>, place: map<string, nat>, i: nat, n: string)
    requires IsLayering(g, rounds) && Schedule(g, place) && i < |rounds| && n in rounds[i]
    ensures n in place && place[n] >= i
  {
    assert Round(g, rounds, i);
    if i > 0 {
      var d := DependencyJustBefore(g, rounds, i, n);
      RoundsAreMinimal(g, rounds, place, i - 1, d);
    }
  }

  lemma {:induction false} SamePrefix(g: Graph, a: seq<seq<string>>, b: seq<seq<string>>, i: nat)
    requires Layers(g, a) && Layers(g, b) && i <= |a| && i <= |b|
    ensures Union(a[..i]) == Union(b[..i])
  {
    if i > 0 {
      SamePrefix(g, a, b, i - 1);
      assert Round(g, a, i - 1) && Round(g, b, i - 1);
      assert a[..i] == a[..i - 1] + [a[i - 1]] && b[..i] == b[..i - 1] + [b[i - 1]];
      UnionAppend(a[..i - 1], a[i - 1]);
      UnionAppend(b[..i - 1], b[i - 1]);
    }
  }

  lemma RoundNotEmpty(g: Graph, rounds: seq<seq<string>>, i: nat)
    requires Layers(g, rounds) && i < |rounds|
    ensures Union(rounds[..i]) != g.Keys
  {
    assert Round(g, rounds, i);
    assert rounds[i][0] in rounds[i];
  }

  lemma NoMoreRounds(g: Graph, a: seq<seq<string>>, b: seq<seq<string>>)
    requires Layers(g, a) && Layers(g, b)
    ensures |b| <= |a|
  {
    assert a[..|a|] == a;
    if |b| > |a| {
      RoundNotEmpty(g, b, |a|);
      SamePrefix(g, a, b, |a|);
    }
  }

  /** Whatever order the nodes are visited in, the rounds are the same sets. */
  lemma RoundsAreDetermined(g: Graph, a: seq<seq<string>>, b: seq<seq<string>>)
    requires Layers(g, a) && Layers(g, b)
    ensures |a| == |b|
    ensures forall i, n :: 0 <= i < |a| ==> (n in a[i] <==> n in b[i])
  {
    NoMoreRounds(g, a, b);
    NoMoreRounds(g, b, a);
    forall i, n | 0 <= i < |a|
      ensures n in a[i] <==> n in b[i]
    {
      SamePrefix(g, a, b, i);
      assert Round(g, a, i) && Round(g, b, i);
    }
  }
}
