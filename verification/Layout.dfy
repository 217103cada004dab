/**
 The topological layout: depths by Kahn's algorithm, and the positions that they give.

 For any graph whose edges join its own nodes (parallel edges and self-loops included) the algorithm succeeds exactly
 when there is no cycle, and then the depth of a node is the length of the longest path that ends in it.
 */
module Layout {
  import opened Prelude
  import opened Text

  datatype Net = Net(nodes: seq<Id>, edges: seq<(Id, Id)>)

  predicate NetOk(net: Net) {
    (forall i, j :: 0 <= i < j < |net.nodes| ==> net.nodes[i] != net.nodes[j]) &&
    forall e :: e in net.edges ==> e.0 in net.nodes && e.1 in net.nodes
  }

  function Preds(net: Net, n: Id): set<Id> {
    set p | p in net.nodes && (p, n) in net.edges
  }

  // ----- Paths -----

  predicate StepOk(net: Net, p: seq<Id>, i: nat)
    requires 0 < i < |p|
  {
    (p[i - 1], p[i]) in net.edges
  }

  ghost predicate IsPath(net: Net, p: seq<Id>) {
    p != [] && (forall i :: 0 <= i < |p| ==> p[i] in net.nodes) && forall i :: 0 < i < |p| ==> StepOk(net, p, i)
  }

  ghost predicate PathTo(net: Net, p: seq<Id>, n: Id) {
    IsPath(net, p) && p[|p| - 1] == n
  }

  ghost predicate IsCycle(net: Net, p: seq<Id>) {
    IsPath(net, p) && |p| >= 2 && p[0] == p[|p| - 1]
  }

  ghost predicate Cyclic(net: Net) {
    exists p :: IsCycle(net, p)
  }

  /** The number of edges on the longest path to `n`; that path starts where no edge comes in. */
  ghost predicate LongestTo(net: Net, n: Id, d: nat) {
    (exists p :: PathTo(net, p, n) && |p| == d + 1 && Preds(net, p[0]) == {}) &&
    forall p :: PathTo(net, p, n) ==> |p| <= d + 1
  }

  // ----- What the algorithm keeps -----

  type Depths = map<Id, nat>

  function Depth(d: Depths, n: Id): nat {
    GetOr(d, n, 0)
  }

  /** `Depth(d, n)` is one more than the largest depth among `ps`, or zero if there are none. */
  ghost predicate IsMax(d: Depths, ps: set<Id>, n: Id) {
    (forall p :: p in ps ==> Depth(d, p) + 1 <= Depth(d, n)) &&
    (if ps == {} then Depth(d, n) == 0 else exists p :: p in ps && Depth(d, p) + 1 == Depth(d, n))
  }

  /** The queue and the visited nodes: distinct nodes of the graph. */
  ghost predicate Queued(net: Net, queue: seq<Id>, visited: seq<Id>) {
    NoDup(queue) && NoDup(visited) && (forall n :: n in queue ==> n in net.nodes && n !in visited) &&
    forall n :: n in visited ==> n in net.nodes
  }

  /** `seen[n]` are the predecessors of `n` whose edge to `n` has been followed: visited nodes, all of them if `n` is visited. */
  ghost predicate Followed(net: Net, seen: map<Id, set<Id>>, visited: seq<Id>) {
    forall n :: n in net.nodes ==>
      n in seen && seen[n] <= Preds(net, n) && (forall p :: p in seen[n] ==> p in visited) &&
      (n in visited ==> seen[n] == Preds(net, n))
  }

  /** The counter of a node is the number of its predecessors whose edge is still to be followed. */
  ghost predicate Counted(net: Net, indegree: map<Id, nat>, seen: map<Id, set<Id>>) {
    forall n :: n in net.nodes ==> n in seen && n in indegree && indegree[n] == |Preds(net, n) - seen[n]|
  }

  ghost predicate QueueReady(net: Net, indegree: map<Id, nat>, queue: seq<Id>, visited: seq<Id>) {
    forall n :: n in net.nodes && n !in visited ==> n in indegree && (n in queue <==> indegree[n] == 0)
  }

  ghost predicate Maximal(net: Net, d: Depths, seen: map<Id, set<Id>>) {
    forall n :: n in net.nodes ==> n in seen && IsMax(d, seen[n], n)
  }

  ghost predicate Kahn(net: Net, indegree: map<Id, nat>, d: Depths, queue: seq<Id>, visited: seq<Id>, seen: map<Id, set<Id>>) {
    NetOk(net) && Queued(net, queue, visited) && Followed(net, seen, visited) && Counted(net, indegree, seen) &&
    QueueReady(net, indegree, queue, visited) && Maximal(net, d, seen)
  }

  ghost predicate AllFollowed(net: Net, visited: seq<Id>, seen: map<Id, set<Id>>) {
    forall n, p :: n in net.nodes && n in seen && p in Preds(net, n) && p in visited ==> p in seen[n]
  }

  // ----- The depths are longest paths -----

  ghost predicate Layered(net: Net, d: Depths) {
    NetOk(net) && forall n :: n in net.nodes ==> IsMax(d, Preds(net, n), n)
  }

  lemma DeeperThan(net: Net, d: Depths, p: Id, n: Id)
    requires Layered(net, d) && (p, n) in net.edges
    ensures Depth(d, p) + 1 <= Depth(d, n)
  {
    assert p in Preds(net, n) && IsMax(d, Preds(net, n), n);
  }

  lemma {:induction false} PathBounded(net: Net, d: Depths, p: seq<Id>)
    requires Layered(net, d) && IsPath(net, p)
    ensures Depth(d, p[0]) + |p| - 1 <= Depth(d, p[|p| - 1])
    decreases |p|
  {
    hide IsMax;
    if |p| > 1 {
      var q := p[..|p| - 1];
      forall i | 0 < i < |q|
        ensures StepOk(net, q, i)
      {
        assert StepOk(net, p, i);
      }
      PathBounded(net, d, q);
      assert StepOk(net, p, |p| - 1);
      DeeperThan(net, d, p[|p| - 2], p[|p| - 1]);
    }
  }

  lemma {:induction false} LongPath(net: Net, d: Depths, n: Id) returns (p: seq<Id>)
    requires Layered(net, d) && n in net.nodes
    ensures PathTo(net, p, n) && |p| == Depth(d, n) + 1 && Preds(net, p[0]) == {}
    decreases Depth(d, n)
  {
    if Preds(net, n) == {} {
      p := [n];
    } else {
      var m :| m in Preds(net, n) && Depth(d, m) + 1 == Depth(d, n);
      var q := LongPath(net, d, m);
      ExtendPath(net, q, n);
      p := q + [n];
    }
  }

  lemma ExtendPath(net: Net, p: seq<Id>, n: Id)
    requires IsPath(net, p) && n in net.nodes && (p[|p| - 1], n) in net.edges
    ensures PathTo(net, p + [n], n)
  {
    var q := p + [n];
    forall i | 0 < i < |q|
      ensures StepOk(net, q, i)
    {
      if i < |p| {
        assert StepOk(net, p, i);
      }
    }
  }

  lemma DepthsAreLongest(net: Net, d: Depths)
    requires Layered(net, d)
    ensures !Cyclic(net) && forall n :: n in net.nodes ==> LongestTo(net, n, Depth(d, n))
  {
    forall p
      ensures !IsCycle(net, p)
    {
      if IsPath(net, p) {
        PathBounded(net, d, p);
      }
    }
    forall n | n in net.nodes
      ensures LongestTo(net, n, Depth(d, n))
    {
      var q := LongPath(net, d, n);
      forall p | PathTo(net, p, n)
        ensures |p| <= Depth(d, n) + 1
      {
        PathBounded(net, d, p);
      }
    }
  }

  // ----- Nodes that wait for each other are on a cycle -----

  ghost predicate Waits(net: Net, s: set<Id>, n: Id) {
    exists p :: p in s && p in Preds(net, n)
  }

  ghost predicate Stuck(net: Net, s: set<Id>) {
    s != {} && forall n :: n in s ==> n in net.nodes && Waits(net, s, n)
  }

  lemma WaitsFor(net: Net, s: set<Id>, n: Id) returns (p: Id)
    requires Waits(net, s, n)
    ensures p in s && p in net.nodes && (p, n) in net.edges
  {
    p :| p in s && p in Preds(net, n);
  }

  lemma {:induction false} LongStuckPath(net: Net, s: set<Id>, k: nat) returns (p: seq<Id>)
    requires Stuck(net, s)
    ensures IsPath(net, p) && |p| == k + 1 && forall i :: 0 <= i < |p| ==> p[i] in s
    decreases k
  {
    hide Waits;
    if k == 0 {
      var n :| n in s;
      p := [n];
    } else {
      var q := LongStuckPath(net, s, k - 1);
      assert q[0] in s;
      var m := WaitsFor(net, s, q[0]);
      p := [m] + q;
      forall i | 0 < i < |p|
        ensures StepOk(net, p, i)
      {
        if i > 1 {
          assert StepOk(net, q, i - 1);
        }
      }
    }
  }

  lemma StuckIsCyclic(net: Net, s: set<Id>)
    requires Stuck(net, s)
    ensures Cyclic(net)
  {
    hide Stuck;
    var p := LongStuckPath(net, s, |s|);
    if NoDup(p) {
      Pigeonhole(p, s);
    }
    var i, j :| 0 <= i < j < |p| && p[i] == p[j];
    var c := p[i..j + 1];
    forall k | 0 < k < |c|
      ensures StepOk(net, c, k)
    {
      assert StepOk(net, p, i + k);
    }
    assert IsCycle(net, c);
  }

  /** Without a cycle a path is no longer than there are nodes. */
  lemma AcyclicPathShort(net: Net, p: seq<Id>)
    requires IsPath(net, p) && !Cyclic(net)
    ensures NoDup(p) && |p| <= |net.nodes|
  {
    forall i, j | 0 <= i < j < |p|
      ensures p[i] != p[j]
    {
      if p[i] == p[j] {
        var c := p[i..j + 1];
        forall k | 0 < k < |c|
          ensures StepOk(net, c, k)
        {
          assert StepOk(net, p, i + k);
        }
        assert IsCycle(net, c);
      }
    }
    NodeSet(net.nodes);
    Pigeonhole(p, set n | n in net.nodes);
  }

  // ----- The algorithm -----

  /** The successors of `n` without repetition and the number of its predecessors, for the edges before number `k`. */
  ghost predicate CountedAt(net: Net, k: nat, successors: map<Id, seq<Id>>, indegree: map<Id, nat>, n: Id)
    requires k <= |net.edges|
  {
    n in successors && n in indegree && NoDup(successors[n]) &&
    (forall t :: t in successors[n] <==> (n, t) in net.edges[..k]) &&
    indegree[n] == |Preds(Net(net.nodes, net.edges[..k]), n)|
  }

  ghost predicate EdgesCounted(net: Net, k: nat, successors: map<Id, seq<Id>>, indegree: map<Id, nat>)
    requires k <= |net.edges|
  {
    forall n :: n in net.nodes ==> CountedAt(net, k, successors, indegree, n)
  }

  lemma StartCounts(net: Net, successors: map<Id, seq<Id>>, indegree: map<Id, nat>)
    requires forall n :: n in net.nodes ==> n in successors && successors[n] == [] && n in indegree && indegree[n] == 0
    ensures EdgesCounted(net, 0, successors, indegree)
  {
    EmptyNoDup();
    forall n | n in net.nodes
      ensures CountedAt(net, 0, successors, indegree, n)
    {
      assert Preds(Net(net.nodes, net.edges[..0]), n) == {};
    }
  }

  lemma CountEdge(net: Net, k: nat, successors: map<Id, seq<Id>>, indegree: map<Id, nat>)
    requires NetOk(net) && k < |net.edges| && EdgesCounted(net, k, successors, indegree)
    ensures var (source, target) := net.edges[k];
            source in net.nodes && target in net.nodes && source in successors && target in indegree &&
            if target in successors[source] then EdgesCounted(net, k + 1, successors, indegree)
            else EdgesCounted(net, k + 1, successors[source := successors[source] + [target]], indegree[target := indegree[target] + 1])
  {
    var (source, target) := net.edges[k];
    assert net.edges[k] in net.edges;
    assert CountedAt(net, k, successors, indegree, source) && CountedAt(net, k, successors, indegree, target);
    var successors', indegree' := successors, indegree;
    if target !in successors[source] {
      successors' := successors[source := successors[source] + [target]];
      indegree' := indegree[target := indegree[target] + 1];
    }
    forall n | n in net.nodes
      ensures CountedAt(net, k + 1, successors', indegree', n)
    {
      assert CountedAt(net, k, successors, indegree, n);
      CountEdgeAt(net, k, successors, indegree, n);
    }
  }

  lemma CountEdgeAt(net: Net, k: nat, successors: map<Id, seq<Id>>, indegree: map<Id, nat>, n: Id)
    requires k < |net.edges| && net.edges[k].0 in net.nodes
    requires CountedAt(net, k, successors, indegree, n) && CountedAt(net, k, successors, indegree, net.edges[k].0)
    requires CountedAt(net, k, successors, indegree, net.edges[k].1)
    ensures var (source, target) := net.edges[k];
            if target in successors[source] then CountedAt(net, k + 1, successors, indegree, n)
            else CountedAt(net, k + 1, successors[source := successors[source] + [target]], indegree[target := indegree[target] + 1], n)
  {
    var source, target := net.edges[k].0, net.edges[k].1;
    SuccessorsAfter(net, k, successors[n], n);
    DegreeAfter(net, k, indegree[n], n);
    hide Preds, NoDup;
    if n != source && target !in successors[source] {
      assert successors[source := successors[source] + [target]][n] == successors[n];
    }
  }

  lemma SuccessorsAfter(net: Net, k: nat, s: seq<Id>, n: Id)
    requires k < |net.edges| && NoDup(s) && forall t :: t in s <==> (n, t) in net.edges[..k]
    ensures var (source, target) := net.edges[k];
            var s' := if n == source && target !in s then s + [target] else s;
            NoDup(s') && forall t :: t in s' <==> (n, t) in net.edges[..k + 1]
  {
    NewSuccessor(s, net.edges[k].1);
    assert net.edges[..k + 1] == net.edges[..k] + [net.edges[k]];
  }

  lemma DegreeAfter(net: Net, k: nat, degree: nat, n: Id)
    requires k < |net.edges| && net.edges[k].0 in net.nodes && degree == |Preds(Net(net.nodes, net.edges[..k]), n)|
    ensures |Preds(Net(net.nodes, net.edges[..k + 1]), n)| ==
            if n == net.edges[k].1 && net.edges[k] !in net.edges[..k] then degree + 1 else degree
  {
    PredsSnoc(net, k, n);
    hide Preds;
    if n == net.edges[k].1 {
      if net.edges[k] in net.edges[..k] {
        OldPredecessor(net, k, net.edges[k].0, n);
      } else {
        NewPredecessor(net, k, net.edges[k].0, n);
      }
    }
  }

  lemma PredsSnoc(net: Net, k: nat, n: Id)
    requires k < |net.edges| && net.edges[k].0 in net.nodes
    ensures Preds(Net(net.nodes, net.edges[..k + 1]), n) ==
            Preds(Net(net.nodes, net.edges[..k]), n) + if n == net.edges[k].1 then {net.edges[k].0} else {}
  {
    assert net.edges[..k + 1] == net.edges[..k] + [net.edges[k]];
  }

  lemma NewPredecessor(net: Net, k: nat, source: Id, n: Id)
    requires k < |net.edges| && (source, n) !in net.edges[..k]
    ensures source !in Preds(Net(net.nodes, net.edges[..k]), n)
  {
  }

  lemma OldPredecessor(net: Net, k: nat, source: Id, n: Id)
    requires k < |net.edges| && source in net.nodes && (source, n) in net.edges[..k]
    ensures Preds(Net(net.nodes, net.edges[..k]), n) + {source} == Preds(Net(net.nodes, net.edges[..k]), n)
  {
  }

  lemma NewSuccessor(s: seq<Id>, t: Id)
    requires NoDup(s)
    ensures t !in s ==> NoDup(s + [t])
  {
  }

  /** For each node its successors without repetition, and the number of its distinct predecessors. */
  method CountEdges(net: Net) returns (successors: map<Id, seq<Id>>, indegree: map<Id, nat>)
    requires NetOk(net)
    ensures EdgesCounted(net, |net.edges|, successors, indegree)
  {
    successors := map n | n in net.nodes :: [];
    indegree := map n | n in net.nodes :: 0;
    StartCounts(net, successors, indegree);
    hide EdgesCounted, NetOk;
    var i := 0;
    while i < |net.edges|
      invariant 0 <= i <= |net.edges| && EdgesCounted(net, i, successors, indegree)
    {
      successors, indegree := CountOne(net, i, successors, indegree);
      i := i + 1;
    }
  }

  method CountOne(net: Net, i: nat, successors: map<Id, seq<Id>>, indegree: map<Id, nat>)
    returns (successors': map<Id, seq<Id>>, indegree': map<Id, nat>)
    requires NetOk(net) && i < |net.edges| && EdgesCounted(net, i, successors, indegree)
    ensures EdgesCounted(net, i + 1, successors', indegree')
  {
    var source, target := net.edges[i].0, net.edges[i].1;
    CountEdge(net, i, successors, indegree);
    hide EdgesCounted, NetOk;
    successors', indegree' := successors, indegree;
    if target !in successors[source] {
      successors' := successors[source := successors[source] + [target]];
      indegree' := indegree[target := indegree[target] + 1];
    }
  }

  lemma AllSuccessors(net: Net, successors: map<Id, seq<Id>>, indegree: map<Id, nat>)
    requires NetOk(net) && EdgesCounted(net, |net.edges|, successors, indegree)
    ensures forall n :: n in net.nodes ==> n in successors && n in indegree && NoDup(successors[n]) && indegree[n] == |Preds(net, n)|
    ensures forall n, t :: n in net.nodes && n in successors ==>
              (t in successors[n] <==> t in net.nodes && n in Preds(net, t))
  {
    assert net.edges[..|net.edges|] == net.edges;
    assert Net(net.nodes, net.edges[..|net.edges|]) == net;
    assert forall n :: n in net.nodes ==> CountedAt(net, |net.edges|, successors, indegree, n);
  }

  /** One edge from the node just visited is followed. */
  method FollowEdge(ghost net: Net, node: Id, target: Id, indegree: map<Id, nat>, d: Depths, queue: seq<Id>,
                    ghost visited: seq<Id>, ghost seen: map<Id, set<Id>>)
    returns (indegree': map<Id, nat>, d': Depths, queue': seq<Id>, ghost seen': map<Id, set<Id>>)
    requires Kahn(net, indegree, d, queue, visited, seen)
    requires node in visited && target in net.nodes && node in Preds(net, target) && target in seen && node !in seen[target]
    ensures Kahn(net, indegree', d', queue', visited, seen')
    ensures seen' == seen[target := seen[target] + {node}]
  {
    hide IsMax, Queued, QueueReady, Maximal, Preds, Followed, Counted;
    OneLess(net, node, target, indegree, seen);
    d' := d[target := if Depth(d, target) >= Depth(d, node) + 1 then Depth(d, target) else Depth(d, node) + 1];
    indegree' := indegree[target := indegree[target] - 1];
    seen' := seen[target := seen[target] + {node}];
    queue' := queue;
    if indegree'[target] == 0 {
      queue' := queue + [target];
    }
    NotVisited(net, node, target, visited, seen);
    FollowKeepsQueue(net, target, indegree, queue, visited);
    FollowKeepsDepths(net, node, target, d, visited, seen);
    FollowKeepsSeen(net, node, target, visited, seen);
  }

  lemma FollowKeepsSeen(net: Net, node: Id, target: Id, visited: seq<Id>, seen: map<Id, set<Id>>)
    requires Followed(net, seen, visited) && node in visited && target in net.nodes && node in Preds(net, target)
    ensures Followed(net, seen[target := seen[target] + {node}], visited)
  {
  }

  lemma NotVisited(net: Net, node: Id, target: Id, visited: seq<Id>, seen: map<Id, set<Id>>)
    requires Followed(net, seen, visited) && node in Preds(net, target) && target in net.nodes && node !in seen[target]
    ensures target !in visited
  {
  }

  lemma OneLess(net: Net, node: Id, target: Id, indegree: map<Id, nat>, seen: map<Id, set<Id>>)
    requires Counted(net, indegree, seen) && target in net.nodes && node in Preds(net, target) && node !in seen[target]
    ensures target in indegree && indegree[target] >= 1
    ensures Counted(net, indegree[target := indegree[target] - 1], seen[target := seen[target] + {node}])
  {
    hide Preds;
    OneOut(Preds(net, target), seen[target], node);
  }

  lemma OneOut(ps: set<Id>, s: set<Id>, x: Id)
    requires x in ps && x !in s
    ensures |ps - s| >= 1 && |ps - (s + {x})| == |ps - s| - 1
  {
    assert x in ps - s;
    assert ps - (s + {x}) == (ps - s) - {x};
  }

  lemma FollowKeepsQueue(net: Net, target: Id, indegree: map<Id, nat>, queue: seq<Id>, visited: seq<Id>)
    requires Queued(net, queue, visited) && QueueReady(net, indegree, queue, visited)
    requires target in net.nodes && target !in visited && target in indegree && indegree[target] >= 1
    ensures var queue' := if indegree[target] == 1 then queue + [target] else queue;
            Queued(net, queue', visited) && QueueReady(net, indegree[target := indegree[target] - 1], queue', visited)
  {
    NoDupConcat(queue, [target]);
  }

  lemma FollowKeepsDepths(net: Net, node: Id, target: Id, d: Depths, visited: seq<Id>, seen: map<Id, set<Id>>)
    requires Maximal(net, d, seen) && Followed(net, seen, visited) && node in visited && target in net.nodes && target !in visited
    ensures Maximal(net, d[target := if Depth(d, target) >= Depth(d, node) + 1 then Depth(d, target) else Depth(d, node) + 1],
                    seen[target := seen[target] + {node}])
  {
    hide IsMax;
    var d' := d[target := if Depth(d, target) >= Depth(d, node) + 1 then Depth(d, target) else Depth(d, node) + 1];
    var seen' := seen[target := seen[target] + {node}];
    forall n | n in net.nodes
      ensures IsMax(d', seen'[n], n)
    {
      MaxKeeps(d, d', seen[n], seen'[n], n, node, target);
    }
  }

  lemma MaxKeeps(d: Depths, d': Depths, ps: set<Id>, ps': set<Id>, n: Id, node: Id, target: Id)
    requires IsMax(d, ps, n) && target !in ps && node != target
    requires d' == d[target := if Depth(d, target) >= Depth(d, node) + 1 then Depth(d, target) else Depth(d, node) + 1]
    requires ps' == if n == target then ps + {node} else ps
    ensures IsMax(d', ps', n)
  {
    assert forall p :: p in ps ==> Depth(d', p) == Depth(d, p);
    assert Depth(d', node) == Depth(d, node);
    if n == target && (ps == {} || Depth(d, n) < Depth(d, node) + 1) {
      assert node in ps' && Depth(d', node) + 1 == Depth(d', n);
    } else if ps != {} {
      var p :| p in ps && Depth(d, p) + 1 == Depth(d, n);
      assert p in ps' && Depth(d', p) + 1 == Depth(d', n);
    }
  }

  lemma PopQueued(net: Net, queue: seq<Id>, visited: seq<Id>)
    requires Queued(net, queue, visited) && queue != []
    ensures Queued(net, queue[1..], visited + [queue[0]])
    ensures queue[0] !in visited && queue[0] in net.nodes && forall n :: n in queue[1..] <==> n in queue && n != queue[0]
  {
    assert queue == [queue[0]] + queue[1..] && queue[0] in queue;
    NoDupParts([queue[0]], queue[1..]);
    NoDupConcat(visited, [queue[0]]);
  }

  lemma PopFollowed(net: Net, indegree: map<Id, nat>, queue: seq<Id>, visited: seq<Id>, seen: map<Id, set<Id>>)
    requires Followed(net, seen, visited) && Counted(net, indegree, seen) && QueueReady(net, indegree, queue, visited)
    requires queue != [] && queue[0] in net.nodes && queue[0] !in visited
    ensures Followed(net, seen, visited + [queue[0]])
  {
    assert queue[0] in queue;
    assert Preds(net, queue[0]) - seen[queue[0]] == {};
    assert seen[queue[0]] == Preds(net, queue[0]);
  }

  lemma PopReady(net: Net, indegree: map<Id, nat>, queue: seq<Id>, visited: seq<Id>)
    requires QueueReady(net, indegree, queue, visited) && queue != []
    requires forall n :: n in queue[1..] <==> n in queue && n != queue[0]
    ensures QueueReady(net, indegree, queue[1..], visited + [queue[0]])
  {
  }

  /** `queue.popleft()`: the node is visited; its edges are still to be followed. */
  lemma PopKeeps(net: Net, indegree: map<Id, nat>, d: Depths, queue: seq<Id>, visited: seq<Id>, seen: map<Id, set<Id>>)
    requires Kahn(net, indegree, d, queue, visited, seen) && queue != []
    ensures Kahn(net, indegree, d, queue[1..], visited + [queue[0]], seen)
    ensures queue[0] !in visited && queue[0] in net.nodes
  {
    hide NetOk, Queued, Followed, Counted, QueueReady, Maximal;
    PopQueued(net, queue, visited);
    PopFollowed(net, indegree, queue, visited, seen);
    PopReady(net, indegree, queue, visited);
  }

  method TopologicalDepths(net: Net, start: Id) returns (r: Option<Depths>)
    requires NetOk(net)
    ensures r.None? <==> Cyclic(net)
    ensures r.Some? ==> forall n :: n in net.nodes ==> LongestTo(net, n, Depth(r.value, n))
  {
    hide IsMax, Cyclic, LongestTo, Waits, Kahn, AllFollowed, Preds, EdgesCounted;
    var successors, indegree := CountEdges(net);
    AllSuccessors(net, successors, indegree);
    var d: Depths := map[start := 0];
    var queue := ZeroNodes(net.nodes, indegree);
    var visited: seq<Id> := [];
    ghost var seen: map<Id, set<Id>> := map n | n in net.nodes :: {};
    StartKahn(net, start, indegree, queue);
    while queue != []
      invariant Kahn(net, indegree, d, queue, visited, seen) && AllFollowed(net, visited, seen)
      decreases |net.nodes| - |visited|
    {
      var node := queue[0];
      PopKeeps(net, indegree, d, queue, visited, seen);
      NotYetFollowed(net, indegree, d, queue, visited, seen);
      assert node in net.nodes && NoDup(successors[node]);
      VisitedBounded(net, indegree, d, queue[1..], visited + [node], seen);
      ghost var visited0, seen0 := visited, seen;
      queue := queue[1..];
      visited := visited + [node];
      var todo := successors[node];
      var i := 0;
      while i < |todo|
        invariant 0 <= i <= |todo| && Kahn(net, indegree, d, queue, visited, seen)
        invariant seen == Mark(seen0, todo[..i], node)
      {
        var target := todo[i];
        NotYet(todo, i);
        assert target in todo;
        MarkOne(seen0, todo, i, node);
        indegree, d, queue, seen := FollowEdge(net, node, target, indegree, d, queue, visited, seen);
        i := i + 1;
      }
      assert todo[..i] == todo;
      AllMarked(net, visited0, seen0, todo, node);
    }
    if |visited| != |net.nodes| {
      LeftIsCyclic(net, indegree, d, visited, seen);
      return None;
    }
    DoneIsLayered(net, indegree, d, visited, seen);
    DepthsAreLongest(net, d);
    return Some(d);
  }

  /** `seen` with `node` added at each of the targets. */
  ghost function Mark(seen: map<Id, set<Id>>, targets: seq<Id>, node: Id): map<Id, set<Id>> {
    map n | n in seen :: if n in targets then seen[n] + {node} else seen[n]
  }

  lemma NotYetFollowed(net: Net, indegree: map<Id, nat>, d: Depths, queue: seq<Id>, visited: seq<Id>, seen: map<Id, set<Id>>)
    requires Kahn(net, indegree, d, queue, visited, seen) && queue != []
    ensures forall n :: n in net.nodes ==> n in seen && queue[0] !in seen[n]
    ensures Mark(seen, [], queue[0]) == seen
  {
    hide Maximal, Counted, QueueReady;
    assert queue[0] in queue;
  }

  lemma MarkOne(seen0: map<Id, set<Id>>, todo: seq<Id>, i: nat, node: Id)
    requires i < |todo| && todo[i] !in todo[..i] && todo[i] in seen0 && node !in seen0[todo[i]]
    ensures var seen, t := Mark(seen0, todo[..i], node), todo[i];
            t in seen && node !in seen[t] && Mark(seen0, todo[..i + 1], node) == seen[t := seen[t] + {node}]
  {
    assert todo[..i + 1] == todo[..i] + [todo[i]];
  }

  lemma AllMarked(net: Net, visited: seq<Id>, seen: map<Id, set<Id>>, todo: seq<Id>, node: Id)
    requires AllFollowed(net, visited, seen)
    requires forall t :: t in net.nodes && node in Preds(net, t) ==> t in todo
    ensures AllFollowed(net, visited + [node], Mark(seen, todo, node))
  {
  }

  lemma StartKahn(net: Net, start: Id, indegree: map<Id, nat>, queue: seq<Id>)
    requires NetOk(net) && (forall n :: n in net.nodes ==> n in indegree && indegree[n] == |Preds(net, n)|)
    requires NoDup(queue) && forall n :: n in queue <==> n in net.nodes && indegree[n] == 0
    ensures Kahn(net, indegree, map[start := 0], queue, [], map n | n in net.nodes :: {})
    ensures AllFollowed(net, [], map n | n in net.nodes :: {})
  {
    var seen: map<Id, set<Id>> := map n | n in net.nodes :: {};
    StartSeen(net, indegree, seen);
    StartQueue(net, indegree, queue);
    StartDepths(net, map[start := 0], start, seen);
    NothingFollowed(net, seen);
    hide *;
    assert Kahn(net, indegree, map[start := 0], queue, [], seen) by {
      KahnFrom(net, indegree, map[start := 0], queue, [], seen);
    }
  }

  lemma KahnFrom(net: Net, indegree: map<Id, nat>, d: Depths, queue: seq<Id>, visited: seq<Id>, seen: map<Id, set<Id>>)
    requires NetOk(net) && Queued(net, queue, visited) && Followed(net, seen, visited) && Counted(net, indegree, seen)
    requires QueueReady(net, indegree, queue, visited) && Maximal(net, d, seen)
    ensures Kahn(net, indegree, d, queue, visited, seen)
  {
  }

  lemma StartQueue(net: Net, indegree: map<Id, nat>, queue: seq<Id>)
    requires forall n :: n in net.nodes ==> n in indegree
    requires NoDup(queue) && forall n :: n in queue <==> n in net.nodes && indegree[n] == 0
    ensures Queued(net, queue, []) && QueueReady(net, indegree, queue, [])
  {
    EmptyNoDup();
  }

  lemma StartDepths(net: Net, d: Depths, start: Id, seen: map<Id, set<Id>>)
    requires d == map[start := 0] && forall n :: n in net.nodes ==> n in seen && seen[n] == {}
    ensures Maximal(net, d, seen)
  {
  }

  lemma NothingFollowed(net: Net, seen: map<Id, set<Id>>)
    ensures AllFollowed(net, [], seen)
  {
  }

  lemma StartSeen(net: Net, indegree: map<Id, nat>, seen: map<Id, set<Id>>)
    requires forall n :: n in net.nodes ==> n in indegree && indegree[n] == |Preds(net, n)|
    requires forall n :: n in net.nodes ==> n in seen && seen[n] == {}
    ensures Counted(net, indegree, seen) && Followed(net, seen, [])
  {
    forall n | n in net.nodes
      ensures indegree[n] == |Preds(net, n) - seen[n]|
    {
      assert Preds(net, n) - seen[n] == Preds(net, n);
    }
  }

  lemma EmptyNoDup()
    ensures NoDup<Id>([])
  {
  }

  lemma LeftWaits(net: Net, indegree: map<Id, nat>, d: Depths, visited: seq<Id>, seen: map<Id, set<Id>>, n: Id)
    requires Kahn(net, indegree, d, [], visited, seen) && AllFollowed(net, visited, seen)
    requires n in net.nodes && n !in visited
    ensures Waits(net, (set m | m in net.nodes && m !in visited), n)
  {
    hide Maximal;
    var left := Preds(net, n) - seen[n];
    assert indegree[n] != 0 && left != {};
    var p :| p in left;
    assert p !in visited;
  }

  lemma LeftDistinct(net: Net, indegree: map<Id, nat>, d: Depths, visited: seq<Id>, seen: map<Id, set<Id>>)
    requires Kahn(net, indegree, d, [], visited, seen)
    ensures NetOk(net) && NoDup(visited) && forall n :: n in visited ==> n in net.nodes
  {
  }

  lemma LeftIsCyclic(net: Net, indegree: map<Id, nat>, d: Depths, visited: seq<Id>, seen: map<Id, set<Id>>)
    requires Kahn(net, indegree, d, [], visited, seen) && AllFollowed(net, visited, seen) && |visited| != |net.nodes|
    ensures Cyclic(net)
  {
    hide Waits, Maximal, Counted, QueueReady, Followed, AllFollowed, Kahn;
    LeftDistinct(net, indegree, d, visited, seen);
    var rest := set n | n in net.nodes && n !in visited;
    SomeLeft(net, visited);
    forall n | n in rest
      ensures Waits(net, rest, n)
    {
      LeftWaits(net, indegree, d, visited, seen, n);
    }
    var one :| one in net.nodes && one !in visited;
    assert one in rest;
    StuckIsCyclic(net, rest);
  }

  lemma DoneIsLayered(net: Net, indegree: map<Id, nat>, d: Depths, visited: seq<Id>, seen: map<Id, set<Id>>)
    requires Kahn(net, indegree, d, [], visited, seen) && |visited| == |net.nodes|
    ensures Layered(net, d)
  {
    hide IsMax;
    AllVisited(net, visited);
    forall n | n in net.nodes
      ensures IsMax(d, Preds(net, n), n)
    {
      assert seen[n] == Preds(net, n) && IsMax(d, seen[n], n);
    }
  }

  method ZeroNodes(nodes: seq<Id>, indegree: map<Id, nat>) returns (queue: seq<Id>)
    requires forall n :: n in nodes ==> n in indegree
    requires forall i, j :: 0 <= i < j < |nodes| ==> nodes[i] != nodes[j]
    ensures NoDup(queue) && forall n :: n in queue <==> n in nodes && indegree[n] == 0
  {
    queue := [];
    var i := 0;
    while i < |nodes|
      invariant 0 <= i <= |nodes| && NoDup(queue)
      invariant forall n :: n in queue <==> n in nodes[..i] && indegree[n] == 0
    {
      NotYet(nodes, i);
      if indegree[nodes[i]] == 0 {
        queue := queue + [nodes[i]];
      }
      assert nodes[..i + 1] == nodes[..i] + [nodes[i]];
      i := i + 1;
    }
    assert nodes[..i] == nodes;
  }

  lemma NotYet(s: seq<Id>, i: nat)
    requires i < |s| && NoDup(s)
    ensures s[i] !in s[..i]
  {
  }

  lemma VisitedBounded(net: Net, indegree: map<Id, nat>, d: Depths, queue: seq<Id>, visited: seq<Id>, seen: map<Id, set<Id>>)
    requires Kahn(net, indegree, d, queue, visited, seen)
    ensures |visited| <= |net.nodes|
  {
    hide Maximal, Counted, QueueReady, Followed;
    NodeSet(net.nodes);
    Pigeonhole(visited, set n | n in net.nodes);
  }

  lemma {:induction false} NodeSet(s: seq<Id>)
    ensures |(set n | n in s)| <= |s|
    decreases |s|
  {
    if s != [] {
      NodeSet(s[1..]);
      assert s == [s[0]] + s[1..];
      assert (set n | n in s) == {s[0]} + set n | n in s[1..];
    }
  }

  lemma SomeLeft(net: Net, visited: seq<Id>)
    requires NetOk(net) && NoDup(visited) && |visited| != |net.nodes| && forall n :: n in visited ==> n in net.nodes
    ensures exists n :: n in net.nodes && n !in visited
  {
    NodeSet(visited);
    NodeSet(net.nodes);
    Pigeonhole(visited, set n | n in net.nodes);
    if forall n :: n in net.nodes ==> n in visited {
      Pigeonhole(net.nodes, set n | n in visited);
    }
  }

  lemma AllVisited(net: Net, visited: seq<Id>)
    requires NetOk(net) && NoDup(visited) && |visited| == |net.nodes| && forall n :: n in visited ==> n in net.nodes
    ensures forall n :: n in net.nodes ==> n in visited
  {
    var all := set n | n in visited;
    NodeSet(visited);
    forall n | n in net.nodes
      ensures n in visited
    {
      if n !in visited {
        NoDupConcat(visited, [n]);
        NodeSet(net.nodes);
        Pigeonhole(visited + [n], set m | m in net.nodes);
      }
    }
  }

  // ----- Positions -----

  const BASE_X := 80.0
  const BASE_Y := 280.0
  const HORIZONTAL_GAP := 320.0
  const VERTICAL_GAP := 180.0

  datatype Position = Position(x: real, y: real)

  /** The nodes of one depth, in the order of the node list. */
  function Lane(nodes: seq<Id>, d: Depths, depth: nat): (r: seq<Id>)
    ensures forall n :: n in r <==> n in nodes && Depth(d, n) == depth
  {
    if nodes == [] then []
    else
      var rest := Lane(nodes[1..], d, depth);
      assert nodes == [nodes[0]] + nodes[1..];
      if Depth(d, nodes[0]) == depth then [nodes[0]] + rest else rest
  }

  /** Node number `lane` of a column of `size` nodes, which is centred on the base line. */
  function Place(depth: nat, lane: nat, size: nat): Position {
    Position(BASE_X + depth as real * HORIZONTAL_GAP, BASE_Y + (lane as real - (size as real - 1.0) / 2.0) * VERTICAL_GAP)
  }

  /** The place of a node: the column of its depth, and its number in that column. */
  ghost predicate InPlace(nodes: seq<Id>, d: Depths, n: Id, at: Position) {
    var lane := Lane(nodes, d, Depth(d, n));
    exists i :: 0 <= i < |lane| && lane[i] == n && at == Place(Depth(d, n), i, |lane|)
  }

  ghost predicate Placed(nodes: seq<Id>, d: Depths, positions: map<Id, Position>) {
    forall n :: n in nodes ==> n in positions && InPlace(nodes, d, n, positions[n])
  }

  /** The nodes are placed column by column. */
  method PlaceNodes(nodes: seq<Id>, d: Depths) returns (positions: map<Id, Position>)
    requires NoDup(nodes)
    ensures Placed(nodes, d, positions)
  {
    positions := map[];
    var k := 0;
    while k < |nodes|
      invariant 0 <= k <= |nodes|
      invariant forall n :: n in nodes[..k] ==> n in positions && InPlace(nodes, d, n, positions[n])
    {
      var lane := Lane(nodes, d, Depth(d, nodes[k]));
      assert nodes[k] in nodes && nodes[k] in lane;
      var i := 0;
      while lane[i] != nodes[k]
        invariant 0 <= i < |lane| && nodes[k] in lane[i..]
        decreases |lane| - i
      {
        assert lane[i..] == [lane[i]] + lane[i + 1..];
        i := i + 1;
      }
      positions := positions[nodes[k] := Place(Depth(d, nodes[k]), i, |lane|)];
      assert InPlace(nodes, d, nodes[k], positions[nodes[k]]);
      assert nodes[..k + 1] == nodes[..k] + [nodes[k]];
      k := k + 1;
    }
    assert nodes[..k] == nodes;
  }

  /** Along an edge a node is placed strictly to the right, and no two nodes share a position. */
  lemma PositionsOk(net: Net, d: Depths, positions: map<Id, Position>)
    requires NetOk(net) && (forall n :: n in net.nodes ==> LongestTo(net, n, Depth(d, n))) && Placed(net.nodes, d, positions)
    ensures forall e :: e in net.edges ==> e.0 in positions && e.1 in positions && positions[e.0].x < positions[e.1].x
    ensures forall m, n :: m in net.nodes && n in net.nodes && m != n ==> positions[m] != positions[n]
  {
    hide LongestTo;
    forall e | e in net.edges
      ensures e.0 in positions && e.1 in positions && positions[e.0].x < positions[e.1].x
    {
      EdgeDeepens(net, e, Depth(d, e.0), Depth(d, e.1));
      assert InPlace(net.nodes, d, e.0, positions[e.0]) && InPlace(net.nodes, d, e.1, positions[e.1]);
    }
    forall m, n | m in net.nodes && n in net.nodes && m != n
      ensures positions[m] != positions[n]
    {
      assert InPlace(net.nodes, d, m, positions[m]) && InPlace(net.nodes, d, n, positions[n]);
      SamePlace(net.nodes, d, m, n, positions[m]);
    }
  }

  lemma EdgeDeepens(net: Net, e: (Id, Id), a: nat, b: nat)
    requires NetOk(net) && e in net.edges && LongestTo(net, e.0, a) && LongestTo(net, e.1, b)
    ensures a < b
  {
    var p :| PathTo(net, p, e.0) && |p| == a + 1;
    ExtendPath(net, p, e.1);
  }

  lemma SamePlace(nodes: seq<Id>, d: Depths, m: Id, n: Id, at: Position)
    requires m != n && InPlace(nodes, d, m, at)
    ensures !InPlace(nodes, d, n, at)
  {
    var a, b := Depth(d, m), Depth(d, n);
    var i :| 0 <= i < |Lane(nodes, d, a)| && Lane(nodes, d, a)[i] == m && at == Place(a, i, |Lane(nodes, d, a)|);
    forall j | 0 <= j < |Lane(nodes, d, b)| && Lane(nodes, d, b)[j] == n
      ensures at != Place(b, j, |Lane(nodes, d, b)|)
    {
      if a == b {
        assert i != j;
      }
    }
  }
}
