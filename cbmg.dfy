/** The Consumer Behaviour Model Graph of the load generator: a graph of
    shop pages (entry, browse, add to cart, select, pay, exit) whose weighted
    edges say how likely a simulated consumer is to move from one page to the
    next.  The consumer holds the graph, its current node, and a task list in
    which each successor appears once per unit of weight, so that a uniform
    random pick from the list follows the weights.  The nodes are objects
    whose sets of outgoing edges grow as the graph is built; the edges never
    change once made.  The HTTP requests each task sends are not part of this
    model; the values they clamp are. */
module Cbmg {
  import opened Wrappers

  datatype CbmgError = RuntimeError | ValueError

  /** The task classes; a task's name is its class name. */
  datatype TaskKind = Entry | Browse | AddToCart | Select | Pay | Exit {
    function Name(): string {
      match this
      case Entry => "Entry"
      case Browse => "Browse"
      case AddToCart => "AddToCart"
      case Select => "Select"
      case Pay => "Pay"
      case Exit => "Exit"
    }
  }

  datatype Endpoint = Vanilla | StaticSiteGeneration

  /** The endpoint class chosen by `on_start`.  An unknown name leaves the
      endpoint `None`, and every task then falls back to `Vanilla`. */
  function EndpointFor(endpointName: string): (e: Endpoint)
    ensures e == StaticSiteGeneration <==> endpointName in ["SSG", "StaticSiteGeneration", "StaticSiteGenerator"]
  {
    if endpointName == "Vanilla" then Vanilla
    else if endpointName in ["SSG", "StaticSiteGeneration", "StaticSiteGenerator"] then StaticSiteGeneration
    else Vanilla
  }

  /** `CBMGNode`: a page with its task and its outgoing edges, kept in the
      order they were added. */
  class Node {
    const name: string
    const task: TaskKind
    var outgoing: seq<Edge>

    constructor (name: string, task: TaskKind)
      ensures this.name == name && this.task == task && outgoing == []
    {
      this.name := name;
      this.task := task;
      outgoing := [];
    }

    /** `get_outgoing_sum`. */
    method GetOutgoingSum() returns (outSum: int)
      ensures outSum == WeightSum(outgoing)
    {
      outSum := 0;
      var i := 0;
      while i < |outgoing|
        invariant 0 <= i <= |outgoing|
        invariant outSum == WeightSum(outgoing[..i])
      {
        assert outgoing[..i + 1][..i] == outgoing[..i];
        outSum := outSum + outgoing[i].weight;
        i := i + 1;
      }
      assert outgoing[..i] == outgoing;
    }
  }

  /** `CBMGEdge`. */
  datatype Edge = Edge(upstream: Node, downstream: Node, weight: int)

  /** The weights of `edges`, added up. */
  function WeightSum(edges: seq<Edge>): int {
    if edges == [] then 0 else WeightSum(edges[..|edges| - 1]) + edges[|edges| - 1].weight
  }

  /** A new edge adds its weight to the sum. */
  lemma WeightSumSnoc(edges: seq<Edge>, e: Edge)
    ensures WeightSum(edges + [e]) == WeightSum(edges) + e.weight
  {
    assert (edges + [e])[..|edges|] == edges;
  }

  /** Some edge of `edges` leads to `n`. */
  predicate LeadsTo(edges: seq<Edge>, n: Node) {
    exists i :: 0 <= i < |edges| && edges[i].downstream == n
  }

  /** The first node of `nodes` with that name, as `getNode` finds it. */
  function FirstNamed(nodes: seq<Node>, name: string): (r: Option<Node>)
    ensures r.Some? ==> r.value in nodes && r.value.name == name
    ensures r.None? <==> forall i :: 0 <= i < |nodes| ==> nodes[i].name != name
  {
    if nodes == [] then None
    else if nodes[0].name == name then Some(nodes[0])
    else FirstNamed(nodes[1..], name)
  }

  /** No two nodes share a name. */
  predicate UniqueNames(nodes: seq<Node>) {
    forall i, j :: 0 <= i < j < |nodes| ==> nodes[i].name != nodes[j].name
  }

  /** With unique names, looking a node up by its name finds that node. */
  lemma {:induction false} FirstNamedFindsNode(nodes: seq<Node>, n: Node)
    requires UniqueNames(nodes) && n in nodes
    ensures FirstNamed(nodes, n.name) == Some(n)
  {
    if nodes[0] != n {
      assert nodes[0].name != n.name;
      assert n in nodes[1..];
      FirstNamedFindsNode(nodes[1..], n);
    }
  }

  /** The task list dictionary: each successor's task with its weight, in
      insertion order.  The keys are the tasks of distinct nodes, so a node
      stands for its task. */
  type Tasklist = seq<(Node, int)>

  /** No node is a key twice. */
  predicate UniqueKeys(d: Tasklist) {
    forall i, j :: 0 <= i < j < |d| ==> d[i].0 != d[j].0
  }

  /** `tasklist.update({task: weight})`: an existing key keeps its place and
      takes the new weight; a new key goes at the back. */
  function Update(d: Tasklist, n: Node, w: int): (r: Tasklist)
    ensures |r| == |d| || |r| == |d| + 1
  {
    if d == [] then [(n, w)]
    else if d[0].0 == n then [(n, w)] + d[1..]
    else [d[0]] + Update(d[1..], n, w)
  }

  /** The weight the dictionary holds for `n`, if it is a key. */
  function Lookup(d: Tasklist, n: Node): Option<int> {
    if d == [] then None
    else if d[0].0 == n then Some(d[0].1)
    else Lookup(d[1..], n)
  }

  /** `update` is the dictionary update: afterwards `n` maps to `w` and every
      other key to what it mapped to before. */
  lemma {:induction false} UpdateLookup(d: Tasklist, n: Node, w: int, m: Node)
    ensures Lookup(Update(d, n, w), m) == if m == n then Some(w) else Lookup(d, m)
  {
    if d != [] && d[0].0 != n {
      UpdateLookup(d[1..], n, w, m);
    }
  }

  /** `update` keeps the keys unique. */
  lemma {:induction false} UpdateUnique(d: Tasklist, n: Node, w: int)
    requires UniqueKeys(d)
    ensures UniqueKeys(Update(d, n, w))
  {
    if d != [] && d[0].0 != n {
      UpdateUnique(d[1..], n, w);
      var tail := Update(d[1..], n, w);
      forall i | 0 <= i < |tail| ensures tail[i].0 != d[0].0 {
        UpdateKey(d[1..], n, w, i);
        if tail[i].0 != n {
          var j :| 0 <= j < |d[1..]| && d[1..][j].0 == tail[i].0;
          assert d[j + 1].0 == tail[i].0;
        }
      }
      assert forall i :: 1 <= i < |Update(d, n, w)| ==> Update(d, n, w)[i] == tail[i - 1];
    } else if d != [] {
      assert forall i :: 1 <= i < |Update(d, n, w)| ==> Update(d, n, w)[i] == d[i];
    }
  }

  /** Each key after `update` is `n` or a key from before. */
  lemma {:induction false} UpdateKey(d: Tasklist, n: Node, w: int, i: nat)
    requires i < |Update(d, n, w)|
    ensures Update(d, n, w)[i].0 == n || exists j :: 0 <= j < |d| && d[j].0 == Update(d, n, w)[i].0
  {
    if d != [] && i > 0 {
      if d[0].0 == n {
        assert Update(d, n, w)[i] == d[i];
      } else {
        UpdateKey(d[1..], n, w, i - 1);
        var m := Update(d, n, w)[i].0;
        if m != n {
          var j :| 0 <= j < |d[1..]| && d[1..][j].0 == m;
          assert d[j + 1].0 == m;
        }
      }
    }
  }

  /** After `update`, `(n, w)` is an entry. */
  lemma {:induction false} UpdateHasEntry(d: Tasklist, n: Node, w: int) returns (i: nat)
    ensures i < |Update(d, n, w)| && Update(d, n, w)[i] == (n, w)
  {
    if d == [] || d[0].0 == n {
      i := 0;
    } else {
      var j := UpdateHasEntry(d[1..], n, w);
      i := j + 1;
    }
  }

  /** The task list `generateTasklist` builds from the outgoing edges, later
      edges to the same node overriding earlier ones. */
  function Weights(edges: seq<Edge>): Tasklist {
    if edges == [] then []
    else Update(Weights(edges[..|edges| - 1]), edges[|edges| - 1].downstream, edges[|edges| - 1].weight)
  }

  /** The weight of the last edge to `n`, if any. */
  function LastWeight(edges: seq<Edge>, n: Node): Option<int> {
    if edges == [] then None
    else if edges[|edges| - 1].downstream == n then Some(edges[|edges| - 1].weight)
    else LastWeight(edges[..|edges| - 1], n)
  }

  /** The task list maps each successor to the weight of the last edge to it,
      and has no other keys. */
  lemma {:induction false} WeightsLookup(edges: seq<Edge>, n: Node)
    ensures Lookup(Weights(edges), n) == LastWeight(edges, n)
  {
    if edges != [] {
      var k := |edges| - 1;
      WeightsLookup(edges[..k], n);
      UpdateLookup(Weights(edges[..k]), edges[k].downstream, edges[k].weight, n);
    }
  }

  /** The task list has each successor once. */
  lemma {:induction false} WeightsUnique(edges: seq<Edge>)
    ensures UniqueKeys(Weights(edges))
  {
    if edges != [] {
      var k := |edges| - 1;
      WeightsUnique(edges[..k]);
      UpdateUnique(Weights(edges[..k]), edges[k].downstream, edges[k].weight);
    }
  }

  /** Every key of the task list is the target of one of the edges. */
  lemma {:induction false} WeightsKeysLead(edges: seq<Edge>, i: nat)
    requires i < |Weights(edges)|
    ensures LeadsTo(edges, Weights(edges)[i].0)
  {
    var k := |edges| - 1;
    var n := Weights(edges)[i].0;
    UpdateKey(Weights(edges[..k]), edges[k].downstream, edges[k].weight, i);
    if n != edges[k].downstream {
      var j :| 0 <= j < |Weights(edges[..k])| && Weights(edges[..k])[j].0 == n;
      WeightsKeysLead(edges[..k], j);
      var m :| 0 <= m < |edges[..k]| && edges[..k][m].downstream == n;
      assert edges[m].downstream == n;
    }
  }

  /** `unpack`: every key `value` times in a row (none for a value below
      one), in key order. */
  function Expand(d: Tasklist): seq<Node> {
    if d == [] then []
    else Expand(d[..|d| - 1]) + seq(if d[|d| - 1].1 > 0 then d[|d| - 1].1 else 0, _ => d[|d| - 1].0)
  }

  /** Every task in the unpacked list is a key of the dictionary. */
  lemma {:induction false} ExpandFromKeys(d: Tasklist, n: Node)
    requires n in Expand(d)
    ensures exists i :: 0 <= i < |d| && d[i].0 == n
  {
    var k := |d| - 1;
    if n in Expand(d[..k]) {
      ExpandFromKeys(d[..k], n);
      var i :| 0 <= i < k && d[..k][i].0 == n;
      assert d[i].0 == n;
    } else {
      assert d[k].0 == n;
    }
  }

  /** A key with a positive weight appears in the unpacked list. */
  lemma {:induction false} ExpandHasPositiveKey(d: Tasklist, i: nat)
    requires i < |d| && d[i].1 > 0
    ensures d[i].0 in Expand(d)
  {
    var k := |d| - 1;
    if i < k {
      ExpandHasPositiveKey(d[..k], i);
    } else {
      assert Expand(d)[|Expand(d[..k])|] == d[k].0;
    }
  }

  /** The number of times `n` occurs in the unpacked list is the sum of the
      positive weights recorded for it. */
  function Occurrences(d: Tasklist, n: Node): nat {
    if d == [] then 0
    else Occurrences(d[..|d| - 1], n) + (if d[|d| - 1].0 == n && d[|d| - 1].1 > 0 then d[|d| - 1].1 else 0)
  }

  /** `choice` over the unpacked list picks each task with probability
      proportional to its weight: a task occurs exactly as often as its
      weight says. */
  lemma {:induction false} ExpandCounts(d: Tasklist, n: Node)
    ensures multiset(Expand(d))[n] == Occurrences(d, n)
  {
    if d != [] {
      var k := |d| - 1;
      ExpandCounts(d[..k], n);
      var w := if d[k].1 > 0 then d[k].1 else 0;
      var run := seq(w, _ => d[k].0);
      assert multiset(Expand(d)) == multiset(Expand(d[..k])) + multiset(run);
      RunCount(d[k].0, w, n);
    }
  }

  lemma {:induction false} RunCount(x: Node, w: nat, n: Node)
    ensures multiset(seq(w, _ => x))[n] == if x == n then w else 0
  {
    if w > 0 {
      RunCount(x, w - 1, n);
      assert seq(w, _ => x) == seq(w - 1, _ => x) + [x];
    }
  }

  /** The number of times a weight puts its key into the unpacked list. */
  function Positive(w: Option<int>): nat {
    match w
    case Some(v) => if v > 0 then v else 0
    case None => 0
  }

  /** With unique keys, the last entry decides the lookup of its own key
      and leaves the others to the entries before it. */
  lemma {:induction false} LookupSnoc(d: Tasklist, n: Node)
    requires UniqueKeys(d) && d != []
    ensures Lookup(d, n) == if d[|d| - 1].0 == n then Some(d[|d| - 1].1) else Lookup(d[..|d| - 1], n)
  {
    var k := |d| - 1;
    if k > 0 && d[0].0 != n {
      assert UniqueKeys(d[1..]);
      LookupSnoc(d[1..], n);
      assert d[..k][1..] == d[1..][..k - 1];
    }
  }

  /** A node that is not a key is not found. */
  lemma {:induction false} LookupAbsent(d: Tasklist, n: Node)
    requires forall j :: 0 <= j < |d| ==> d[j].0 != n
    ensures Lookup(d, n) == None
  {
    if d != [] {
      LookupAbsent(d[1..], n);
    }
  }

  /** With unique keys, a key occurs in the unpacked list as often as its
      weight says. */
  lemma {:induction false} OccurrencesLookup(d: Tasklist, n: Node)
    requires UniqueKeys(d)
    ensures Occurrences(d, n) == Positive(Lookup(d, n))
  {
    if d != [] {
      var k := |d| - 1;
      OccurrencesLookup(d[..k], n);
      LookupSnoc(d, n);
      if d[k].0 == n {
        LookupAbsent(d[..k], n);
      }
    }
  }

  /** `choice(task_list)` picks a successor with probability proportional to
      the weight of the last edge to it: that is how often it occurs in the
      list `generateTasklist` and `unpack` build. */
  lemma TaskFrequency(edges: seq<Edge>, n: Node)
    ensures multiset(Expand(Weights(edges)))[n] == Positive(LastWeight(edges, n))
  {
    ExpandCounts(Weights(edges), n);
    WeightsUnique(edges);
    OccurrencesLookup(Weights(edges), n);
    WeightsLookup(edges, n);
  }

  /** No edge leads to `n`: there is no weight for it. */
  lemma {:induction false} LastWeightAbsent(edges: seq<Edge>, n: Node)
    requires !LeadsTo(edges, n)
    ensures LastWeight(edges, n) == None
  {
    if edges != [] {
      var k := |edges| - 1;
      forall j | 0 <= j < k ensures edges[..k][j].downstream != n {
        assert edges[..k][j] == edges[j];
      }
      LastWeightAbsent(edges[..k], n);
    }
  }

  /** A key not yet present goes at the back. */
  lemma {:induction false} UpdateNewKey(d: Tasklist, n: Node, w: int)
    requires Lookup(d, n) == None
    ensures Update(d, n, w) == d + [(n, w)]
  {
    if d != [] {
      UpdateNewKey(d[1..], n, w);
      assert [d[0]] + (d[1..] + [(n, w)]) == d + [(n, w)];
    }
  }

  /** When every edge leads to a different node and has a positive weight,
      as on the consumer's graph, the task list is as long as
      `get_outgoing_sum`: each weight is the numerator of its successor's
      share of that sum. */
  lemma {:induction false} TasklistLength(edges: seq<Edge>)
    requires forall i, j :: 0 <= i < j < |edges| ==> edges[i].downstream != edges[j].downstream
    requires forall i :: 0 <= i < |edges| ==> edges[i].weight > 0
    ensures |Expand(Weights(edges))| == WeightSum(edges)
  {
    if edges != [] {
      var k := |edges| - 1;
      var front := edges[..k];
      TasklistLength(front);
      forall j | 0 <= j < k ensures front[j].downstream != edges[k].downstream {
        assert front[j] == edges[j];
      }
      LastWeightAbsent(front, edges[k].downstream);
      WeightsLookup(front, edges[k].downstream);
      UpdateNewKey(Weights(front), edges[k].downstream, edges[k].weight);
      var d := Weights(front) + [(edges[k].downstream, edges[k].weight)];
      assert d[..|d| - 1] == Weights(front);
    }
  }

  /** `unpack`, as the loop that extends the list. */
  method Unpack(d: Tasklist) returns (arr: seq<Node>)
    ensures arr == Expand(d)
  {
    arr := [];
    var i := 0;
    while i < |d|
      invariant 0 <= i <= |d|
      invariant arr == Expand(d[..i])
    {
      assert d[..i + 1][..i] == d[..i];
      var (key, value) := d[i];
      arr := arr + seq(if value > 0 then value else 0, _ => key);
      i := i + 1;
    }
    assert d[..i] == d;
  }

  /** `CBMGState`: the nodes and edges in the order they were added, and the
      current node once the walk has started. */
  class CbmgState {
    var nodes: seq<Node>
    var edges: seq<Edge>
    var currentState: Option<Node>

    constructor ()
      ensures nodes == [] && edges == [] && currentState == None
    {
      nodes := [];
      edges := [];
      currentState := None;
    }

    /** `addNode`: a new node for the task, named after it. */
    method AddNode(task: TaskKind) returns (n: Node)
      modifies this
      ensures fresh(n) && n.name == task.Name() && n.task == task && n.outgoing == []
      ensures nodes == old(nodes) + [n] && edges == old(edges) && currentState == old(currentState)
    {
      n := new Node(task.Name(), task);
      nodes := nodes + [n];
    }

    /** `getNode`: the first node with that name, if any. */
    method GetNode(name: string) returns (r: Option<Node>)
      ensures r == FirstNamed(nodes, name)
    {
      var i := 0;
      while i < |nodes|
        invariant 0 <= i <= |nodes|
        invariant FirstNamed(nodes, name) == FirstNamed(nodes[i..], name)
      {
        if nodes[i].name == name {
          return Some(nodes[i]);
        }
        assert nodes[i..][1..] == nodes[i + 1..];
        i := i + 1;
      }
      r := None;
    }

    /** `addEdge`: the edge is recorded in the graph and among the start
        node's outgoing edges. */
    method AddEdge(start: Node, end: Node, weight: int) returns (e: Edge)
      modifies this, start
      ensures e == Edge(start, end, weight)
      ensures edges == old(edges) + [e] && start.outgoing == old(start.outgoing) + [e]
      ensures nodes == old(nodes) && currentState == old(currentState)
    {
      e := Edge(start, end, weight);
      edges := edges + [e];
      start.outgoing := start.outgoing + [e];
    }

    /** `setStartState`: only a walk that has not started can be started. */
    method SetStartState(state: Node) returns (err: Option<CbmgError>)
      modifies this
      ensures old(currentState).None? ==> err == None && currentState == Some(state)
      ensures old(currentState).Some? ==> err == Some(RuntimeError) && currentState == old(currentState)
      ensures nodes == old(nodes) && edges == old(edges)
    {
      if currentState == None {
        currentState := Some(state);
        err := None;
      } else {
        err := Some(RuntimeError);
      }
    }

    /** `moveToState`: without a current node a RuntimeError; otherwise the
        walk moves exactly when an outgoing edge leads to the target, and a
        ValueError leaves it where it was. */
    method MoveToState(newState: Option<Node>) returns (err: Option<CbmgError>)
      modifies this
      ensures old(currentState).None? ==> err == Some(RuntimeError) && currentState == old(currentState)
      ensures old(currentState).Some? ==>
        (err == None <==> newState.Some? && LeadsTo(old(currentState).value.outgoing, newState.value))
      ensures err == None ==> currentState == newState
      ensures old(currentState).Some? && err != None ==> err == Some(ValueError) && currentState == old(currentState)
      ensures nodes == old(nodes) && edges == old(edges)
    {
      if currentState == None {
        return Some(RuntimeError);
      }
      var out := currentState.value.outgoing;
      var i := 0;
      while i < |out|
        invariant 0 <= i <= |out|
        invariant forall j :: 0 <= j < i ==> newState != Some(out[j].downstream)
      {
        if newState == Some(out[i].downstream) {
          currentState := newState;
          return None;
        }
        i := i + 1;
      }
      err := Some(ValueError);
    }

    /** `generateTasklist`: without a current node a RuntimeError; otherwise
        each successor's task with the weight of the edge to it. */
    method GenerateTasklist() returns (r: Result<Tasklist, CbmgError>)
      ensures currentState.None? ==> r == Err(RuntimeError)
      ensures currentState.Some? ==> r == Ok(Weights(currentState.value.outgoing))
    {
      if currentState == None {
        return Err(RuntimeError);
      }
      var out := currentState.value.outgoing;
      var tasklist: Tasklist := [];
      var i := 0;
      while i < |out|
        invariant 0 <= i <= |out|
        invariant tasklist == Weights(out[..i])
      {
        assert out[..i + 1][..i] == out[..i];
        tasklist := Update(tasklist, out[i].downstream, out[i].weight);
        i := i + 1;
      }
      assert out[..i] == out;
      r := Ok(tasklist);
    }
  }

  /** Positive weights on a non-empty list of edges give a non-empty task
      list. */
  lemma NonEmptyTasklist(edges: seq<Edge>)
    requires |edges| > 0 && forall i :: 0 <= i < |edges| ==> edges[i].weight > 0
    ensures |Expand(Weights(edges))| > 0
  {
    var k := |edges| - 1;
    var i := UpdateHasEntry(Weights(edges[..k]), edges[k].downstream, edges[k].weight);
    ExpandHasPositiveKey(Weights(edges), i);
  }

  /** Every task in the list built from a node's edges belongs to a
      successor of that node. */
  lemma TaskIsSuccessor(edges: seq<Edge>, n: Node)
    requires n in Expand(Weights(edges))
    ensures LeadsTo(edges, n)
  {
    ExpandFromKeys(Weights(edges), n);
    var i :| 0 <= i < |Weights(edges)| && Weights(edges)[i].0 == n;
    WeightsKeysLead(edges, i);
  }

  /** A node with outgoing edges of positive weight into `nodes`. */
  ghost predicate Healthy(n: Node, nodes: seq<Node>)
    reads n
  {
    && |n.outgoing| > 0
    && forall j :: 0 <= j < |n.outgoing| ==> n.outgoing[j].weight > 0 && n.outgoing[j].downstream in nodes
  }

  /** The edges from `start` to each target, given by its place in
      `nodes`, with its weight. */
  function EdgesFrom(start: Node, nodes: seq<Node>, targets: seq<(nat, int)>): (r: seq<Edge>)
    requires forall i :: 0 <= i < |targets| ==> targets[i].0 < |nodes|
    ensures |r| == |targets|
    ensures forall i :: 0 <= i < |r| ==> r[i] == Edge(start, nodes[targets[i].0], targets[i].1)
  {
    seq(|targets|, i requires 0 <= i < |targets| => Edge(start, nodes[targets[i].0], targets[i].1))
  }

  /** `addEdge` from the `k`th node, which has no edges yet, to each target
      in turn: that node ends up with exactly those edges, all of positive
      weight into the graph, and no other node changes. */
  method Connect(g: CbmgState, nodes: seq<Node>, k: nat, targets: seq<(nat, int)>)
    requires k < |nodes| && UniqueNames(nodes) && nodes[k].outgoing == [] && |targets| > 0
    requires forall i :: 0 <= i < |targets| ==> targets[i].1 > 0 && targets[i].0 < |nodes|
    requires forall i :: 0 <= i < k ==> Healthy(nodes[i], nodes)
    modifies g, nodes[k]
    ensures nodes[k].outgoing == EdgesFrom(nodes[k], nodes, targets)
    ensures forall i :: 0 <= i <= k ==> Healthy(nodes[i], nodes)
    ensures forall i :: k < i < |nodes| ==> nodes[i].outgoing == old(nodes[i].outgoing)
    ensures |g.edges| == |old(g.edges)| + |targets|
    ensures g.nodes == old(g.nodes) && g.currentState == old(g.currentState)
  {
    var start := nodes[k];
    var i := 0;
    while i < |targets|
      invariant 0 <= i <= |targets|
      invariant start.outgoing == EdgesFrom(start, nodes, targets[..i])
      invariant forall j :: 0 <= j < |nodes| && j != k ==> nodes[j].outgoing == old(nodes[j].outgoing)
      invariant |g.edges| == |old(g.edges)| + i
      invariant g.nodes == old(g.nodes) && g.currentState == old(g.currentState)
    {
      assert EdgesFrom(start, nodes, targets[..i + 1]) == EdgesFrom(start, nodes, targets[..i]) + [Edge(start, nodes[targets[i].0], targets[i].1)];
      var _ := g.AddEdge(start, nodes[targets[i].0], targets[i].1);
      i := i + 1;
    }
    assert targets[..i] == targets;
    assert Healthy(start, nodes);
  }

  /** The six pages `on_start` adds, in order, each named after its task. */
  method AddPages(g: CbmgState) returns (nodes: seq<Node>)
    requires g.nodes == [] && g.edges == [] && g.currentState == None
    modifies g
    ensures g.nodes == nodes && g.edges == [] && g.currentState == None && UniqueNames(nodes)
    ensures |nodes| == 6 && forall i :: 0 <= i < 6 ==> fresh(nodes[i]) && nodes[i].outgoing == []
    ensures forall i :: 0 <= i < 6 ==> nodes[i].task == [Entry, Browse, AddToCart, Select, Pay, Exit][i]
  {
    var entry := g.AddNode(Entry);
    var browse := g.AddNode(Browse);
    var addToCart := g.AddNode(AddToCart);
    var select := g.AddNode(Select);
    var pay := g.AddNode(Pay);
    var exit := g.AddNode(Exit);
    nodes := [entry, browse, addToCart, select, pay, exit];
  }

  /** The edges `on_start` adds between the six pages, node by node;
      Entry, Browse, AddToCart, Select, Pay and Exit are `nodes[0]` to
      `nodes[5]`. */
  method AddEdges(g: CbmgState, nodes: seq<Node>)
    requires |nodes| == 6 && UniqueNames(nodes) && forall i :: 0 <= i < 6 ==> nodes[i].outgoing == []
    modifies g, set i | 0 <= i < 6 :: nodes[i]
    ensures forall i :: 0 <= i < 6 ==> Healthy(nodes[i], nodes)
    ensures nodes[0].outgoing == [Edge(nodes[0], nodes[1], 1)]
    ensures |g.edges| == |old(g.edges)| + 14 && g.nodes == old(g.nodes) && g.currentState == old(g.currentState)
  {
    AddEntryBrowseCartEdges(g, nodes);
    AddSelectPayExitEdges(g, nodes);
  }

  /** The edges out of Entry, Browse and AddToCart. */
  method AddEntryBrowseCartEdges(g: CbmgState, nodes: seq<Node>)
    requires |nodes| == 6 && UniqueNames(nodes) && forall i :: 0 <= i < 6 ==> nodes[i].outgoing == []
    modifies g, nodes[0], nodes[1], nodes[2]
    ensures forall i :: 0 <= i < 3 ==> Healthy(nodes[i], nodes)
    ensures forall i :: 3 <= i < 6 ==> nodes[i].outgoing == []
    ensures nodes[0].outgoing == [Edge(nodes[0], nodes[1], 1)]
    ensures |g.edges| == |old(g.edges)| + 8 && g.nodes == old(g.nodes) && g.currentState == old(g.currentState)
  {
    Connect(g, nodes, 0, [(1, 1)]);
    Connect(g, nodes, 1, [(1, 20), (3, 9), (5, 1)]);
    Connect(g, nodes, 2, [(1, 20), (3, 3), (4, 6), (5, 1)]);
  }

  /** The edges out of Select, Pay and Exit. */
  method AddSelectPayExitEdges(g: CbmgState, nodes: seq<Node>)
    requires |nodes| == 6 && UniqueNames(nodes) && forall i :: 3 <= i < 6 ==> nodes[i].outgoing == []
    requires forall i :: 0 <= i < 3 ==> Healthy(nodes[i], nodes)
    modifies g, nodes[3], nodes[4], nodes[5]
    ensures forall i :: 0 <= i < 6 ==> Healthy(nodes[i], nodes)
    ensures |g.edges| == |old(g.edges)| + 6 && g.nodes == old(g.nodes) && g.currentState == old(g.currentState)
  {
    Connect(g, nodes, 3, [(1, 32), (2, 6), (5, 2)]);
    Connect(g, nodes, 4, [(5, 1)]);
    Connect(g, nodes, 5, [(5, 9), (0, 1)]);
  }

  /** The pages and the edges between them, before the walk starts. */
  method BuildGraph() returns (g: CbmgState)
    ensures fresh(g) && |g.nodes| == 6 && |g.edges| == 14 && g.currentState == None
    ensures forall i :: 0 <= i < 6 ==> fresh(g.nodes[i]) && g.nodes[i].task == [Entry, Browse, AddToCart, Select, Pay, Exit][i]
    ensures UniqueNames(g.nodes) && forall i :: 0 <= i < 6 ==> Healthy(g.nodes[i], g.nodes)
    ensures g.nodes[0].outgoing == [Edge(g.nodes[0], g.nodes[1], 1)]
  {
    g := new CbmgState();
    var nodes := AddPages(g);
    AddEdges(g, nodes);
  }

  /** Entry's only edge leads to Browse, so Browse is its whole task list. */
  lemma EntryTasklist(entry: Node, browse: Node)
    requires entry.outgoing == [Edge(entry, browse, 1)]
    ensures Expand(Weights(entry.outgoing)) == [browse]
  {
    var one: Tasklist := [(browse, 1)];
    assert Weights(entry.outgoing) == one;
    assert one[..0] == [];
  }

  /** The simulated consumer: its graph and the task list of its current node. */
  class Consumer {
    var state: CbmgState
    var taskList: seq<Node>

    /** The objects the walk reads. */
    ghost function Repr(): set<object>
      reads this, state
    {
      {this, state} + set i | 0 <= i < |state.nodes| :: state.nodes[i]
    }

    /** The walk can always go on: it has started at a node of the graph,
        node names are unique, every node has an outgoing edge of positive
        weight into the graph, and the task list is that of the current
        node. */
    ghost predicate Valid()
      reads Repr()
    {
      && state.currentState.Some? && state.currentState.value in state.nodes
      && UniqueNames(state.nodes)
      && (forall i :: 0 <= i < |state.nodes| ==> Healthy(state.nodes[i], state.nodes))
      && taskList == Expand(Weights(state.currentState.value.outgoing))
    }

    /** `on_start`: the six pages, the fourteen weighted edges between them,
        the walk started at Entry, and Entry's task list. */
    constructor OnStart()
      ensures Valid() && fresh(state) && forall i :: 0 <= i < |state.nodes| ==> fresh(state.nodes[i])
      ensures |state.nodes| == 6 && state.currentState == Some(state.nodes[0])
      ensures |state.edges| == 14 && taskList == [state.nodes[1]]
    {
      var g := BuildGraph();
      var _ := g.SetStartState(g.nodes[0]);
      var tasks := g.GenerateTasklist();
      var list := Unpack(tasks.value);
      EntryTasklist(g.nodes[0], g.nodes[1]);
      state := g;
      taskList := list;
    }

    /** `choice` always has a task to pick from. */
    lemma TaskListNonEmpty()
      requires Valid()
      ensures |taskList| > 0
    {
      var k :| 0 <= k < |state.nodes| && state.nodes[k] == state.currentState.value;
      assert Healthy(state.nodes[k], state.nodes);
      NonEmptyTasklist(state.currentState.value.outgoing);
    }

    /** `execute_task` with the random pick given as an index: the picked
        task moves the walk to its node, which is always a successor of the
        current one, and the task list becomes that node's. */
    method ExecuteTask(pick: nat)
      requires Valid() && pick < |taskList|
      modifies this, state
      ensures Valid() && Repr() == old(Repr())
      ensures state.currentState == Some(old(taskList)[pick])
      ensures state.nodes == old(state.nodes) && state.edges == old(state.edges)
    {
      var target := taskList[pick];
      TaskIsSuccessor(state.currentState.value.outgoing, target);
      var found := state.GetNode(target.name);
      FirstNamedFindsNode(state.nodes, target);
      var err := MoveToState(found);
      assert err == None;
    }

    /** The consumer's `moveToState`: the graph moves, and the task list is
        rebuilt from the new node; an error leaves the list as it was. */
    method MoveToState(newState: Option<Node>) returns (err: Option<CbmgError>)
      requires Valid()
      modifies this, state
      ensures Repr() == old(Repr()) && state.nodes == old(state.nodes) && state.edges == old(state.edges)
      ensures err == None <==> newState.Some? && LeadsTo(old(state.currentState).value.outgoing, newState.value)
      ensures err == None ==> state.currentState == newState && taskList == Expand(Weights(newState.value.outgoing))
      ensures err != None ==> err == Some(ValueError) && state.currentState == old(state.currentState) && taskList == old(taskList)
      ensures err == None ==> Valid()
    {
      err := state.MoveToState(newState);
      if err != None {
        return;
      }
      var tasks := state.GenerateTasklist();
      taskList := Unpack(tasks.value);
      assert newState.value in state.nodes by {
        var j :| 0 <= j < |old(state.currentState).value.outgoing| && old(state.currentState).value.outgoing[j].downstream == newState.value;
        var k :| 0 <= k < |state.nodes| && state.nodes[k] == old(state.currentState).value;
        assert Healthy(state.nodes[k], state.nodes);
      }
    }
  }

  /** `check_product_id`: an id below 8 or above 506 is clamped to that bound,
      or refused with a ValueError when `fail` is set; an id in range is kept. */
  function CheckProductId(productId: int, fail: bool): (r: Result<int, CbmgError>)
    ensures 8 <= productId <= 506 ==> r == Ok(productId)
    ensures !(8 <= productId <= 506) ==> (r.Err? <==> fail)
    ensures r.Ok? ==> 8 <= r.value <= 506 && (r.value == productId || !(8 <= productId <= 506))
    ensures r.Err? ==> r.error == ValueError
  {
    if productId < 8 then (if fail then Err(ValueError) else Ok(8))
    else if productId > 506 then (if fail then Err(ValueError) else Ok(506))
    else Ok(productId)
  }

  /** One bound of `_get_category`: above `hi` becomes `hi`, below `lo`
      becomes `lo`, or a ValueError when `fail` is set. */
  function Clamp(x: int, lo: int, hi: int, fail: bool): (r: Result<int, CbmgError>)
    requires lo <= hi
    ensures lo <= x <= hi ==> r == Ok(x)
    ensures !(lo <= x <= hi) ==> (r.Err? <==> fail)
    ensures r.Ok? ==> lo <= r.value <= hi
  {
    if x > hi then (if fail then Err(ValueError) else Ok(hi))
    else if x < lo then (if fail then Err(ValueError) else Ok(lo))
    else Ok(x)
  }

  /** `_get_category`: the category requested, clamped into [2, 6], and for
      the `Vanilla` endpoint the page, clamped into [1, 5]; the static-site
      endpoint ignores the page. */
  function GetCategory(endpoint: Endpoint, category: int, page: int, fail: bool): (r: Result<(int, Option<int>), CbmgError>)
    ensures r.Ok? ==> 2 <= r.value.0 <= 6
    ensures r.Ok? ==> (endpoint == Vanilla <==> r.value.1.Some?)
    ensures r.Ok? && r.value.1.Some? ==> 1 <= r.value.1.value <= 5
    ensures !fail ==> r.Ok?
    ensures fail && r.Ok? ==> 2 <= category <= 6 && r.value.0 == category
    ensures fail && r.Ok? && endpoint == Vanilla ==> 1 <= page <= 5 && r.value.1 == Some(page)
  {
    var c := Clamp(category, 2, 6, fail);
    if c.Err? then Err(c.error)
    else match endpoint
      case StaticSiteGeneration => Ok((c.value, None))
      case Vanilla =>
        var p := Clamp(page, 1, 5, fail);
        if p.Err? then Err(p.error) else Ok((c.value, Some(p.value)))
  }
}
