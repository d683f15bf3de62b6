/** The pipeline graph: what a directed cycle is, and the validation that refuses one. */
module Dag {
  import opened Basics

  type Id = string

  datatype When = OnOk | OnFail | Always

  datatype Edge = Edge(src: Id, dst: Id, when: When)

  datatype Node = Node(id: Id, kind: string)

  // ---- paths ----

  predicate HasEdge(edges: seq<Edge>, a: Id, b: Id) {
    exists e :: e in edges && e.src == a && e.dst == b
  }

  predicate IsPath(edges: seq<Edge>, p: seq<Id>) {
    |p| > 0 && forall i | 0 <= i < |p| - 1 :: HasEdge(edges, p[i], p[i + 1])
  }

  predicate IsCycle(edges: seq<Edge>, p: seq<Id>) {
    IsPath(edges, p) && |p| > 1 && p[0] == p[|p| - 1]
  }

  ghost predicate Acyclic(edges: seq<Edge>) {
    forall p :: !IsCycle(edges, p)
  }

  function Ids(nodes: seq<Node>): set<Id> {
    set n | n in nodes :: n.id
  }

  /** Every edge runs between nodes of the list. */
  predicate Closed(nodes: seq<Node>, edges: seq<Edge>) {
    forall e | e in edges :: e.src in Ids(nodes) && e.dst in Ids(nodes)
  }

  function Successors(edges: seq<Edge>, id: Id): seq<Id> {
    if edges == [] then []
    else Successors(edges[..|edges| - 1], id) +
         (if edges[|edges| - 1].src == id then [edges[|edges| - 1].dst] else [])
  }

  lemma {:induction false} SuccessorsAreEdges(edges: seq<Edge>, id: Id, b: Id)
    ensures b in Successors(edges, id) <==> HasEdge(edges, id, b)
  {
    if edges != [] {
      var e := edges[|edges| - 1];
      assert edges == edges[..|edges| - 1] + [e];
      SuccessorsAreEdges(edges[..|edges| - 1], id, b);
    }
  }

  lemma PathCons(edges: seq<Edge>, a: Id, p: seq<Id>)
    requires IsPath(edges, p) && HasEdge(edges, a, p[0])
    ensures IsPath(edges, [a] + p)
  {
    forall i | 0 <= i < |p| ensures HasEdge(edges, ([a] + p)[i], ([a] + p)[i + 1]) {
      if i > 0 {
        assert HasEdge(edges, p[i - 1], p[i]);
      }
    }
  }

  /** A path that comes back to a node it has left contains a cycle. */
  lemma RepeatIsCycle(edges: seq<Edge>, p: seq<Id>, i: nat, j: nat)
    requires IsPath(edges, p) && i < j < |p| && p[i] == p[j]
    ensures IsCycle(edges, p[i..j + 1])
  {
    var q := p[i..j + 1];
    forall k | 0 <= k < |q| - 1 ensures HasEdge(edges, q[k], q[k + 1]) {
      assert HasEdge(edges, p[i + k], p[i + k + 1]);
    }
  }

  // ---- three-colour depth-first search ----

  datatype Color = White | Gray | Black

  /** Successors come before their node, so that `order` is a reversed topological order. */
  ghost predicate Ordered(edges: seq<Edge>, order: seq<Id>) {
    forall i, b | 0 <= i < |order| && HasEdge(edges, order[i], b) :: b in order[..i]
  }

  lemma {:induction false} PathDescends(edges: seq<Edge>, order: seq<Id>, p: seq<Id>, i: nat)
    requires Ordered(edges, order) && IsPath(edges, p) && |p| > 1
    requires i < |order| && p[0] == order[i]
    ensures p[|p| - 1] in order[..i]
    decreases |p|
  {
    assert HasEdge(edges, p[0], p[1]);
    var j :| 0 <= j < i && order[j] == p[1];
    if |p| > 2 {
      var q := p[1..];
      forall k | 0 <= k < |q| - 1 ensures HasEdge(edges, q[k], q[k + 1]) {
        assert HasEdge(edges, p[k + 1], p[k + 2]);
      }
      PathDescends(edges, order, q, j);
    }
  }

  lemma {:induction false} FirstIndex(order: seq<Id>, x: Id) returns (i: nat)
    requires x in order
    ensures i < |order| && order[i] == x && x !in order[..i]
  {
    i := 0;
    while order[i] != x
      invariant i < |order| && x !in order[..i]
      decreases |order| - i
    {
      assert order[..i + 1] == order[..i] + [order[i]];
      assert order == order[..i + 1] + order[i + 1..];
      i := i + 1;
    }
  }

  /** A finished search order covering every edge source leaves no cycle. */
  lemma OrderedIsAcyclic(edges: seq<Edge>, order: seq<Id>)
    requires Ordered(edges, order)
    requires forall e | e in edges :: e.src in order
    ensures Acyclic(edges)
  {
    forall p ensures !IsCycle(edges, p) {
      if IsCycle(edges, p) {
        assert HasEdge(edges, p[0], p[1]);
        var i := FirstIndex(order, p[0]);
        PathDescends(edges, order, p, i);
      }
    }
  }

  /** Gray nodes are on the search stack, black ones are finished. */
  ghost predicate Painted(color: map<Id, Color>, stack: seq<Id>, finished: seq<Id>) {
    && (forall id | id in color :: (color[id].Gray? <==> id in stack) && (color[id].Black? <==> id in finished))
    && (forall id | id in stack || id in finished :: id in color)
  }

  ghost predicate Adjacent(edges: seq<Edge>, adj: map<Id, seq<Id>>) {
    forall id | id in adj :: adj[id] == Successors(edges, id)
  }

  ghost predicate Joins(edges: seq<Edge>, ids: set<Id>) {
    forall e | e in edges :: e.src in ids && e.dst in ids
  }

  lemma BlackIsFinished(color: map<Id, Color>, stack: seq<Id>, finished: seq<Id>, id: Id)
    requires Painted(color, stack, finished) && id in color && color[id].Black?
    ensures id in finished
  {
  }

  function Whites(color: map<Id, Color>): set<Id> {
    set id | id in color && color[id].White?
  }

  lemma PaintGray(edges: seq<Edge>, color: map<Id, Color>, stack: seq<Id>, finished: seq<Id>, node: Id)
    requires Painted(color, stack, finished) && node in color && color[node].White?
    requires |stack| > 0 ==> IsPath(edges, stack) && HasEdge(edges, stack[|stack| - 1], node)
    ensures Painted(color[node := Gray], stack + [node], finished) && IsPath(edges, stack + [node])
    ensures Whites(color[node := Gray]) < Whites(color)
  {
    assert Whites(color[node := Gray]) == Whites(color) - {node};
    assert node in Whites(color);
  }

  lemma PaintBlack(edges: seq<Edge>, color: map<Id, Color>, stack: seq<Id>, finished: seq<Id>, node: Id)
    requires Painted(color, stack + [node], finished) && node !in stack
    requires IsPath(edges, stack + [node]) && Ordered(edges, finished)
    requires forall b | HasEdge(edges, node, b) :: b in finished
    ensures Painted(color[node := Black], stack, finished + [node])
    ensures |stack| > 0 ==> IsPath(edges, stack)
    ensures Ordered(edges, finished + [node])
    ensures Whites(color[node := Black]) <= Whites(color)
  {
    forall i | 0 <= i < |stack| - 1 ensures HasEdge(edges, stack[i], stack[i + 1]) {
      assert HasEdge(edges, (stack + [node])[i], (stack + [node])[i + 1]);
    }
    var order := finished + [node];
    forall i, b | 0 <= i < |order| && HasEdge(edges, order[i], b) ensures b in order[..i] {
      assert order[..i] == finished[..i];
    }
  }

  lemma GrayIsCycle(edges: seq<Edge>, stack: seq<Id>, node: Id)
    requires node in stack && IsPath(edges, stack) && HasEdge(edges, stack[|stack| - 1], node)
    ensures !Acyclic(edges)
  {
    var i :| 0 <= i < |stack| && stack[i] == node;
    RepeatIsCycle(edges, stack + [node], i, |stack|);
  }

  /** The colours of one validation.  `stack` is the path of gray nodes, deepest last;
      `finished` lists the black ones in the order in which they turned black. */
  class CycleCheck {
    const edges: seq<Edge>
    const adj: map<Id, seq<Id>>
    var color: map<Id, Color>
    ghost var stack: seq<Id>
    ghost var finished: seq<Id>

    ghost predicate Valid()
      reads this
    {
      && adj.Keys == color.Keys
      && Adjacent(edges, adj)
      && Joins(edges, color.Keys)
      && Painted(color, stack, finished)
      && (|stack| > 0 ==> IsPath(edges, stack))
      && Ordered(edges, finished)
    }

    constructor (edges: seq<Edge>, adj: map<Id, seq<Id>>)
      requires Adjacent(edges, adj) && Joins(edges, adj.Keys)
      ensures Valid() && stack == [] && finished == []
      ensures this.edges == edges && color.Keys == adj.Keys
    {
      this.edges := edges;
      this.adj := adj;
      color := map id | id in adj :: White;
      stack := [];
      finished := [];
    }

    method Enter(node: Id)
      requires Valid() && node in color && color[node].White?
      requires |stack| > 0 ==> HasEdge(edges, stack[|stack| - 1], node)
      modifies this
      ensures Valid() && stack == old(stack) + [node] && finished == old(finished)
      ensures color == old(color)[node := Gray] && Whites(color) < Whites(old(color))
    {
      PaintGray(edges, color, stack, finished, node);
      color := color[node := Gray];
      stack := stack + [node];
    }

    method Leave(node: Id, ghost below: seq<Id>)
      requires Valid() && stack == below + [node] && node !in below
      requires forall b | HasEdge(edges, node, b) :: b in finished
      modifies this
      ensures Valid() && stack == below && finished == old(finished) + [node]
      ensures node in old(color) && color == old(color)[node := Black] && Whites(color) <= Whites(old(color))
    {
      assert node in stack;
      PaintBlack(edges, color, below, finished, node);
      color := color[node := Black];
      stack, finished := below, finished + [node];
    }

    /** Refuses exactly when the search meets a gray node again. */
    method Visit(node: Id) returns (ok: bool)
      requires Valid() && node in color
      requires |stack| > 0 ==> HasEdge(edges, stack[|stack| - 1], node)
      modifies this
      ensures !ok ==> !Acyclic(edges)
      ensures ok ==> Valid() && stack == old(stack) && color.Keys == old(color.Keys)
      ensures ok ==> color[node].Black? && old(finished) <= finished && Whites(color) <= Whites(old(color))
      decreases Whites(color), 0
    {
      hide Ordered, Whites;
      if color[node].Gray? {
        GrayIsCycle(edges, stack, node);
        return false;
      }
      if color[node].Black? {
        return true;
      }
      Enter(node);
      ok := Descend(node);
      if ok {
        Leave(node, old(stack));
      }
    }

    /** Visits every successor of the node on top of the stack. */
    method Descend(node: Id) returns (ok: bool)
      requires Valid() && node in color && |stack| > 0 && stack[|stack| - 1] == node
      modifies this
      ensures !ok ==> !Acyclic(edges)
      ensures ok ==> Valid() && stack == old(stack) && color.Keys == old(color.Keys)
      ensures ok ==> forall b | HasEdge(edges, node, b) :: b in finished
      ensures ok ==> old(finished) <= finished && Whites(color) <= Whites(old(color))
      decreases Whites(color), 1
    {
      hide Painted, IsPath, Ordered, Whites;
      var i := 0;
      while i < |adj[node]|
        invariant 0 <= i <= |adj[node]|
        invariant Valid() && stack == old(stack) && color.Keys == old(color.Keys)
        invariant forall j | 0 <= j < i :: adj[node][j] in finished
        invariant old(finished) <= finished && Whites(color) <= Whites(old(color))
      {
        SuccessorsAreEdges(edges, node, adj[node][i]);
        ok := Visit(adj[node][i]);
        if !ok {
          return;
        }
        BlackIsFinished(color, stack, finished, adj[node][i]);
        i := i + 1;
      }
      forall b | HasEdge(edges, node, b) ensures b in finished {
        SuccessorsAreEdges(edges, node, b);
      }
      ok := true;
    }
  }

  // ---- validation ----

  datatype Refusal = UnknownSource(edge: Edge) | UnknownTarget(edge: Edge) | CycleFound | NoStart | ManyStarts

  /** The node index; a repeated id means its last node. */
  function IndexOf(nodes: seq<Node>): (index: map<Id, Node>)
    ensures index.Keys == Ids(nodes)
    ensures forall id | id in index :: index[id] in nodes && index[id].id == id
  {
    if nodes == [] then map[]
    else
      var n := nodes[|nodes| - 1];
      assert nodes == nodes[..|nodes| - 1] + [n];
      IndexOf(nodes[..|nodes| - 1])[n.id := n]
  }

  /** Accepts exactly the graphs whose edges run between known nodes and that have no cycle. */
  method Validate(nodes: seq<Node>, edges: seq<Edge>) returns (refusal: Option<Refusal>, index: map<Id, Node>)
    ensures refusal.None? <==> Closed(nodes, edges) && Acyclic(edges)
    ensures refusal.Some? ==> (refusal.value.CycleFound? <==> Closed(nodes, edges))
    ensures index == IndexOf(nodes)
  {
    index := BuildIndex(nodes);
    refusal := CheckEndpoints(edges, index);
    if refusal.None? {
      var adj := BuildAdjacency(nodes, edges);
      var ok := SearchForCycle(nodes, edges, adj);
      refusal := if ok then None else Some(CycleFound);
    }
  }

  method CheckEndpoints(edges: seq<Edge>, index: map<Id, Node>) returns (refusal: Option<Refusal>)
    ensures refusal.None? <==> forall e | e in edges :: e.src in index && e.dst in index
    ensures match refusal
            case None => true
            case Some(UnknownSource(e)) => e in edges && e.src !in index
            case Some(UnknownTarget(e)) => e in edges && e.src in index && e.dst !in index
            case Some(_) => false
  {
    var i := 0;
    while i < |edges|
      invariant 0 <= i <= |edges|
      invariant forall j | 0 <= j < i :: edges[j].src in index && edges[j].dst in index
    {
      if edges[i].src !in index {
        return Some(UnknownSource(edges[i]));
      }
      if edges[i].dst !in index {
        return Some(UnknownTarget(edges[i]));
      }
      i := i + 1;
    }
    refusal := None;
  }

  method SearchForCycle(nodes: seq<Node>, edges: seq<Edge>, adj: map<Id, seq<Id>>) returns (ok: bool)
    requires Closed(nodes, edges) && adj.Keys == Ids(nodes)
    requires forall id | id in adj :: adj[id] == Successors(edges, id)
    ensures ok <==> Acyclic(edges)
  {
    var check := new CycleCheck(edges, adj);
    var i := 0;
    while i < |nodes|
      invariant 0 <= i <= |nodes|
      invariant check.Valid() && check.stack == [] && check.color.Keys == Ids(nodes)
      invariant forall j | 0 <= j < i :: nodes[j].id in check.finished
    {
      assert nodes[i].id in Ids(nodes);
      ok := check.Visit(nodes[i].id);
      if !ok {
        return;
      }
      i := i + 1;
    }
    OrderedIsAcyclic(edges, check.finished);
    ok := true;
  }

  method BuildIndex(nodes: seq<Node>) returns (index: map<Id, Node>)
    ensures index == IndexOf(nodes)
  {
    index := map[];
    var i := 0;
    while i < |nodes|
      invariant 0 <= i <= |nodes| && index == IndexOf(nodes[..i])
    {
      index := index[nodes[i].id := nodes[i]];
      i := i + 1;
      assert nodes[..i][..i - 1] == nodes[..i - 1];
    }
    assert nodes[..i] == nodes;
  }

  method BuildAdjacency(nodes: seq<Node>, edges: seq<Edge>) returns (adj: map<Id, seq<Id>>)
    requires Closed(nodes, edges)
    ensures adj.Keys == Ids(nodes)
    ensures forall id | id in adj :: adj[id] == Successors(edges, id)
  {
    adj := map n | n in nodes :: n.id := [];
    var i := 0;
    while i < |edges|
      invariant 0 <= i <= |edges| && adj.Keys == Ids(nodes)
      invariant forall id | id in adj :: adj[id] == Successors(edges[..i], id)
    {
      assert edges[..i + 1][..i] == edges[..i];
      adj := adj[edges[i].src := adj[edges[i].src] + [edges[i].dst]];
      i := i + 1;
    }
    assert edges[..i] == edges;
  }

  function Targets(edges: seq<Edge>): set<Id> {
    set e | e in edges :: e.dst
  }

  function Starts(nodes: seq<Node>, edges: seq<Edge>): seq<Node> {
    if nodes == [] then []
    else Starts(nodes[..|nodes| - 1], edges) +
         (if nodes[|nodes| - 1].id in Targets(edges) then [] else [nodes[|nodes| - 1]])
  }

  function StartNode(nodes: seq<Node>, edges: seq<Edge>): (Option<Refusal>, Id) {
    var starts := Starts(nodes, edges);
    if |starts| == 0 then (Some(NoStart), "")
    else if |starts| > 1 then (Some(ManyStarts), "")
    else (None, starts[0].id)
  }

  /** No edge leads to the node. */
  predicate IsRoot(edges: seq<Edge>, n: Node) { forall e | e in edges :: e.dst != n.id }

  lemma {:induction false} OneRoot(nodes: seq<Node>, edges: seq<Edge>) returns (i: nat)
    requires |Starts(nodes, edges)| == 1
    ensures i < |nodes| && nodes[i] == Starts(nodes, edges)[0] && IsRoot(edges, nodes[i])
    ensures forall j | 0 <= j < |nodes| && j != i :: !IsRoot(edges, nodes[j])
  {
    var n := |nodes| - 1;
    var front := Starts(nodes[..n], edges);
    if nodes[n].id in Targets(edges) {
      i := OneRoot(nodes[..n], edges);
    } else {
      assert front == [];
      i := n;
      forall j | 0 <= j < n ensures !IsRoot(edges, nodes[j]) {
        StartsAre(nodes[..n], edges, nodes[j]);
        assert nodes[j] in nodes[..n];
      }
    }
  }

  lemma {:induction false} TwoRoots(nodes: seq<Node>, edges: seq<Edge>, i: nat, j: nat)
    requires i < j < |nodes| && IsRoot(edges, nodes[i]) && IsRoot(edges, nodes[j])
    ensures |Starts(nodes, edges)| >= 2
  {
    var n := |nodes| - 1;
    if j == n {
      StartsAre(nodes[..n], edges, nodes[i]);
      assert nodes[i] in nodes[..n];
    } else {
      TwoRoots(nodes[..n], edges, i, j);
    }
  }

  /** A run starts at the only node to which no edge leads, and is refused when there is none or
      more than one in the list. */
  lemma StartIsTheOnlyRoot(nodes: seq<Node>, edges: seq<Edge>)
    ensures var (refusal, start) := StartNode(nodes, edges);
            && (refusal.None? ==>
                  exists i | 0 <= i < |nodes| :: nodes[i].id == start && IsRoot(edges, nodes[i])
                                                 && forall j | 0 <= j < |nodes| && j != i :: !IsRoot(edges, nodes[j]))
            && (refusal == Some(NoStart) <==> forall n | n in nodes :: !IsRoot(edges, n))
            && (refusal == Some(ManyStarts) ==> refusal != Some(NoStart))
            && ((exists i, j | 0 <= i < j < |nodes| :: IsRoot(edges, nodes[i]) && IsRoot(edges, nodes[j])) ==>
                  refusal == Some(ManyStarts))
  {
    var starts := Starts(nodes, edges);
    forall n ensures n in starts <==> n in nodes && IsRoot(edges, n) {
      StartsAre(nodes, edges, n);
    }
    if |starts| == 1 {
      var i := OneRoot(nodes, edges);
    }
    if starts == [] {
      forall n | n in nodes ensures !IsRoot(edges, n) {
        assert n !in starts;
      }
    } else {
      assert starts[0] in starts;
    }
    if i, j :| 0 <= i < j < |nodes| && IsRoot(edges, nodes[i]) && IsRoot(edges, nodes[j]) {
      TwoRoots(nodes, edges, i, j);
    }
  }

  /** Of several nodes with one id the index has the last. */
  lemma {:induction false} IndexHasTheLast(nodes: seq<Node>, i: nat)
    requires i < |nodes| && forall j | i < j < |nodes| :: nodes[j].id != nodes[i].id
    ensures nodes[i].id in IndexOf(nodes) && IndexOf(nodes)[nodes[i].id] == nodes[i]
  {
    if i < |nodes| - 1 {
      IndexHasTheLast(nodes[..|nodes| - 1], i);
    }
  }

  lemma {:induction false} StartsAre(nodes: seq<Node>, edges: seq<Edge>, n: Node)
    ensures n in Starts(nodes, edges) <==> n in nodes && n.id !in Targets(edges)
  {
    if nodes != [] {
      StartsAre(nodes[..|nodes| - 1], edges, n);
      assert nodes == nodes[..|nodes| - 1] + [nodes[|nodes| - 1]];
    }
  }

  // ---- distinctness and counting ----

  lemma {:induction false} DistinctFits(p: seq<Id>, ids: set<Id>)
    requires Distinct(p) && forall x | x in p :: x in ids
    ensures |p| <= |ids|
  {
    if p != [] {
      var x := p[|p| - 1];
      DistinctFits(p[..|p| - 1], ids - {x});
    }
  }

  /** In an accepted graph no path meets a node twice. */
  lemma PathIsDistinct(edges: seq<Edge>, p: seq<Id>)
    requires Acyclic(edges) && IsPath(edges, p)
    ensures Distinct(p)
  {
    forall i, j | 0 <= i < j < |p| ensures p[i] != p[j] {
      if p[i] == p[j] {
        RepeatIsCycle(edges, p, i, j);
      }
    }
  }

  lemma {:induction false} PathBackwards(edges: seq<Edge>, ids: set<Id>, start: Id, n: nat) returns (p: seq<Id>)
    requires start in ids
    requires forall e | e in edges :: e.src in ids
    requires forall x | x in ids :: x in Targets(edges)
    ensures IsPath(edges, p) && |p| == n + 1 && forall x | x in p :: x in ids
  {
    if n == 0 {
      p := [start];
    } else {
      p := PathBackwards(edges, ids, start, n - 1);
      assert p[0] in Targets(edges);
      var e :| e in edges && e.dst == p[0];
      assert HasEdge(edges, e.src, p[0]);
      PathCons(edges, e.src, p);
      p := [e.src] + p;
    }
  }

  /** An accepted non-empty graph has a node without incoming edges: only several are refused. */
  lemma AcceptedHasStart(nodes: seq<Node>, edges: seq<Edge>)
    requires nodes != [] && Closed(nodes, edges) && Acyclic(edges)
    ensures StartNode(nodes, edges).0 != Some(NoStart)
  {
    if Starts(nodes, edges) == [] {
      forall x | x in Ids(nodes) ensures x in Targets(edges) {
        var n :| n in nodes && n.id == x;
        StartsAre(nodes, edges, n);
      }
      assert nodes[0].id in Ids(nodes);
      var p := PathBackwards(edges, Ids(nodes), nodes[0].id, |Ids(nodes)|);
      PathIsDistinct(edges, p);
      DistinctFits(p, Ids(nodes));
    }
  }
}
