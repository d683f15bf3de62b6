/** Walking an accepted graph, with durable checkpoints.

    An executor is any function of its node and the context; it returns a result
    or raises.  A checkpoint is the file's `nodes` table. */
module DagRun {
  import opened Basics
  import opened Dag

  type Payload = string

  datatype NodeResult = NodeResult(ok: bool, output: Payload, error: string, expectedFailure: bool)

  /** The context holds node results beside whatever else the caller put there. */
  datatype Entry = Recorded(result: NodeResult) | Plain(value: Payload)

  type Ctx = map<Id, Entry>

  type Checkpoint = map<Id, NodeResult>

  datatype Ran = Returned(result: NodeResult) | Raised(error: string)

  type Executor = (Node, Ctx) -> Ran

  const KINDS := {"bash", "prompt", "gate", "subagent"}

  // ---- routing ----

  predicate Fires(e: Edge, current: Id, ok: bool) {
    e.src == current && (e.when.Always? || (e.when.OnOk? && ok) || (e.when.OnFail? && !ok))
  }

  /** The target of the last edge that fires. */
  function NextNode(edges: seq<Edge>, current: Id, ok: bool): (next: Option<Id>)
    ensures next.Some? ==> HasEdge(edges, current, next.value)
  {
    if edges == [] then None
    else
      var e := edges[|edges| - 1];
      assert edges == edges[..|edges| - 1] + [e];
      if Fires(e, current, ok) then Some(e.dst) else NextNode(edges[..|edges| - 1], current, ok)
  }

  method PickNext(edges: seq<Edge>, current: Id, ok: bool) returns (chosen: Option<Id>)
    ensures chosen == NextNode(edges, current, ok)
    ensures chosen.None? <==> forall e | e in edges :: !Fires(e, current, ok)
  {
    chosen := None;
    var i := 0;
    while i < |edges|
      invariant 0 <= i <= |edges|
      invariant chosen == NextNode(edges[..i], current, ok)
      invariant chosen.None? <==> forall j | 0 <= j < i :: !Fires(edges[j], current, ok)
    {
      var e := edges[i];
      if e.src == current {
        if e.when.Always? {
          chosen := Some(e.dst);
        } else if e.when.OnOk? && ok {
          chosen := Some(e.dst);
        } else if e.when.OnFail? && !ok {
          chosen := Some(e.dst);
        }
      }
      i := i + 1;
      assert edges[..i][..i - 1] == edges[..i - 1];
    }
    assert edges[..i] == edges;
  }

  /** The edge leads from `current` to `b`, and its condition is `always` or the outcome's. */
  predicate Leads(e: Edge, current: Id, b: Id, ok: bool) {
    e.src == current && e.dst == b && (e.when == Always || e.when == if ok then OnOk else OnFail)
  }

  /** The last edge of the current node whose condition is `always` or the outcome's decides where
      the walk goes on, and it ends where there is none. */
  lemma {:induction false} LastMatchingEdgeDecides(edges: seq<Edge>, current: Id, ok: bool, b: Id)
    ensures NextNode(edges, current, ok) == Some(b) <==>
            exists i | 0 <= i < |edges| :: Leads(edges[i], current, b, ok)
                                           && forall j, c | i < j < |edges| :: !Leads(edges[j], current, c, ok)
    ensures NextNode(edges, current, ok) == None <==>
            forall i, c | 0 <= i < |edges| :: !Leads(edges[i], current, c, ok)
  {
    if edges != [] {
      var n := |edges| - 1;
      var front, last := edges[..n], edges[n];
      LastMatchingEdgeDecides(front, current, ok, b);
      assert Fires(last, current, ok) <==> Leads(last, current, last.dst, ok);
      if Fires(last, current, ok) {
        assert Leads(edges[n], current, last.dst, ok);
      } else {
        assert forall c :: !Leads(edges[n], current, c, ok);
        assert forall i | 0 <= i < n :: front[i] == edges[i];
      }
    }
  }

  // ---- one step of the walk ----

  datatype Ending = Going | Finished | Crashed(node: Id, error: string) | UnknownKind(node: Id)

  /** `path` lists the nodes visited so far, `executed` those that were run. */
  datatype Walker = Walker(
    ctx: Ctx, current: Option<Id>, checkpoint: Checkpoint, path: seq<Id>, executed: seq<Id>, ending: Ending)

  datatype Plan = Plan(nodes: seq<Node>, edges: seq<Edge>, exec: Executor, durable: bool)

  ghost predicate Accepted(g: Plan) {
    Closed(g.nodes, g.edges) && Acyclic(g.edges)
  }

  function Loaded(initial: Ctx, saved: Checkpoint): Ctx {
    initial + map id | id in saved :: Recorded(saved[id])
  }

  function SavedOf(ctx: Ctx): Checkpoint {
    map id | id in ctx && ctx[id].Recorded? :: ctx[id].result
  }

  function Begin(initial: Ctx, saved: Checkpoint, start: Id): Walker {
    Walker(Loaded(initial, saved), Some(start), saved, [], [], Going)
  }

  predicate Done(ctx: Ctx, id: Id) {
    id in ctx && ctx[id].Recorded? && ctx[id].result.ok
  }

  function Goto(w: Walker, next: Option<Id>): Walker
    requires w.current.Some?
  {
    w.(path := w.path + [w.current.value], current := next, ending := if next.None? then Finished else Going)
  }

  function Store(g: Plan, w: Walker, id: Id, result: NodeResult): Walker {
    var ctx := w.ctx[id := Recorded(result)];
    w.(ctx := ctx, checkpoint := if g.durable then SavedOf(ctx) else w.checkpoint, executed := w.executed + [id])
  }

  function FailureOf(error: string): NodeResult {
    NodeResult(false, "", error, false)
  }

  function Step(g: Plan, w: Walker): Walker
    requires w.current.Some? && w.current.value in Ids(g.nodes)
  {
    var id := w.current.value;
    var node := IndexOf(g.nodes)[id];
    if Done(w.ctx, id) then Goto(w, NextNode(g.edges, id, true))
    else if node.kind !in KINDS then Goto(w, None).(ending := UnknownKind(id))
    else match g.exec(node, w.ctx)
      case Returned(r) => Goto(Store(g, w, id, r), NextNode(g.edges, id, r.ok))
      case Raised(e) => Goto(Store(g, w, id, FailureOf(e)), None).(ending := Crashed(id, e))
  }

  /** The checkpoint file holds exactly the results that the context holds. */
  ghost predicate Saves(file: Checkpoint, ctx: Ctx) {
    forall k :: (k in file <==> k in ctx && ctx[k].Recorded?) && (k in file ==> ctx[k] == Recorded(file[k]))
  }

  /** What one turn of the loop does: it passes over a node whose result is ok, stops at a kind
      that it does not know, and otherwise runs the node, puts its result into the context and, in
      a durable run, all results into the file, before it goes on or stops at an error. */
  lemma TurnOfTheLoop(g: Plan, w: Walker)
    requires w.current.Some? && w.current.value in Ids(g.nodes)
    ensures var t := Step(g, w); var id := w.current.value; var node := IndexOf(g.nodes)[id];
            var known := node.kind in {"bash", "prompt", "gate", "subagent"};
            var before := if id in w.ctx then Some(w.ctx[id]) else None;
            && t.path == w.path + [id]
            && if before.Some? && before.value.Recorded? && before.value.result.ok then
                 t.ctx == w.ctx && t.checkpoint == w.checkpoint && t.executed == w.executed
                 && t.current == NextNode(g.edges, id, true)
                 && t.ending == if t.current.None? then Finished else Going
               else if !known then
                 t.ctx == w.ctx && t.checkpoint == w.checkpoint && t.executed == w.executed
                 && t.current == None && t.ending == UnknownKind(id)
               else
                 var ran := g.exec(node, w.ctx);
                 var result := if ran.Returned? then ran.result else NodeResult(false, "", ran.error, false);
                 && t.ctx == w.ctx[id := Recorded(result)] && t.executed == w.executed + [id]
                 && (if g.durable then Saves(t.checkpoint, t.ctx) else t.checkpoint == w.checkpoint)
                 && (if ran.Returned? then
                       t.current == NextNode(g.edges, id, result.ok)
                       && t.ending == if t.current.None? then Finished else Going
                     else t.current == None && t.ending == Crashed(id, ran.error))
  {
  }

  // ---- the walk terminates ----

  /** The walk so far is a path of the graph that leads to the current node. */
  predicate OnTrack(g: Plan, w: Walker) {
    && (forall x | x in w.path :: x in Ids(g.nodes))
    && (w.current.Some? ==> w.current.value in Ids(g.nodes) && IsPath(g.edges, w.path + [w.current.value]))
  }

  function Remaining(g: Plan, w: Walker): set<Id> {
    Ids(g.nodes) - set x | x in w.path
  }

  lemma StepKeepsTrack(g: Plan, w: Walker)
    requires Accepted(g) && OnTrack(g, w) && w.current.Some?
    ensures OnTrack(g, Step(g, w)) && Remaining(g, Step(g, w)) < Remaining(g, w)
    ensures w.current.value !in w.path && Step(g, w).path == w.path + [w.current.value]
    ensures Step(g, w).current.Some? ==> HasEdge(g.edges, w.current.value, Step(g, w).current.value)
  {
    var p := w.path + [w.current.value];
    PathIsDistinct(g.edges, p);
    forall i | 0 <= i < |w.path| ensures w.path[i] != w.current.value {
      assert p[i] != p[|w.path|];
    }
    var t := Step(g, w);
    assert t.path == p;
    assert w.current.value in Remaining(g, w) && w.current.value !in Remaining(g, t);
    if t.current.Some? {
      forall i | 0 <= i < |p| ensures HasEdge(g.edges, (p + [t.current.value])[i], (p + [t.current.value])[i + 1]) {
        if i < |p| - 1 {
          assert HasEdge(g.edges, p[i], p[i + 1]);
        }
      }
    }
  }

  ghost function Walk(g: Plan, w: Walker): Walker
    requires Accepted(g) && OnTrack(g, w)
    decreases Remaining(g, w)
  {
    if w.current.None? then w
    else
      StepKeepsTrack(g, w);
      Walk(g, Step(g, w))
  }

  /** Every run of an accepted graph ends, having visited each node at most once. */
  lemma {:induction false} WalkVisitsOnce(g: Plan, w: Walker)
    requires Accepted(g) && OnTrack(g, w) && Distinct(w.path)
    ensures var end := Walk(g, w);
            end.current.None? && Distinct(end.path) && w.path <= end.path && |end.path| <= |Ids(g.nodes)|
    decreases Remaining(g, w)
  {
    if w.current.None? {
      DistinctFits(w.path, Ids(g.nodes));
    } else {
      StepKeepsTrack(g, w);
      WalkVisitsOnce(g, Step(g, w));
    }
  }

  // ---- the run, as written ----

  datatype Outcome = Refused(refusal: Refusal) | Ended(walker: Walker)

  /** Where a run begins: its checkpoint loaded, at the start node. */
  function Departure(g: Plan, initial: Ctx, saved: Option<Checkpoint>): Walker {
    Begin(initial, if g.durable && saved.Some? then saved.value else map[], StartNode(g.nodes, g.edges).1)
  }

  /** A run begins at the start node, with the results of its file, if it is durable and has one,
      over the context it was given. */
  lemma FileGoesFirst(g: Plan, initial: Ctx, saved: Option<Checkpoint>, id: Id)
    ensures var w := Departure(g, initial, saved);
            && w.current == Some(StartNode(g.nodes, g.edges).1) && w.path == [] && w.executed == []
            && (if g.durable && saved.Some? && id in saved.value
                then id in w.ctx && w.ctx[id] == Recorded(saved.value[id])
                else (id in w.ctx <==> id in initial) && (id in initial ==> w.ctx[id] == initial[id]))
            && (g.durable && saved.Some? ==> w.checkpoint == saved.value)
  {
  }

  /** Loads the checkpoint, walks, and saves after every executed node. */
  method Run(g: Plan, initial: Ctx, saved: Option<Checkpoint>) returns (r: Outcome)
    ensures r.Refused? <==> !Accepted(g) || StartNode(g.nodes, g.edges).0.Some?
    ensures r.Ended? ==>
              var start := Departure(g, initial, saved); OnTrack(g, start) && r.walker == Walk(g, start)
  {
    var refusal, index := Validate(g.nodes, g.edges);
    if refusal.Some? {
      return Refused(refusal.value);
    }
    var (noStart, start) := StartNode(g.nodes, g.edges);
    if noStart.Some? {
      return Refused(noStart.value);
    }
    StartIsKnown(g);
    var file := if g.durable && saved.Some? then saved.value else map[];
    var w := Begin(initial, file, start);
    ghost var begin := w;
    while w.current.Some?
      invariant OnTrack(g, w) && Walk(g, w) == Walk(g, begin)
      decreases Remaining(g, w)
    {
      StepKeepsTrack(g, w);
      ghost var before := w;
      var id := w.current.value;
      var node := index[id];
      if Done(w.ctx, id) {
        var next := PickNext(g.edges, id, true);
        w := Goto(w, next);
      } else if node.kind !in KINDS {
        w := Goto(w, None).(ending := UnknownKind(id));
      } else {
        match g.exec(node, w.ctx) {
          case Returned(result) =>
            w := Store(g, w, id, result);
            var next := PickNext(g.edges, id, result.ok);
            w := Goto(w, next);
          case Raised(error) =>
            w := Store(g, w, id, FailureOf(error));
            w := Goto(w, None).(ending := Crashed(id, error));
        }
      }
      assert w == Step(g, before);
    }
    r := Ended(w);
  }

  lemma StartIsKnown(g: Plan)
    requires StartNode(g.nodes, g.edges).0.None?
    ensures StartNode(g.nodes, g.edges).1 in Ids(g.nodes)
  {
    StartsAre(g.nodes, g.edges, Starts(g.nodes, g.edges)[0]);
  }
}
