/** Crash and resume: what a checkpoint left by interrupted runs is worth. */
module DagResume {
  import opened Basics
  import opened Dag
  import opened DagRun

  function Lookup(ctx: Ctx, id: Id): Option<Entry> {
    if id in ctx then Some(ctx[id]) else None
  }

  /** `b` is `a` or can be reached from it. */
  ghost predicate Downstream(edges: seq<Edge>, a: Id, b: Id) {
    exists p :: IsPath(edges, p) && p[0] == a && p[|p| - 1] == b
  }

  /** An executor that reads nothing of its own node or of nodes downstream of it. */
  ghost predicate ReadsUpstreamOnly(g: Plan) {
    forall id, c: Ctx, d: Ctx | id in Ids(g.nodes) && SameUpstream(g.edges, id, c, d) ::
      g.exec(IndexOf(g.nodes)[id], c) == g.exec(IndexOf(g.nodes)[id], d)
  }

  ghost predicate SameUpstream(edges: seq<Edge>, id: Id, c: Ctx, d: Ctx) {
    forall k | !Downstream(edges, id, k) :: Lookup(c, k) == Lookup(d, k)
  }

  ghost function StepsN(g: Plan, w: Walker, n: nat): Walker
    requires Accepted(g) && OnTrack(g, w)
    decreases n
  {
    if n == 0 || w.current.None? then w
    else
      StepKeepsTrack(g, w);
      StepsN(g, Step(g, w), n - 1)
  }

  lemma StepsUnfold(g: Plan, w: Walker, n: nat)
    requires Accepted(g) && OnTrack(g, w) && n > 0 && w.current.Some?
    ensures OnTrack(g, Step(g, w)) && StepsN(g, w, n) == StepsN(g, Step(g, w), n - 1)
  {
    StepKeepsTrack(g, w);
  }

  // ---- interrupted runs ----

  predicate Executes(g: Plan, w: Walker)
  {
    && w.current.Some? && w.current.value in Ids(g.nodes)
    && !Done(w.ctx, w.current.value)
    && IndexOf(g.nodes)[w.current.value].kind in KINDS
  }

  /** What a run begun from `before` can leave in the file when it is killed, cannot save,
      tears the file, or meets an error its executor does not always raise. */
  ghost predicate LeavesBehind(g: Plan, initial: Ctx, start: Id, before: Checkpoint, after: Checkpoint)
    requires Accepted(g) && start in Ids(g.nodes)
  {
    exists n: nat :: CutShort(g, StepsN(g, Begin(initial, before, start), n), after)
  }

  ghost predicate CutShort(g: Plan, w: Walker, after: Checkpoint) {
    || after == map[]
    || after == w.checkpoint
    || (Executes(g, w) && exists e :: after == SavedOf(w.ctx[w.current.value := Recorded(FailureOf(e))]))
  }

  /** Checkpoints left by one interrupted run after another, from no file at all. */
  ghost predicate Interruptions(g: Plan, initial: Ctx, start: Id, files: seq<Checkpoint>)
    requires Accepted(g) && start in Ids(g.nodes)
  {
    && |files| > 0 && files[0] == map[]
    && forall i | 0 <= i < |files| - 1 :: LeavesBehind(g, initial, start, files[i], files[i + 1])
  }

  // ---- saved work is not repeated ----

  lemma {:induction false} DoneStaysDone(g: Plan, w: Walker, id: Id)
    requires Accepted(g) && OnTrack(g, w) && Done(w.ctx, id) && id !in w.executed
    ensures id !in Walk(g, w).executed && Lookup(Walk(g, w).ctx, id) == Lookup(w.ctx, id)
    decreases Remaining(g, w)
  {
    if w.current.Some? {
      StepKeepsTrack(g, w);
      DoneStaysDone(g, Step(g, w), id);
    }
  }

  /** No run executes a node whose saved result is ok, whatever the checkpoint. */
  lemma SavedWorkIsNotRepeated(g: Plan, initial: Ctx, saved: Checkpoint, start: Id, id: Id)
    requires Accepted(g) && start in Ids(g.nodes)
    requires id in saved && saved[id].ok
    ensures var end := Walk(g, Begin(initial, saved, start));
            id !in end.executed && Lookup(end.ctx, id) == Some(Recorded(saved[id]))
  {
    DoneStaysDone(g, Begin(initial, saved, start), id);
  }

  // ---- the uninterrupted run as the measure ----

  lemma {:induction false} VisitedIsFrozen(g: Plan, w: Walker, id: Id)
    requires Accepted(g) && OnTrack(g, w) && id in w.path
    ensures id in Walk(g, w).path && Lookup(Walk(g, w).ctx, id) == Lookup(w.ctx, id)
    decreases Remaining(g, w)
  {
    if w.current.Some? {
      StepKeepsTrack(g, w);
      VisitedIsFrozen(g, Step(g, w), id);
    }
  }

  lemma DownstreamCons(edges: seq<Edge>, a: Id, b: Id, c: Id)
    requires HasEdge(edges, a, b) && Downstream(edges, b, c)
    ensures Downstream(edges, a, c)
  {
    var p :| IsPath(edges, p) && p[0] == b && p[|p| - 1] == c;
    PathCons(edges, a, p);
    var q := [a] + p;
    assert q[0] == a && q[|q| - 1] == c;
  }

  lemma {:induction false} LaterIsDownstream(g: Plan, w: Walker, id: Id)
    requires Accepted(g) && OnTrack(g, w) && id in Walk(g, w).path && id !in w.path
    ensures w.current.Some? && Downstream(g.edges, w.current.value, id)
    decreases Remaining(g, w)
  {
    if w.current.Some? {
      StepKeepsTrack(g, w);
      if id == w.current.value {
        assert IsPath(g.edges, [id]);
      } else {
        LaterIsDownstream(g, Step(g, w), id);
        DownstreamCons(g.edges, w.current.value, Step(g, w).current.value, id);
      }
    }
  }

  /** A node that a run either executes or finds already done in the initial context. */
  predicate MayExecute(g: Plan, initial: Ctx, k: Id) {
    k in Ids(g.nodes) && IndexOf(g.nodes)[k].kind in KINDS && !Done(initial, k)
  }

  /** A checkpoint agrees with the uninterrupted run `truth` wherever it claims success. */
  ghost predicate Good(g: Plan, initial: Ctx, truth: Walker, file: Checkpoint) {
    forall k | k in file :: GoodAt(g, initial, truth, k, file[k])
  }

  predicate GoodAt(g: Plan, initial: Ctx, truth: Walker, k: Id, r: NodeResult) {
    || Lookup(initial, k) == Some(Recorded(r))
    || (k in truth.path && MayExecute(g, initial, k) && (r.ok ==> Lookup(truth.ctx, k) == Some(Recorded(r))))
  }

  /** `u` walks without a file and `r` from `file`; they are at the same place. */
  ghost predicate InStep(g: Plan, initial: Ctx, truth: Walker, file: Checkpoint, u: Walker, r: Walker) {
    && r.current == u.current && r.path == u.path && r.ending == u.ending
    && (forall k | k in u.path :: Lookup(r.ctx, k) == Lookup(u.ctx, k))
    && (forall k | k in u.path && !MayExecute(g, initial, k) :: Lookup(u.ctx, k) == Lookup(initial, k))
    && (forall k | k !in u.path :: Lookup(u.ctx, k) == Lookup(initial, k))
    && (forall k | k !in u.path :: Lookup(r.ctx, k) == Lookup(Loaded(initial, file), k))
  }

  /** Whatever has been loaded beyond the path so far lies downstream. */
  lemma SameUpstreamHere(g: Plan, initial: Ctx, truth: Walker, file: Checkpoint, u: Walker, r: Walker)
    requires Accepted(g) && OnTrack(g, u) && truth == Walk(g, u) && u.current.Some?
    requires Good(g, initial, truth, file) && InStep(g, initial, truth, file, u, r)
    ensures SameUpstream(g.edges, u.current.value, u.ctx, r.ctx)
  {
    forall k | !Downstream(g.edges, u.current.value, k) ensures Lookup(u.ctx, k) == Lookup(r.ctx, k) {
      if k !in u.path && k in file {
        assert GoodAt(g, initial, truth, k, file[k]);
        if k in truth.path {
          LaterIsDownstream(g, u, k);
        }
      }
    }
  }

  // What a step does, case by case.

  lemma StepSkips(g: Plan, w: Walker)
    requires w.current.Some? && w.current.value in Ids(g.nodes) && Done(w.ctx, w.current.value)
    ensures var t := Step(g, w);
            t.current == NextNode(g.edges, w.current.value, true) && t.ctx == w.ctx
            && t.ending == if t.current.None? then Finished else Going
  {
  }

  lemma StepRuns(g: Plan, w: Walker)
    requires Executes(g, w)
    ensures var id := w.current.value; var t := Step(g, w);
            match g.exec(IndexOf(g.nodes)[id], w.ctx)
            case Returned(result) =>
              t.current == NextNode(g.edges, id, result.ok) && Lookup(t.ctx, id) == Some(Recorded(result))
              && t.ending == if t.current.None? then Finished else Going
            case Raised(e) =>
              t.current == None && Lookup(t.ctx, id) == Some(Recorded(FailureOf(e))) && t.ending == Crashed(id, e)
  {
  }

  lemma StepStops(g: Plan, w: Walker)
    requires w.current.Some? && w.current.value in Ids(g.nodes) && !Done(w.ctx, w.current.value) && !Executes(g, w)
    ensures var t := Step(g, w); t.current == None && t.ctx == w.ctx && t.ending == UnknownKind(w.current.value)
  {
  }

  lemma OthersUnchanged(g: Plan, w: Walker, k: Id)
    requires w.current.Some? && w.current.value in Ids(g.nodes) && k != w.current.value
    ensures Lookup(Step(g, w).ctx, k) == Lookup(w.ctx, k)
  {
  }

  lemma StepIsFrozen(g: Plan, w: Walker)
    requires Accepted(g) && OnTrack(g, w) && w.current.Some?
    ensures var id := w.current.value;
            id in Walk(g, w).path && Lookup(Walk(g, w).ctx, id) == Lookup(Step(g, w).ctx, id)
  {
    StepKeepsTrack(g, w);
    VisitedIsFrozen(g, Step(g, w), w.current.value);
  }

  /** Where the file says the current node succeeded, the uninterrupted run says the same;
      where the file cannot speak for it, both contexts hold what the initial one held. */
  lemma FileIsTrueHere(g: Plan, initial: Ctx, truth: Walker, file: Checkpoint, id: Id,
                       mine: Option<Entry>, theirs: Option<Entry>)
    requires Good(g, initial, truth, file)
    requires mine == Lookup(initial, id) && theirs == Lookup(Loaded(initial, file), id)
    ensures theirs == mine || (MayExecute(g, initial, id) && id in file && theirs == Some(Recorded(file[id]))
                               && (file[id].ok ==> theirs == Lookup(truth.ctx, id)))
  {
    if id in file {
      assert GoodAt(g, initial, truth, id, file[id]);
    }
  }

  /** Both walks take the same branch at the current node, and record the same. */
  lemma SameMove(g: Plan, initial: Ctx, truth: Walker, file: Checkpoint, u: Walker, r: Walker)
    requires Accepted(g) && ReadsUpstreamOnly(g) && OnTrack(g, u) && truth == Walk(g, u) && u.current.Some?
    requires Good(g, initial, truth, file) && InStep(g, initial, truth, file, u, r)
    ensures var id := u.current.value; var (v, t) := (Step(g, u), Step(g, r));
            && v.current == t.current && v.ending == t.ending
            && Lookup(v.ctx, id) == Lookup(t.ctx, id)
            && (!MayExecute(g, initial, id) ==> Lookup(v.ctx, id) == Lookup(initial, id))
  {
    var id := u.current.value;
    StepKeepsTrack(g, u);
    FileIsTrueHere(g, initial, truth, file, id, Lookup(u.ctx, id), Lookup(r.ctx, id));
    StepIsFrozen(g, u);
    if Done(u.ctx, id) {
      StepSkips(g, u);
      StepSkips(g, r);
    } else if !Executes(g, u) {
      StepStops(g, u);
      StepStops(g, r);
    } else if Done(r.ctx, id) {
      StepRuns(g, u);
      StepSkips(g, r);
    } else {
      SameUpstreamHere(g, initial, truth, file, u, r);
      StepRuns(g, u);
      StepRuns(g, r);
    }
  }

  /** One move alike keeps the walks in step; `v` and `t` stand for the states after it. */
  lemma AlikeStaysInStep(g: Plan, initial: Ctx, truth: Walker, file: Checkpoint,
                         u: Walker, r: Walker, v: Walker, t: Walker)
    requires InStep(g, initial, truth, file, u, r) && u.current.Some?
    requires v.path == u.path + [u.current.value] && t.path == r.path + [u.current.value]
    requires v.current == t.current && v.ending == t.ending
    requires Lookup(v.ctx, u.current.value) == Lookup(t.ctx, u.current.value)
    requires !MayExecute(g, initial, u.current.value) ==>
               Lookup(v.ctx, u.current.value) == Lookup(initial, u.current.value)
    requires forall k | k != u.current.value ::
               Lookup(v.ctx, k) == Lookup(u.ctx, k) && Lookup(t.ctx, k) == Lookup(r.ctx, k)
    ensures InStep(g, initial, truth, file, v, t)
  {
  }

  lemma InStepStep(g: Plan, initial: Ctx, truth: Walker, file: Checkpoint, u: Walker, r: Walker)
    requires Accepted(g) && ReadsUpstreamOnly(g) && OnTrack(g, u) && truth == Walk(g, u) && u.current.Some?
    requires Good(g, initial, truth, file) && InStep(g, initial, truth, file, u, r)
    ensures InStep(g, initial, truth, file, Step(g, u), Step(g, r))
  {
    SameMove(g, initial, truth, file, u, r);
    StepKeepsTrack(g, u);
    assert OnTrack(g, r);
    StepKeepsTrack(g, r);
    forall k | k != u.current.value
      ensures Lookup(Step(g, u).ctx, k) == Lookup(u.ctx, k) && Lookup(Step(g, r).ctx, k) == Lookup(r.ctx, k)
    {
      OthersUnchanged(g, u, k);
      OthersUnchanged(g, r, k);
    }
    AlikeStaysInStep(g, initial, truth, file, u, r, Step(g, u), Step(g, r));
  }

  /** Two walks in step end in step. */
  lemma {:induction false} InStepWalk(g: Plan, initial: Ctx, truth: Walker, file: Checkpoint, u: Walker, r: Walker)
    requires Accepted(g) && ReadsUpstreamOnly(g) && OnTrack(g, u) && OnTrack(g, r) && truth == Walk(g, u)
    requires Good(g, initial, truth, file) && InStep(g, initial, truth, file, u, r)
    ensures InStep(g, initial, truth, file, Walk(g, u), Walk(g, r))
    decreases Remaining(g, u)
  {
    if u.current.Some? {
      InStepStep(g, initial, truth, file, u, r);
      StepKeepsTrack(g, u);
      StepKeepsTrack(g, r);
      InStepWalk(g, initial, truth, file, Step(g, u), Step(g, r));
    }
  }

  // ---- what the interrupted runs left is good ----

  lemma SavedIsGood(g: Plan, initial: Ctx, truth: Walker, file: Checkpoint, u: Walker, r: Walker)
    requires Accepted(g) && OnTrack(g, u) && truth == Walk(g, u)
    requires Good(g, initial, truth, file) && InStep(g, initial, truth, file, u, r)
    ensures Good(g, initial, truth, SavedOf(r.ctx))
  {
    forall k | k in SavedOf(r.ctx) ensures GoodAt(g, initial, truth, k, SavedOf(r.ctx)[k]) {
      if k in u.path {
        VisitedIsFrozen(g, u, k);
      } else if k in file {
        assert GoodAt(g, initial, truth, k, file[k]);
      }
    }
  }

  lemma CutShortIsGood(g: Plan, initial: Ctx, truth: Walker, file: Checkpoint, u: Walker, r: Walker, after: Checkpoint)
    requires Accepted(g) && OnTrack(g, u) && truth == Walk(g, u)
    requires Good(g, initial, truth, file) && InStep(g, initial, truth, file, u, r)
    requires Good(g, initial, truth, r.checkpoint) && CutShort(g, r, after)
    ensures Good(g, initial, truth, after)
  {
    if after != map[] && after != r.checkpoint {
      var id := r.current.value;
      var e :| after == SavedOf(r.ctx[id := Recorded(FailureOf(e))]);
      SavedIsGood(g, initial, truth, file, u, r);
      StepKeepsTrack(g, u);
      StepIsFrozen(g, u);
      FileIsTrueHere(g, initial, truth, file, id, Lookup(u.ctx, id), Lookup(r.ctx, id));
      RaisedIsGood(g, initial, truth, r.ctx, id, FailureOf(e));
    }
  }

  lemma RaisedIsGood(g: Plan, initial: Ctx, truth: Walker, ctx: Ctx, id: Id, failure: NodeResult)
    requires Good(g, initial, truth, SavedOf(ctx))
    requires id in truth.path && MayExecute(g, initial, id) && !failure.ok
    ensures Good(g, initial, truth, SavedOf(ctx[id := Recorded(failure)]))
  {
    var after := SavedOf(ctx[id := Recorded(failure)]);
    forall k | k in after ensures GoodAt(g, initial, truth, k, after[k]) {
      if k != id {
        assert GoodAt(g, initial, truth, k, SavedOf(ctx)[k]);
      }
    }
  }

  lemma StepSavesItsContext(g: Plan, w: Walker)
    requires w.current.Some? && w.current.value in Ids(g.nodes)
    ensures Step(g, w).checkpoint == w.checkpoint || Step(g, w).checkpoint == SavedOf(Step(g, w).ctx)
  {
  }

  ghost predicate Synced(g: Plan, initial: Ctx, truth: Walker, file: Checkpoint, u: Walker, r: Walker)
    requires Accepted(g)
  {
    && OnTrack(g, u) && OnTrack(g, r) && truth == Walk(g, u)
    && InStep(g, initial, truth, file, u, r) && Good(g, initial, truth, r.checkpoint)
  }

  lemma SyncedStep(g: Plan, initial: Ctx, truth: Walker, file: Checkpoint, u: Walker, r: Walker)
    requires Accepted(g) && ReadsUpstreamOnly(g) && Good(g, initial, truth, file)
    requires Synced(g, initial, truth, file, u, r) && u.current.Some?
    ensures Synced(g, initial, truth, file, Step(g, u), Step(g, r))
  {
    var v, t := Step(g, u), Step(g, r);
    InStepStep(g, initial, truth, file, u, r);
    assert OnTrack(g, v) && truth == Walk(g, v) by { StepKeepsTrack(g, u); }
    assert OnTrack(g, t) by { StepKeepsTrack(g, r); }
    SavedIsGood(g, initial, truth, file, v, t);
    StepSavesItsContext(g, r);
  }

  /** After any number of steps the two walks are in step and the file is good. */
  lemma {:induction false} SyncedAfter(g: Plan, initial: Ctx, truth: Walker, file: Checkpoint,
                                       u: Walker, r: Walker, n: nat)
    returns (v: Walker, t: Walker)
    requires Accepted(g) && ReadsUpstreamOnly(g) && Good(g, initial, truth, file)
    requires Synced(g, initial, truth, file, u, r)
    ensures Synced(g, initial, truth, file, v, t)
    ensures v == StepsN(g, u, n) && t == StepsN(g, r, n)
    decreases n
  {
    if n == 0 || u.current.None? {
      v, t := u, r;
    } else {
      SyncedStep(g, initial, truth, file, u, r);
      StepsUnfold(g, u, n);
      StepsUnfold(g, r, n);
      v, t := SyncedAfter(g, initial, truth, file, Step(g, u), Step(g, r), n - 1);
    }
  }

  lemma LeftBehindIsGood(g: Plan, initial: Ctx, start: Id, before: Checkpoint, after: Checkpoint)
    requires Accepted(g) && ReadsUpstreamOnly(g) && start in Ids(g.nodes)
    requires Good(g, initial, Walk(g, Begin(initial, map[], start)), before)
    requires LeavesBehind(g, initial, start, before, after)
    ensures Good(g, initial, Walk(g, Begin(initial, map[], start)), after)
  {
    var u := Begin(initial, map[], start);
    var r := Begin(initial, before, start);
    var truth := Walk(g, u);
    var n: nat :| CutShort(g, StepsN(g, r, n), after);
    var v, t := SyncedAfter(g, initial, truth, before, u, r, n);
    CutShortIsGood(g, initial, truth, before, v, t, after);
  }

  lemma {:induction false} InterruptionsAreGood(g: Plan, initial: Ctx, start: Id, files: seq<Checkpoint>)
    requires Accepted(g) && ReadsUpstreamOnly(g) && start in Ids(g.nodes) && Interruptions(g, initial, start, files)
    ensures Good(g, initial, Walk(g, Begin(initial, map[], start)), files[|files| - 1])
  {
    if |files| > 1 {
      var prior := files[..|files| - 1];
      forall i | 0 <= i < |prior| - 1 ensures LeavesBehind(g, initial, start, prior[i], prior[i + 1]) {
        assert LeavesBehind(g, initial, start, files[i], files[i + 1]);
      }
      InterruptionsAreGood(g, initial, start, prior);
      assert LeavesBehind(g, initial, start, files[|files| - 2], files[|files| - 1]);
      LeftBehindIsGood(g, initial, start, files[|files| - 2], files[|files| - 1]);
    }
  }

  /** Resuming from whatever any number of interrupted runs left takes the same path to
      the same end as a run that was never interrupted, with the same result at every node. */
  lemma ResumeRefinesUninterruptedRun(g: Plan, initial: Ctx, start: Id, files: seq<Checkpoint>)
    requires Accepted(g) && ReadsUpstreamOnly(g) && start in Ids(g.nodes) && Interruptions(g, initial, start, files)
    ensures var whole := Walk(g, Begin(initial, map[], start));
            var resumed := Walk(g, Begin(initial, files[|files| - 1], start));
            && resumed.path == whole.path && resumed.ending == whole.ending
            && forall id | id in whole.path :: Lookup(resumed.ctx, id) == Lookup(whole.ctx, id)
  {
    InterruptionsAreGood(g, initial, start, files);
    var u := Begin(initial, map[], start);
    InStepWalk(g, initial, Walk(g, u), files[|files| - 1], u, Begin(initial, files[|files| - 1], start));
  }

  // ---- without the hypothesis ----

  /** A gate that succeeds only when a later node has already left a result. */
  function Peeking(): Plan {
    Plan([Node("a", "gate"), Node("b", "gate")], [Edge("a", "b", Always)],
         (n: Node, ctx: Ctx) => Returned(NodeResult(n.id == "b" || "b" in ctx, "", "", false)), true)
  }

  lemma PeekingIsAccepted()
    ensures Accepted(Peeking()) && Ids(Peeking().nodes) == {"a", "b"}
    ensures IndexOf(Peeking().nodes) == map["a" := Node("a", "gate"), "b" := Node("b", "gate")]
    ensures forall ok :: NextNode(Peeking().edges, "a", ok) == Some("b") && NextNode(Peeking().edges, "b", ok) == None
  {
    var g := Peeking();
    assert g.nodes[0].id == "a" && g.nodes[1].id == "b";
    assert g.nodes[..1] == [Node("a", "gate")] && g.nodes[..1][..0] == [];
    assert IndexOf(g.nodes[..1]) == map["a" := Node("a", "gate")];
    var order := ["b", "a"];
    forall i, b | 0 <= i < |order| && HasEdge(g.edges, order[i], b) ensures b in order[..i] {
      assert order[..i] == if i == 0 then [] else ["b"];
    }
    OrderedIsAcyclic(g.edges, order);
  }

  lemma PeekingFirstStep(w: Walker)
    requires w.current == Some("a") && !Done(w.ctx, "a") && "a" in Ids(Peeking().nodes)
    ensures var v := Step(Peeking(), w);
            v.current == Some("b") && v.ctx == w.ctx["a" := Recorded(NodeResult("b" in w.ctx, "", "", false))]
            && v.checkpoint == SavedOf(v.ctx)
  {
    PeekingIsAccepted();
  }

  lemma PeekingSecondStep(w: Walker)
    requires w.current == Some("b") && w.checkpoint == SavedOf(w.ctx) && "b" in Ids(Peeking().nodes)
    ensures var v := Step(Peeking(), w);
            v.current == None && Done(v.ctx, "b") && v.checkpoint == SavedOf(v.ctx)
            && Lookup(v.ctx, "a") == Lookup(w.ctx, "a")
  {
    PeekingIsAccepted();
  }

  /** The walk is two steps: `a` is run unless already ok, then `b` likewise. */
  lemma PeekingWalk(saved: Checkpoint)
    requires Accepted(Peeking()) && OnTrack(Peeking(), Begin(map[], saved, "a"))
    requires "a" in saved ==> !saved["a"].ok
    ensures var end := Walk(Peeking(), Begin(map[], saved, "a"));
            Lookup(end.ctx, "a") == Some(Recorded(NodeResult("b" in saved, "", "", false))) && Done(end.ctx, "b")
            && end.checkpoint == SavedOf(end.ctx)
  {
    PeekingIsAccepted();
    var g := Peeking();
    var w := Begin(map[], saved, "a");
    StepKeepsTrack(g, w);
    PeekingFirstStep(w);
    StepKeepsTrack(g, Step(g, w));
    PeekingSecondStep(Step(g, w));
    var end := Step(g, Step(g, w));
    assert Walk(g, end) == end;
  }

  /** Such an executor sees its own future after a resume: the first run leaves `a` failed and
      `b` ok, and the second run, which executes the failed node again, records it as ok. */
  lemma PeekingExecutorDiverges()
    ensures var g := Peeking();
            && Accepted(g) && OnTrack(g, Begin(map[], map[], "a"))
            && var file := Walk(g, Begin(map[], map[], "a")).checkpoint;
               && OnTrack(g, Begin(map[], file, "a"))
               && "a" in file && !file["a"].ok
               && Done(Walk(g, Begin(map[], file, "a")).ctx, "a")
  {
    PeekingIsAccepted();
    PeekingWalk(map[]);
    PeekingWalk(Walk(Peeking(), Begin(map[], map[], "a")).checkpoint);
  }
}
