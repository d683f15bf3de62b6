/** How much the read executor can still do on its own: a bound on every run in which nothing
    arrives and nobody cancels, and so the service of every caller. */
module AsyncService {
  import opened Basics
  import opened AsyncReads
  import opened AsyncProtocol

  /** The caller may still be admitted with a slot of its own. */
  predicate MayAdmit(pc: Pc) { pc.Ready? || pc.Trying? || pc.NeedSlot? || pc.Armed? || pc.Suspended? }

  /** The moves a caller has left until it suspends or is served; a free slot gives a caller that
      was refused another try. */
  function Moves(pc: Pc, free: bool): nat {
    match pc
    case Gone => 0
    case Awaiting(_, destination) => if destination.Settled? then 0 else 1
    case Bridging(_) => 2
    case Registering(_) => 3
    case Suspended => 4
    case Armed => 5
    case NeedSlot => if free then 8 else 6
    case Trying => 7
    case Ready => 9
  }

  /** What one queued `event.set` costs when it wakes all of `n` callers. */
  function SetCost(n: nat): nat { 5 * n + 1 }

  /** What one release costs with `n` callers on `l` loops. */
  function SlotCost(n: nat, l: nat): nat { l * (SetCost(n) + 1) + 2 * n + 1 }

  function CallerWork(callers: seq<Caller>, free: bool, slot: nat): nat {
    if callers == [] then 0
    else
      var pc := callers[|callers| - 1].pc;
      Moves(pc, free) + (if MayAdmit(pc) then slot else 0) + CallerWork(callers[..|callers| - 1], free, slot)
  }

  function OneFuture(f: Future, set_: nat, slot: nat): nat {
    (if f.outcome.None? then 1 else 0) + if f.release.Held? then slot else |f.release.todo| * (set_ + 1)
  }

  function FutureWork(futures: seq<Future>, set_: nat, slot: nat): nat {
    if futures == [] then 0
    else OneFuture(futures[|futures| - 1], set_, slot) + FutureWork(futures[..|futures| - 1], set_, slot)
  }

  function LoopWork(loops: seq<LoopState>, set_: nat): nat {
    if loops == [] then 0 else loops[|loops| - 1].queued * set_ + LoopWork(loops[..|loops| - 1], set_)
  }

  predicate Free(e: Fields) { e.outstanding < e.maxBacklog }

  function Work(s: State): nat {
    var set_, slot := SetCost(|s.callers|), SlotCost(|s.callers|, |s.loops|);
    CallerWork(s.callers, Free(s.fields), slot) + FutureWork(s.futures, set_, slot) + LoopWork(s.loops, set_)
  }

  // ---- the sums ----

  function OneCaller(pc: Pc, free: bool, slot: nat): nat { Moves(pc, free) + if MayAdmit(pc) then slot else 0 }

  lemma {:induction false} CallerWorkMove(callers: seq<Caller>, c: nat, pc: Pc, free: bool, slot: nat)
    requires c < |callers|
    ensures CallerWork(callers[c := callers[c].(pc := pc)], free, slot) + OneCaller(callers[c].pc, free, slot) ==
            CallerWork(callers, free, slot) + OneCaller(pc, free, slot)
  {
    hide Moves;
    var n := |callers| - 1;
    var moved := callers[c := callers[c].(pc := pc)];
    if c < n {
      assert moved[..n] == callers[..n][c := callers[..n][c].(pc := pc)];
      CallerWorkMove(callers[..n], c, pc, free, slot);
    } else {
      assert moved[..n] == callers[..n];
    }
  }

  /** A slot that becomes free gives at most two more moves to each caller, one that is taken none. */
  lemma {:induction false} CallerWorkFree(callers: seq<Caller>, slot: nat)
    ensures CallerWork(callers, false, slot) <= CallerWork(callers, true, slot)
    ensures CallerWork(callers, true, slot) <= CallerWork(callers, false, slot) + 2 * |callers|
  {
    if callers != [] {
      CallerWorkFree(callers[..|callers| - 1], slot);
    }
  }

  lemma {:induction false} CallerWorkWoken(callers: seq<Caller>, l: Loop, free: bool, slot: nat)
    ensures CallerWork(Woken(callers, l), free, slot) <= CallerWork(callers, free, slot) + 5 * |callers|
  {
    if callers != [] {
      var n := |callers| - 1;
      assert Woken(callers, l)[..n] == Woken(callers[..n], l);
      CallerWorkWoken(callers[..n], l, free, slot);
    }
  }

  lemma {:induction false} FutureWorkUpdate(futures: seq<Future>, f: nat, x: Future, set_: nat, slot: nat)
    requires f < |futures|
    ensures FutureWork(futures[f := x], set_, slot) + OneFuture(futures[f], set_, slot) ==
            FutureWork(futures, set_, slot) + OneFuture(x, set_, slot)
  {
    hide OneFuture;
    var n := |futures| - 1;
    if f < n {
      assert futures[f := x][..n] == futures[..n][f := x];
      FutureWorkUpdate(futures[..n], f, x, set_, slot);
    } else {
      assert futures[f := x][..n] == futures[..n];
    }
  }

  lemma {:induction false} LoopWorkUpdate(loops: seq<LoopState>, l: nat, x: LoopState, set_: nat)
    requires l < |loops|
    ensures LoopWork(loops[l := x], set_) + loops[l].queued * set_ == LoopWork(loops, set_) + x.queued * set_
  {
    var n := |loops| - 1;
    if l < n {
      assert loops[l := x][..n] == loops[..n][l := x];
      LoopWorkUpdate(loops[..n], l, x, set_);
    } else {
      assert loops[l := x][..n] == loops[..n];
    }
  }

  lemma FutureWorkAppend(futures: seq<Future>, x: Future, set_: nat, slot: nat)
    ensures FutureWork(futures + [x], set_, slot) == FutureWork(futures, set_, slot) + OneFuture(x, set_, slot)
  {
    assert (futures + [x])[..|futures|] == futures;
  }

  lemma {:induction false} FewLoops(loops: set<Loop>, n: nat)
    requires forall l | l in loops :: l < n
    ensures |loops| <= n
  {
    if n == 0 {
      assert loops == {};
    } else {
      var last := n - 1;
      FewLoops(loops - {last}, n - 1);
      assert loops <= (loops - {last}) + {last};
    }
  }

  lemma Times(a: nat, b: nat, x: nat)
    requires a <= b
    ensures a * x <= b * x && (a + 1) * x == a * x + x
  {
  }

  // ---- every step costs something ----

  lemma CallerMoves(s: State, c: nat, pc: Pc, loops: seq<LoopState>)
    requires c < |s.callers| && |loops| == |s.loops|
    requires LoopWork(loops, SetCost(|s.callers|)) == LoopWork(s.loops, SetCost(|s.callers|))
    requires var slot := SlotCost(|s.callers|, |s.loops|); var free := Free(s.fields);
             OneCaller(pc, free, slot) < OneCaller(s.callers[c].pc, free, slot)
    ensures Work(Move(s, c, pc).(loops := loops)) < Work(s)
  {
    hide Moves, LoopWork, SlotCost, SetCost;
    CallerWorkMove(s.callers, c, pc, Free(s.fields), SlotCost(|s.callers|, |s.loops|));
  }

  lemma CpuCostsNothing(s: State, loop: Option<Loop>, cpu: Option<nat>, set_: nat)
    ensures |Cpu(s, loop, cpu).loops| == |s.loops| && LoopWork(Cpu(s, loop, cpu).loops, set_) == LoopWork(s.loops, set_)
  {
    if loop.Some? && loop.value < |s.loops| {
      LoopWorkUpdate(s.loops, loop.value, s.loops[loop.value].(cpu := cpu), set_);
    }
  }

  lemma TurnWorks(s: State, a: Label)
    requires Inv(s) && Enabled(s, a) && (a.Resume? || a.Suspend? || a.Bridge? || a.Propagate?)
    ensures Work(Apply(s, a)) < Work(s)
  {
    hide LoopWork, SlotCost, SetCost, Work;
    var set_ := SetCost(|s.callers|);
    var t := Apply(s, a);
    var pc := t.callers[a.c].pc;
    var cpu := if a.Resume? then Some(a.c) else None;
    CpuCostsNothing(s, s.callers[a.c].loop, cpu, set_);
    assert t.loops == s.loops || t.loops == Cpu(s, s.callers[a.c].loop, cpu).loops;
    CallerMoves(s, a.c, pc, t.loops);
    assert t == Move(s, a.c, pc).(loops := t.loops);
  }

  lemma WaitWorks(s: State, c: nat)
    requires Enabled(s, WaitForSlot(c))
    ensures Work(Apply(s, WaitForSlot(c))) < Work(s)
  {
    hide LoopWork, SlotCost, SetCost;
    var pc := if Free(s.fields) then Trying else Armed;
    CallerMoves(s, c, pc, s.loops);
  }

  lemma RegisterWorks(s: State, c: nat)
    requires Enabled(s, Register(c))
    ensures Work(Apply(s, Register(c))) < Work(s)
  {
    hide LoopWork, SlotCost, SetCost;
    var f := s.callers[c].pc.f;
    var x := s.futures[f].(registered := true, inline := s.futures[f].outcome.Some?);
    FutureWorkUpdate(s.futures, f, x, SetCost(|s.callers|), SlotCost(|s.callers|, |s.loops|));
    CallerMoves(s, c, Bridging(f), s.loops);
  }

  lemma AcquireWorks(s: State, c: nat)
    requires Enabled(s, Acquire(c))
    ensures Work(Apply(s, Acquire(c))) < Work(s)
  {
    hide LoopWork, SlotCost, SetCost;
    AcquireCases(s, c);
    var me := s.callers[c];
    if me.coalesce && me.key in s.fields.inflight {
      CallerMoves(s, c, Bridging(s.fields.inflight[me.key]), s.loops);
    } else if me.loop.Some? && !Free(s.fields) {
      CallerMoves(s, c, NeedSlot, s.loops);
    } else {
      AdmitWorks(s, c);
    }
  }

  lemma AdmissionMoves(f: FutureId, free: bool)
    ensures Moves(Trying, free) == 7 && Moves(Registering(f), free) == 3
  {
  }

  lemma AdmitWorks(s: State, c: nat)
    requires c < |s.callers| && s.callers[c].pc.Trying?
    ensures Work(Admit(s, c)) < Work(s)
  {
    hide LoopWork, SlotCost, SetCost, Moves;
    var set_, slot := SetCost(|s.callers|), SlotCost(|s.callers|, |s.loops|);
    var pc := Registering(|s.futures|);
    var t := Admit(s, c);
    AdmissionMoves(|s.futures|, Free(t.fields));
    CallerWorkMove(s.callers, c, pc, Free(t.fields), slot);
    FutureWorkAppend(s.futures, NewFuture(s.callers[c], c), set_, slot);
    CallerWorkFree(s.callers, slot);
  }

  lemma CompleteWorks(s: State, f: FutureId, o: Outcome)
    requires Enabled(s, Complete(f, o))
    ensures Work(Apply(s, Complete(f, o))) < Work(s)
  {
    hide LoopWork, SlotCost, SetCost, CallerWork;
    var x := s.futures[f].(outcome := Some(o));
    FutureWorkUpdate(s.futures, f, x, SetCost(|s.callers|), SlotCost(|s.callers|, |s.loops|));
  }

  lemma ReleaseWorks(s: State, f: FutureId)
    requires Inv(s) && Enabled(s, ReleaseSlot(f))
    ensures Work(Apply(s, ReleaseSlot(f))) < Work(s)
  {
    hide LoopWork, SetCost, CallerWork, FutureWork;
    var set_, slot := SetCost(|s.callers|), SlotCost(|s.callers|, |s.loops|);
    var todo := s.fields.waiters.Keys;
    var x := s.futures[f].(release := Queueing(todo));
    FutureWorkUpdate(s.futures, f, x, set_, slot);
    FewLoops(todo, |s.loops|);
    Times(|todo|, |s.loops|, set_ + 1);
    CallerWorkFree(s.callers, slot);
  }

  lemma QueueWorks(s: State, f: FutureId, l: Loop)
    requires Enabled(s, QueueSet(f, l))
    ensures Work(Apply(s, QueueSet(f, l))) < Work(s)
  {
    hide LoopWork, SetCost, CallerWork, FutureWork, SlotCost;
    var set_, slot := SetCost(|s.callers|), SlotCost(|s.callers|, |s.loops|);
    var todo := s.futures[f].release.todo;
    FutureWorkUpdate(s.futures, f, s.futures[f].(release := Queueing(todo - {l})), set_, slot);
    assert |todo - {l}| == |todo| - 1;
    Times(|todo| - 1, |todo|, set_ + 1);
    LoopWorkUpdate(s.loops, l, s.loops[l].(queued := s.loops[l].queued + 1), set_);
    Times(s.loops[l].queued, s.loops[l].queued + 1, set_);
  }

  lemma RunSetWorks(s: State, l: Loop)
    requires Enabled(s, RunSet(l))
    ensures Work(Apply(s, RunSet(l))) < Work(s)
  {
    hide LoopWork, CallerWork, FutureWork, SlotCost;
    var set_, slot := SetCost(|s.callers|), SlotCost(|s.callers|, |s.loops|);
    var q := s.loops[l].queued - 1;
    LoopWorkUpdate(s.loops, l, s.loops[l].(queued := q), set_);
    Times(q, q + 1, set_);
    CallerWorkWoken(s.callers, l, Free(s.fields), slot);
  }

  /** Every step that is not an arrival, a cancellation or a loop's opening or closing uses up
      some of the work that is left. */
  lemma StepWorks(s: State, a: Label)
    requires Inv(s) && Enabled(s, a) && !Environment(a)
    ensures Work(Apply(s, a)) < Work(s)
  {
    hide Work, Inv, Apply, Enabled;
    match a
    case Acquire(c) => AcquireWorks(s, c);
    case Register(c) => RegisterWorks(s, c);
    case WaitForSlot(c) => WaitWorks(s, c);
    case Complete(f, o) => CompleteWorks(s, f, o);
    case ReleaseSlot(f) => ReleaseWorks(s, f);
    case QueueSet(f, l) => QueueWorks(s, f, l);
    case RunSet(l) => RunSetWorks(s, l);
    case _ => TurnWorks(s, a);
  }

  predicate OnItsOwn(run: seq<Label>) { forall a | a in run :: !Environment(a) }

  lemma {:induction false} RunsAreShort(s: State, run: seq<Label>)
    requires Inv(s) && IsRun(s, run) && OnItsOwn(run)
    ensures |run| + Work(After(s, run)) <= Work(s)
    decreases |run|
  {
    hide Work, Inv, Apply, Enabled;
    if run != [] {
      assert run[0] in run;
      InvStep(s, run[0]);
      StepWorks(s, run[0]);
      RunsAreShort(Apply(s, run[0]), run[1..]);
    }
  }

  predicate AllServed(s: State) { forall c | 0 <= c < |s.callers| :: Finished(s.callers[c].pc) }

  /** While a caller is unserved somebody can move, so a run that cannot go on has served everybody. */
  lemma QuietMeansServed(s: State)
    requires Inv(s) && Quiet(s)
    ensures AllServed(s)
  {
    hide Inv, Enabled;
    forall c | 0 <= c < |s.callers| ensures Finished(s.callers[c].pc) {
      if !Finished(s.callers[c].pc) {
        var a := UnservedCanMove(s, c);
      }
    }
  }

  lemma ReachableIsFine(maxBacklog: int, before: seq<Label>)
    requires IsRun(Init(maxBacklog), before)
    ensures Inv(After(Init(maxBacklog), before))
  {
    hide Inv, Apply, Enabled;
    assert Inv(Init(maxBacklog)) by { InitIsFine(maxBacklog); }
    InvAfter(Init(maxBacklog), before);
  }

  /** From whatever has happened so far: left on its own, with workers that finish, the executor
      stops after a bounded number of steps, whichever it takes, and where it stops it has served
      every caller. So no retry goes on for ever. */
  lemma EveryCallerIsServedInTime(maxBacklog: int, before: seq<Label>, run: seq<Label>)
    requires IsRun(Init(maxBacklog), before) && IsRun(After(Init(maxBacklog), before), run) && OnItsOwn(run)
    ensures var s := After(Init(maxBacklog), before);
            |run| <= Work(s) && (Quiet(After(s, run)) ==> AllServed(After(s, run)))
  {
    hide Inv, Apply, Enabled, Quiet, AllServed, Work;
    var s := After(Init(maxBacklog), before);
    ReachableIsFine(maxBacklog, before);
    RunsAreShort(s, run);
    InvAfter(s, run);
    if Quiet(After(s, run)) {
      QuietMeansServed(After(s, run));
    }
  }

  /** Wherever a run has got to, it can be continued to one that serves every caller. */
  lemma ServesEveryone(s: State) returns (more: seq<Label>)
    requires Inv(s)
    ensures IsRun(s, more) && OnItsOwn(more) && |more| <= Work(s) && AllServed(After(s, more))
    decreases Work(s)
  {
    hide Inv, Apply, Enabled, Work;
    if c :| 0 <= c < |s.callers| && !Finished(s.callers[c].pc) {
      var a := UnservedCanMove(s, c);
      InvStep(s, a);
      StepWorks(s, a);
      var rest := ServesEveryone(Apply(s, a));
      more := [a] + rest;
      assert more[1..] == rest;
    } else {
      more := [];
    }
  }

  /** So any run that has left some caller unserved goes on, and some continuation of the bounded
      length serves them all. */
  lemma EveryRunCanServeEveryone(maxBacklog: int, before: seq<Label>) returns (more: seq<Label>)
    requires IsRun(Init(maxBacklog), before)
    ensures var s := After(Init(maxBacklog), before);
            IsRun(s, more) && OnItsOwn(more) && |more| <= Work(s) && AllServed(After(s, more))
  {
    hide Inv, Apply, Enabled, Work, AllServed;
    ReachableIsFine(maxBacklog, before);
    more := ServesEveryone(After(Init(maxBacklog), before));
  }

  lemma InitIsFine(maxBacklog: int)
    ensures Inv(Init(maxBacklog))
  {
  }

  // ---- a run that gets a caller to wait beside a free slot ----

  predicate Goes(s: State, a: Label, t: State) { Enabled(s, a) && Apply(s, a) == t }

  predicate IsPath(states: seq<State>, run: seq<Label>) {
    |states| == |run| + 1 && forall i | 0 <= i < |run| :: Goes(states[i], run[i], states[i + 1])
  }

  lemma {:induction false} PathRuns(states: seq<State>, run: seq<Label>)
    requires IsPath(states, run)
    ensures IsRun(states[0], run) && After(states[0], run) == states[|run|]
    decreases |run|
  {
    hide Apply, Enabled;
    if run != [] {
      assert Goes(states[0], run[0], states[1]);
      forall i | 0 <= i < |run[1..]| ensures Goes(states[1..][i], run[1..][i], states[1..][i + 1]) {
        assert Goes(states[i + 1], run[i + 1], states[i + 2]);
      }
      PathRuns(states[1..], run[1..]);
    }
  }

  const EMPTY := Fields(1, map[], 0, map[])
  const TAKEN := Fields(1, map["a" := 0], 1, map[])
  const WATCHED := TAKEN.(waiters := map[0 := false])
  const LOOP := LoopState(true, 0, None)
  const BY_FIRST := LOOP.(cpu := Some(0))
  const BY_SECOND := LOOP.(cpu := Some(1))
  const WORKING := Future("a", true, 0, None, true, false, Held)
  const WORKED := WORKING.(outcome := Some(Value(1)))

  function First(pc: Pc): Caller { Caller(Some(0), "a", true, pc) }

  function Second(pc: Pc): Caller { Caller(Some(0), "b", true, pc) }

  const SERVED := First(Awaiting(0, Waiting))

  const S1 := State(EMPTY, [], [], [LOOP])
  const S2 := State(EMPTY, [], [First(Ready)], [LOOP])
  const S3 := State(EMPTY, [], [First(Ready), Second(Ready)], [LOOP])
  const S4 := State(EMPTY, [], [First(Trying), Second(Ready)], [BY_FIRST])
  const S5 := State(TAKEN, [WORKING.(registered := false)], [First(Registering(0)), Second(Ready)], [BY_FIRST])
  const S6 := State(TAKEN, [WORKING], [First(Bridging(0)), Second(Ready)], [BY_FIRST])
  const S7 := State(TAKEN, [WORKING], [SERVED, Second(Ready)], [LOOP])
  const S8 := State(TAKEN, [WORKING], [SERVED, Second(Trying)], [BY_SECOND])
  const S9 := State(TAKEN, [WORKING], [SERVED, Second(NeedSlot)], [BY_SECOND])
  const S10 := State(WATCHED, [WORKING], [SERVED, Second(Armed)], [BY_SECOND])
  const S11 := State(WATCHED, [WORKING], [SERVED, Second(Suspended)], [LOOP])
  const S12 := State(WATCHED, [WORKED], [SERVED, Second(Suspended)], [LOOP])
  const S13 := State(
    EMPTY.(waiters := map[0 := false]), [WORKED.(release := Queueing({0}))], [SERVED, Second(Suspended)], [LOOP])

  const STATES := [Init(1), S1, S2, S3, S4, S5, S6, S7, S8, S9, S10, S11, S12, S13]

  /** The first caller takes the only slot; the second finds none and suspends; the work ends. */
  const STEPS := [
    OpenLoop, Arrive(Some(0), "a", true), Arrive(Some(0), "b", true), Resume(0),
    Label.Acquire(0), Label.Register(0), Label.Bridge(0), Resume(1),
    Label.Acquire(1), Label.WaitForSlot(1), Suspend(1), Complete(0, Value(1)),
    ReleaseSlot(0)]

  lemma Arrivals()
    ensures Goes(Init(1), OpenLoop, S1)
    ensures Goes(S1, Arrive(Some(0), "a", true), S2)
    ensures Goes(S2, Arrive(Some(0), "b", true), S3)
  {
  }

  lemma FirstEnters()
    ensures Goes(S3, Resume(0), S4)
    ensures Goes(S4, Label.Acquire(0), S5)
  {
  }

  lemma FirstWaits()
    ensures Goes(S5, Label.Register(0), S6)
    ensures Goes(S6, Label.Bridge(0), S7)
  {
  }

  lemma SecondEnters()
    ensures Goes(S7, Resume(1), S8)
    ensures Goes(S8, Label.Acquire(1), S9)
  {
  }

  lemma SecondSuspends()
    ensures Goes(S9, Label.WaitForSlot(1), S10)
    ensures Goes(S10, Suspend(1), S11)
  {
  }

  lemma WorkEnds()
    ensures Goes(S11, Complete(0, Value(1)), S12)
    ensures Goes(S12, ReleaseSlot(0), S13)
  {
    assert TAKEN.inflight - {"a"} == map[];
    assert WATCHED.waiters.Keys == {0};
  }

  lemma StepsArePath()
    ensures IsPath(STATES, STEPS)
  {
    hide Goes;
    Arrivals();
    FirstEnters();
    FirstWaits();
    SecondEnters();
    SecondSuspends();
    WorkEnds();
  }

  /** The situation that `NoCallerIsStranded` speaks of does arise. */
  lemma WaitingBesideAFreeSlotHappens()
    ensures IsRun(Init(1), STEPS) && |After(Init(1), STEPS).callers| == 2
    ensures var s := After(Init(1), STEPS);
            s.callers[1].pc.Suspended? && s.fields.outstanding < s.fields.maxBacklog && WakeupPending(s, 0)
  {
    hide IsRun, After, Apply, Enabled, IsPath;
    StepsArePath();
    PathRuns(STATES, STEPS);
    assert STATES[0] == Init(1) && STATES[13] == S13 && |STEPS| == 13;
    assert WillQueue(S13, 0, 0);
  }
}
