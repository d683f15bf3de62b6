/** The read executor as a concurrent protocol.

    Coroutines on several event loops, plain threads calling `submit`, pool
    workers and done-callbacks interleave freely; one label is one lock section
    or one action outside the lock.  A loop runs one coroutine at a time (`cpu`),
    and runs a queued `event.set` only while no coroutine holds it. */
module AsyncProtocol {
  import opened Basics
  import opened AsyncReads

  datatype Outcome = Value(value: int) | Failed(error: int) | Cancelled

  /** Held until its release callback has taken the lock; then the loops whose
      `event.set` that callback has still to queue. */
  datatype Release = Held | Queueing(todo: set<Loop>)

  /** `owner` admitted the future and registers its release callback; `inline`
      says the callback runs in the owner's thread, since the work had finished. */
  datatype Future = Future(
    key: Key, coalesced: bool, owner: nat,
    outcome: Option<Outcome>, registered: bool, inline: bool, release: Release)

  datatype Destination = Waiting | Settled(outcome: Outcome)

  datatype Pc =
    | Ready                      // a new coroutine, or one whose event was set
    | Trying                     // about to call acquire (or submit)
    | NeedSlot                   // acquire returned None
    | Armed                      // wait_for_slot found no room; about to await the event
    | Suspended                  // awaiting the event
    | Registering(f: FutureId)   // admitted; release callback not yet registered
    | Bridging(f: FutureId)      // holds the shared future; no bridge yet
    | Awaiting(f: FutureId, destination: Destination)
    | Gone                       // cancelled before it had a future

  /** A caller without a loop is a thread calling the uncapped `submit`. */
  datatype Caller = Caller(loop: Option<Loop>, key: Key, coalesce: bool, pc: Pc)

  datatype LoopState = LoopState(open: bool, queued: nat, cpu: Option<nat>)

  datatype State = State(
    fields: Fields, futures: seq<Future>, callers: seq<Caller>, loops: seq<LoopState>)

  datatype Label =
    | OpenLoop
    | CloseLoop(l: Loop)
    | Arrive(loop: Option<Loop>, key: Key, coalesce: bool)
    | Resume(c: nat)
    | Acquire(c: nat)
    | Register(c: nat)
    | WaitForSlot(c: nat)
    | Suspend(c: nat)
    | Bridge(c: nat)
    | Propagate(c: nat)
    | Complete(f: FutureId, outcome: Outcome)
    | ReleaseSlot(f: FutureId)
    | QueueSet(f: FutureId, l: Loop)
    | RunSet(l: Loop)
    | CancelWait(c: nat)
    | CancelBridge(c: nat)

  function Init(maxBacklog: int): State {
    State(Fields(if maxBacklog > 1 then maxBacklog else 1, map[], 0, map[]), [], [], [])
  }

  // ---- what a label needs, and what it does ----

  predicate Running(pc: Pc) {
    pc.Trying? || pc.NeedSlot? || pc.Armed? || pc.Registering? || pc.Bridging?
  }

  predicate Finished(pc: Pc) {
    pc.Gone? || (pc.Awaiting? && pc.destination.Settled?)
  }

  predicate At(s: State, c: nat, p: Pc -> bool) {
    c < |s.callers| && p(s.callers[c].pc)
  }

  predicate Idle(s: State, loop: Option<Loop>) {
    loop.None? || (loop.value < |s.loops| && s.loops[loop.value].open && s.loops[loop.value].cpu.None?)
  }

  predicate Enabled(s: State, a: Label) {
    match a
    case OpenLoop => true
    case CloseLoop(l) =>
      && l < |s.loops| && s.loops[l].open
      && forall c | 0 <= c < |s.callers| && s.callers[c].loop == Some(l) :: Finished(s.callers[c].pc)
    case Arrive(loop, _, _) => loop.None? || (loop.value < |s.loops| && s.loops[loop.value].open)
    case Resume(c) => At(s, c, (p: Pc) => p.Ready?) && Idle(s, s.callers[c].loop)
    case Acquire(c) => At(s, c, (p: Pc) => p.Trying?)
    case Register(c) => At(s, c, (p: Pc) => p.Registering?) && s.callers[c].pc.f < |s.futures|
    case WaitForSlot(c) => At(s, c, (p: Pc) => p.NeedSlot?) && s.callers[c].loop.Some?
    case Suspend(c) =>
      At(s, c, (p: Pc) => p.Armed?) && s.callers[c].loop.Some? && s.callers[c].loop.value in s.fields.waiters
    case Bridge(c) =>
      && At(s, c, (p: Pc) => p.Bridging?) && s.callers[c].pc.f < |s.futures|
      && var f := s.futures[s.callers[c].pc.f];
         f.owner == c && f.inline ==> f.release == Queueing({})
    case Propagate(c) =>
      && At(s, c, (p: Pc) => p.Awaiting? && p.destination.Waiting?) && s.callers[c].pc.f < |s.futures|
      && s.futures[s.callers[c].pc.f].outcome.Some?
    case Complete(f, _) => f < |s.futures| && s.futures[f].outcome.None?
    case ReleaseSlot(f) =>
      f < |s.futures| && s.futures[f].outcome.Some? && s.futures[f].registered && s.futures[f].release.Held?
    case QueueSet(f, l) =>
      f < |s.futures| && s.futures[f].release.Queueing? && l in s.futures[f].release.todo && l < |s.loops|
    case RunSet(l) =>
      l < |s.loops| && s.loops[l].open && s.loops[l].queued > 0 && s.loops[l].cpu.None?
    case CancelWait(c) => At(s, c, (p: Pc) => p.Ready? || p.Suspended?)
    case CancelBridge(c) => At(s, c, (p: Pc) => p.Awaiting? && p.destination.Waiting?)
  }

  function Move(s: State, c: nat, pc: Pc): State
    requires c < |s.callers|
  {
    s.(callers := s.callers[c := s.callers[c].(pc := pc)])
  }

  function NewFuture(me: Caller, c: nat): Future {
    Future(me.key, me.coalesce, c, None, false, false, Held)
  }

  /** The caller's loop is taken by it, or given back. */
  function Cpu(s: State, loop: Option<Loop>, cpu: Option<nat>): State {
    if loop.Some? && loop.value < |s.loops|
    then s.(loops := s.loops[loop.value := s.loops[loop.value].(cpu := cpu)])
    else s
  }

  function Woken(callers: seq<Caller>, l: Loop): (r: seq<Caller>)
    ensures |r| == |callers|
  {
    seq(|callers|, i requires 0 <= i < |callers| =>
      if callers[i].loop == Some(l) && callers[i].pc.Suspended? then callers[i].(pc := Ready) else callers[i])
  }

  function Apply(s: State, a: Label): State
    requires Enabled(s, a)
  {
    match a
    case OpenLoop => s.(loops := s.loops + [LoopState(true, 0, None)])
    case CloseLoop(l) => s.(loops := s.loops[l := s.loops[l].(open := false)])
    case Arrive(loop, key, coalesce) => s.(callers := s.callers + [Caller(loop, key, coalesce, Ready)])
    case Resume(c) => Cpu(Move(s, c, Trying), s.callers[c].loop, Some(c))
    case Acquire(c) =>
      var me := s.callers[c];
      var (e, admission) :=
        if me.loop.Some?
        then AcquireLocked(s.fields, me.key, me.coalesce, |s.futures|)
        else SubmitLocked(s.fields, me.key, me.coalesce, |s.futures|);
      (match admission
       case Full => Move(s.(fields := e), c, NeedSlot)
       case Joined(f) => Move(s.(fields := e), c, Bridging(f))
       case Admitted(f) => Move(s.(fields := e, futures := s.futures + [NewFuture(me, c)]), c, Registering(f)))
    case Register(c) =>
      var f := s.callers[c].pc.f;
      var done := s.futures[f].outcome.Some?;
      Move(s.(futures := s.futures[f := s.futures[f].(registered := true, inline := done)]), c, Bridging(f))
    case WaitForSlot(c) =>
      var (e, free) := WaitLocked(s.fields, s.callers[c].loop.value);
      Move(s.(fields := e), c, if free then Trying else Armed)
    case Suspend(c) =>
      if s.fields.waiters[s.callers[c].loop.value]
      then Move(s, c, Trying)
      else Cpu(Move(s, c, Suspended), s.callers[c].loop, None)
    case Bridge(c) =>
      var f := s.callers[c].pc.f;
      var o := s.futures[f].outcome;
      Cpu(Move(s, c, Awaiting(f, if o.Some? then Settled(o.value) else Waiting)), s.callers[c].loop, None)
    case Propagate(c) =>
      var f := s.callers[c].pc.f;
      Move(s, c, Awaiting(f, Settled(s.futures[f].outcome.value)))
    case Complete(f, outcome) => s.(futures := s.futures[f := s.futures[f].(outcome := Some(outcome))])
    case ReleaseSlot(f) =>
      s.(fields := ReleaseLocked(s.fields, s.futures[f].key, f),
         futures := s.futures[f := s.futures[f].(release := Queueing(s.fields.waiters.Keys))])
    case QueueSet(f, l) =>
      var s' := s.(futures := s.futures[f := s.futures[f].(release := Queueing(s.futures[f].release.todo - {l}))]);
      if s.loops[l].open
      then s'.(loops := s.loops[l := s.loops[l].(queued := s.loops[l].queued + 1)])
      else s'.(fields := LoopForgotten(s.fields, l))
    case RunSet(l) =>
      s.(fields := EventSet(s.fields, l),
         loops := s.loops[l := s.loops[l].(queued := s.loops[l].queued - 1)],
         callers := Woken(s.callers, l))
    case CancelWait(c) => Move(s, c, Gone)
    case CancelBridge(c) => Move(s, c, Awaiting(s.callers[c].pc.f, Settled(Cancelled)))
  }

  // ---- runs ----

  predicate IsRun(s: State, run: seq<Label>)
    decreases |run|
  {
    run == [] || (Enabled(s, run[0]) && IsRun(Apply(s, run[0]), run[1..]))
  }

  function After(s: State, run: seq<Label>): State
    requires IsRun(s, run)
    decreases |run|
  {
    if run == [] then s else After(Apply(s, run[0]), run[1..])
  }

  // ---- invariants ----

  /** Admitted futures whose slot has not been given back. */
  function HeldCount(fs: seq<Future>): nat {
    if fs == [] then 0
    else (if fs[|fs| - 1].release.Held? then 1 else 0) + HeldCount(fs[..|fs| - 1])
  }

  predicate Accounted(s: State) {
    s.fields.maxBacklog >= 1 && s.fields.outstanding == HeldCount(s.futures)
  }

  /** The registry names exactly the coalesced futures that still hold a slot. */
  predicate SingleFlight(s: State) {
    && (forall k | k in s.fields.inflight ::
          && s.fields.inflight[k] < |s.futures|
          && var f := s.futures[s.fields.inflight[k]]; f.key == k && f.coalesced && f.release.Held?)
    && (forall f | 0 <= f < |s.futures| && s.futures[f].coalesced && s.futures[f].release.Held? ::
          s.futures[f].key in s.fields.inflight && s.fields.inflight[s.futures[f].key] == f)
  }

  /** A set of `l`'s event is queued, or a release is about to queue it. */
  ghost predicate WakeupPending(s: State, l: Loop) {
    || (l < |s.loops| && s.loops[l].queued > 0)
    || exists f :: WillQueue(s, f, l)
  }

  predicate WillQueue(s: State, f: int, l: Loop) {
    0 <= f < |s.futures| && s.futures[f].release.Queueing? && l in s.futures[f].release.todo
  }

  /** Every running coroutine holds its loop, every held loop has its coroutine. */
  predicate Placed(callers: seq<Caller>, loops: seq<LoopState>) {
    && (forall c | 0 <= c < |callers| && callers[c].loop.Some? ::
          && callers[c].loop.value < |loops|
          && (Running(callers[c].pc) ==> loops[callers[c].loop.value].cpu == Some(c))
          && (!Finished(callers[c].pc) ==> loops[callers[c].loop.value].open))
    && (forall l | 0 <= l < |loops| && loops[l].cpu.Some? ::
          && loops[l].cpu.value < |callers|
          && callers[loops[l].cpu.value].loop == Some(l)
          && Running(callers[loops[l].cpu.value].pc))
    && (forall c | 0 <= c < |callers| && callers[c].loop.None? :: OffLoop(callers[c].pc))
  }

  predicate OffLoop(p: Pc) { !p.NeedSlot? && !p.Armed? && !p.Suspended? }

  predicate Indexed(fields: Fields, futures: seq<Future>, loops: nat) {
    && (forall l | l in fields.waiters :: l < loops)
    && (forall f, l | 0 <= f < |futures| && futures[f].release.Queueing? && l in futures[f].release.todo :: l < loops)
  }

  predicate OnLoops(s: State) {
    Placed(s.callers, s.loops) && Indexed(s.fields, s.futures, |s.loops|)
  }

  predicate Waits(pc: Pc) { pc.Armed? || pc.Suspended? }

  ghost predicate NoLostWakeup(s: State) {
    forall c | 0 <= c < |s.callers| && Waits(s.callers[c].pc) && s.callers[c].loop.Some? ::
      && s.callers[c].loop.value in s.fields.waiters
      && (s.fields.outstanding < s.fields.maxBacklog ==> WakeupPending(s, s.callers[c].loop.value))
      && (s.callers[c].pc.Armed? ==> !s.fields.waiters[s.callers[c].loop.value])
  }

  /** Exactly one caller still has to register each unregistered callback. */
  predicate Registered(s: State) {
    && (forall c | 0 <= c < |s.callers| && s.callers[c].pc.Registering? ::
          && s.callers[c].pc.f < |s.futures|
          && s.futures[s.callers[c].pc.f].owner == c && !s.futures[s.callers[c].pc.f].registered)
    && (forall f | 0 <= f < |s.futures| ::
          && (!s.futures[f].registered ==>
                && s.futures[f].release.Held?
                && s.futures[f].owner < |s.callers|
                && s.callers[s.futures[f].owner].pc == Registering(f))
          && (s.futures[f].release.Queueing? ==> s.futures[f].outcome.Some?)
          && (s.futures[f].inline ==> s.futures[f].outcome.Some?))
  }

  /** A settled bridge carries the shared outcome or its own caller's cancellation. */
  predicate Bridged(s: State) {
    forall c | 0 <= c < |s.callers| ::
      var p := s.callers[c].pc;
      && (p.Bridging? ==> p.f < |s.futures|)
      && (p.Awaiting? ==>
            && p.f < |s.futures|
            && (p.destination.Settled? ==>
                  p.destination.outcome == Cancelled || s.futures[p.f].outcome == Some(p.destination.outcome)))
  }

  ghost predicate Inv(s: State) {
    Accounted(s) && SingleFlight(s) && OnLoops(s) && NoLostWakeup(s) && Registered(s) && Bridged(s)
  }

  // ---- every step keeps the invariant ----

  lemma {:induction false} HeldCountUpdate(fs: seq<Future>, f: nat, x: Future)
    requires f < |fs|
    ensures HeldCount(fs[f := x]) ==
            HeldCount(fs) - (if fs[f].release.Held? then 1 else 0) + (if x.release.Held? then 1 else 0)
  {
    var n := |fs| - 1;
    if f < n {
      assert fs[f := x][..n] == fs[..n][f := x];
      HeldCountUpdate(fs[..n], f, x);
    } else {
      assert fs[f := x][..n] == fs[..n];
    }
  }

  lemma {:induction false} HeldCountAppend(fs: seq<Future>, x: Future)
    ensures HeldCount(fs + [x]) == HeldCount(fs) + (if x.release.Held? then 1 else 0)
  {
    assert (fs + [x])[..|fs|] == fs;
  }

  lemma {:induction false} HeldCountPositive(fs: seq<Future>, f: nat)
    requires f < |fs| && fs[f].release.Held?
    ensures HeldCount(fs) > 0
  {
    if f < |fs| - 1 {
      HeldCountPositive(fs[..|fs| - 1], f);
    }
  }

  /** The three ways through `acquire`. */
  lemma AcquireCases(s: State, c: nat)
    requires Enabled(s, Acquire(c))
    ensures var me, t := s.callers[c], Apply(s, Acquire(c));
            if me.coalesce && me.key in s.fields.inflight then t == Move(s, c, Bridging(s.fields.inflight[me.key]))
            else if me.loop.Some? && s.fields.outstanding >= s.fields.maxBacklog then t == Move(s, c, NeedSlot)
            else t == Admit(s, c)
  {
  }

  function Admit(s: State, c: nat): State
    requires c < |s.callers|
  {
    var me := s.callers[c];
    Move(s.(fields := Reserve(s.fields, me.key, me.coalesce, |s.futures|), futures := s.futures + [NewFuture(me, c)]),
         c, Registering(|s.futures|))
  }

  lemma AccountedStep(s: State, a: Label)
    requires Inv(s) && Enabled(s, a)
    ensures Accounted(Apply(s, a))
  {
    match a
    case Acquire(c) =>
      AcquireCases(s, c);
      HeldCountAppend(s.futures, NewFuture(s.callers[c], c));
    case Register(c) =>
      var f := s.callers[c].pc.f;
      HeldCountUpdate(s.futures, f, s.futures[f].(registered := true, inline := s.futures[f].outcome.Some?));
    case Complete(f, o) =>
      HeldCountUpdate(s.futures, f, s.futures[f].(outcome := Some(o)));
    case ReleaseSlot(f) =>
      HeldCountPositive(s.futures, f);
      HeldCountUpdate(s.futures, f, s.futures[f].(release := Queueing(s.fields.waiters.Keys)));
    case QueueSet(f, l) =>
      HeldCountUpdate(s.futures, f, s.futures[f].(release := Queueing(s.futures[f].release.todo - {l})));
    case _ =>
  }

  // Labels by what they touch; `Acquire` stands alone.

  predicate Surrounds(a: Label) {
    a.OpenLoop? || a.CloseLoop? || a.Arrive? || a.CancelWait? || a.CancelBridge? || a.Propagate?
  }

  predicate TakesTurn(a: Label) { a.Resume? || a.Suspend? || a.Bridge? || a.WaitForSlot? }

  predicate TouchesFuture(a: Label) {
    a.Register? || a.Complete? || a.ReleaseSlot? || a.QueueSet? || a.RunSet?
  }

  lemma SingleFlightSurrounds(s: State, a: Label)
    requires SingleFlight(s) && (Surrounds(a) || TakesTurn(a)) && Enabled(s, a)
    ensures SingleFlight(Apply(s, a))
  {
    match a case Acquire(_) => case _ =>
  }

  lemma SingleFlightFutures(s: State, a: Label)
    requires SingleFlight(s) && TouchesFuture(a) && Enabled(s, a)
    ensures SingleFlight(Apply(s, a))
  {
    match a case Acquire(_) => case _ =>
  }

  lemma SingleFlightAcquire(s: State, c: nat)
    requires SingleFlight(s) && Enabled(s, Acquire(c))
    ensures SingleFlight(Apply(s, Acquire(c)))
  {
    AcquireCases(s, c);
  }

  /** A caller that stays on its loop, or off it, may move anywhere. */
  lemma PlacedMove(callers: seq<Caller>, loops: seq<LoopState>, c: nat, pc: Pc)
    requires Placed(callers, loops) && c < |callers|
    requires Running(pc) == Running(callers[c].pc)
    requires Finished(callers[c].pc) ==> Finished(pc)
    requires callers[c].loop.None? ==> OffLoop(pc)
    ensures Placed(callers[c := callers[c].(pc := pc)], loops)
  {
  }

  /** A caller that takes its idle loop, or gives it back. */
  lemma PlacedTurn(callers: seq<Caller>, loops: seq<LoopState>, c: nat, pc: Pc)
    requires Placed(callers, loops) && c < |callers|
    requires Running(pc) != Running(callers[c].pc) && !Finished(callers[c].pc)
    requires Running(pc) && callers[c].loop.Some? ==> loops[callers[c].loop.value].cpu.None?
    requires callers[c].loop.None? ==> OffLoop(pc)
    ensures var l := callers[c].loop;
            Placed(callers[c := callers[c].(pc := pc)],
                   if l.None? then loops
                   else loops[l.value := loops[l.value].(cpu := if Running(pc) then Some(c) else None)])
  {
  }

  lemma OnLoopsOutside(s: State, a: Label)
    requires OnLoops(s) && (a.OpenLoop? || a.CloseLoop? || a.Arrive?)
    requires Enabled(s, a)
    ensures OnLoops(Apply(s, a))
  {
    match a case Acquire(_) => case _ =>
  }

  lemma OnLoopsFuture(s: State, a: Label)
    requires OnLoops(s) && (a.Complete? || a.ReleaseSlot? || a.QueueSet? || a.RunSet?)
    requires Enabled(s, a)
    ensures OnLoops(Apply(s, a))
  {
    if a.RunSet? {
      OnLoopsRunSet(s, a.l);
    } else {
      hide Placed;
      IndexedFuture(s, a);
      PlacedLoops(s.callers, s.loops, Apply(s, a).loops);
    }
  }

  lemma PlacedLoops(callers: seq<Caller>, loops: seq<LoopState>, more: seq<LoopState>)
    requires Placed(callers, loops) && |more| == |loops|
    requires forall l | 0 <= l < |loops| :: more[l].cpu == loops[l].cpu && more[l].open == loops[l].open
    ensures Placed(callers, more)
  {
  }

  lemma IndexedFuture(s: State, a: Label)
    requires Indexed(s.fields, s.futures, |s.loops|) && (a.Complete? || a.ReleaseSlot? || a.QueueSet?)
    requires Enabled(s, a)
    ensures Indexed(Apply(s, a).fields, Apply(s, a).futures, |Apply(s, a).loops|)
  {
    match a case Acquire(_) => case _ =>
  }

  lemma OnLoopsRunSet(s: State, l: Loop)
    requires OnLoops(s) && Enabled(s, RunSet(l))
    ensures OnLoops(Apply(s, RunSet(l)))
  {
  }

  lemma OnLoopsCaller(s: State, a: Label)
    requires OnLoops(s) && Enabled(s, a)
    requires a.Register? || a.WaitForSlot? || a.Propagate? || a.CancelWait? || a.CancelBridge?
    ensures OnLoops(Apply(s, a))
  {
    PlacedMove(s.callers, s.loops, a.c, Apply(s, a).callers[a.c].pc);
  }

  lemma OnLoopsTurn(s: State, a: Label)
    requires OnLoops(s) && Enabled(s, a) && (a.Resume? || a.Suspend? || a.Bridge?)
    ensures OnLoops(Apply(s, a))
  {
    var pc := Apply(s, a).callers[a.c].pc;
    if Running(pc) == Running(s.callers[a.c].pc) {
      PlacedMove(s.callers, s.loops, a.c, pc);
    } else {
      PlacedTurn(s.callers, s.loops, a.c, pc);
    }
  }

  lemma OnLoopsAcquire(s: State, c: nat)
    requires OnLoops(s) && Enabled(s, Acquire(c))
    ensures OnLoops(Apply(s, Acquire(c)))
  {
    AcquireCases(s, c);
    PlacedMove(s.callers, s.loops, c, Apply(s, Acquire(c)).callers[c].pc);
  }

  /** Nothing that concerns a waiter has changed for the worse. */
  predicate Calm(s: State, t: State) {
    && t.fields == s.fields
    && |s.futures| <= |t.futures| && (forall f | 0 <= f < |s.futures| :: t.futures[f].release == s.futures[f].release)
    && |s.loops| <= |t.loops| && (forall l | 0 <= l < |s.loops| :: t.loops[l].queued == s.loops[l].queued)
    && (forall c | 0 <= c < |t.callers| && Waits(t.callers[c].pc) ::
          && c < |s.callers| && s.callers[c].loop == t.callers[c].loop
          && (t.callers[c].pc == s.callers[c].pc || s.callers[c].pc.Armed?))
  }

  lemma CalmKeepsWakeups(s: State, t: State)
    requires NoLostWakeup(s) && Calm(s, t)
    ensures NoLostWakeup(t)
  {
    forall l | WakeupPending(s, l) ensures WakeupPending(t, l) {
      if f :| WillQueue(s, f, l) {
        assert WillQueue(t, f, l);
      }
    }
  }

  lemma NoLostWakeupCalm(s: State, a: Label)
    requires NoLostWakeup(s) && Enabled(s, a)
    requires Surrounds(a) || a.Register? || a.Complete? || (TakesTurn(a) && !a.WaitForSlot?)
    ensures NoLostWakeup(Apply(s, a))
  {
    assert Calm(s, Apply(s, a));
    CalmKeepsWakeups(s, Apply(s, a));
  }

  lemma NoLostWakeupAcquire(s: State, c: nat)
    requires NoLostWakeup(s) && Enabled(s, Acquire(c))
    ensures NoLostWakeup(Apply(s, Acquire(c)))
  {
    AcquireCases(s, c);
    var t := Apply(s, Acquire(c));
    var u := t.(fields := s.fields);
    assert Calm(s, u);
    CalmKeepsWakeups(s, u);
    forall l | WakeupPending(u, l) ensures WakeupPending(t, l) {
      if f :| WillQueue(u, f, l) {
        assert WillQueue(t, f, l);
      }
    }
  }

  lemma NoLostWakeupWait(s: State, c: nat)
    requires NoLostWakeup(s) && OnLoops(s) && Enabled(s, WaitForSlot(c))
    ensures NoLostWakeup(Apply(s, WaitForSlot(c)))
  {
    var t := Apply(s, WaitForSlot(c));
    forall l | WakeupPending(s, l) ensures WakeupPending(t, l) {
      if f :| WillQueue(s, f, l) {
        assert WillQueue(t, f, l);
      }
    }
  }

  lemma NoLostWakeupRelease(s: State, f: FutureId)
    requires NoLostWakeup(s) && Enabled(s, ReleaseSlot(f))
    ensures NoLostWakeup(Apply(s, ReleaseSlot(f)))
  {
    var t := Apply(s, ReleaseSlot(f));
    forall l | l in s.fields.waiters ensures WakeupPending(t, l) {
      assert WillQueue(t, f, l);
    }
  }

  lemma NoLostWakeupQueue(s: State, f: FutureId, l: Loop)
    requires NoLostWakeup(s) && OnLoops(s) && Enabled(s, QueueSet(f, l))
    ensures NoLostWakeup(Apply(s, QueueSet(f, l)))
  {
    var t := Apply(s, QueueSet(f, l));
    forall k | WakeupPending(s, k) && (k != l || s.loops[l].open) ensures WakeupPending(t, k) {
      if g :| WillQueue(s, g, k) {
        if k != l {
          assert WillQueue(t, g, k);
        }
      }
    }
  }

  lemma NoLostWakeupRunSet(s: State, l: Loop)
    requires NoLostWakeup(s) && OnLoops(s) && Enabled(s, RunSet(l))
    ensures NoLostWakeup(Apply(s, RunSet(l)))
  {
    var t := Apply(s, RunSet(l));
    forall k | WakeupPending(s, k) && k != l ensures WakeupPending(t, k) {
      if g :| WillQueue(s, g, k) {
        assert WillQueue(t, g, k);
      }
    }
  }

  lemma RegisteredWhenCallersMove(s: State, t: State)
    requires Registered(s) && t.futures == s.futures && |t.callers| >= |s.callers|
    requires forall c | 0 <= c < |s.callers| && s.callers[c].pc.Registering? :: t.callers[c].pc == s.callers[c].pc
    requires forall c | 0 <= c < |t.callers| && t.callers[c].pc.Registering? ::
               c < |s.callers| && s.callers[c].pc == t.callers[c].pc
    ensures Registered(t)
  {
  }

  lemma BridgedSurrounds(s: State, a: Label)
    requires Bridged(s) && Surrounds(a) && Enabled(s, a)
    ensures Bridged(Apply(s, a))
  {
    match a case Acquire(_) => case _ =>
  }

  lemma RegisteredSurrounds(s: State, a: Label)
    requires Registered(s) && Bridged(s) && Surrounds(a) && Enabled(s, a)
    ensures Registered(Apply(s, a)) && Bridged(Apply(s, a))
  {
    hide Registered, Bridged;
    BridgedSurrounds(s, a);
    RegisteredWhenCallersMove(s, Apply(s, a));
  }

  lemma RegisteredTurns(s: State, a: Label)
    requires Registered(s) && TakesTurn(a) && Enabled(s, a)
    ensures Registered(Apply(s, a))
  {
    hide Registered;
    RegisteredWhenCallersMove(s, Apply(s, a));
  }

  lemma RegisteredFutures(s: State, a: Label)
    requires Registered(s) && TouchesFuture(a) && Enabled(s, a)
    ensures Registered(Apply(s, a))
  {
    match a case Acquire(_) => case _ =>
  }

  lemma BridgedTurns(s: State, a: Label)
    requires Bridged(s) && Registered(s) && TakesTurn(a) && Enabled(s, a)
    ensures Bridged(Apply(s, a))
  {
    match a case Acquire(_) => case _ =>
  }

  lemma BridgedFutures(s: State, a: Label)
    requires Bridged(s) && Registered(s) && TouchesFuture(a) && Enabled(s, a)
    ensures Bridged(Apply(s, a))
  {
    match a case Acquire(_) => case _ =>
  }

  lemma RegisteredAcquire(s: State, c: nat)
    requires Registered(s) && Bridged(s) && SingleFlight(s) && Enabled(s, Acquire(c))
    ensures Registered(Apply(s, Acquire(c))) && Bridged(Apply(s, Acquire(c)))
  {
    AcquireCases(s, c);
  }

  lemma SingleFlightNonAcquire(s: State, a: Label)
    requires SingleFlight(s) && Enabled(s, a) && !a.Acquire?
    ensures SingleFlight(Apply(s, a))
  {
    if TouchesFuture(a) { SingleFlightFutures(s, a); } else { SingleFlightSurrounds(s, a); }
  }

  lemma OnLoopsNonAcquire(s: State, a: Label)
    requires OnLoops(s) && Enabled(s, a) && !a.Acquire?
    ensures OnLoops(Apply(s, a))
  {
    if a.Resume? || a.Suspend? || a.Bridge? {
      OnLoopsTurn(s, a);
    } else if a.Register? || a.WaitForSlot? || a.Propagate? || a.CancelWait? || a.CancelBridge? {
      OnLoopsCaller(s, a);
    } else if a.OpenLoop? || a.CloseLoop? || a.Arrive? {
      OnLoopsOutside(s, a);
    } else {
      OnLoopsFuture(s, a);
    }
  }

  lemma NoLostWakeupNonAcquire(s: State, a: Label)
    requires NoLostWakeup(s) && OnLoops(s) && Enabled(s, a) && !a.Acquire?
    ensures NoLostWakeup(Apply(s, a))
  {
    match a
    case WaitForSlot(c) => NoLostWakeupWait(s, c);
    case ReleaseSlot(f) => NoLostWakeupRelease(s, f);
    case QueueSet(f, l) => NoLostWakeupQueue(s, f, l);
    case RunSet(l) => NoLostWakeupRunSet(s, l);
    case _ => NoLostWakeupCalm(s, a);
  }

  lemma RegisteredNonAcquire(s: State, a: Label)
    requires Registered(s) && Bridged(s) && Enabled(s, a) && !a.Acquire?
    ensures Registered(Apply(s, a)) && Bridged(Apply(s, a))
  {
    if Surrounds(a) {
      RegisteredSurrounds(s, a);
    } else {
      if TakesTurn(a) {
        BridgedTurns(s, a);
        RegisteredTurns(s, a);
      } else {
        BridgedFutures(s, a);
        RegisteredFutures(s, a);
      }
    }
  }

  lemma InvStep(s: State, a: Label)
    requires Inv(s) && Enabled(s, a)
    ensures Inv(Apply(s, a))
  {
    AccountedStep(s, a);
    if a.Acquire? {
      SingleFlightAcquire(s, a.c); OnLoopsAcquire(s, a.c); NoLostWakeupAcquire(s, a.c); RegisteredAcquire(s, a.c);
    } else {
      SingleFlightNonAcquire(s, a); OnLoopsNonAcquire(s, a); NoLostWakeupNonAcquire(s, a); RegisteredNonAcquire(s, a);
    }
  }

  lemma {:induction false} InvAfter(s: State, run: seq<Label>)
    requires Inv(s) && IsRun(s, run)
    ensures Inv(After(s, run))
    decreases |run|
  {
    if run != [] {
      InvStep(s, run[0]);
      InvAfter(Apply(s, run[0]), run[1..]);
    }
  }

  // ---- what every run guarantees ----

  /** No caller waits beside a free slot, unless a set of its event is already on the way. */
  lemma NoCallerIsStranded(maxBacklog: int, run: seq<Label>, c: nat)
    requires IsRun(Init(maxBacklog), run)
    requires var s := After(Init(maxBacklog), run);
             c < |s.callers| && Waits(s.callers[c].pc) && s.fields.outstanding < s.fields.maxBacklog
    ensures var s := After(Init(maxBacklog), run);
            s.callers[c].loop.Some? && WakeupPending(s, s.callers[c].loop.value)
  {
    InvAfter(Init(maxBacklog), run);
  }

  /** A caller about to await its event always finds it unset, so the await suspends. */
  lemma AwaitAlwaysSuspends(maxBacklog: int, run: seq<Label>, c: nat)
    requires IsRun(Init(maxBacklog), run) && Enabled(After(Init(maxBacklog), run), Suspend(c))
    ensures Apply(After(Init(maxBacklog), run), Suspend(c)).callers[c].pc == Suspended
  {
    InvAfter(Init(maxBacklog), run);
  }

  /** `outstanding` counts the slots held, the release never meets its clamp, and the
      registry holds exactly the coalesced futures that still hold a slot. */
  lemma SlotsAreAccounted(maxBacklog: int, run: seq<Label>)
    requires IsRun(Init(maxBacklog), run)
    ensures var s := After(Init(maxBacklog), run);
            && s.fields.outstanding == HeldCount(s.futures)
            && SingleFlight(s)
            && forall f | Enabled(s, ReleaseSlot(f)) ::
                 Apply(s, ReleaseSlot(f)).fields.outstanding == s.fields.outstanding - 1
  {
    InvAfter(Init(maxBacklog), run);
    var s := After(Init(maxBacklog), run);
    forall f | Enabled(s, ReleaseSlot(f))
      ensures Apply(s, ReleaseSlot(f)).fields.outstanding == s.fields.outstanding - 1
    {
      HeldCountPositive(s.futures, f);
    }
  }

  /** A read that was not coalesced leaves the registry alone when it is admitted and when it ends. */
  lemma UncoalescedReadNeverEvicts(maxBacklog: int, run: seq<Label>, c: nat, f: FutureId)
    requires IsRun(Init(maxBacklog), run)
    ensures var s := After(Init(maxBacklog), run);
            && (Enabled(s, Acquire(c)) && !s.callers[c].coalesce ==>
                  Apply(s, Acquire(c)).fields.inflight == s.fields.inflight)
            && (Enabled(s, ReleaseSlot(f)) && !s.futures[f].coalesced ==>
                  Apply(s, ReleaseSlot(f)).fields.inflight == s.fields.inflight)
  {
    hide Inv;
    InvAfter(Init(maxBacklog), run);
    EvictsNothing(After(Init(maxBacklog), run), c, f);
  }

  lemma EvictsNothing(s: State, c: nat, f: FutureId)
    requires Inv(s)
    ensures Enabled(s, Acquire(c)) && !s.callers[c].coalesce ==>
              Apply(s, Acquire(c)).fields.inflight == s.fields.inflight
    ensures Enabled(s, ReleaseSlot(f)) && !s.futures[f].coalesced ==>
              Apply(s, ReleaseSlot(f)).fields.inflight == s.fields.inflight
  {
    if Enabled(s, Acquire(c)) {
      AcquireCases(s, c);
    }
  }

  predicate OnlyCoroutines(run: seq<Label>) {
    forall i | 0 <= i < |run| && run[i].Arrive? :: run[i].loop.Some?
  }

  predicate Capped(s: State) {
    s.fields.outstanding <= s.fields.maxBacklog && forall c | 0 <= c < |s.callers| :: s.callers[c].loop.Some?
  }

  /** Callers stay who they are, and an arrival adds the one it announces. */
  lemma CallersStay(s: State, a: Label)
    requires Enabled(s, a)
    ensures var t := Apply(s, a);
            && |t.callers| == |s.callers| + (if a.Arrive? then 1 else 0)
            && (forall c | 0 <= c < |s.callers| ::
                  && t.callers[c].loop == s.callers[c].loop && t.callers[c].key == s.callers[c].key
                  && t.callers[c].coalesce == s.callers[c].coalesce)
            && (a.Arrive? ==> t.callers[|s.callers|] == Caller(a.loop, a.key, a.coalesce, Ready))
  {
    if a.Acquire? {
      AcquireCases(s, a.c);
    }
  }

  lemma CapIsKept(s: State, a: Label)
    requires Enabled(s, a) && 1 <= s.fields.maxBacklog && s.fields.outstanding <= s.fields.maxBacklog
    requires a.Acquire? ==> s.callers[a.c].loop.Some?
    ensures Apply(s, a).fields.outstanding <= Apply(s, a).fields.maxBacklog == s.fields.maxBacklog
  {
    match a
    case Acquire(c) => AcquireCases(s, c);
    case _ =>
  }

  lemma CappedStep(s: State, a: Label)
    requires Inv(s) && Capped(s) && Enabled(s, a) && (a.Arrive? ==> a.loop.Some?)
    ensures Capped(Apply(s, a))
  {
    assert 1 <= s.fields.maxBacklog;
    hide Inv, Apply;
    CallersStay(s, a);
    CapIsKept(s, a);
  }

  lemma {:induction false} CappedAfter(s: State, run: seq<Label>)
    requires Inv(s) && Capped(s) && IsRun(s, run) && OnlyCoroutines(run)
    ensures Capped(After(s, run))
    decreases |run|
  {
    if run != [] {
      InvStep(s, run[0]);
      CappedStep(s, run[0]);
      CappedAfter(Apply(s, run[0]), run[1..]);
    }
  }

  /** The cap holds while admission is only through `acquire`. */
  lemma BacklogIsBounded(maxBacklog: int, run: seq<Label>)
    requires IsRun(Init(maxBacklog), run) && OnlyCoroutines(run)
    ensures var s := After(Init(maxBacklog), run);
            0 <= s.fields.outstanding <= s.fields.maxBacklog == if maxBacklog > 1 then maxBacklog else 1
  {
    InvAfter(Init(maxBacklog), run);
    CappedAfter(Init(maxBacklog), run);
    CapStays(Init(maxBacklog), run);
  }

  lemma {:induction false} CapStays(s: State, run: seq<Label>)
    requires IsRun(s, run)
    ensures After(s, run).fields.maxBacklog == s.fields.maxBacklog
    decreases |run|
  {
    if run != [] {
      CapStays(Apply(s, run[0]), run[1..]);
    }
  }

  // ---- the protocol never gets stuck ----

  predicate Environment(a: Label) {
    a.OpenLoop? || a.CloseLoop? || a.Arrive? || a.CancelWait? || a.CancelBridge?
  }

  /** Every worker has finished, every callback and queued event has run, no coroutine can move. */
  ghost predicate Quiet(s: State) {
    forall a | !Environment(a) :: !Enabled(s, a)
  }

  lemma FutureCanMove(s: State, f: FutureId) returns (a: Label)
    requires Inv(s) && f < |s.futures|
    requires s.futures[f].outcome.None? || s.futures[f].release != Queueing({})
    ensures !Environment(a) && Enabled(s, a)
  {
    var x := s.futures[f];
    if x.outcome.None? {
      a := Complete(f, Cancelled);
    } else if !x.registered {
      a := Register(x.owner);
    } else if x.release.Held? {
      a := ReleaseSlot(f);
    } else {
      var l :| l in x.release.todo;
      a := QueueSet(f, l);
    }
  }

  lemma CallerCanMove(s: State, c: nat) returns (a: Label)
    requires Inv(s) && c < |s.callers| && Running(s.callers[c].pc)
    requires forall f | 0 <= f < |s.futures| :: s.futures[f].outcome.Some? && s.futures[f].release == Queueing({})
    ensures !Environment(a) && Enabled(s, a)
  {
    match s.callers[c].pc
    case Trying => a := Acquire(c);
    case NeedSlot => a := WaitForSlot(c);
    case Armed => a := Suspend(c);
    case Registering(f) => a := Register(c);
    case Bridging(f) => a := Bridge(c);
  }

  lemma LoopCanMove(s: State, l: Loop) returns (a: Label)
    requires Inv(s) && l < |s.loops| && (s.loops[l].cpu.Some? || (s.loops[l].open && s.loops[l].queued > 0))
    requires forall f | 0 <= f < |s.futures| :: s.futures[f].outcome.Some? && s.futures[f].release == Queueing({})
    ensures !Environment(a) && Enabled(s, a)
  {
    if s.loops[l].cpu.Some? {
      a := CallerCanMove(s, s.loops[l].cpu.value);
    } else {
      a := RunSet(l);
    }
  }

  /** An unfinished caller means that somebody can move. */
  lemma UnservedCanMove(s: State, c: nat) returns (a: Label)
    requires Inv(s) && c < |s.callers| && !Finished(s.callers[c].pc)
    ensures !Environment(a) && Enabled(s, a)
  {
    if f :| 0 <= f < |s.futures| && (s.futures[f].outcome.None? || s.futures[f].release != Queueing({})) {
      a := FutureCanMove(s, f);
      return;
    }
    NoneHeld(s.futures);
    var me := s.callers[c];
    if Running(me.pc) {
      a := CallerCanMove(s, c);
    } else if me.pc.Awaiting? {
      a := Propagate(c);
    } else if me.loop.Some? && (s.loops[me.loop.value].cpu.Some? || s.loops[me.loop.value].queued > 0) {
      a := LoopCanMove(s, me.loop.value);
    } else {
      a := Resume(c);
    }
  }

  lemma {:induction false} NoneHeld(fs: seq<Future>)
    requires forall f | 0 <= f < |fs| :: !fs[f].release.Held?
    ensures HeldCount(fs) == 0
  {
    if fs != [] {
      NoneHeld(fs[..|fs| - 1]);
    }
  }

  /** When nothing more can happen, every caller has its outcome or was cancelled. */
  lemma EveryCallerIsServed(maxBacklog: int, run: seq<Label>, c: nat)
    requires IsRun(Init(maxBacklog), run)
    requires var s := After(Init(maxBacklog), run); Quiet(s) && c < |s.callers|
    ensures Finished(After(Init(maxBacklog), run).callers[c].pc)
  {
    InvAfter(Init(maxBacklog), run);
    var s := After(Init(maxBacklog), run);
    if !Finished(s.callers[c].pc) {
      var a := UnservedCanMove(s, c);
    }
  }

  /** What caller `c` has received is what its shared future has. */
  predicate Faithful(s: State, c: nat) {
    c < |s.callers| && s.callers[c].pc.Awaiting? && s.callers[c].pc.destination.Settled? ==>
      var p := s.callers[c].pc; p.f < |s.futures| && s.futures[p.f].outcome == Some(p.destination.outcome)
  }

  lemma FaithfulCallers(s: State, c: nat, a: Label)
    requires Faithful(s, c) && Enabled(s, a) && a != CancelBridge(c) && (Surrounds(a) || TakesTurn(a))
    ensures Faithful(Apply(s, a), c)
  {
    match a case Acquire(_) => case _ =>
  }

  lemma FaithfulFutures(s: State, c: nat, a: Label)
    requires Faithful(s, c) && Enabled(s, a) && TouchesFuture(a)
    ensures Faithful(Apply(s, a), c)
  {
    match a case Acquire(_) => case _ =>
  }

  lemma {:induction false} FaithfulAfter(s: State, c: nat, run: seq<Label>)
    requires Faithful(s, c) && IsRun(s, run) && CancelBridge(c) !in run
    ensures Faithful(After(s, run), c)
    decreases |run|
  {
    hide Apply, Enabled, Faithful;
    if run != [] {
      var a := run[0];
      assert a in run;
      if a.Acquire? {
        FaithfulAcquire(s, c, a);
      } else if TouchesFuture(a) {
        FaithfulFutures(s, c, a);
      } else {
        FaithfulCallers(s, c, a);
      }
      FaithfulAfter(Apply(s, a), c, run[1..]);
    }
  }

  lemma FaithfulAcquire(s: State, c: nat, a: Label)
    requires Faithful(s, c) && Enabled(s, a) && a.Acquire?
    ensures Faithful(Apply(s, a), c)
  {
    AcquireCases(s, a.c);
  }

  /** What a caller receives is the shared outcome, unless it was itself cancelled. */
  lemma BridgeIsFaithful(maxBacklog: int, run: seq<Label>, c: nat)
    requires IsRun(Init(maxBacklog), run)
    requires var s := After(Init(maxBacklog), run);
             c < |s.callers| && s.callers[c].pc.Awaiting? && s.callers[c].pc.destination.Settled?
    ensures var s := After(Init(maxBacklog), run); var p := s.callers[c].pc;
            || (p.f < |s.futures| && s.futures[p.f].outcome == Some(p.destination.outcome))
            || (p.destination.outcome == Cancelled && CancelBridge(c) in run)
  {
    InvAfter(Init(maxBacklog), run);
    if CancelBridge(c) !in run {
      FaithfulAfter(Init(maxBacklog), c, run);
    }
  }

  // ---- cancelling one caller ----

  /** The same state, but for what caller `c` has at the end of its bridge:
      in `t` it was cancelled while it still waits, or has been served, in `s`. */
  predicate SameBut(s: State, t: State, c: nat) {
    && t.fields == s.fields && t.futures == s.futures && t.loops == s.loops
    && |t.callers| == |s.callers| && c < |s.callers|
    && (forall d | 0 <= d < |s.callers| && d != c :: t.callers[d] == s.callers[d])
    && s.callers[c].pc.Awaiting?
    && t.callers[c] == s.callers[c].(pc := Awaiting(s.callers[c].pc.f, Settled(Cancelled)))
  }

  /** The steps that settle caller `c`'s own bridge. */
  predicate Settles(a: Label, c: nat) { a == Propagate(c) || a == CancelBridge(c) }

  function Without(run: seq<Label>, c: nat): seq<Label> {
    if run == [] then []
    else (if Settles(run[0], c) then [] else [run[0]]) + Without(run[1..], c)
  }

  lemma SameButEnabled(s: State, t: State, c: nat, a: Label)
    requires SameBut(s, t, c) && Enabled(s, a) && !Settles(a, c)
    ensures Enabled(t, a)
  {
    match a case Acquire(d) => case _ =>
  }

  lemma SameButSurrounds(s: State, t: State, c: nat, a: Label)
    requires SameBut(s, t, c) && Surrounds(a) && Enabled(s, a) && Enabled(t, a) && !Settles(a, c)
    ensures SameBut(Apply(s, a), Apply(t, a), c)
  {
    match a case Acquire(d) => case _ =>
  }

  lemma SameButTurns(s: State, t: State, c: nat, a: Label)
    requires SameBut(s, t, c) && TakesTurn(a) && Enabled(s, a) && Enabled(t, a)
    ensures SameBut(Apply(s, a), Apply(t, a), c)
  {
    match a case Acquire(d) => case _ =>
  }

  lemma SameButFutures(s: State, t: State, c: nat, a: Label)
    requires SameBut(s, t, c) && TouchesFuture(a) && Enabled(s, a) && Enabled(t, a)
    ensures SameBut(Apply(s, a), Apply(t, a), c)
  {
    match a case Acquire(d) => case _ =>
  }

  lemma SameButStep(s: State, t: State, c: nat, a: Label)
    requires SameBut(s, t, c) && Enabled(s, a) && Enabled(t, a) && !Settles(a, c)
    ensures SameBut(Apply(s, a), Apply(t, a), c)
  {
    if a.Acquire? {
      AcquireCases(s, a.c);
      AcquireCases(t, a.c);
    } else if TouchesFuture(a) {
      SameButFutures(s, t, c, a);
    } else if TakesTurn(a) {
      SameButTurns(s, t, c, a);
    } else {
      SameButSurrounds(s, t, c, a);
    }
  }

  lemma {:induction false} SameButAfter(s: State, t: State, c: nat, run: seq<Label>)
    requires SameBut(s, t, c) && IsRun(s, run)
    ensures IsRun(t, Without(run, c)) && SameBut(After(s, run), After(t, Without(run, c)), c)
    decreases |run|
  {
    if run != [] {
      var a := run[0];
      if Settles(a, c) {
        SameButAfter(Apply(s, a), t, c, run[1..]);
        assert Without(run, c) == Without(run[1..], c);
      } else {
        SameButEnabled(s, t, c, a);
        SameButStep(s, t, c, a);
        SameButAfter(Apply(s, a), Apply(t, a), c, run[1..]);
        assert Without(run, c) == [a] + Without(run[1..], c);
        assert Without(run, c)[1..] == Without(run[1..], c);
      }
    }
  }

  /** Cancelling one bridged caller costs the others nothing: whatever they could
      have done, they still do, with the same shared state and the same outcomes. */
  lemma CancellationStaysPrivate(s: State, c: nat, run: seq<Label>)
    requires Enabled(s, CancelBridge(c)) && IsRun(s, run)
    ensures IsRun(s, [CancelBridge(c)] + Without(run, c))
    ensures SameBut(After(s, run), After(s, [CancelBridge(c)] + Without(run, c)), c)
  {
    var t := Apply(s, CancelBridge(c));
    SameButAfter(s, t, c, run);
    var cancelled := [CancelBridge(c)] + Without(run, c);
    assert cancelled[1..] == Without(run, c);
  }
}
