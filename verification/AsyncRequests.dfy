/** What each caller of the read executor asked for when it arrived, and what it is served. */
module AsyncRequests {
  import opened Basics
  import opened AsyncReads
  import opened AsyncProtocol

  /** The arrivals of a run, in order. */
  function Arrivals(run: seq<Label>): (arrivals: seq<Label>)
    ensures forall a | a in arrivals :: a.Arrive?
  {
    if run == [] then []
    else (if run[0].Arrive? then [run[0]] else []) + Arrivals(run[1..])
  }

  /** The caller is the one that this arrival announced. */
  predicate IsFrom(me: Caller, a: Label) {
    a.Arrive? && me.loop == a.loop && me.key == a.key && me.coalesce == a.coalesce
  }

  predicate HoldsFuture(pc: Pc) { pc.Registering? || pc.Bridging? || pc.Awaiting? }

  /** A future was admitted by its owner, for the owner's key, shared only when the owner allowed it. */
  predicate AdmittedFor(s: State, f: FutureId) {
    f < |s.futures| ==>
      var x := s.futures[f];
      x.owner < |s.callers| && x.key == s.callers[x.owner].key && x.coalesced == s.callers[x.owner].coalesce
  }

  /** The future that a caller holds is for its key, and its own unless the caller coalesces. */
  predicate HoldsItsRead(s: State, c: nat) {
    c < |s.callers| && HoldsFuture(s.callers[c].pc) ==>
      var me := s.callers[c];
      && me.pc.f < |s.futures|
      && s.futures[me.pc.f].key == me.key
      && (if me.coalesce then s.futures[me.pc.f].coalesced else s.futures[me.pc.f].owner == c)
  }

  ghost predicate Matched(s: State) {
    (forall c: nat :: HoldsItsRead(s, c)) && (forall f: nat :: AdmittedFor(s, f))
  }

  // ---- every step keeps it ----

  /** Futures stay what they are, and an admission adds one of its caller. */
  lemma FuturesStay(s: State, a: Label)
    requires Enabled(s, a)
    ensures var t := Apply(s, a);
            && |s.futures| <= |t.futures|
            && (forall f | 0 <= f < |s.futures| ::
                  && t.futures[f].key == s.futures[f].key && t.futures[f].owner == s.futures[f].owner
                  && t.futures[f].coalesced == s.futures[f].coalesced)
            && (forall f | |s.futures| <= f < |t.futures| ::
                  a.Acquire? && a.c < |s.callers| && t.futures[f] == NewFuture(s.callers[a.c], a.c))
  {
    if a.Acquire? {
      AcquireCases(s, a.c);
    }
  }

  /** A caller holds the future it held, or has just been given one. */
  lemma FutureHeld(s: State, a: Label, c: nat)
    requires Enabled(s, a) && c < |s.callers| && HoldsFuture(Apply(s, a).callers[c].pc)
    ensures || (HoldsFuture(s.callers[c].pc) && Apply(s, a).callers[c].pc.f == s.callers[c].pc.f)
            || a == Label.Acquire(c)
  {
    if a.Acquire? {
      AcquireCases(s, a.c);
    }
  }

  /** What `acquire` gives: with a read of the key to join, that one; otherwise a new one of its own. */
  lemma AcquireGives(s: State, c: nat)
    requires Inv(s) && Enabled(s, Label.Acquire(c)) && HoldsFuture(Apply(s, Label.Acquire(c)).callers[c].pc)
    ensures HoldsItsRead(Apply(s, Label.Acquire(c)), c)
  {
    AcquireCases(s, c);
  }

  lemma MatchedStep(s: State, a: Label)
    requires Inv(s) && Matched(s) && Enabled(s, a)
    ensures Matched(Apply(s, a))
  {
    hide Inv, Enabled, Apply;
    var t := Apply(s, a);
    CallersStay(s, a);
    FuturesStay(s, a);
    forall f: nat ensures AdmittedFor(t, f) {
      assert AdmittedFor(s, f);
      if |s.futures| <= f < |t.futures| {
        var x := t.futures[f];
        assert a.Acquire? && x == NewFuture(s.callers[a.c], a.c);
      }
    }
    forall c: nat ensures HoldsItsRead(t, c) {
      assert HoldsItsRead(s, c);
      if c < |s.callers| && HoldsFuture(t.callers[c].pc) {
        FutureHeld(s, a, c);
        if a == Label.Acquire(c) {
          AcquireGives(s, c);
        }
      }
    }
  }

  lemma {:induction false} MatchedAfter(s: State, run: seq<Label>)
    requires Inv(s) && Matched(s) && IsRun(s, run)
    ensures Matched(After(s, run))
    decreases |run|
  {
    hide Inv, Apply, Enabled, Matched;
    if run != [] {
      InvStep(s, run[0]);
      MatchedStep(s, run[0]);
      MatchedAfter(Apply(s, run[0]), run[1..]);
    }
  }

  // ---- over a whole run ----

  lemma {:induction false} CallersAreArrivals(s: State, run: seq<Label>)
    requires IsRun(s, run)
    ensures var t := After(s, run); var n := |s.callers|;
            && |t.callers| == n + |Arrivals(run)|
            && (forall c | 0 <= c < n ::
                  && t.callers[c].loop == s.callers[c].loop && t.callers[c].key == s.callers[c].key
                  && t.callers[c].coalesce == s.callers[c].coalesce)
            && (forall c | n <= c < |t.callers| :: IsFrom(t.callers[c], Arrivals(run)[c - n]))
    decreases |run|
  {
    hide Apply, Enabled;
    if run != [] {
      CallersStay(s, run[0]);
      CallersAreArrivals(Apply(s, run[0]), run[1..]);
    }
  }

  /** An outcome is the one with which the worker completed. */
  predicate OutcomesComeFrom(s: State, run: seq<Label>) {
    forall f: nat | f < |s.futures| && s.futures[f].outcome.Some? :: Complete(f, s.futures[f].outcome.value) in run
  }

  lemma OutcomesStay(s: State, a: Label, f: FutureId)
    requires Enabled(s, a) && f < |Apply(s, a).futures| && Apply(s, a).futures[f].outcome.Some?
    ensures || (f < |s.futures| && s.futures[f].outcome == Apply(s, a).futures[f].outcome)
            || a == Complete(f, Apply(s, a).futures[f].outcome.value)
  {
    if a.Acquire? {
      AcquireCases(s, a.c);
    }
  }

  lemma {:induction false} OutcomesAreCompleted(s: State, before: seq<Label>, run: seq<Label>)
    requires OutcomesComeFrom(s, before) && IsRun(s, run)
    ensures OutcomesComeFrom(After(s, run), before + run)
    decreases |run|
  {
    hide Apply, Enabled;
    if run == [] {
      assert before + run == before;
    } else {
      var t := Apply(s, run[0]);
      forall f: nat | f < |t.futures| && t.futures[f].outcome.Some?
        ensures Complete(f, t.futures[f].outcome.value) in before + [run[0]]
      {
        OutcomesStay(s, run[0], f);
      }
      OutcomesAreCompleted(t, before + [run[0]], run[1..]);
      assert before + run == before + [run[0]] + run[1..];
    }
  }

  lemma StartMatches(maxBacklog: int)
    ensures Inv(Init(maxBacklog)) && Matched(Init(maxBacklog)) && OutcomesComeFrom(Init(maxBacklog), [])
  {
  }

  /** In every run, the c-th caller is the one that the c-th arrival announced. The read it holds is
      one of its key, and one that it was itself admitted with unless it agreed to share; what it
      receives is what that read's worker ended with, or its own cancellation. */
  lemma CallersGetWhatTheyAsked(maxBacklog: int, run: seq<Label>, c: nat)
    requires IsRun(Init(maxBacklog), run) && c < |After(Init(maxBacklog), run).callers|
    ensures var s := After(Init(maxBacklog), run); var me := s.callers[c];
            && |s.callers| == |Arrivals(run)|
            && me.loop == Arrivals(run)[c].loop && me.key == Arrivals(run)[c].key
            && me.coalesce == Arrivals(run)[c].coalesce
            && (HoldsFuture(me.pc) ==>
                  && me.pc.f < |s.futures| && s.futures[me.pc.f].key == Arrivals(run)[c].key
                  && s.futures[me.pc.f].owner < |s.callers|
                  && s.futures[me.pc.f].coalesced == Arrivals(run)[s.futures[me.pc.f].owner].coalesce
                  && (if me.coalesce then s.futures[me.pc.f].coalesced else s.futures[me.pc.f].owner == c))
            && (me.pc.Awaiting? && me.pc.destination.Settled? ==>
                  || Complete(me.pc.f, me.pc.destination.outcome) in run
                  || (me.pc.destination.outcome == Cancelled && CancelBridge(c) in run))
  {
    hide Inv, Apply, Enabled;
    var s0 := Init(maxBacklog);
    StartMatches(maxBacklog);
    CallersAreArrivals(s0, run);
    MatchedAfter(s0, run);
    OutcomesAreCompleted(s0, [], run);
    assert [] + run == run;
    var s := After(s0, run);
    assert HoldsItsRead(s, c);
    if HoldsFuture(s.callers[c].pc) {
      assert AdmittedFor(s, s.callers[c].pc.f);
    }
    if s.callers[c].pc.Awaiting? && s.callers[c].pc.destination.Settled? {
      BridgeIsFaithful(maxBacklog, run, c);
    }
  }

  // ---- when a suspension ends ----

  /** The event of a loop wakes all that wait on it and nobody else, and only it, or a cancellation,
      ends a wait. */
  lemma OnlyItsEventWakes(s: State, a: Label, c: nat)
    requires Enabled(s, a) && c < |s.callers| && s.callers[c].pc.Suspended?
    ensures var pc := Apply(s, a).callers[c].pc;
            if a.RunSet? && s.callers[c].loop == Some(a.l) then pc == Ready
            else if a == CancelWait(c) then pc == Gone
            else pc == Suspended
  {
    if a.Acquire? {
      AcquireCases(s, a.c);
    }
  }

  // ---- when a loop is gone ----

  /** A loop that closes stays closed; a set goes to the event of an open loop, and the event of a closed
      one is forgotten instead. */
  lemma ClosedLoopsAreForgotten(s: State, a: Label, f: FutureId, l: Loop)
    requires Enabled(s, a) && l < |s.loops|
    ensures var t := Apply(s, a);
            && l < |t.loops| && (t.loops[l].open <==> s.loops[l].open && a != CloseLoop(l))
            && (a == QueueSet(f, l) ==>
                  if s.loops[l].open then t.loops[l].queued == s.loops[l].queued + 1 && t.fields == s.fields
                  else t.loops == s.loops && t.fields.waiters == s.fields.waiters - {l})
  {
    if a.Acquire? {
      AcquireCases(s, a.c);
    }
  }
}
