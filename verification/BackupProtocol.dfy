/** The backup service as its loop, manual runs, status reads and the owner interleave: the
    event loop switches between them at every await. */
module BackupProtocol {
  import opened Basics
  import opened BackupService

  /** The run that holds the lock. */
  datatype Run = Idle | Reading(now: int, scheduled: bool) | Working(now: int, scheduled: bool, remote: string)

  /** Where the loop is; `Calling` covers the wait for the lock and the run itself. */
  datatype Loop = Deciding | Sleeping(until: int) | Calling | Resting(until: int)

  /** `calls` are the times at which the loop asked for a run, `starts` those at which a run that
      it asked for got the lock. */
  datatype System = System(
    service: Service, repo: Repo, run: Run, loop: Loop, clock: int,
    calls: seq<int>, starts: seq<int>, outcomes: seq<Outcome>, rows: seq<Row>)

  /** How far the work got before an unexpected exception. */
  datatype Stage = BeforeCommit | AfterCommit | AfterPush | AfterSuccess

  datatype Label =
    | Tick(to: int)
    | Flags(enabled: Option<bool>, paused: Option<bool>)
    | BeginSetup
    | StatusSettles(branch: string, remote: string)
    | Decide | Wake | Rested
    | Start(scheduled: bool, host: Host)
    | ReadTarget(branch: string, remote: string)
    | FinishWork(git: Git)
    | Breaks(detail: string, git: Git, stage: Stage)

  predicate Enabled(s: System, a: Label) {
    match a
    case Tick(to) => to >= s.clock
    case Flags(_, _) => true
    case BeginSetup => true
    case StatusSettles(branch, remote) => branch != "" && remote != ""
    case Decide => s.loop.Deciding?
    case Wake => s.loop.Sleeping? && s.clock >= s.loop.until
    case Rested => s.loop.Resting? && s.clock >= s.loop.until
    case Start(scheduled, _) => s.run.Idle? && (scheduled ==> s.loop.Calling?)
    case ReadTarget(_, _) => s.run.Reading?
    case FinishWork(_) => s.run.Working?
    case Breaks(_, _, _) => !s.run.Idle?
  }

  /** A run ends: its row is recorded and the loop, if it was its run, goes on. */
  function Finished(s: System, o: Outcome, scheduled: bool): System {
    var (service, row) := Recorded(s.service, o);
    s.(service := service, run := Idle, outcomes := s.outcomes + [o], rows := s.rows + [row],
       loop := if !scheduled then s.loop else if o.state.Paused? then Resting(s.clock + INTERVAL) else Deciding)
  }

  function CommittedRepo(repo: Repo, git: Git): Repo {
    if git.commit.Committed? then repo.(commits := repo.commits + [git.commit.sha]) else repo
  }

  function Interrupted(s: Service, repo: Repo, now: int, remote: string, git: Git, stage: Stage): (Service, Repo) {
    var work := Worked(s, repo, now, remote, git);
    match stage
    case BeforeCommit => (s, repo)
    case AfterCommit => (s, if GitIsFree(git) && git.report.eligible != [] then CommittedRepo(repo, git) else repo)
    case AfterPush => (Reached(s, now, remote), work.repo)
    case AfterSuccess => (work.service, work.repo)
  }

  /** No other git operation is running and no file in the scope is refused. */
  predicate GitIsFree(git: Git) { git.busy.None? && HardBlockers(git.report.blockers, git.report.tracked) == [] }

  function Begun(starts: seq<int>, scheduled: bool, clock: int): seq<int> {
    if scheduled then starts + [clock] else starts
  }

  function Apply(s: System, a: Label): System
    requires Enabled(s, a)
  {
    match a
    case Tick(to) => s.(clock := to)
    case Flags(enabled, paused) => s.(service := Flagged(s.service, enabled, paused))
    case BeginSetup => s.(service := s.service.(guided := true))
    case StatusSettles(_, _) => s.(service := Settled(s.service))
    case Decide => s.(loop := Sleeping(s.clock + NextDelay(s.service, s.clock)))
    case Wake => s.(loop := Calling, calls := s.calls + [s.clock])
    case Rested => s.(loop := Deciding)
    case Start(scheduled, host) =>
      var (service, refused) := Opened(s.service, host);
      var t := s.(service := service, starts := Begun(s.starts, scheduled, s.clock));
      if refused.Some? then Finished(t, refused.value, scheduled) else t.(run := Reading(s.clock, scheduled))
    case ReadTarget(branch, remote) =>
      var (service, refused) := Targeted(s.service, s.run.now, branch, remote);
      if refused.Some? then Finished(s.(service := service), refused.value, s.run.scheduled)
      else s.(service := service, run := Working(s.run.now, s.run.scheduled, remote))
    case FinishWork(git) =>
      var work := Worked(s.service, s.repo, s.run.now, s.run.remote, git);
      Finished(s.(service := work.service, repo := work.repo), work.outcome, s.run.scheduled)
    case Breaks(detail, git, stage) =>
      var (service, repo) :=
        if s.run.Working? then Interrupted(s.service, s.repo, s.run.now, s.run.remote, git, stage)
        else (s.service, s.repo);
      var (faulted, o) := Faulted(service, s.clock, detail);
      Finished(s.(service := faulted, repo := repo), o, s.run.scheduled)
  }

  predicate IsRun(s: System, run: seq<Label>)
    decreases |run|
  {
    run == [] || (Enabled(s, run[0]) && IsRun(Apply(s, run[0]), run[1..]))
  }

  function After(s: System, run: seq<Label>): System
    requires IsRun(s, run)
    decreases |run|
  {
    if run == [] then s else After(Apply(s, run[0]), run[1..])
  }

  function Boot(settings: Settings, repo: Repo, clock: int): System {
    System(Service(settings, None, false, "", 0), repo, Idle, Deciding, clock, [], [], [], [])
  }

  // ---- the cadence ----

  predicate Spaced(starts: seq<int>) {
    forall i | 0 <= i < |starts| - 1 :: starts[i + 1] - starts[i] >= INTERVAL
  }

  /** The loop has asked for a run that has not begun. */
  predicate Waiting(loop: Loop, run: Run) { loop.Calling? && (run.Idle? || !run.scheduled) }

  /** What holds once a run of the loop has begun, `last` being the latest such moment. */
  predicate Paced(loop: Loop, run: Run, clock: int, stamp: Option<int>, last: int) {
    && last <= clock
    && (run.Idle? || last <= run.now)
    && (loop.Deciding? ==> clock >= last + INTERVAL || (stamp.Some? && stamp.value >= last))
    && (loop.Sleeping? || loop.Resting? ==> loop.until >= last + INTERVAL)
    && (Waiting(loop, run) ==> clock >= last + INTERVAL)
  }

  predicate InStep(loop: Loop, run: Run, clock: int, stamp: Option<int>, starts: seq<int>) {
    && Spaced(starts)
    && (starts != [] ==> Paced(loop, run, clock, stamp, starts[|starts| - 1]))
    && (!run.Idle? ==> run.now <= clock && (run.scheduled ==> loop.Calling? && starts != []))
  }

  /** Each begun run was asked for once, and no earlier than the one before it began. */
  predicate Asked(loop: Loop, run: Run, clock: int, calls: seq<int>, starts: seq<int>) {
    && |calls| == |starts| + (if Waiting(loop, run) then 1 else 0)
    && (forall i | 0 <= i < |calls| :: calls[i] <= clock)
    && (forall i | 0 <= i < |starts| :: calls[i] <= starts[i])
    && (forall i | 0 <= i < |calls| - 1 :: starts[i] + INTERVAL <= calls[i + 1])
  }

  predicate OnTime(s: System) {
    && InStep(s.loop, s.run, s.clock, s.service.settings.lastAttempt, s.starts)
    && Asked(s.loop, s.run, s.clock, s.calls, s.starts)
  }

  lemma DelayIsBounded(s: Service, now: int)
    ensures 0 <= NextDelay(s, now) <= BACKOFF_MULTIPLIER * INTERVAL
    ensures s.backoff.None? ==> NextDelay(s, now) <= INTERVAL
    ensures s.settings.lastAttempt.Some? ==>
              now + NextDelay(s, now) >= Earlier(now, s.settings.lastAttempt.value) + INTERVAL
  {
  }

  function Earlier(a: int, b: int): int { if a < b then a else b }

  function Next(loop: Loop, scheduled: bool, paused: bool, clock: int): Loop {
    if !scheduled then loop else if paused then Resting(clock + INTERVAL) else Deciding
  }

  /** A run that was not refused has stamped an attempt no earlier than its own start. */
  lemma EndInStep(loop: Loop, run: Run, clock: int, stamp: Option<int>, starts: seq<int>, stamped: int)
    requires InStep(loop, run, clock, stamp, starts) && !run.Idle? && run.now <= stamped
    ensures InStep(Next(loop, run.scheduled, false, clock), Idle, clock, Some(stamped), starts)
  {
  }

  lemma EndAsked(loop: Loop, run: Run, clock: int, calls: seq<int>, starts: seq<int>, paused: bool)
    requires Asked(loop, run, clock, calls, starts) && !run.Idle? && (run.scheduled ==> loop.Calling?)
    ensures Asked(Next(loop, run.scheduled, paused, clock), Idle, clock, calls, starts)
  {
  }

  lemma BeginInStep(loop: Loop, clock: int, stamp: Option<int>, starts: seq<int>, scheduled: bool)
    requires InStep(loop, Idle, clock, stamp, starts) && (scheduled ==> loop.Calling?)
    ensures InStep(loop, Reading(clock, scheduled), clock, stamp, Begun(starts, scheduled, clock))
    ensures InStep(Next(loop, scheduled, true, clock), Idle, clock, stamp, Begun(starts, scheduled, clock))
  {
  }

  lemma BeginAsked(loop: Loop, clock: int, calls: seq<int>, starts: seq<int>, scheduled: bool)
    requires Asked(loop, Idle, clock, calls, starts) && (scheduled ==> loop.Calling?)
    ensures Asked(loop, Reading(clock, scheduled), clock, calls, Begun(starts, scheduled, clock))
  {
  }

  lemma WorkStamps(s: Service, repo: Repo, now: int, remote: string, git: Git)
    ensures var work := Worked(s, repo, now, remote, git);
            work.service.settings.lastAttempt == Some(now) && !work.outcome.state.Paused?
  {
  }

  lemma FinishedParts(s: System, o: Outcome, scheduled: bool)
    ensures var t := Finished(s, o, scheduled);
            && t.loop == Next(s.loop, scheduled, o.state.Paused?, s.clock) && t.run == Idle && t.clock == s.clock
            && t.service.settings == s.service.settings && t.repo == s.repo
            && t.starts == s.starts && t.calls == s.calls
            && t.outcomes == s.outcomes + [o]
  {
  }

  lemma OnTimeLoop(s: System, a: Label)
    requires OnTime(s) && Enabled(s, a) && (a.Decide? || a.Wake? || a.Rested? || a.Tick?)
    ensures OnTime(Apply(s, a))
  {
    if a.Decide? {
      DelayIsBounded(s.service, s.clock);
    }
  }

  lemma OnTimeOwner(s: System, a: Label)
    requires OnTime(s) && Enabled(s, a) && (a.Flags? || a.BeginSetup? || a.StatusSettles?)
    ensures OnTime(Apply(s, a))
  {
  }

  lemma OnTimeStart(s: System, scheduled: bool, host: Host)
    requires OnTime(s) && Enabled(s, Start(scheduled, host))
    ensures OnTime(Apply(s, Start(scheduled, host)))
  {
    hide InStep, Asked, GateReason, Recorded;
    var (service, refused) := Opened(s.service, host);
    var starts := Begun(s.starts, scheduled, s.clock);
    BeginInStep(s.loop, s.clock, s.service.settings.lastAttempt, s.starts, scheduled);
    BeginAsked(s.loop, s.clock, s.calls, s.starts, scheduled);
    if refused.Some? {
      FinishedParts(s.(service := service, starts := starts), refused.value, scheduled);
      EndAsked(s.loop, Reading(s.clock, scheduled), s.clock, s.calls, starts, true);
    }
  }

  lemma OnTimeWork(s: System, a: Label)
    requires OnTime(s) && Enabled(s, a) && (a.ReadTarget? || a.FinishWork? || a.Breaks?)
    ensures OnTime(Apply(s, a))
  {
    hide Asked, Worked, Recorded;
    EndAsked(s.loop, s.run, s.clock, s.calls, s.starts, false);
    match a
    case ReadTarget(branch, remote) => OnTimeTarget(s, branch, remote);
    case FinishWork(git) =>
      var work := Worked(s.service, s.repo, s.run.now, s.run.remote, git);
      WorkStamps(s.service, s.repo, s.run.now, s.run.remote, git);
      FinishedParts(s.(service := work.service, repo := work.repo), work.outcome, s.run.scheduled);
      EndInStep(s.loop, s.run, s.clock, s.service.settings.lastAttempt, s.starts, s.run.now);
    case Breaks(detail, git, stage) =>
      BreakParts(s, detail, git, stage);
      EndInStep(s.loop, s.run, s.clock, s.service.settings.lastAttempt, s.starts, s.clock);
  }

  lemma WorkInStep(loop: Loop, run: Run, clock: int, stamp: Option<int>, starts: seq<int>, remote: string)
    requires run.Reading? && InStep(loop, run, clock, stamp, starts)
    ensures InStep(loop, Working(run.now, run.scheduled, remote), clock, stamp, starts)
  {
  }

  lemma WorkAsked(loop: Loop, run: Run, clock: int, calls: seq<int>, starts: seq<int>, remote: string)
    requires run.Reading? && Asked(loop, run, clock, calls, starts)
    ensures Asked(loop, Working(run.now, run.scheduled, remote), clock, calls, starts)
  {
  }

  lemma TargetTiming(s: System, branch: string, remote: string)
    requires Enabled(s, ReadTarget(branch, remote))
    ensures var t := Apply(s, ReadTarget(branch, remote));
            && t.clock == s.clock && t.starts == s.starts && t.calls == s.calls
            && if branch == "" || remote == ""
               then && t.loop == Next(s.loop, s.run.scheduled, false, s.clock) && t.run == Idle
                    && t.service.settings.lastAttempt == Some(s.run.now)
               else && t.loop == s.loop && t.run == Working(s.run.now, s.run.scheduled, remote)
                    && t.service.settings.lastAttempt == s.service.settings.lastAttempt
  {
    hide Finished;
    var (service, refused) := Targeted(s.service, s.run.now, branch, remote);
    if refused.Some? {
      FinishedParts(s.(service := service), refused.value, s.run.scheduled);
    }
  }

  lemma OnTimeTarget(s: System, branch: string, remote: string)
    requires OnTime(s) && Enabled(s, ReadTarget(branch, remote))
    ensures OnTime(Apply(s, ReadTarget(branch, remote)))
  {
    assert s.run.scheduled ==> s.loop.Calling?;
    hide Apply, InStep, Asked;
    TargetTiming(s, branch, remote);
    if branch == "" || remote == "" {
      EndInStep(s.loop, s.run, s.clock, s.service.settings.lastAttempt, s.starts, s.run.now);
      EndAsked(s.loop, s.run, s.clock, s.calls, s.starts, false);
    } else {
      WorkInStep(s.loop, s.run, s.clock, s.service.settings.lastAttempt, s.starts, remote);
      WorkAsked(s.loop, s.run, s.clock, s.calls, s.starts, remote);
    }
  }

  lemma BreakParts(s: System, detail: string, git: Git, stage: Stage)
    requires Enabled(s, Breaks(detail, git, stage))
    ensures var t := Apply(s, Breaks(detail, git, stage));
            && t.loop == Next(s.loop, s.run.scheduled, false, s.clock) && t.run == Idle && t.clock == s.clock
            && t.service.settings.lastAttempt == Some(s.clock)
            && t.starts == s.starts && t.calls == s.calls
  {
  }

  lemma OnTimeStep(s: System, a: Label)
    requires OnTime(s) && Enabled(s, a)
    ensures OnTime(Apply(s, a))
  {
    match a
    case Start(scheduled, host) => OnTimeStart(s, scheduled, host);
    case ReadTarget(_, _) => OnTimeWork(s, a);
    case FinishWork(_) => OnTimeWork(s, a);
    case Breaks(_, _, _) => OnTimeWork(s, a);
    case Flags(_, _) => OnTimeOwner(s, a);
    case BeginSetup => OnTimeOwner(s, a);
    case StatusSettles(_, _) => OnTimeOwner(s, a);
    case _ => OnTimeLoop(s, a);
  }

  lemma {:induction false} OnTimeAfter(s: System, run: seq<Label>)
    requires OnTime(s) && IsRun(s, run)
    ensures OnTime(After(s, run))
    decreases |run|
  {
    if run != [] {
      OnTimeStep(s, run[0]);
      OnTimeAfter(Apply(s, run[0]), run[1..]);
    }
  }

  /** In every run of the service the loop's runs begin at least an interval apart, and each is
      asked for an interval after the one before it began. */
  lemma ScheduledRunsAreSpaced(settings: Settings, repo: Repo, clock: int, run: seq<Label>)
    requires IsRun(Boot(settings, repo, clock), run)
    ensures var s := After(Boot(settings, repo, clock), run);
            && Spaced(s.starts) && |s.starts| <= |s.calls| <= |s.starts| + 1
            && (forall i | 0 <= i < |s.starts| :: s.calls[i] <= s.starts[i])
            && (forall i | 0 <= i < |s.calls| - 1 :: s.calls[i + 1] >= s.starts[i] + INTERVAL)
  {
    hide OnTime;
    assert OnTime(Boot(settings, repo, clock)) by { BootIsOnTime(settings, repo, clock); }
    OnTimeAfter(Boot(settings, repo, clock), run);
    PartsOfOnTime(After(Boot(settings, repo, clock), run));
  }

  lemma BootIsOnTime(settings: Settings, repo: Repo, clock: int)
    ensures OnTime(Boot(settings, repo, clock))
  {
  }

  lemma PartsOfOnTime(s: System)
    requires OnTime(s)
    ensures Spaced(s.starts) && |s.starts| <= |s.calls| <= |s.starts| + 1
    ensures forall i | 0 <= i < |s.starts| :: s.calls[i] <= s.starts[i]
    ensures forall i | 0 <= i < |s.calls| - 1 :: s.calls[i + 1] >= s.starts[i] + INTERVAL
  {
  }

  // ---- what a backup claims ----

  /** The commit named by the success evidence is on the remote. */
  predicate Attested(s: System) {
    var commit := s.service.settings.lastSuccessCommit;
    commit == "" || commit in s.repo.remote
  }

  /** Nothing committed here is lost, and nothing that reached the remote is taken back. */
  predicate Grows(old_: Repo, new_: Repo) { old_.commits <= new_.commits && old_.remote <= new_.remote }

  /** What the work does to the repository and to the evidence. */
  ghost predicate HonestWork(s: Service, repo: Repo, now: int, git: Git, w: Work) {
    && Grows(repo, w.repo)
    && (w.repo.remote != repo.remote ==> Pushed(git))
    && (SameSuccess(s.settings, w.service.settings)
        || (Pushed(git) && w.service.settings.lastSuccessCommit in w.repo.remote + {""}
            && w.service.settings.lastSuccess == Some(now)))
    && w.service.settings.enabled == s.settings.enabled && w.service.settings.paused == s.settings.paused
    && w.service.guided == s.guided
  }

  lemma UploadIsHonest(s: Service, repo: Repo, now: int, remote: string, committed: bool, git: Git)
    ensures HonestWork(s, repo, now, git, Uploaded(s, repo, now, remote, committed, git))
  {
    match git.push
    case PushLanded(merged) => LandedHead(repo.commits + merged, git.headReads);
    case PushedAside(_) => LandedHead(repo.commits, git.headReads);
    case PushFailed(_, _, _) =>
  }

  lemma WorkIsHonest(s: Service, repo: Repo, now: int, remote: string, git: Git)
    ensures var w := Worked(s, repo, now, remote, git);
            && HonestWork(s, repo, now, git, w)
            && (!GitIsFree(git) ==> w.repo == repo && SameSuccess(s.settings, w.service.settings))
  {
    hide Uploaded, HardBlockers, JoinBlockers, HonestWork;
    UploadIsHonest(s, repo, now, remote, false, git);
    StampIsHonest(s, repo, now, git);
    if git.commit.Committed? {
      var more := repo.(commits := repo.commits + [git.commit.sha]);
      UploadIsHonest(s, more, now, remote, true, git);
      CommitIsHonest(s, repo, git.commit.sha, now, git, Uploaded(s, more, now, remote, true, git));
    }
  }

  lemma StampIsHonest(s: Service, repo: Repo, now: int, git: Git)
    ensures forall o :: HonestWork(s, repo, now, git, Work(Stamped(s, now), repo, o))
    ensures SameSuccess(s.settings, Stamped(s, now).settings)
  {
  }

  lemma CommitIsHonest(s: Service, repo: Repo, sha: string, now: int, git: Git, w: Work)
    requires HonestWork(s, repo.(commits := repo.commits + [sha]), now, git, w)
    ensures HonestWork(s, repo, now, git, w)
  {
  }

  lemma LandedHead(commits: seq<string>, readable: bool)
    ensures Head(commits, readable) == "" || Head(commits, readable) in All(commits)
  {
  }

  /** One step of the system, as it bears on the repository and the evidence. */
  ghost predicate HonestStep(s: System, a: Label, t: System) {
    && Grows(s.repo, t.repo)
    && (t.repo != s.repo ==> s.run.Working? && (a.FinishWork? || a.Breaks?) && GitIsFree(a.git))
    && (t.repo.remote != s.repo.remote ==> Pushed(a.git))
    && (SameSuccess(s.service.settings, t.service.settings) || EarnedEvidence(s, a, t))
  }

  ghost predicate EarnedEvidence(s: System, a: Label, t: System) {
    && s.run.Working? && (a.FinishWork? || (a.Breaks? && a.stage.AfterSuccess?))
    && GitIsFree(a.git) && Pushed(a.git)
    && t.service.settings.lastSuccess == Some(s.run.now)
    && t.service.settings.lastSuccessCommit in t.repo.remote + {""}
  }

  lemma StepIsHonest(s: System, a: Label)
    requires Enabled(s, a)
    ensures HonestStep(s, a, Apply(s, a))
  {
    match a
    case FinishWork(git) =>
      var work := Worked(s.service, s.repo, s.run.now, s.run.remote, git);
      WorkIsHonest(s.service, s.repo, s.run.now, s.run.remote, git);
      FinishedParts(s.(service := work.service, repo := work.repo), work.outcome, s.run.scheduled);
    case Breaks(_, git, _) => BreakIsHonest(s, a);
    case Start(scheduled, host) => StartParts(s, scheduled, host);
    case ReadTarget(branch, remote) => TargetParts(s, branch, remote);
    case _ =>
  }

  lemma BreakIsHonest(s: System, a: Label)
    requires Enabled(s, a) && a.Breaks?
    ensures HonestStep(s, a, Apply(s, a))
  {
    if s.run.Working? {
      WorkIsHonest(s.service, s.repo, s.run.now, s.run.remote, a.git);
    }
  }

  /** What a break leaves, by where it happens: before the commit nothing; after it the commit; after
      the push what the finished work leaves in the repository; and the success only once it is written.
      The run ends with the failure, stamped with the time of the break. */
  lemma BreakLeaves(s: System, detail: string, git: Git, stage: Stage)
    requires Enabled(s, Breaks(detail, git, stage))
    ensures var t := Apply(s, Breaks(detail, git, stage));
            && t.outcomes == s.outcomes + [Outcome(NeedsAttention, detail)] && t.run == Idle
            && t.service.settings.lastAttempt == Some(s.clock) && t.service.backoff == None
            && (!s.run.Working? || stage.BeforeCommit? ==> t.repo == s.repo)
            && (s.run.Working? && stage.AfterCommit? ==>
                  var made := git.busy.None? && HardBlockers(git.report.blockers, git.report.tracked) == []
                              && git.report.eligible != [] && git.commit.Committed?;
                  t.repo == Repo(s.repo.commits + (if made then [git.commit.sha] else []), s.repo.remote))
            && (!s.run.Working? || !stage.AfterSuccess? ==> SameSuccess(s.service.settings, t.service.settings))
            && (s.run.Working? && (stage.AfterPush? || stage.AfterSuccess?) ==>
                  t.repo == Apply(s, FinishWork(git)).repo)
            && (s.run.Working? && stage.AfterSuccess? ==>
                  SameSuccess(Apply(s, FinishWork(git)).service.settings, t.service.settings))
  {
    hide Worked, HardBlockers;
    if s.run.Working? {
      var work := Worked(s.service, s.repo, s.run.now, s.run.remote, git);
      FinishedParts(s.(service := work.service, repo := work.repo), work.outcome, s.run.scheduled);
    }
  }

  /** Opening a run changes neither flags nor stamps nor the repository. */
  lemma StartParts(s: System, scheduled: bool, host: Host)
    requires Enabled(s, Start(scheduled, host))
    ensures var t := Apply(s, Start(scheduled, host));
            t.service.settings == s.service.settings && t.service.guided == s.service.guided && t.repo == s.repo
  {
    var (service, refused) := Opened(s.service, host);
    if refused.Some? {
      FinishedParts(s.(service := service), refused.value, scheduled);
    }
  }

  lemma TargetParts(s: System, branch: string, remote: string)
    requires Enabled(s, ReadTarget(branch, remote))
    ensures var t := Apply(s, ReadTarget(branch, remote));
            && t.repo == s.repo && SameSuccess(s.service.settings, t.service.settings)
            && t.service.settings.paused == s.service.settings.paused
            && (branch == "" || remote == "" ==> t.service.settings.enabled == s.service.settings.enabled)
            && (branch != "" && remote != "" ==> t.service == Settled(s.service) && t.run.Working?)
  {
    var (service, refused) := Targeted(s.service, s.run.now, branch, remote);
    if refused.Some? {
      FinishedParts(s.(service := service), refused.value, s.run.scheduled);
    }
  }

  /** The other way round: when git was free and the commit did not fail, a push that reached the
      remote is written down as a success of the run, with the last local commit if that can be read. */
  lemma SuccessIsWritten(s: System, git: Git)
    requires Enabled(s, FinishWork(git)) && GitIsFree(git) && Pushed(git)
    requires git.report.eligible != [] ==> !git.commit.CommitFailed?
    ensures var t := Apply(s, FinishWork(git)); var commits := t.repo.commits;
            && t.service.settings.lastAttempt == Some(s.run.now) && t.service.settings.lastSuccess == Some(s.run.now)
            && t.service.settings.lastSuccessCommit ==
               (if git.headReads && commits != [] then commits[|commits| - 1] else "")
            && (forall c | c in commits :: c in t.repo.remote)
            && (git.report.eligible != [] && git.commit.Committed? ==> git.commit.sha in commits)
  {
    hide Worked, Uploaded, Recorded;
    var work := Worked(s.service, s.repo, s.run.now, s.run.remote, git);
    WorkAnswers(s.service, s.repo, s.run.now, s.run.remote, git);
    var committed := git.report.eligible != [] && git.commit.Committed?;
    var commits := s.repo.commits + if committed then [git.commit.sha] else [];
    UploadAnswers(s.service, Repo(commits, s.repo.remote), s.run.now, s.run.remote, committed, git);
    assert committed ==> commits[|s.repo.commits|] == git.commit.sha;
    FinishedParts(s.(service := work.service, repo := work.repo), work.outcome, s.run.scheduled);
  }

  /** How the loop goes on: it sleeps until the next attempt is due, and after its own run decides
      again, or rests an interval when the gate refused; no other run moves it. */
  lemma LoopGoesOn(s: System, a: Label)
    requires Enabled(s, a)
    ensures var t := Apply(s, a);
            var own := if a.Start? then a.scheduled else !s.run.Idle? && s.run.scheduled;
            var ends := (a.Start? || a.ReadTarget? || a.FinishWork? || a.Breaks?) && t.run.Idle?;
            && (a.Decide? ==> t.loop == Sleeping(s.clock + NextDelay(s.service, s.clock)))
            && (a.Wake? ==> t.loop == Calling) && (a.Rested? ==> t.loop == Deciding)
            && (ends ==> t.outcomes == s.outcomes + [t.outcomes[|s.outcomes|]])
            && (ends && own ==>
                  t.loop == if t.outcomes[|s.outcomes|].state.Paused? then Resting(s.clock + INTERVAL) else Deciding)
            && (!(ends && own) && !a.Decide? && !a.Wake? && !a.Rested? ==> t.loop == s.loop)
  {
    hide Worked, Recorded, GateReason, NextDelay, HardBlockers;
  }

  /** In every run: the named commit stays on the remote, and histories only grow. */
  lemma {:induction false} EvidenceHolds(s: System, run: seq<Label>)
    requires Attested(s) && IsRun(s, run)
    ensures Attested(After(s, run)) && Grows(s.repo, After(s, run).repo)
    decreases |run|
  {
    if run != [] {
      StepIsHonest(s, run[0]);
      EvidenceHolds(Apply(s, run[0]), run[1..]);
    }
  }

  /** A file the scope refuses stops the run before it stages or pushes anything. */
  lemma {:induction false} BlockersAreTheUngapped(blockers: seq<string>, tracked: seq<string>)
    ensures forall b :: b in HardBlockers(blockers, tracked) <==> b in blockers && !IsGap(b, tracked)
    ensures HardBlockers(blockers, tracked) == [] <==> forall b | b in blockers :: IsGap(b, tracked)
  {
    if blockers != [] {
      BlockersAreTheUngapped(blockers[1..], tracked);
    }
  }

  // ---- who turns the backup on ----

  /** A step that has read a branch and a remote off disk, and so answers a guided setup. */
  predicate Verifies(a: Label) { (a.StatusSettles? || a.ReadTarget?) && a.branch != "" && a.remote != "" }

  predicate SetupEnables(s: System, a: Label) { Verifies(a) && s.service.guided && !s.service.settings.paused }

  /** The flags after a step: the owner's, or a guided setup's answer. */
  lemma FlagsAfter(s: System, a: Label)
    requires Enabled(s, a)
    ensures var t := Apply(s, a);
            && t.service.settings.enabled ==
               (if a.Flags? && a.enabled.Some? then a.enabled.value
                else s.service.settings.enabled || SetupEnables(s, a))
            && t.service.settings.paused ==
               (if a.Flags? && a.paused.Some? then a.paused.value else s.service.settings.paused)
            && t.service.guided == (a.BeginSetup? || (s.service.guided && !Verifies(a)))
  {
    match a
    case Start(scheduled, host) => StartParts(s, scheduled, host);
    case ReadTarget(branch, remote) => FlagsAfterTarget(s, branch, remote);
    case FinishWork(git) => WorkIsHonest(s.service, s.repo, s.run.now, s.run.remote, git);
    case Breaks(_, git, _) => if s.run.Working? { WorkIsHonest(s.service, s.repo, s.run.now, s.run.remote, git); }
    case _ =>
  }

  lemma FlagsAfterTarget(s: System, branch: string, remote: string)
    requires Enabled(s, ReadTarget(branch, remote))
    ensures var t := Apply(s, ReadTarget(branch, remote)).service;
            if branch == "" || remote == "" then
              t.settings.enabled == s.service.settings.enabled && t.settings.paused == s.service.settings.paused
              && t.guided == s.service.guided
            else t == Settled(s.service)
  {
  }

  /** Some step of the run turned the backup on: the owner, or a setup that verified. */
  ghost predicate TurnedOn(s: System, run: seq<Label>)
    requires IsRun(s, run)
    decreases |run|
  {
    run != []
    && (|| (run[0].Flags? && run[0].enabled == Some(true))
        || SetupEnables(s, run[0])
        || TurnedOn(Apply(s, run[0]), run[1..]))
  }

  /** The backup is never on without a decision, and only the owner touches the pause. */
  lemma {:induction false} FlagsAreDecided(s: System, run: seq<Label>)
    requires IsRun(s, run)
    ensures !s.service.settings.enabled && After(s, run).service.settings.enabled ==> TurnedOn(s, run)
    ensures (forall a | a in run :: !(a.Flags? && a.paused.Some?)) ==>
              After(s, run).service.settings.paused == s.service.settings.paused
    decreases |run|
  {
    if run != [] {
      FlagsAfter(s, run[0]);
      FlagsAreDecided(Apply(s, run[0]), run[1..]);
    }
  }

  // ---- whether a run that goes on has permission ----

  predicate Permitted(s: Service) { s.settings.enabled && !s.settings.paused }

  /** The owner's last word on the pause, `first` when there is none. */
  predicate Held(first: bool, run: seq<Label>)
    decreases |run|
  {
    if run == [] then first
    else
      var (front, a) := (run[..|run| - 1], run[|run| - 1]);
      if a.Flags? && a.paused.Some? then a.paused.value else Held(first, front)
  }

  /** A setup was dispatched that no read of a branch and a remote has answered. */
  predicate Unanswered(first: bool, run: seq<Label>)
    decreases |run|
  {
    if run == [] then first
    else
      var (front, a) := (run[..|run| - 1], run[|run| - 1]);
      a.BeginSetup? || (!Verifies(a) && Unanswered(first, front))
  }

  /** The last word on the switch: the owner's, or that of a setup answered while no pause stood. */
  predicate SwitchedOn(first: Service, run: seq<Label>)
    decreases |run|
  {
    if run == [] then first.settings.enabled
    else
      var (front, a) := (run[..|run| - 1], run[|run| - 1]);
      if a.Flags? && a.enabled.Some? then a.enabled.value
      else if Verifies(a) && Unanswered(first.guided, front) && !Held(first.settings.paused, front) then true
      else SwitchedOn(first, front)
  }

  lemma {:induction false} RunSplit(s: System, front: seq<Label>, a: Label)
    requires IsRun(s, front + [a])
    ensures IsRun(s, front) && Enabled(After(s, front), a) && After(s, front + [a]) == Apply(After(s, front), a)
    decreases |front|
  {
    hide Apply, Enabled;
    var run := front + [a];
    if front == [] {
      assert run == [a] && run[1..] == [];
    } else {
      assert run[0] == front[0] && run[1..] == front[1..] + [a];
      RunSplit(Apply(s, front[0]), front[1..], a);
    }
  }

  /** The flags after any run, from who said what in it. */
  lemma {:induction false} FlagsFromHistory(s: System, run: seq<Label>)
    requires IsRun(s, run)
    ensures var t := After(s, run).service;
            && t.settings.enabled == SwitchedOn(s.service, run)
            && t.settings.paused == Held(s.service.settings.paused, run)
            && t.guided == Unanswered(s.service.guided, run)
    decreases |run|
  {
    hide Apply, Enabled, Verifies;
    if run != [] {
      var front, a := run[..|run| - 1], run[|run| - 1];
      assert run == front + [a];
      RunSplit(s, front, a);
      FlagsFromHistory(s, front);
      FlagsAfter(After(s, front), a);
    }
  }

  /** A run that passed the gate and is at its work after `during`, in which nothing ended it. */
  ghost predicate ReachesWork(s: System, scheduled: bool, host: Host, during: seq<Label>) {
    && Enabled(s, Start(scheduled, host)) && GateReason(s.service, host) == ""
    && (forall a | a in during :: !a.Start? && !a.FinishWork? && !a.Breaks?)
    && IsRun(Apply(s, Start(scheduled, host)), during)
    && After(Apply(s, Start(scheduled, host)), during).run.Working?
  }

  /** The state in which the run does its work, commit and push included. */
  ghost function AtWork(s: System, scheduled: bool, host: Host, during: seq<Label>): System
    requires ReachesWork(s, scheduled, host, during)
  {
    After(Apply(s, Start(scheduled, host)), during)
  }

  lemma AdmittedParts(s: System, scheduled: bool, host: Host)
    requires Enabled(s, Start(scheduled, host)) && GateReason(s.service, host) == ""
    ensures var t := Apply(s, Start(scheduled, host));
            && t.service == s.service.(backoff := None) && t.run == Reading(s.clock, scheduled)
            && !s.service.settings.paused && (s.service.settings.enabled || s.service.guided)
  {
  }

  lemma {:induction false} SameStart(a: Service, b: Service, run: seq<Label>)
    requires a.settings == b.settings && a.guided == b.guided
    ensures SwitchedOn(a, run) == SwitchedOn(b, run)
    decreases |run|
  {
    hide Held, Unanswered, Verifies;
    if run != [] {
      SameStart(a, b, run[..|run| - 1]);
    }
  }

  /** The gate reads the flags once. What the run then does, it does with permission exactly when
      the last words on the switch and on the pause, up to the work itself, still give it. */
  lemma WorkIsPermittedWhen(s: System, scheduled: bool, host: Host, during: seq<Label>, git: Git)
    requires ReachesWork(s, scheduled, host, during)
    ensures var t := Apply(AtWork(s, scheduled, host, during), FinishWork(git));
            Permitted(t.service) <==> SwitchedOn(s.service, during) && !Held(false, during)
  {
    hide Apply, SwitchedOn, Held, Unanswered, GateReason;
    var admitted := Apply(s, Start(scheduled, host));
    AdmittedParts(s, scheduled, host);
    FlagsFromHistory(admitted, during);
    SameStart(admitted.service, s.service, during);
    assert Enabled(After(admitted, during), FinishWork(git));
    FlagsAfter(After(admitted, during), FinishWork(git));
  }

  /** Takes the owner's permission away. */
  predicate Withdraws(a: Label) { a.Flags? && (a.enabled == Some(false) || a.paused == Some(true)) }

  predicate HasPermission(s: System) {
    && !s.service.settings.paused && (s.service.settings.enabled || s.service.guided)
    && (s.run.Working? ==> s.service.settings.enabled)
  }

  lemma PermissionStep(s: System, a: Label)
    requires HasPermission(s) && !s.run.Idle? && Enabled(s, a)
    requires !Withdraws(a) && !a.Start? && !a.FinishWork? && !a.Breaks?
    ensures HasPermission(Apply(s, a))
  {
    FlagsAfter(s, a);
    if a.ReadTarget? {
      TargetParts(s, a.branch, a.remote);
    }
  }

  lemma {:induction false} PermissionLasts(s: System, during: seq<Label>)
    requires HasPermission(s) && IsRun(s, during) && (s.run.Idle? ==> during == [] || !After(s, during).run.Working?)
    requires forall a | a in during :: !Withdraws(a) && !a.Start? && !a.FinishWork? && !a.Breaks?
    ensures After(s, during).run.Working? ==> Permitted(After(s, during).service)
    decreases |during|
  {
    hide Apply, Enabled, Withdraws;
    if during != [] && !s.run.Idle? {
      assert during[0] in during;
      PermissionStep(s, during[0]);
      if Apply(s, during[0]).run.Idle? { IdleStays(Apply(s, during[0]), during[1..]); }
      PermissionLasts(Apply(s, during[0]), during[1..]);
    }
  }

  lemma {:induction false} IdleStays(s: System, during: seq<Label>)
    requires s.run.Idle? && IsRun(s, during) && forall a | a in during :: !a.Start?
    ensures After(s, during).run.Idle?
    decreases |during|
  {
    if during != [] {
      assert during[0] in during;
      IdleStays(Apply(s, during[0]), during[1..]);
    }
  }

  /** While nobody withdraws anything, a run that reaches its work has permission for it, also
      when it was let in with the backup off. */
  lemma UndisturbedWorkIsPermitted(s: System, scheduled: bool, host: Host, during: seq<Label>)
    requires ReachesWork(s, scheduled, host, during) && forall a | a in during :: !Withdraws(a)
    ensures Permitted(AtWork(s, scheduled, host, during).service)
  {
    hide Apply, GateReason, Withdraws;
    AdmittedParts(s, scheduled, host);
    PermissionLasts(Apply(s, Start(scheduled, host)), during);
  }

  /** What comes before the first read that answers a setup. */
  function BeforeLook(run: seq<Label>): seq<Label> {
    if run == [] || Verifies(run[0]) then [] else [run[0]] + BeforeLook(run[1..])
  }

  predicate Looks(run: seq<Label>) { exists a | a in run :: Verifies(a) }

  lemma {:induction false} BeforeLookMore(front: seq<Label>, a: Label)
    ensures BeforeLook(front + [a]) ==
            if Looks(front) then BeforeLook(front) else if Verifies(a) then front else front + [a]
  {
    hide Verifies;
    if front == [] {
      assert (front + [a])[1..] == [];
    } else {
      assert (front + [a])[0] == front[0] && (front + [a])[1..] == front[1..] + [a];
      BeforeLookMore(front[1..], a);
      assert front == [front[0]] + front[1..];
    }
  }

  /** Nobody but the setup that is under way has a say on the switch. */
  predicate LeavesItToTheSetup(run: seq<Label>) {
    forall a | a in run :: !a.BeginSetup? && !(a.Flags? && a.enabled.Some?)
  }

  lemma {:induction false} FirstLookDecides(first: Service, run: seq<Label>)
    requires !first.settings.enabled && first.guided && LeavesItToTheSetup(run)
    ensures Unanswered(first.guided, run) <==> !Looks(run)
    ensures SwitchedOn(first, run) <==> Looks(run) && !Held(first.settings.paused, BeforeLook(run))
    decreases |run|
  {
    hide Verifies, Held;
    if run != [] {
      var front, a := run[..|run| - 1], run[|run| - 1];
      assert run == front + [a];
      FirstLookDecides(first, front);
      BeforeLookMore(front, a);
      assert Looks(run) <==> Looks(front) || Verifies(a);
    }
  }

  lemma {:induction false} WorkHasLooked(s: System, during: seq<Label>)
    requires s.run.Reading? && IsRun(s, during) && After(s, during).run.Working?
    requires forall a | a in during :: !a.Start?
    ensures Looks(during)
    decreases |during|
  {
    hide Apply, Enabled;
    if during != [] {
      assert during[0] in during;
      var t := Apply(s, during[0]);
      ReadingStays(s, during[0]);
      if t.run.Idle? {
        IdleStays(t, during[1..]);
      } else if t.run.Reading? {
        WorkHasLooked(t, during[1..]);
      }
    }
  }

  lemma ReadingStays(s: System, a: Label)
    requires s.run.Reading? && Enabled(s, a)
    ensures Apply(s, a).run.Working? ==> Verifies(a)
  {
  }

  /** Looking is not backing up: a run let in with the backup off, and left to its setup, finds it
      turned on at its work exactly when no pause stood at the first look. */
  lemma LookingEnablesUnlessHeld(s: System, scheduled: bool, host: Host, during: seq<Label>)
    requires ReachesWork(s, scheduled, host, during) && !s.service.settings.enabled && LeavesItToTheSetup(during)
    ensures AtWork(s, scheduled, host, during).service.settings.enabled <==> !Held(false, BeforeLook(during))
  {
    hide Apply, GateReason, Held, Verifies, SwitchedOn, LeavesItToTheSetup;
    AdmittedParts(s, scheduled, host);
    var admitted := Apply(s, Start(scheduled, host));
    FlagsFromHistory(admitted, during);
    FirstLookDecides(admitted.service, during);
    WorkHasLooked(admitted, during);
  }

  lemma RunCons(s: System, a: Label, rest: seq<Label>)
    requires Enabled(s, a) && IsRun(Apply(s, a), rest)
    ensures IsRun(s, [a] + rest) && After(s, [a] + rest) == After(Apply(s, a), rest)
  {
    hide Apply, Enabled;
    assert ([a] + rest)[1..] == rest;
  }

  /** A commit that lands on the remote with one push. */
  predicate Lands(git: Git, sha: string) {
    && GitIsFree(git) && git.report.eligible != [] && git.commit == Committed(sha)
    && git.unpushed > 0 && git.push.PushLanded?
  }

  lemma LandedWork(s: Service, repo: Repo, now: int, remote: string, git: Git, sha: string)
    requires Lands(git, sha)
    ensures sha in Worked(s, repo, now, remote, git).repo.remote
  {
    var commits := repo.commits + [sha] + git.push.merged;
    assert commits[|repo.commits|] == sha;
    assert sha in All(commits);
  }

  lemma WorkLands(s: System, git: Git, sha: string)
    requires s.run.Working? && Lands(git, sha)
    ensures var t := Apply(s, FinishWork(git));
            sha in t.repo.remote && OnAndHeld(t.service) == OnAndHeld(s.service)
  {
    hide Worked, Recorded, Lands;
    var work := Worked(s.service, s.repo, s.run.now, s.run.remote, git);
    LandedWork(s.service, s.repo, s.run.now, s.run.remote, git, sha);
    WorkIsHonest(s.service, s.repo, s.run.now, s.run.remote, git);
    FinishedParts(s.(service := work.service, repo := work.repo), work.outcome, s.run.scheduled);
  }

  function OnAndHeld(s: Service): (bool, bool) { (s.settings.enabled, s.settings.paused) }

  /** Reading the target, one change of the flags before or after it, and a push. */
  lemma TargetThenWork(s: System, branch: string, remote: string, flags: Label, late: bool, git: Git, sha: string)
    requires s.run.Reading? && flags.Flags? && Lands(git, sha) && branch != "" && remote != ""
    ensures var rest := if late then [ReadTarget(branch, remote), flags, FinishWork(git)]
                        else [flags, ReadTarget(branch, remote), FinishWork(git)];
            && IsRun(s, rest) && sha in After(s, rest).repo.remote
            && OnAndHeld(After(s, rest).service) ==
               OnAndHeld(if late then Flagged(Settled(s.service), flags.enabled, flags.paused)
                         else Settled(Flagged(s.service, flags.enabled, flags.paused)))
  {
    hide Lands;
    var read, finish := ReadTarget(branch, remote), FinishWork(git);
    var first, second := if late then read else flags, if late then flags else read;
    var t := Apply(s, first);
    if late { TargetParts(s, branch, remote); } else { TargetParts(t, branch, remote); }
    var working := Apply(t, second);
    WorkLands(working, git, sha);
    RunCons(working, finish, []);
    RunCons(t, second, [finish] + []);
    RunCons(s, first, [second] + ([finish] + []));
    assert [first] + ([second] + ([finish] + [])) == [first, second, finish];
  }

  /** A pause that lands while a guided setup's first run reads its target is not obeyed: the run
      was let in to look, the setup leaves the backup off, and the run commits and pushes. */
  lemma PauseDuringTargetReadIsMissed(s: System, git: Git, sha: string, branch: string, remote: string)
    requires s.run.Idle? && OnAndHeld(s.service) == (false, false) && Lands(git, sha) && branch != "" && remote != ""
    ensures var run := [BeginSetup, Start(false, Host(true, "")), Flags(None, Some(true)),
                        ReadTarget(branch, remote), FinishWork(git)];
            && IsRun(s, run)
            && sha in After(s, run).repo.remote && OnAndHeld(After(s, run).service) == (false, true)
  {
    hide Lands;
    var start, pause := Start(false, Host(true, "")), Flags(None, Some(true));
    var armed := Apply(s, BeginSetup);
    AdmittedParts(armed, false, Host(true, ""));
    TargetThenWork(Apply(armed, start), branch, remote, pause, false, git, sha);
    var rest := [pause, ReadTarget(branch, remote), FinishWork(git)];
    RunCons(armed, start, rest);
    RunCons(s, BeginSetup, [start] + rest);
    assert [BeginSetup] + ([start] + rest) == [BeginSetup, start, pause, ReadTarget(branch, remote), FinishWork(git)];
  }

  /** Nor is one, or a switch-off, that lands after the target was read: it holds from the next run. */
  lemma LateWithdrawalIsMissed(s: System, git: Git, sha: string, branch: string, remote: string)
    requires s.run.Idle? && OnAndHeld(s.service) == (true, false) && Lands(git, sha) && branch != "" && remote != ""
    ensures var run := [Start(false, Host(true, "")), ReadTarget(branch, remote),
                        Flags(Some(false), Some(true)), FinishWork(git)];
            && IsRun(s, run)
            && sha in After(s, run).repo.remote && OnAndHeld(After(s, run).service) == (false, true)
  {
    hide Lands;
    var start, off := Start(false, Host(true, "")), Flags(Some(false), Some(true));
    AdmittedParts(s, false, Host(true, ""));
    TargetThenWork(Apply(s, start), branch, remote, off, true, git, sha);
    var rest := [ReadTarget(branch, remote), off, FinishWork(git)];
    RunCons(s, start, rest);
    assert [start] + rest == [start, ReadTarget(branch, remote), off, FinishWork(git)];
  }

  // ---- the job rows ----

  predicate SameFailure(outcomes: seq<Outcome>, k: nat)
    requires k < |outcomes|
  {
    && k > 0 && IsFailure(outcomes[k].state) && IsFailure(outcomes[k - 1].state)
    && outcomes[k].reason == outcomes[k - 1].reason != ""
  }

  /** An error row at the start of each run of equal failures, and only there. */
  function RowOf(outcomes: seq<Outcome>, k: nat): Row
    requires k < |outcomes|
  {
    if IsFailure(outcomes[k].state) then if SameFailure(outcomes, k) then Skipped else Failed(outcomes[k].reason)
    else if outcomes[k].state.Paused? then Skipped
    else Done
  }

  /** How many failures in a row have had the last one's reason. */
  function Streak(outcomes: seq<Outcome>): nat {
    if outcomes == [] || !IsFailure(outcomes[|outcomes| - 1].state) then 0
    else if SameFailure(outcomes, |outcomes| - 1) then Streak(outcomes[..|outcomes| - 1]) + 1
    else 1
  }

  function LastFailure(outcomes: seq<Outcome>): string {
    if outcomes == [] || !IsFailure(outcomes[|outcomes| - 1].state) then "" else outcomes[|outcomes| - 1].reason
  }

  ghost predicate Logged(s: System) {
    && |s.rows| == |s.outcomes|
    && (forall k | 0 <= k < |s.rows| :: s.rows[k] == RowOf(s.outcomes, k))
    && s.service.lastFailure == LastFailure(s.outcomes) && s.service.repeats == Streak(s.outcomes)
  }

  lemma FinishIsLogged(s: System, o: Outcome, scheduled: bool)
    requires Logged(s)
    ensures Logged(Finished(s, o, scheduled))
  {
    var t := Finished(s, o, scheduled);
    var n := |s.outcomes|;
    assert t.outcomes[..n] == s.outcomes;
    forall k | 0 <= k < n ensures t.rows[k] == RowOf(t.outcomes, k) {
      assert t.rows[k] == s.rows[k];
    }
  }

  lemma LoggedStep(s: System, a: Label)
    requires Logged(s) && Enabled(s, a)
    ensures Logged(Apply(s, a))
  {
    match a
    case Start(scheduled, host) =>
      var (service, refused) := Opened(s.service, host);
      if refused.Some? {
        FinishIsLogged(s.(service := service), refused.value, scheduled);
      }
    case ReadTarget(branch, remote) =>
      var (service, refused) := Targeted(s.service, s.run.now, branch, remote);
      if refused.Some? {
        FinishIsLogged(s.(service := service), refused.value, s.run.scheduled);
      }
    case FinishWork(git) =>
      var work := Worked(s.service, s.repo, s.run.now, s.run.remote, git);
      WorkKeepsFailure(s.service, s.repo, s.run.now, s.run.remote, git);
      FinishIsLogged(s.(service := work.service, repo := work.repo), work.outcome, s.run.scheduled);
    case Breaks(detail, git, stage) => BreakIsLogged(s, detail, git, stage);
    case _ =>
  }

  lemma WorkKeepsFailure(s: Service, repo: Repo, now: int, remote: string, git: Git)
    ensures var t := Worked(s, repo, now, remote, git).service; t.lastFailure == s.lastFailure && t.repeats == s.repeats
  {
  }

  lemma BreakIsLogged(s: System, detail: string, git: Git, stage: Stage)
    requires Logged(s) && Enabled(s, Breaks(detail, git, stage))
    ensures Logged(Apply(s, Breaks(detail, git, stage)))
  {
    var (service, repo) :=
      if s.run.Working? then Interrupted(s.service, s.repo, s.run.now, s.run.remote, git, stage)
      else (s.service, s.repo);
    if s.run.Working? {
      WorkKeepsFailure(s.service, s.repo, s.run.now, s.run.remote, git);
    }
    var (faulted, o) := Faulted(service, s.clock, detail);
    FinishIsLogged(s.(service := faulted, repo := repo), o, s.run.scheduled);
  }

  lemma {:induction false} LoggedAfter(s: System, run: seq<Label>)
    requires Logged(s) && IsRun(s, run)
    ensures Logged(After(s, run))
    decreases |run|
  {
    if run != [] {
      LoggedStep(s, run[0]);
      LoggedAfter(Apply(s, run[0]), run[1..]);
    }
  }

  /** Over every run of the service, row by row. */
  lemma RowsMarkNewFailures(settings: Settings, repo: Repo, clock: int, run: seq<Label>)
    requires IsRun(Boot(settings, repo, clock), run)
    ensures var s := After(Boot(settings, repo, clock), run);
            |s.rows| == |s.outcomes| && forall k | 0 <= k < |s.rows| :: s.rows[k] == RowOf(s.outcomes, k)
  {
    LoggedAfter(Boot(settings, repo, clock), run);
  }
}
