/** The unattended backup: what each await-free section of a run, of a status read and of the
    loop does to the service, its stored settings and the repository. */
module BackupService {
  import opened Basics

  /** Times are microseconds. */
  const INTERVAL: int := 300_000_000
  const BACKOFF_MULTIPLIER: int := 12

  datatype RunState = NotConfigured | Ready | Paused | Offline | NeedsAttention

  predicate IsFailure(s: RunState) { s.Offline? || s.NeedsAttention? }

  datatype Outcome = Outcome(state: RunState, reason: string)

  datatype Row = Done | Skipped | Failed(reason: string)

  /** The stored half. */
  datatype Settings = Settings(
    enabled: bool, paused: bool, lastAttempt: Option<int>,
    lastSuccess: Option<int>, lastSuccessCommit: string, remote: string)

  datatype Service = Service(
    settings: Settings, backoff: Option<string>, guided: bool, lastFailure: string, repeats: nat)

  /** The local history, and the commits known to the remote. */
  datatype Repo = Repo(commits: seq<string>, remote: set<string>)

  datatype Host = Host(armed: bool, kind: string)

  // ---- flags and guided setup ----

  function Flagged(s: Service, enabled: Option<bool>, paused: Option<bool>): Service {
    s.(settings := s.settings.(
      enabled := if enabled.Some? then enabled.value else s.settings.enabled,
      paused := if paused.Some? then paused.value else s.settings.paused))
  }

  function Settled(s: Service): Service {
    if !s.guided then s
    else if s.settings.paused then s.(guided := false)
    else s.(guided := false, settings := s.settings.(enabled := true))
  }

  const TURNED_OFF := "backup is turned off"
  const ON_HOLD := "backup is paused"

  function GateReason(s: Service, host: Host): string {
    if !s.settings.enabled && !s.guided then TURNED_OFF
    else if s.settings.paused then ON_HOLD
    else if !host.armed
    then "this Mac is not the host (legacy node state: " + host.kind + ") - the host owns backup"
    else ""
  }

  // ---- the answers of git ----

  datatype CommitAnswer = NothingToCommit | Committed(sha: string) | CommitFailed(detail: string)

  /** A push may first merge the remote branch, which adds local commits. */
  datatype PushAnswer =
    | PushFailed(detail: string, cause: Option<string>, merged: seq<string>)
    | PushLanded(merged: seq<string>)
    | PushedAside(detail: string)

  /** `gap` is the sentence about tracked files outside the scope, empty when there are none. */
  datatype Report = Report(blockers: seq<string>, tracked: seq<string>, eligible: seq<string>, gap: string)

  datatype Git = Git(
    busy: Option<string>, report: Report, commit: CommitAnswer, unpushed: nat, push: PushAnswer, headReads: bool)

  const GAP_PREFIX := "Tracked but outside the backup scope: "

  predicate IsGap(blocker: string, tracked: seq<string>) { exists rel | rel in tracked :: blocker == GAP_PREFIX + rel }

  function HardBlockers(blockers: seq<string>, tracked: seq<string>): seq<string> {
    if blockers == [] then []
    else (if IsGap(blockers[0], tracked) then [] else [blockers[0]]) + HardBlockers(blockers[1..], tracked)
  }

  function JoinBlockers(lines: seq<string>): string {
    if |lines| == 0 then "" else if |lines| == 1 then lines[0] else lines[0] + "; " + JoinBlockers(lines[1..])
  }

  /** Only an unreachable remote or refused credentials are named; every failed push backs off. */
  function PushFailure(detail: string, cause: Option<string>): Outcome {
    if cause == Some("unreachable") then Outcome(Offline, "origin did not answer: " + detail)
    else if cause == Some("auth") then Outcome(NeedsAttention, "origin refused the credentials: " + detail)
    else Outcome(NeedsAttention, detail)
  }

  function CleanReason(committed: bool): string {
    if committed then "committed and pushed the backup scope"
    else "nothing to back up; the repository is already up to date"
  }

  function LandedReason(committed: bool, gap: string): string {
    if gap == "" then CleanReason(committed) else CleanReason(committed) + "; " + gap
  }

  // ---- stamps ----

  function Stamped(s: Service, now: int): Service { s.(settings := s.settings.(lastAttempt := Some(now))) }

  function Reached(s: Service, now: int, remote: string): Service {
    s.(settings := s.settings.(lastAttempt := Some(now), remote := remote))
  }

  function Succeeded(s: Service, now: int, commit: string): Service {
    s.(settings := s.settings.(lastSuccess := Some(now), lastSuccessCommit := commit))
  }

  // ---- the sections of a run ----

  /** Up to the first await: the gate. */
  function Opened(s: Service, host: Host): (Service, Option<Outcome>) {
    var s' := s.(backoff := None);
    (s', if GateReason(s', host) != "" then Some(Outcome(Paused, GateReason(s', host))) else None)
  }

  const NO_BRANCH := "the data root is not a git repository (or is on a detached HEAD)"
  const NO_ORIGIN := "the data root has no 'origin' remote yet"

  /** After the branch and the origin have been read. */
  function Targeted(s: Service, now: int, branch: string, remote: string): (Service, Option<Outcome>) {
    if branch == "" || remote == ""
    then (Stamped(s, now), Some(Outcome(NotConfigured, if branch == "" then NO_BRANCH else NO_ORIGIN)))
    else (Settled(s), None)
  }

  function Head(commits: seq<string>, readable: bool): string {
    if readable && commits != [] then commits[|commits| - 1] else ""
  }

  function All(commits: seq<string>): set<string> { set c | c in commits }

  datatype Work = Work(service: Service, repo: Repo, outcome: Outcome)

  /** Under the repository's lock: commit the scope, then push. */
  function Worked(s: Service, repo: Repo, now: int, remote: string, git: Git): Work {
    var blocked := HardBlockers(git.report.blockers, git.report.tracked);
    if git.busy.Some? then Work(Stamped(s, now), repo, Outcome(NeedsAttention, git.busy.value))
    else if blocked != [] then Work(Stamped(s, now), repo, Outcome(NeedsAttention, JoinBlockers(blocked)))
    else if git.report.eligible == [] then Uploaded(s, repo, now, remote, false, git)
    else
      match git.commit
      case CommitFailed(detail) => Work(Stamped(s, now), repo, Outcome(NeedsAttention, detail))
      case NothingToCommit => Uploaded(s, repo, now, remote, false, git)
      case Committed(sha) => Uploaded(s, repo.(commits := repo.commits + [sha]), now, remote, true, git)
  }

  function Uploaded(s: Service, repo: Repo, now: int, remote: string, committed: bool, git: Git): Work {
    var s' := Reached(s, now, remote);
    if git.unpushed == 0 then Work(s', repo, Outcome(Ready, LandedReason(committed, git.report.gap)))
    else
      match git.push
      case PushFailed(detail, cause, merged) =>
        Work(s'.(backoff := if cause.Some? then cause else Some("push")),
             repo.(commits := repo.commits + merged), PushFailure(detail, cause))
      case PushLanded(merged) =>
        var commits := repo.commits + merged;
        Work(Succeeded(s', now, Head(commits, git.headReads)),
             Repo(commits, repo.remote + All(commits)), Outcome(Ready, LandedReason(committed, git.report.gap)))
      case PushedAside(detail) =>
        Work(Succeeded(s', now, Head(repo.commits, git.headReads)).(backoff := Some("diverged")),
             repo.(remote := repo.remote + All(repo.commits)), Outcome(NeedsAttention, detail))
  }

  /** An unexpected exception is still an attempt. */
  function Faulted(s: Service, now: int, detail: string): (Service, Outcome) {
    (Stamped(s.(backoff := None), now), Outcome(NeedsAttention, detail))
  }

  /** The job row of a run, and the failure it is compared with next time. */
  function Recorded(s: Service, o: Outcome): (Service, Row) {
    if IsFailure(o.state) then
      if o.reason != "" && o.reason == s.lastFailure then (s.(repeats := s.repeats + 1), Skipped)
      else (s.(lastFailure := o.reason, repeats := 1), Failed(o.reason))
    else (s.(lastFailure := "", repeats := 0), if o.state.Paused? then Skipped else Done)
  }

  // ---- the cadence ----

  function AtLeastZero(x: int): int { if x > 0 then x else 0 }

  function NextDelay(s: Service, now: int): int {
    var interval := if s.backoff.Some? then INTERVAL * BACKOFF_MULTIPLIER else INTERVAL;
    match s.settings.lastAttempt
    case None => 0
    case Some(stamp) => AtLeastZero(interval - AtLeastZero(now - stamp))
  }

  // ---- what the sections answer ----

  /** The gate lets a run in exactly when the backup is on, or a setup is armed, and no pause stands
      and this machine is the host; otherwise it names the first of these that fails. */
  lemma GateLetsIn(s: Service, host: Host)
    ensures GateReason(s, host) == "" <==> (s.settings.enabled || s.guided) && !s.settings.paused && host.armed
    ensures !s.settings.enabled && !s.guided ==> GateReason(s, host) == "backup is turned off"
    ensures (s.settings.enabled || s.guided) && s.settings.paused ==> GateReason(s, host) == "backup is paused"
  {
  }

  /** What of a service a section may not touch unless it says so. */
  predicate SameFlags(s: Service, t: Service) {
    && t.settings.enabled == s.settings.enabled && t.settings.paused == s.settings.paused
    && t.guided == s.guided && t.lastFailure == s.lastFailure && t.repeats == s.repeats
  }

  predicate SameSuccess(a: Settings, b: Settings) {
    a.lastSuccess == b.lastSuccess && a.lastSuccessCommit == b.lastSuccessCommit
  }

  /** There was something to push, and it reached the remote on the branch or beside it. */
  predicate Pushed(git: Git) { git.unpushed > 0 && !git.push.PushFailed? }

  function MergedBy(git: Git): seq<string> {
    if git.unpushed > 0 && !git.push.PushedAside? then git.push.merged else []
  }

  /** After the commit: every ending stamps the attempt and the remote; a push that reached it, and
      nothing else, writes the evidence of a success, naming the last local commit if that can be
      read; what holds the next run back is the cause of a failed push or the diverged branch. */
  lemma UploadAnswers(s: Service, repo: Repo, now: int, remote: string, committed: bool, git: Git)
    ensures var w := Uploaded(s, repo, now, remote, committed, git); var t := w.service.settings;
            && SameFlags(s, w.service) && t.lastAttempt == Some(now) && t.remote == remote
            && t.lastSuccess == (if Pushed(git) then Some(now) else s.settings.lastSuccess)
            && t.lastSuccessCommit ==
               (if !Pushed(git) then s.settings.lastSuccessCommit
                else if git.headReads && w.repo.commits != [] then w.repo.commits[|w.repo.commits| - 1] else "")
            && w.service.backoff ==
               (if git.unpushed == 0 || git.push.PushLanded? then s.backoff
                else if git.push.PushedAside? then Some("diverged")
                else if git.push.cause.Some? then git.push.cause else Some("push"))
            && w.repo.commits == repo.commits + MergedBy(git)
            && (forall c :: c in w.repo.remote <==> c in repo.remote || (Pushed(git) && c in w.repo.commits))
            && w.outcome.state ==
               (if git.unpushed == 0 || git.push.PushLanded? then Ready
                else if git.push.PushFailed? && git.push.cause == Some("unreachable") then Offline
                else NeedsAttention)
            && (git.unpushed > 0 && git.push.PushedAside? ==> w.outcome.reason == git.push.detail)
  {
  }

  /** What such an ending says: what was done and the coverage gap, or why the push failed. */
  lemma EndingsAreNamed(s: Service, repo: Repo, now: int, remote: string, committed: bool, git: Git)
    ensures Uploaded(s, repo, now, remote, committed, git).outcome.reason ==
            if git.unpushed > 0 && git.push.PushedAside? then git.push.detail
            else if git.unpushed > 0 && git.push.PushFailed? then
              (if git.push.cause == Some("unreachable") then "origin did not answer: "
               else if git.push.cause == Some("auth") then "origin refused the credentials: " else "") + git.push.detail
            else
              (if committed then "committed and pushed the backup scope"
               else "nothing to back up; the repository is already up to date")
              + (if git.report.gap == "" then "" else "; " + git.report.gap)
  {
    if git.push.PushFailed? { assert "" + git.push.detail == git.push.detail; }
    assert CleanReason(committed) + "" == CleanReason(committed);
    assert CleanReason(committed) + ("; " + git.report.gap) == CleanReason(committed) + "; " + git.report.gap;
  }

  /** Several blockers are named one after the other. */
  lemma {:induction false} BlockersAreJoined(a: seq<string>, b: seq<string>, line: string)
    requires a != [] && b != []
    ensures JoinBlockers([line]) == line && JoinBlockers(a + b) == JoinBlockers(a) + "; " + JoinBlockers(b)
  {
    assert (a + b)[1..] == a[1..] + b;
    if |a| > 1 {
      BlockersAreJoined(a[1..], b, line);
      assert a[0] + "; " + (JoinBlockers(a[1..]) + "; " + JoinBlockers(b)) ==
             (a[0] + "; " + JoinBlockers(a[1..])) + "; " + JoinBlockers(b);
    } else {
      assert a[1..] + b == b;
    }
  }

  /** Before that: a busy repository, a refused file and a commit that fails end the run with an
      attempt and nothing else, each with its own reason, in this order. */
  lemma WorkAnswers(s: Service, repo: Repo, now: int, remote: string, git: Git)
    ensures var w := Worked(s, repo, now, remote, git);
            var blocked := HardBlockers(git.report.blockers, git.report.tracked);
            var fails := git.report.eligible != [] && git.commit.CommitFailed?;
            if git.busy.Some? || blocked != [] || fails then
              && SameFlags(s, w.service) && SameSuccess(s.settings, w.service.settings) && w.repo == repo
              && w.service.settings.lastAttempt == Some(now) && w.service.settings.remote == s.settings.remote
              && w.service.backoff == s.backoff && w.outcome.state == NeedsAttention
              && (git.busy.Some? ==> w.outcome.reason == git.busy.value)
              && (git.busy.None? && blocked != [] ==> w.outcome.reason == JoinBlockers(blocked))
              && (git.busy.None? && blocked == [] ==> w.outcome.reason == git.commit.detail)
            else
              var committed := git.report.eligible != [] && git.commit.Committed?;
              var commits := repo.commits + if committed then [git.commit.sha] else [];
              w == Uploaded(s, Repo(commits, repo.remote), now, remote, committed, git)
  {
    assert repo.commits + [] == repo.commits;
  }

  /** What comes before the work: opening clears what held the run back; a target that cannot be
      read is an attempt, and says which half is missing; otherwise a setup is answered. */
  lemma OpeningAnswers(s: Service, now: int, host: Host, branch: string, remote: string)
    ensures var (t, refused) := Opened(s, host);
            && t == s.(backoff := None)
            && refused == (if GateReason(s, host) == "" then None else Some(Outcome(Paused, GateReason(s, host))))
    ensures var (t, refused) := Targeted(s, now, branch, remote);
            if branch == "" || remote == "" then
              && t == s.(settings := s.settings.(lastAttempt := Some(now)))
              && refused.Some? && refused.value.state == NotConfigured
              && refused.value.reason == if branch == "" then NO_BRANCH else NO_ORIGIN
            else
              && refused.None? && !t.guided && t.settings.paused == s.settings.paused && t.backoff == s.backoff
              && t.settings.enabled == (s.settings.enabled || (s.guided && !s.settings.paused))
              && SameSuccess(s.settings, t.settings) && t.settings.lastAttempt == s.settings.lastAttempt
  {
  }

  /** An exception that nobody expected is an attempt that needs attention, with no backoff. */
  lemma FaultAnswers(s: Service, now: int, detail: string)
    ensures var (t, o) := Faulted(s, now, detail);
            && SameFlags(s, t) && SameSuccess(s.settings, t.settings) && t.backoff == None
            && t.settings.lastAttempt == Some(now) && o == Outcome(NeedsAttention, detail)
  {
  }

  /** The next attempt is due an interval after the last, twelve with a backoff, or at once when that
      is past or there was none; a stamp from the future counts as one of this moment. */
  lemma DelayEndsWhenDue(s: Service, now: int)
    ensures var due := (if s.backoff.Some? then 12 else 1) * INTERVAL;
            match s.settings.lastAttempt
            case None => NextDelay(s, now) == 0
            case Some(stamp) =>
              now + NextDelay(s, now) ==
              if stamp > now then now + due else if stamp + due < now then now else stamp + due
  {
  }

  /** The blockers that stop a run are those outside the coverage gap, in order. */
  lemma {:induction false} BlockersAreItemwise(a: seq<string>, b: seq<string>, blocker: string, tracked: seq<string>)
    ensures HardBlockers(a + b, tracked) == HardBlockers(a, tracked) + HardBlockers(b, tracked)
    ensures HardBlockers([blocker], tracked) ==
            if exists rel | rel in tracked :: blocker == "Tracked but outside the backup scope: " + rel
            then [] else [blocker]
  {
    assert [blocker][1..] == [];
    if a == [] {
      assert a + b == b;
    } else {
      assert (a + b)[1..] == a[1..] + b;
      BlockersAreItemwise(a[1..], b, blocker, tracked);
    }
  }

  // ---- the same sections as methods ----

  class Repository {
    var commits: seq<string>
    var remote: set<string>

    function View(): Repo
      reads this
    {
      Repo(commits, remote)
    }

    method Commit(sha: string)
      modifies this
      ensures View() == old(View()).(commits := old(commits) + [sha])
    {
      commits := commits + [sha];
    }

    /** A push that landed leaves the whole local history on the remote, on one ref or another. */
    method Push(answer: PushAnswer)
      modifies this
      ensures commits == old(commits) + (if answer.PushedAside? then [] else answer.merged)
      ensures remote == old(remote) + if answer.PushFailed? then {} else All(commits)
    {
      match answer
      case PushFailed(_, _, merged) => commits := commits + merged;
      case PushLanded(merged) =>
        commits := commits + merged;
        remote := remote + All(commits);
      case PushedAside(_) => remote := remote + All(commits);
    }
  }

  class Backup {
    var settings: Settings
    var backoff: Option<string>
    var guided: bool
    var lastFailure: string
    var repeats: nat

    function View(): Service
      reads this
    {
      Service(settings, backoff, guided, lastFailure, repeats)
    }

    constructor (settings: Settings)
      ensures View() == Service(settings, None, false, "", 0)
    {
      this.settings := settings;
      backoff, guided, lastFailure, repeats := None, false, "", 0;
    }

    method SetFlags(enabled: Option<bool>, paused: Option<bool>)
      modifies this
      ensures View() == Flagged(old(View()), enabled, paused)
    {
      if enabled.Some? { settings := settings.(enabled := enabled.value); }
      if paused.Some? { settings := settings.(paused := paused.value); }
    }

    method BeginGuidedSetup()
      modifies this`guided
      ensures guided
    {
      guided := true;
    }

    method SettleGuidedSetup()
      modifies this
      ensures View() == Settled(old(View()))
    {
      if !guided {
        return;
      }
      guided := false;
      if settings.paused {
        return;
      }
      SetFlags(Some(true), None);
    }

    method Open(host: Host) returns (refused: Option<Outcome>)
      modifies this
      ensures (View(), refused) == Opened(old(View()), host)
    {
      backoff := None;
      var gate := GateReason(View(), host);
      refused := if gate != "" then Some(Outcome(Paused, gate)) else None;
    }

    method Target(now: int, branch: string, remote: string) returns (refused: Option<Outcome>)
      modifies this
      ensures (View(), refused) == Targeted(old(View()), now, branch, remote)
    {
      if branch == "" || remote == "" {
        settings := settings.(lastAttempt := Some(now));
        return Some(Outcome(NotConfigured, if branch == "" then NO_BRANCH else NO_ORIGIN));
      }
      SettleGuidedSetup();
      refused := None;
    }

    method Stamp(now: int)
      modifies this`settings
      ensures View() == Stamped(old(View()), now)
    {
      settings := settings.(lastAttempt := Some(now));
    }

    method DoWork(repo: Repository, now: int, remote: string, git: Git) returns (outcome: Outcome)
      modifies this, repo
      ensures Work(View(), repo.View(), outcome) == Worked(old(View()), old(repo.View()), now, remote, git)
    {
      var blocked := HardBlockers(git.report.blockers, git.report.tracked);
      if git.busy.Some? {
        Stamp(now);
        return Outcome(NeedsAttention, git.busy.value);
      }
      if blocked != [] {
        Stamp(now);
        return Outcome(NeedsAttention, JoinBlockers(blocked));
      }
      var committed := false;
      if git.report.eligible != [] {
        if git.commit.CommitFailed? {
          Stamp(now);
          return Outcome(NeedsAttention, git.commit.detail);
        }
        if git.commit.Committed? {
          repo.Commit(git.commit.sha);
          committed := true;
        }
      }
      outcome := Upload(repo, now, remote, committed, git);
    }

    method Upload(repo: Repository, now: int, remote: string, committed: bool, git: Git) returns (outcome: Outcome)
      modifies this, repo
      ensures Work(View(), repo.View(), outcome) == Uploaded(old(View()), old(repo.View()), now, remote, committed, git)
    {
      settings := settings.(lastAttempt := Some(now), remote := remote);
      if git.unpushed == 0 {
        return Outcome(Ready, LandedReason(committed, git.report.gap));
      }
      repo.Push(git.push);
      match git.push
      case PushFailed(detail, cause, _) =>
        backoff := if cause.Some? then cause else Some("push");
        outcome := PushFailure(detail, cause);
      case PushLanded(_) =>
        settings := settings.(lastSuccess := Some(now), lastSuccessCommit := Head(repo.commits, git.headReads));
        outcome := Outcome(Ready, LandedReason(committed, git.report.gap));
      case PushedAside(detail) =>
        backoff := Some("diverged");
        settings := settings.(lastSuccess := Some(now), lastSuccessCommit := Head(repo.commits, git.headReads));
        outcome := Outcome(NeedsAttention, detail);
    }

    method Fault(now: int, detail: string) returns (outcome: Outcome)
      modifies this
      ensures (View(), outcome) == Faulted(old(View()), now, detail)
    {
      backoff := None;
      Stamp(now);
      outcome := Outcome(NeedsAttention, detail);
    }

    method Record(o: Outcome) returns (row: Row)
      modifies this
      ensures (View(), row) == Recorded(old(View()), o)
    {
      if IsFailure(o.state) {
        if o.reason != "" && o.reason == lastFailure {
          repeats := repeats + 1;
          row := Skipped;
        } else {
          lastFailure, repeats := o.reason, 1;
          row := Failed(o.reason);
        }
        return;
      }
      lastFailure, repeats := "", 0;
      row := if o.state.Paused? then Skipped else Done;
    }
  }
}
