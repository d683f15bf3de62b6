/** The curation lease and the cursor of finished keys.

    Times are microseconds; a lease's stamps are truncated to whole seconds.  Every
    operation below runs under the state lock, so an operation is one step.  The
    caller of `begin_run`, `renew_run` and `end_run` reads the clock before it gets
    the lock; `record_done` reads it inside. */
module CurationLease {
  import opened Basics

  /** What `item_key` spells as `pass:digest`. */
  datatype Key = Key(pass: string, digest: string)

  type Holder = string
  type Date = string

  const SECOND := 1_000_000
  const REQUIRED_HYGIENE_KEYS: set<Key> := {Key("hygiene", "vault-index"), Key("hygiene", "os-audit")}

  /** `expires` is None when the stored stamp cannot be read. */
  datatype Lease = Lease(holder: Holder, started: int, expires: Option<int>)

  datatype Summary = Summary(status: string, planned: int, completed: int, deferred: int)

  /** `marker` is the `last_full_pass` date in the curation log. */
  datatype State = State(done: map<Key, Date>, lease: Option<Lease>, lastRun: Option<Summary>, marker: Option<Date>)

  function Truncate(t: int): int { t / SECOND * SECOND }

  function Expiry(now: int, ttl: int): int { Truncate(now + Term(ttl)) }

  /** The time that a lease is given: the ttl, or a second when that is less. */
  function Term(ttl: int): int { if ttl > SECOND then ttl else SECOND }

  /** A stamp of `t` to the second: the last whole second that is not after it. */
  predicate IsWholeSecond(stamp: int, t: int) { stamp % SECOND == 0 && t - SECOND < stamp <= t }

  /** A lease runs for its whole term but for less than a second, so it is live at the very instant
      it was taken or renewed, despite the truncation. */
  lemma ExpiryIsAhead(now: int, ttl: int)
    ensures IsWholeSecond(Expiry(now, ttl), now + if ttl > SECOND then ttl else SECOND)
    ensures Expiry(now, ttl) > now
    ensures IsWholeSecond(Truncate(now), now)
  {
    TruncateIsWhole(now);
    TruncateIsWhole(now + Term(ttl));
  }

  lemma TruncateIsWhole(t: int)
    ensures IsWholeSecond(Truncate(t), t)
  {
    assert t == t / SECOND * SECOND + t % SECOND;
  }

  function LiveLease(lease: Option<Lease>, now: int): Option<Lease> {
    if lease.Some? && lease.value.holder != "" && lease.value.expires.Some? && lease.value.expires.value > now
    then lease else None
  }

  /** Another holder's lease is live at `now`. */
  /** A lease with a holder and an expiry that is still ahead. */
  predicate IsLiveAt(lease: Option<Lease>, now: int) {
    lease.Some? && lease.value.holder != "" && lease.value.expires.Some? && now < lease.value.expires.value
  }

  predicate HeldByOther(lease: Option<Lease>, holder: Holder, now: int) {
    LiveLease(lease, now).Some? && LiveLease(lease, now).value.holder != holder
  }

  predicate Holds(lease: Option<Lease>, holder: Holder, now: int) {
    LiveLease(lease, now).Some? && LiveLease(lease, now).value.holder == holder
  }

  /** A lease excludes others while it names a holder and its stamp can be read and lies ahead. */
  lemma LiveMeansAhead(lease: Lease, now: int)
    ensures LiveLease(Some(lease), now) ==
            if lease.holder != "" && lease.expires.Some? && now < lease.expires.value then Some(lease) else None
    ensures LiveLease(None, now) == None
    ensures forall holder ::
              var live := LiveLease(Some(lease), now).Some?;
              && (Holds(Some(lease), holder, now) <==> live && lease.holder == holder)
              && (HeldByOther(Some(lease), holder, now) <==> live && lease.holder != holder)
  {
  }

  // ---- the four operations on the stored state ----

  predicate Begins(s: State, now: int) { LiveLease(s.lease, now).None? }

  function Begun(s: State, holder: Holder, ttl: int, now: int): State {
    s.(lease := Some(Lease(holder, Truncate(now), Some(Expiry(now, ttl)))))
  }

  function Renewed(s: State, ttl: int, now: int): State
    requires s.lease.Some?
  {
    s.(lease := Some(s.lease.value.(expires := Some(Expiry(now, ttl)))))
  }

  predicate Records(s: State, holder: Holder, now: int) { holder == "" || Holds(s.lease, holder, now) }

  function Recorded(s: State, keys: seq<Key>, today: Date): State {
    s.(done := Stamped(s.done, KeySet(keys), today))
  }

  function KeySet(keys: seq<Key>): set<Key> { set k | k in keys }

  /** The given keys carry today's date; the others keep theirs. */
  function Stamped(done: map<Key, Date>, keys: set<Key>, today: Date): map<Key, Date> {
    done + map k | k in keys :: today
  }

  lemma StampedIs(done: map<Key, Date>, keys: set<Key>, today: Date)
    ensures var t := Stamped(done, keys, today);
            t.Keys == done.Keys + keys && forall k | k in t :: t[k] == if k in keys then today else done[k]
  {
  }

  lemma StampedMore(done: map<Key, Date>, keys: set<Key>, key: Key, today: Date)
    ensures Stamped(done, keys + {key}, today) == Stamped(done, keys, today)[key := today]
    ensures key in Stamped(done, keys, today) <==> key in done.Keys || key in keys
  {
  }

  /** How many keys are new to `done`, a repeated one counted once. */
  function CountNew(done: set<Key>, keys: seq<Key>): nat {
    if keys == [] then 0
    else
      var (rest, key) := (keys[..|keys| - 1], keys[|keys| - 1]);
      CountNew(done, rest) + if key in done || key in KeySet(rest) then 0 else 1
  }

  lemma {:induction false} CountNewIsCardinality(done: set<Key>, keys: seq<Key>)
    ensures CountNew(done, keys) == |KeySet(keys) - done|
  {
    if keys == [] {
      assert KeySet(keys) - done == {};
    } else {
      var (rest, key) := (keys[..|keys| - 1], keys[|keys| - 1]);
      CountNewIsCardinality(done, rest);
      KeySetGrows(keys, |rest|);
      assert keys[..|keys|] == keys;
      if key in done || key in KeySet(rest) {
        assert KeySet(keys) - done == KeySet(rest) - done;
      } else {
        assert KeySet(keys) - done == (KeySet(rest) - done) + {key};
      }
    }
  }

  lemma KeySetGrows(keys: seq<Key>, i: nat)
    requires i < |keys|
    ensures KeySet(keys[..i + 1]) == KeySet(keys[..i]) + {keys[i]}
  {
    assert keys[..i + 1] == keys[..i] + [keys[i]];
  }

  lemma CountMore(done: set<Key>, keys: seq<Key>, i: nat)
    requires i < |keys|
    ensures CountNew(done, keys[..i + 1]) ==
            CountNew(done, keys[..i]) + if keys[i] in done || keys[i] in KeySet(keys[..i]) then 0 else 1
  {
    assert keys[..i + 1][..i] == keys[..i];
  }

  predicate Ends(s: State, holder: Holder, now: int) { holder == "" || !HeldByOther(s.lease, holder, now) }

  predicate AdvancesMarker(s: State, status: string, advance: bool) {
    advance && status == "ok" && REQUIRED_HYGIENE_KEYS <= s.done.Keys
  }

  function Ended(s: State, summary: Summary, live: Option<set<Key>>, advance: bool, today: Date): State {
    State(Pruned(s.done, live), None, Some(summary),
          if AdvancesMarker(s, summary.status, advance) then Some(today) else s.marker)
  }

  function Pruned(done: map<Key, Date>, live: Option<set<Key>>): map<Key, Date> {
    if live.Some? then map k | k in done && k in live.value :: done[k] else done
  }

  method StampAll(done: map<Key, Date>, keys: seq<Key>, today: Date) returns (stamped: map<Key, Date>, added: nat)
    ensures stamped == Stamped(done, KeySet(keys), today)
    ensures added == CountNew(done.Keys, keys)
  {
    stamped, added := done, 0;
    var i := 0;
    while i < |keys|
      invariant 0 <= i <= |keys|
      invariant stamped == Stamped(done, KeySet(keys[..i]), today)
      invariant added == CountNew(done.Keys, keys[..i])
    {
      KeySetGrows(keys, i);
      CountMore(done.Keys, keys, i);
      StampedMore(done, KeySet(keys[..i]), keys[i], today);
      if keys[i] !in stamped {
        added := added + 1;
      }
      stamped := stamped[keys[i] := today];
      i := i + 1;
    }
    assert keys[..i] == keys;
  }

  /** The stored state as the functions of the module rewrite it in place. */
  class CurationStore {
    var done: map<Key, Date>
    var lease: Option<Lease>
    var lastRun: Option<Summary>
    var marker: Option<Date>

    ghost function View(): State
      reads this
    {
      State(done, lease, lastRun, marker)
    }

    constructor ()
      ensures View() == State(map[], None, None, None)
    {
      done, lease, lastRun, marker := map[], None, None, None;
    }

    /** `self` is this process's name, which stands in for a holder not given. */
    method BeginRun(holder: Holder, self: Holder, ttl: int, now: int) returns (taken: Option<Lease>)
      modifies this
      ensures taken.Some? <==> old(Begins(View(), now))
      ensures taken.None? <==> old(IsLiveAt(lease, now))
      ensures taken.None? ==> View() == old(View())
      ensures taken.Some? ==>
                View() == Begun(old(View()), if holder == "" then self else holder, ttl, now) && lease == taken
      ensures taken.Some? ==>
                && taken.value.holder == (if holder == "" then self else holder)
                && IsWholeSecond(taken.value.started, now)
                && taken.value.expires.Some? && IsWholeSecond(taken.value.expires.value, now + Term(ttl))
      ensures done == old(done) && lastRun == old(lastRun) && marker == old(marker)
    {
      ExpiryIsAhead(now, ttl);
      var held := LiveLease(lease, now);
      if held.Some? {
        return None;
      }
      var name := if holder == "" then self else holder;
      taken := Some(Lease(name, Truncate(now), Some(Expiry(now, ttl))));
      lease := taken;
    }

    method RenewRun(holder: Holder, ttl: int, now: int) returns (ok: bool)
      modifies this
      ensures ok <==> old(Holds(lease, holder, now))
      ensures ok <==> old(IsLiveAt(lease, now)) && old(lease).value.holder == holder
      ensures View() == if ok then Renewed(old(View()), ttl, now) else old(View())
      ensures ok ==> && lease.Some? && lease.value.holder == holder && lease.value.started == old(lease.value.started)
                     && lease.value.expires.Some? && IsWholeSecond(lease.value.expires.value, now + Term(ttl))
      ensures done == old(done) && lastRun == old(lastRun) && marker == old(marker)
    {
      ExpiryIsAhead(now, ttl);
      var held := LiveLease(lease, now);
      if held.None? || held.value.holder != holder {
        return false;
      }
      lease := Some(lease.value.(expires := Some(Expiry(now, ttl))));
      ok := true;
    }

    /** Answers how many of the keys are newly done, or None when the lease is lost. */
    method RecordDone(keys: seq<Key>, holder: Holder, today: Date, now: int) returns (added: Option<nat>)
      modifies this
      ensures added.Some? <==> old(Records(View(), holder, now))
      ensures added.None? <==> holder != "" && !(old(IsLiveAt(lease, now)) && old(lease).value.holder == holder)
      ensures View() == if added.Some? then Recorded(old(View()), keys, today) else old(View())
      ensures added.Some? ==> added.value == |KeySet(keys) - old(done).Keys|
      ensures added.Some? ==> && done.Keys == old(done).Keys + KeySet(keys)
                              && forall k | k in done :: done[k] == if k in KeySet(keys) then today else old(done)[k]
      ensures lease == old(lease) && lastRun == old(lastRun) && marker == old(marker)
    {
      if holder != "" {
        var held := LiveLease(lease, now);
        if held.None? || held.value.holder != holder {
          return None;
        }
      }
      var stamped, count := StampAll(done, keys, today);
      hide KeySet, Stamped;
      CountNewIsCardinality(done.Keys, keys);
      StampedIs(done, KeySet(keys), today);
      done := stamped;
      added := Some(count);
    }

    /** Answers whether the marker advanced, or None when another run holds the lease. */
    method EndRun(holder: Holder, summary: Summary, live: Option<set<Key>>, advance: bool, today: Date, now: int)
      returns (advanced: Option<bool>)
      modifies this
      ensures advanced.Some? <==> old(Ends(View(), holder, now))
      ensures advanced.None? <==> holder != "" && old(IsLiveAt(lease, now)) && old(lease).value.holder != holder
      ensures View() == if advanced.Some? then Ended(old(View()), summary, live, advance, today) else old(View())
      ensures advanced.Some? ==> (advanced.value <==> old(AdvancesMarker(View(), summary.status, advance)))
      ensures advanced.Some? ==>
                && lease == None && lastRun == Some(summary)
                && marker == (if advanced.value then Some(today) else old(marker))
                && (forall k :: k in done <==> k in old(done) && (live.Some? ==> k in live.value))
                && (forall k | k in done :: done[k] == old(done)[k])
    {
      var held := LiveLease(lease, now);
      if holder != "" && held.Some? && held.value.holder != holder {
        return None;
      }
      var moved := false;
      if advance && summary.status == "ok" && REQUIRED_HYGIENE_KEYS <= done.Keys {
        marker := Some(today);
        moved := true;
      }
      if live.Some? {
        done := map k | k in done && k in live.value :: done[k];
      }
      lastRun := Some(summary);
      lease := None;
      advanced := Some(moved);
    }
  }

  // ---- histories ----

  /** `now` was read before the lock was taken, at `at`. */
  datatype Op =
    | Begin(holder: Holder, ttl: int, now: int, at: int)
    | Renew(holder: Holder, ttl: int, now: int, at: int)
    | Record(holder: Holder, keys: seq<Key>, today: Date, at: int)
    | End(holder: Holder, summary: Summary, live: Option<set<Key>>, advance: bool, today: Date, now: int, at: int)

  /** One successful `begin_run`: from its start to its last expiry, or to the end by `endedBy`. */
  datatype Tenancy = Tenancy(holder: Holder, start: int, expires: int, ended: Option<int>, endedBy: Holder)

  function Finish(t: Tenancy): int {
    if t.ended.Some? && t.ended.value < t.expires then t.ended.value else t.expires
  }

  datatype World = World(state: State, tenancies: seq<Tenancy>, clock: int)

  predicate Succeeds(s: State, op: Op) {
    match op
    case Begin(_, _, now, _) => Begins(s, now)
    case Renew(holder, _, now, _) => Holds(s.lease, holder, now)
    case Record(holder, _, _, at) => Records(s, holder, at)
    case End(holder, _, _, _, _, now, _) => Ends(s, holder, now)
  }

  function After(w: World, op: Op): World {
    if !Succeeds(w.state, op) then w.(clock := op.at)
    else
      match op
      case Begin(holder, ttl, now, at) =>
        World(Begun(w.state, holder, ttl, now), w.tenancies + [Tenancy(holder, at, Expiry(now, ttl), None, "")], at)
      case Renew(_, ttl, now, at) =>
        World(Renewed(w.state, ttl, now), LastNow(w.tenancies, (t: Tenancy) => t.(expires := Expiry(now, ttl))), at)
      case Record(_, keys, today, at) => World(Recorded(w.state, keys, today), w.tenancies, at)
      case End(holder, summary, live, advance, today, _, at) =>
        World(Ended(w.state, summary, live, advance, today),
              if w.state.lease.Some?
              then LastNow(w.tenancies, (t: Tenancy) => t.(ended := Some(at), endedBy := holder)) else w.tenancies,
              at)
  }

  function LastNow(ts: seq<Tenancy>, change: Tenancy -> Tenancy): seq<Tenancy> {
    if ts == [] then [] else ts[..|ts| - 1] + [change(ts[|ts| - 1])]
  }

  /** The clock does not go back, nobody has read the future, and every begin names its holder. */
  predicate WellTimed(ops: seq<Op>, clock: int) {
    ops == [] || (
      && clock <= ops[0].at
      && (ops[0].Record? || ops[0].now <= ops[0].at)
      && (ops[0].Begin? ==> ops[0].holder != "")
      && WellTimed(ops[1..], ops[0].at))
  }

  function History(w: World, ops: seq<Op>): World
    decreases |ops|
  {
    if ops == [] then w else History(After(w, ops[0]), ops[1..])
  }

  const FRESH := World(State(map[], None, None, None), [], 0)

  // ---- mutual exclusion ----

  predicate Disjoint(ts: seq<Tenancy>) {
    forall i, j | 0 <= i < j < |ts| :: Finish(ts[i]) <= ts[j].start
  }

  predicate Inv(w: World) {
    && Disjoint(w.tenancies)
    && (forall i | 0 <= i < |w.tenancies| :: w.tenancies[i].start <= w.clock && w.tenancies[i].holder != "")
    && (forall i | 0 <= i < |w.tenancies| && w.tenancies[i].ended.Some? ::
          var t := w.tenancies[i];
          t.ended.value <= w.clock && (t.ended.value < t.expires ==> t.endedBy in {t.holder, ""}))
    && (match w.state.lease
        case None => |w.tenancies| > 0 ==> w.tenancies[|w.tenancies| - 1].ended.Some?
        case Some(lease) =>
          && |w.tenancies| > 0
          && var t := w.tenancies[|w.tenancies| - 1];
             t.ended.None? && lease.holder == t.holder && lease.expires == Some(t.expires))
  }

  lemma InvBegin(w: World, op: Op)
    requires Inv(w) && op.Begin? && w.clock <= op.at && op.now <= op.at && op.holder != ""
    ensures Inv(After(w, op))
  {
  }

  lemma InvRenew(w: World, op: Op)
    requires Inv(w) && op.Renew? && w.clock <= op.at
    ensures Inv(After(w, op))
  {
  }

  lemma InvEnd(w: World, op: Op)
    requires Inv(w) && op.End? && w.clock <= op.at && op.now <= op.at
    ensures Inv(After(w, op))
  {
  }

  lemma InvStep(w: World, op: Op)
    requires Inv(w) && w.clock <= op.at && (op.Record? || op.now <= op.at) && (op.Begin? ==> op.holder != "")
    ensures Inv(After(w, op))
  {
    match op
    case Begin(_, _, _, _) => InvBegin(w, op);
    case Renew(_, _, _, _) => InvRenew(w, op);
    case Record(_, _, _, _) =>
    case End(_, _, _, _, _, _, _) => InvEnd(w, op);
  }

  lemma {:induction false} InvHistory(w: World, ops: seq<Op>)
    requires Inv(w) && WellTimed(ops, w.clock)
    ensures Inv(History(w, ops))
    decreases |ops|
  {
    if ops != [] {
      InvStep(w, ops[0]);
      InvHistory(After(w, ops[0]), ops[1..]);
    }
  }

  /** Over every history, the runs' ownership intervals are pairwise disjoint. */
  lemma TenanciesAreDisjoint(ops: seq<Op>)
    requires WellTimed(ops, 0)
    ensures Disjoint(History(FRESH, ops).tenancies)
  {
    InvHistory(FRESH, ops);
  }

  /** A tenancy is cut short only by its own holder, or by an `end_run` that names none. */
  lemma OnlyTheHolderEndsEarly(ops: seq<Op>, i: nat)
    requires WellTimed(ops, 0)
    requires var ts := History(FRESH, ops).tenancies;
             i < |ts| && ts[i].ended.Some? && ts[i].ended.value < ts[i].expires
    ensures var t := History(FRESH, ops).tenancies[i]; t.endedBy == t.holder || t.endedBy == ""
  {
    InvHistory(FRESH, ops);
  }

  /** Named keys are recorded only inside the holder's own, current interval. */
  lemma RecordsOnlyInside(ops: seq<Op>, op: Op)
    requires WellTimed(ops, 0) && op.Record? && op.holder != "" && History(FRESH, ops).clock <= op.at
    requires Succeeds(History(FRESH, ops).state, op)
    ensures var ts := History(FRESH, ops).tenancies;
            |ts| > 0 && ts[|ts| - 1].holder == op.holder && ts[|ts| - 1].start <= op.at < Finish(ts[|ts| - 1])
  {
    InvHistory(FRESH, ops);
  }

  /** The holder's own renewal or end, or an end that names nobody. */
  predicate Loosens(op: Op, holder: Holder) {
    || (op.Renew? && op.holder == holder)
    || (op.End? && op.holder in {holder, ""})
  }

  lemma {:induction false} LeaseStands(w: World, ops: seq<Op>, lease: Lease)
    requires WellTimed(ops, w.clock) && lease.holder != "" && lease.expires.Some?
    requires w.state.lease == Some(lease) || w.clock >= lease.expires.value
    requires forall op | op in ops :: !Loosens(op, lease.holder)
    ensures History(w, ops).state.lease == Some(lease) || History(w, ops).clock >= lease.expires.value
    decreases |ops|
  {
    if ops != [] {
      assert ops[0] in ops;
      LeaseStands(After(w, ops[0]), ops[1..], lease);
    }
  }

  lemma {:induction false} HistoryJoin(w: World, a: seq<Op>, b: seq<Op>)
    ensures History(w, a + b) == History(History(w, a), b)
    ensures WellTimed(a + b, w.clock) ==> WellTimed(a, w.clock) && WellTimed(b, History(w, a).clock)
    decreases |a|
  {
    hide After;
    if a == [] {
      assert a + b == b;
    } else {
      assert (a + b)[0] == a[0] && (a + b)[1..] == a[1..] + b;
      ClockMoves(w, a[0]);
      HistoryJoin(After(w, a[0]), a[1..], b);
    }
  }

  lemma ClockMoves(w: World, op: Op)
    ensures After(w, op).clock == op.at
  {
  }

  /** A run records after another one only once the other's lease has run out, unless that one
      renewed or gave up its lease in between, or an end that named nobody took it away. */
  lemma HandoverWaitsForExpiry(ops: seq<Op>, first: Op, between: seq<Op>, second: Op)
    requires WellTimed(ops + ([first] + (between + [second])), 0)
    requires first.Record? && second.Record? && first.holder != second.holder
    requires first.holder != "" && second.holder != ""
    requires Succeeds(History(FRESH, ops).state, first)
    requires Succeeds(History(FRESH, ops + ([first] + between)).state, second)
    requires forall op | op in between :: !Loosens(op, first.holder)
    ensures var lease := History(FRESH, ops).state.lease;
            lease.Some? && lease.value.expires.Some? && first.at < lease.value.expires.value <= second.at
  {
    var w := History(FRESH, ops);
    HistoryJoin(FRESH, ops, [first] + (between + [second]));
    HistoryJoin(FRESH, ops, [first] + between);
    assert ([first] + between)[1..] == between && ([first] + (between + [second]))[1..] == between + [second];
    HistoryJoin(After(w, first), between, [second]);
    LeaseStands(After(w, first), between, w.state.lease.value);
  }

  /** The marker moves only on an `ok` end with both hygiene keys recorded, by a run that no
      other live holder excludes; no other operation touches it. */
  lemma MarkerMovesOnlyWhenEarned(w: World, op: Op)
    requires After(w, op).state.marker != w.state.marker
    ensures op.End? && op.summary.status == "ok" && op.advance && REQUIRED_HYGIENE_KEYS <= w.state.done.Keys
    ensures op.holder == "" || !HeldByOther(w.state.lease, op.holder, op.now)
    ensures {Key("hygiene", "vault-index"), Key("hygiene", "os-audit")} <= w.state.done.Keys
    ensures After(w, op).state.marker == Some(op.today)
  {
  }
}
