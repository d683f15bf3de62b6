/** The night's worklist: the done-filter, the budget split, and how the work drains. */
module CurationBudget {
  import Basics
  import opened CurationLease

  datatype Item = Item(pass: string, title: string, reason: string, keys: seq<Key>, weekly: bool)

  const BUDGET_REACHED := "budget reached; resumes next run"

  /** All keys of a worklist, in the order in which they are presented. */
  function Keys(items: seq<Item>): seq<Key> {
    if items == [] then [] else items[0].keys + Keys(items[1..])
  }

  lemma KeysCons(item: Item, rest: seq<Item>)
    ensures Keys([item] + rest) == item.keys + Keys(rest)
  {
    assert ([item] + rest)[1..] == rest;
  }

  // ---- the budget split ----

  function Least(a: int, b: int): int { if a < b then a else b }

  /** What `allowance` keys of work cover, and what they leave. */
  function Split(items: seq<Item>, allowance: nat): (seq<Item>, seq<Item>) {
    if items == [] || allowance == 0 then ([], items)
    else
      var item := items[0];
      var n := Least(allowance, |item.keys|);
      var (planned, deferred) := Split(items[1..], allowance - n);
      ([item.(keys := item.keys[..n])] + planned, Leftover(item, n) + deferred)
  }

  function Leftover(item: Item, n: nat): seq<Item>
    requires n <= |item.keys|
  {
    if n == |item.keys| then [] else [item.(keys := item.keys[n..], reason := BUDGET_REACHED)]
  }

  function Allowance(maxItems: int): nat { if maxItems > 0 then maxItems else 0 }

  lemma SplitHead(items: seq<Item>, i: nat, allowance: nat)
    requires i < |items|
    ensures var item := items[i]; var n := Least(allowance, |item.keys|);
            if allowance == 0
            then Split(items[i..], 0) == ([], [item] + Split(items[i + 1..], 0).1)
            else Split(items[i..], allowance) ==
                 ([item.(keys := item.keys[..n])] + Split(items[i + 1..], allowance - n).0,
                  Leftover(item, n) + Split(items[i + 1..], allowance - n).1)
  {
    assert items[i..] == [items[i]] + items[i + 1..];
  }

  lemma Regroup(a: seq<Item>, b: seq<Item>, c: seq<Item>)
    ensures (a + b) + c == a + (b + c)
    ensures b == [] ==> a + b == a
  {
  }

  method PlanRun(items: seq<Item>, maxItems: int) returns (planned: seq<Item>, deferred: seq<Item>)
    ensures (planned, deferred) == Split(items, Allowance(maxItems))
  {
    var allowance := Allowance(maxItems);
    planned, deferred := [], [];
    var i := 0;
    assert items[0..] == items;
    while i < |items|
      invariant 0 <= i <= |items| && 0 <= allowance
      invariant planned + Split(items[i..], allowance).0 == Split(items, Allowance(maxItems)).0
      invariant deferred + Split(items[i..], allowance).1 == Split(items, Allowance(maxItems)).1
    {
      SplitHead(items, i, allowance);
      var item := items[i];
      ghost var p, d := planned, deferred;
      if allowance <= 0 {
        deferred := deferred + [item];
        Regroup(d, [item], Split(items[i + 1..], 0).1);
      } else {
        var n := Least(allowance, |item.keys|);
        var take, rest := item.keys[..n], item.keys[n..];
        allowance := allowance - |take|;
        planned := planned + [item.(keys := take)];
        if rest != [] {
          deferred := deferred + [item.(keys := rest, reason := BUDGET_REACHED)];
        }
        Regroup(p, [item.(keys := take)], Split(items[i + 1..], allowance).0);
        Regroup(d, Leftover(item, n), Split(items[i + 1..], allowance).1);
      }
      i := i + 1;
    }
    assert items[i..] == [] && planned + [] == planned && deferred + [] == deferred;
  }

  /** Nothing is lost or reordered, and the plan is as long as the budget allows. */
  lemma {:induction false} SplitConserves(items: seq<Item>, allowance: nat)
    ensures var (planned, deferred) := Split(items, allowance);
            Conserved(Keys(items), allowance, Keys(planned), Keys(deferred))
  {
    if items != [] && allowance > 0 {
      var n := Least(allowance, |items[0].keys|);
      SplitConserves(items[1..], allowance - n);
      var (planned, deferred) := Split(items[1..], allowance - n);
      KeysCons(items[0].(keys := items[0].keys[..n]), planned);
      KeysOfLeftover(items[0], n, deferred);
      ConservedPast(items[0].keys, Keys(items[1..]), allowance, Keys(planned), Keys(deferred));
    }
  }

  ghost predicate Conserved(keys: seq<Key>, allowance: nat, planned: seq<Key>, deferred: seq<Key>) {
    planned + deferred == keys && |planned| == Least(allowance, |keys|)
  }

  lemma KeysOfLeftover(item: Item, n: nat, deferred: seq<Item>)
    requires n <= |item.keys|
    ensures Keys(Leftover(item, n) + deferred) == item.keys[n..] + Keys(deferred)
  {
    if n < |item.keys| {
      KeysCons(Leftover(item, n)[0], deferred);
    } else {
      assert Leftover(item, n) + deferred == deferred;
    }
  }

  lemma ConservedPast(keys: seq<Key>, more: seq<Key>, allowance: nat, planned: seq<Key>, deferred: seq<Key>)
    requires Conserved(more, allowance - Least(allowance, |keys|), planned, deferred)
    ensures var n := Least(allowance, |keys|);
            Conserved(keys + more, allowance, keys[..n] + planned, keys[n..] + deferred)
  {
    if allowance < |keys| {
      assert planned == [];
      assert keys[..allowance] + (keys[allowance..] + deferred) == keys + deferred;
    }
  }

  predicate CutBetween(items: seq<Item>, planned: seq<Item>, deferred: seq<Item>, cut: nat) {
    cut <= |items| && planned == items[..cut] && deferred == items[cut..]
  }

  predicate CutInside(items: seq<Item>, planned: seq<Item>, deferred: seq<Item>, cut: nat, n: nat) {
    && cut < |items| && 0 < n < |items[cut].keys|
    && planned == items[..cut] + [items[cut].(keys := items[cut].keys[..n])]
    && deferred == [items[cut].(keys := items[cut].keys[n..], reason := BUDGET_REACHED)] + items[cut + 1..]
  }

  /** The first `cut` items are planned whole, the rest waits; or one item is cut inside. */
  ghost predicate CutOnce(items: seq<Item>, planned: seq<Item>, deferred: seq<Item>) {
    || (exists cut: nat :: CutBetween(items, planned, deferred, cut))
    || (exists cut: nat, n: nat :: CutInside(items, planned, deferred, cut, n))
  }

  lemma CutOncePrepend(item: Item, rest: seq<Item>, p: seq<Item>, d: seq<Item>)
    requires CutOnce(rest, p, d)
    ensures CutOnce([item] + rest, [item] + p, d)
  {
    var items := [item] + rest;
    if cut: nat :| CutBetween(rest, p, d, cut) {
      assert CutBetween(items, [item] + p, d, cut + 1);
    } else {
      var cut: nat, n: nat :| CutInside(rest, p, d, cut, n);
      assert items[cut + 1] == rest[cut] && items[..cut + 1] == [item] + rest[..cut];
      assert items[cut + 1 + 1..] == rest[cut + 1..];
      assert CutInside(items, [item] + p, d, cut + 1, n);
    }
  }

  lemma CutAtFirst(items: seq<Item>, n: nat)
    requires items != [] && 0 < n < |items[0].keys|
    ensures CutOnce(items, [items[0].(keys := items[0].keys[..n])], Leftover(items[0], n) + items[1..])
  {
    assert items[..0] == [];
    assert CutInside(items, [items[0].(keys := items[0].keys[..n])], Leftover(items[0], n) + items[1..], 0, n);
  }

  /** At most one pass is split, and what waits is always the tail. */
  lemma {:induction false} SplitCutsOnce(items: seq<Item>, allowance: nat)
    ensures var (planned, deferred) := Split(items, allowance); CutOnce(items, planned, deferred)
  {
    if items == [] || allowance == 0 {
      assert items[..0] == [] && items[0..] == items;
      assert CutBetween(items, [], items, 0);
    } else {
      var item := items[0];
      var n := Least(allowance, |item.keys|);
      if n < |item.keys| {
        CutAtFirst(items, n);
        assert [item.(keys := item.keys[..n])] + [] == [item.(keys := item.keys[..n])];
        assert Split(items, allowance) == ([item.(keys := item.keys[..n])], Leftover(item, n) + items[1..]);
      } else {
        SplitCutsOnce(items[1..], allowance - n);
        var (p, d) := Split(items[1..], allowance - n);
        CutOncePrepend(item, items[1..], p, d);
        assert item.(keys := item.keys[..n]) == item && [] + d == d && [item] + items[1..] == items;
      }
    }
  }

  // ---- the done-filter ----

  function Undone(keys: seq<Key>, done: set<Key>): seq<Key> {
    if keys == [] then []
    else (if keys[0] in done then [] else [keys[0]]) + Undone(keys[1..], done)
  }

  /** The worklist with the finished keys, and then the empty items, left out. */
  function Filter(items: seq<Item>, done: set<Key>): seq<Item> {
    if items == [] then []
    else
      var keys := Undone(items[0].keys, done);
      (if keys == [] then [] else [items[0].(keys := keys)]) + Filter(items[1..], done)
  }

  method BuildRemaining(items: seq<Item>, done: set<Key>) returns (remaining: seq<Item>)
    ensures remaining == Filter(items, done)
  {
    remaining := [];
    var i := 0;
    while i < |items|
      invariant 0 <= i <= |items| && remaining + Filter(items[i..], done) == Filter(items, done)
    {
      assert items[i..][0] == items[i] && items[i..][1..] == items[i + 1..];
      var keys := Undone(items[i].keys, done);
      if keys != [] {
        remaining := remaining + [items[i].(keys := keys)];
      }
      i := i + 1;
    }
  }

  lemma {:induction false} UndoneConcat(a: seq<Key>, b: seq<Key>, done: set<Key>)
    ensures Undone(a + b, done) == Undone(a, done) + Undone(b, done)
  {
    if a == [] {
      assert a + b == b;
    } else {
      assert (a + b)[0] == a[0] && (a + b)[1..] == a[1..] + b;
      UndoneConcat(a[1..], b, done);
    }
  }

  lemma {:induction false} FilterKeys(items: seq<Item>, done: set<Key>)
    ensures Keys(Filter(items, done)) == Undone(Keys(items), done)
  {
    if items != [] {
      FilterKeys(items[1..], done);
      UndoneConcat(items[0].keys, Keys(items[1..]), done);
      var keys := Undone(items[0].keys, done);
      if keys == [] {
        assert Filter(items, done) == Filter(items[1..], done);
      } else {
        KeysCons(items[0].(keys := keys), Filter(items[1..], done));
      }
    }
  }

  /** The filter takes the items one by one, in order: each keeps all but its keys, of which the
      recorded ones go, and an item left without keys goes too. */
  lemma {:induction false} FilterIsItemwise(a: seq<Item>, b: seq<Item>, item: Item, done: set<Key>)
    ensures Filter(a + b, done) == Filter(a, done) + Filter(b, done)
    ensures Filter([item], done) ==
            if forall k | k in item.keys :: k in done then [] else [item.(keys := Undone(item.keys, done))]
  {
    NothingUndone(item.keys, done);
    assert [item][1..] == [];
    if a == [] {
      assert a + b == b;
    } else {
      assert (a + b)[1..] == a[1..] + b;
      FilterIsItemwise(a[1..], b, item, done);
    }
  }

  lemma {:induction false} NothingUndone(keys: seq<Key>, done: set<Key>)
    ensures Undone(keys, done) == [] <==> forall k | k in keys :: k in done
  {
    if keys != [] {
      NothingUndone(keys[1..], done);
      assert forall k :: k in keys <==> k == keys[0] || k in keys[1..];
    }
  }

  /** Recorded keys go and the others stay, in order. */
  lemma UndoneIsKeywise(a: seq<Key>, b: seq<Key>, k: Key, done: set<Key>)
    ensures Undone(a + b, done) == Undone(a, done) + Undone(b, done)
    ensures Undone([k], done) == if k in done then [] else [k]
  {
    UndoneConcat(a, b, done);
    assert [k][1..] == [];
  }

  lemma {:induction false} UndoneTwice(keys: seq<Key>, done: set<Key>, more: set<Key>)
    ensures Undone(Undone(keys, done), more) == Undone(keys, done + more)
  {
    if keys != [] {
      UndoneTwice(keys[1..], done, more);
      var rest := Undone(keys[1..], done);
      if keys[0] in done {
        assert Undone(keys, done) == rest;
      } else {
        assert ([keys[0]] + rest)[1..] == rest;
      }
    }
  }

  /** Only membership of the listed keys matters. */
  lemma {:induction false} UndoneSame(keys: seq<Key>, done: set<Key>, other: set<Key>)
    requires forall k | k in keys :: k in done <==> k in other
    ensures Undone(keys, done) == Undone(keys, other)
  {
    if keys != [] {
      UndoneSame(keys[1..], done, other);
    }
  }

  lemma {:induction false} UndoneShrinks(keys: seq<Key>, n: nat, done: set<Key>)
    requires n <= |keys| && forall k | k in keys[..n] :: k in done
    ensures |Undone(keys, done)| <= |keys| - n
  {
    if keys != [] {
      if n > 0 {
        assert keys[0] == keys[..n][0];
        forall k | k in keys[1..][..n - 1] ensures k in done {
          assert k in keys[..n];
        }
      }
      UndoneShrinks(keys[1..], if n > 0 then n - 1 else 0, done);
    }
  }

  // ---- one night after another, on a vault that stays as it is ----

  /** Plan what is left, record it, and end with `live` as the keys to keep. */
  function Night(full: seq<Item>, done: set<Key>, maxItems: int): set<Key> {
    var (planned, _) := Split(Filter(full, done), Allowance(maxItems));
    (done + KeySet(Keys(planned))) * KeySet(Keys(full))
  }

  function Nights(full: seq<Item>, done: set<Key>, maxItems: int, n: nat): set<Key>
    decreases n
  {
    if n == 0 then done else Nights(full, Night(full, done, maxItems), maxItems, n - 1)
  }

  function Left(full: seq<Item>, done: set<Key>): nat { |Keys(Filter(full, done))| }

  lemma NightProgress(full: seq<Item>, done: set<Key>, maxItems: int)
    requires maxItems > 0
    ensures Left(full, Night(full, done, maxItems)) <=
            if Left(full, done) <= maxItems then 0 else Left(full, done) - maxItems
  {
    var items := Filter(full, done);
    var (planned, deferred) := Split(items, maxItems);
    var now := KeySet(Keys(planned));
    FilterKeys(full, done);
    SplitConserves(items, maxItems);
    var n := |Keys(planned)|;
    assert Keys(items)[..n] == Keys(planned);
    UndoneShrinks(Keys(items), n, now);
    UndoneTwice(Keys(full), done, now);
    FilterKeys(full, Night(full, done, maxItems));
    UndoneSame(Keys(full), done + now, Night(full, done, maxItems));
  }

  lemma {:induction false} NothingLeft(items: seq<Item>, done: set<Key>)
    ensures Keys(Filter(items, done)) == [] <==> Filter(items, done) == []
  {
    if items != [] {
      NothingLeft(items[1..], done);
      var keys := Undone(items[0].keys, done);
      if keys == [] {
        assert Filter(items, done) == Filter(items[1..], done);
      } else {
        KeysCons(items[0].(keys := keys), Filter(items[1..], done));
      }
    }
  }

  /** `n` nights of `budget` keys are enough for `left` keys. */
  predicate Enough(n: nat, budget: int, left: nat) { n * budget >= left }

  lemma OneNightLess(n: nat, budget: int, left: nat, next: nat)
    requires n > 0 && Enough(n, budget, left) && next <= if left <= budget then 0 else left - budget
    ensures Enough(n - 1, budget, next)
  {
  }

  predicate Drained(full: seq<Item>, done: set<Key>) { Filter(full, done) == [] }

  lemma EnoughForNext(full: seq<Item>, done: set<Key>, maxItems: int, n: nat)
    requires maxItems > 0 && n > 0 && Enough(n, maxItems, Left(full, done))
    ensures Enough(n - 1, maxItems, Left(full, Night(full, done, maxItems)))
  {
    NightProgress(full, done, maxItems);
    OneNightLess(n, maxItems, Left(full, done), Left(full, Night(full, done, maxItems)));
  }

  lemma NoneLeft(full: seq<Item>, done: set<Key>, maxItems: int)
    requires Enough(0, maxItems, Left(full, done))
    ensures Drained(full, done)
  {
    NothingLeft(full, done);
  }

  lemma {:induction false} WorkDrainsIfEnough(full: seq<Item>, done: set<Key>, maxItems: int, n: nat)
    requires maxItems > 0 && Enough(n, maxItems, Left(full, done))
    ensures Drained(full, Nights(full, done, maxItems, n))
    decreases n
  {
    if n == 0 {
      NoneLeft(full, done, maxItems);
    } else {
      EnoughForNext(full, done, maxItems, n);
      WorkDrainsIfEnough(full, Night(full, done, maxItems), maxItems, n - 1);
    }
  }

  lemma CeilingIsEnough(left: nat, budget: int)
    requires budget > 0
    ensures Enough((left + budget - 1) / budget, budget, left)
  {
  }

  /** With room for at least one key a night, the worklist is empty after as many nights
      as the budget goes into the keys that were left, rounded up. */
  lemma WorkDrains(full: seq<Item>, done: set<Key>, maxItems: int)
    requires maxItems > 0
    ensures Drained(full, Nights(full, done, maxItems, (Left(full, done) + maxItems - 1) / maxItems))
  {
    CeilingIsEnough(Left(full, done), maxItems);
    WorkDrainsIfEnough(full, done, maxItems, (Left(full, done) + maxItems - 1) / maxItems);
  }

  /** Without a budget no night makes progress. */
  lemma {:induction false} NoBudgetNoProgress(full: seq<Item>, done: set<Key>, maxItems: int, n: nat)
    requires maxItems <= 0
    ensures Filter(full, Nights(full, done, maxItems, n)) == Filter(full, done)
    decreases n
  {
    if n > 0 {
      var next := Night(full, done, maxItems);
      assert Keys([]) == [];
      FilterSame(full, done, next, Keys(full));
      NoBudgetNoProgress(full, next, maxItems, n - 1);
    }
  }

  lemma {:induction false} FilterSame(items: seq<Item>, done: set<Key>, other: set<Key>, keys: seq<Key>)
    requires forall k | k in Keys(items) :: k in keys
    requires forall k | k in keys :: k in done <==> k in other
    ensures Filter(items, done) == Filter(items, other)
  {
    if items != [] {
      UndoneSame(items[0].keys, done, other);
      FilterSame(items[1..], done, other, keys);
    }
  }

  /** A night is `record_done` of the plan, then `end_run` with the keys of the unfiltered worklist. */
  lemma NightIsRecordThenEnd(s: State, full: seq<Item>, maxItems: int, today: Date, summary: Summary, advance: bool)
    ensures var (planned, _) := Split(Filter(full, s.done.Keys), Allowance(maxItems));
            var recorded := Recorded(s, Keys(planned), today);
            var ended := Ended(recorded, summary, Basics.Some(KeySet(Keys(full))), advance, today);
            ended.done.Keys == Night(full, s.done.Keys, maxItems)
  {
    var (planned, _) := Split(Filter(full, s.done.Keys), Allowance(maxItems));
    assert Recorded(s, Keys(planned), today).done.Keys == s.done.Keys + KeySet(Keys(planned));
  }

  // ---- the cursor as `curation-end` prunes it ----

  lemma {:induction false} UndoneIsNotDone(keys: seq<Key>, done: set<Key>, k: Key)
    requires k in Undone(keys, done)
    ensures k !in done
  {
    if keys[0] in done || k != keys[0] {
      UndoneIsNotDone(keys[1..], done, k);
    }
  }

  /** The command passes `end_run` the keys of the worklist it has just filtered by the cursor,
      so the pruning inside `end_run` keeps no finished key at all. */
  lemma FilteredLiveKeysForgetEverything(s: State, full: seq<Item>, summary: Summary, advance: bool, today: Date)
    ensures var live := KeySet(Keys(Filter(full, s.done.Keys)));
            Ended(s, summary, Basics.Some(live), advance, today).done == map[]
  {
    var live := KeySet(Keys(Filter(full, s.done.Keys)));
    FilterKeys(full, s.done.Keys);
    forall k | k in s.done && k in live ensures false {
      UndoneIsNotDone(Keys(full), s.done.Keys, k);
    }
  }

  /** A night that ends that way: the plan is recorded, and the cursor pruned by what is then left. */
  function ForgetfulNight(full: seq<Item>, done: set<Key>, maxItems: int): set<Key> {
    var (planned, _) := Split(Filter(full, done), Allowance(maxItems));
    var recorded := done + KeySet(Keys(planned));
    recorded * KeySet(Keys(Filter(full, recorded)))
  }

  lemma ForgetfulNightIsRecordThenEnd(
      s: State, full: seq<Item>, maxItems: int, today: Date, summary: Summary, advance: bool)
    ensures var (planned, _) := Split(Filter(full, s.done.Keys), Allowance(maxItems));
            var recorded := Recorded(s, Keys(planned), today);
            var live := KeySet(Keys(Filter(full, recorded.done.Keys)));
            Ended(recorded, summary, Basics.Some(live), advance, today).done.Keys ==
            ForgetfulNight(full, s.done.Keys, maxItems)
  {
    var (planned, _) := Split(Filter(full, s.done.Keys), Allowance(maxItems));
    assert Recorded(s, Keys(planned), today).done.Keys == s.done.Keys + KeySet(Keys(planned));
  }

  lemma ForgetfulNightKeepsNothing(full: seq<Item>, done: set<Key>, maxItems: int)
    ensures ForgetfulNight(full, done, maxItems) == {}
  {
    var (planned, _) := Split(Filter(full, done), Allowance(maxItems));
    var recorded := done + KeySet(Keys(planned));
    FilterKeys(full, recorded);
    forall k | k in ForgetfulNight(full, done, maxItems) ensures false {
      UndoneIsNotDone(Keys(full), recorded, k);
    }
  }

  function ForgetfulNights(full: seq<Item>, done: set<Key>, maxItems: int, n: nat): set<Key>
    decreases n
  {
    if n == 0 then done else ForgetfulNights(full, ForgetfulNight(full, done, maxItems), maxItems, n - 1)
  }

  lemma {:induction false} UndoneOfNone(keys: seq<Key>)
    ensures Undone(keys, {}) == keys
  {
    if keys != [] {
      UndoneOfNone(keys[1..]);
    }
  }

  /** So on a vault that stays as it is, however many such nights there are, every key of the
      worklist is presented again, and the work drains only if there was none. */
  lemma {:induction false} ForgetfulNightsRepeat(full: seq<Item>, done: set<Key>, maxItems: int, n: nat)
    requires n > 0
    ensures Keys(Filter(full, ForgetfulNights(full, done, maxItems, n))) == Keys(full)
    ensures Drained(full, ForgetfulNights(full, done, maxItems, n)) <==> Keys(full) == []
    decreases n
  {
    var next := ForgetfulNight(full, done, maxItems);
    ForgetfulNightKeepsNothing(full, done, maxItems);
    if n > 1 {
      ForgetfulNightsRepeat(full, next, maxItems, n - 1);
    } else {
      assert ForgetfulNights(full, next, maxItems, 0) == {};
      FilterKeys(full, {});
      UndoneOfNone(Keys(full));
      NothingLeft(full, {});
    }
  }

  const ONE_NOTE := [Item("stale-notes", "Stale notes", "", [Key("stale-notes", "a1b2")], false)]

  /** One note, and a budget of one: pruned by the whole worklist it is done after a night, pruned as
      the command does it comes back for ever. */
  lemma OneNoteComesBackForEver(n: nat)
    requires n > 0
    ensures Drained(ONE_NOTE, Nights(ONE_NOTE, {}, 1, n)) && !Drained(ONE_NOTE, ForgetfulNights(ONE_NOTE, {}, 1, n))
  {
    hide Nights, ForgetfulNights, Drained, Filter;
    assert Keys(ONE_NOTE) == [Key("stale-notes", "a1b2")] by {
      assert ONE_NOTE[1..] == [];
    }
    ForgetfulNightsRepeat(ONE_NOTE, {}, 1, n);
    FilterKeys(ONE_NOTE, {});
    UndoneOfNone(Keys(ONE_NOTE));
    WorkDrainsIfEnough(ONE_NOTE, {}, 1, n);
  }
}
