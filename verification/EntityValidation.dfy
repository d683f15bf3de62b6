/** Cross-entry validation of a category list, and the lookups that the registry builds from it. */
module EntityValidation {
  import opened Basics
  import opened EntityTypes
  import opened EntitySave
  import PyText

  // ---- ids ----

  predicate IsLower(c: char) { 'a' <= c <= 'z' }

  predicate IsIdChar(c: char) { IsLower(c) || '0' <= c <= '9' || c == '-' }

  predicate IsSlug(id: string) {
    1 <= |id| <= 64 && IsLower(id[0]) && forall c | c in id :: IsIdChar(c)
  }

  /** The pattern ends in `$`, which also matches before a last newline. */
  predicate IdMatches(id: string) {
    IsSlug(id) || (id != "" && id[|id| - 1] == '\n' && IsSlug(id[..|id| - 1]))
  }

  // ---- what a coherent list is ----

  /** What one entry must be, whatever else is in the list. */
  predicate SoundEntry(e: EntityType) {
    && IdMatches(e.id) && PyText.Strip(e.labelText) != "" && e.kind in KINDS && e.staleAfterDays >= 0
    && Distinct(e.aliases) && e.id !in e.aliases
  }

  predicate ShareFolder(a: EntityType, b: EntityType) {
    a.enabled && b.enabled && a.folder != "" && a.folder == b.folder
  }

  predicate ShareAlias(a: EntityType, b: EntityType) { exists name | name in a.aliases :: name in b.aliases }

  predicate Compatible(a: EntityType, b: EntityType) {
    && a.id != b.id && !ShareFolder(a, b) && !ShareAlias(a, b)
    && a.id !in b.aliases && b.id !in a.aliases
  }

  predicate Coherent(entries: seq<EntityType>) {
    && (forall i | 0 <= i < |entries| :: SoundEntry(entries[i]))
    && (forall i, j | 0 <= i < j < |entries| :: Compatible(entries[i], entries[j]))
  }

  // ---- what is wrong with a list ----

  /** `at` is a position among the entry's aliases. */
  datatype Problem =
    | IdShape(index: nat) | IdTaken(index: nat, first: nat) | LabelEmpty(index: nat) | KindUnknown(index: nat)
    | DaysNegative(index: nat) | FolderTaken(index: nat, owner: string)
    | AliasIsId(index: nat, at: nat) | AliasTaken(index: nat, at: nat, owner: string)

  /** The first of the first `n` entries with an id. */
  function FirstWithId(entries: seq<EntityType>, n: nat, id: string): Option<nat>
    requires n <= |entries|
  {
    if n == 0 then None
    else if FirstWithId(entries, n - 1, id).Some? then FirstWithId(entries, n - 1, id)
    else if entries[n - 1].id == id then Some(n - 1) else None
  }

  predicate ClaimsFolder(e: EntityType) { e.enabled && e.folder != "" }

  /** The id of the first of the first `n` entries that claims a folder. */
  function FolderOwner(entries: seq<EntityType>, n: nat, folder: string): Option<string>
    requires n <= |entries|
  {
    if n == 0 then None
    else if FolderOwner(entries, n - 1, folder).Some? then FolderOwner(entries, n - 1, folder)
    else if ClaimsFolder(entries[n - 1]) && entries[n - 1].folder == folder then Some(entries[n - 1].id) else None
  }

  /** The id of the first of the first `n` entries that lists an alias. */
  function AliasOwner(entries: seq<EntityType>, n: nat, name: string): Option<string>
    requires n <= |entries|
  {
    if n == 0 then None
    else if AliasOwner(entries, n - 1, name).Some? then AliasOwner(entries, n - 1, name)
    else if name in entries[n - 1].aliases then Some(entries[n - 1].id) else None
  }

  /** The same with the first `at` aliases of the next entry. */
  function OwnerBefore(entries: seq<EntityType>, n: nat, at: nat, name: string): Option<string>
    requires n < |entries| && at <= |entries[n].aliases|
  {
    if AliasOwner(entries, n, name).Some? then AliasOwner(entries, n, name)
    else if name in entries[n].aliases[..at] then Some(entries[n].id) else None
  }

  /** The problems that a list has. */
  predicate Found(entries: seq<EntityType>, p: Problem) {
    p.index < |entries| &&
    var e := entries[p.index];
    match p
    case IdShape(_) => !IdMatches(e.id)
    case IdTaken(i, first) => FirstWithId(entries, i, e.id) == Some(first)
    case LabelEmpty(_) => PyText.Strip(e.labelText) == ""
    case KindUnknown(_) => e.kind !in KINDS
    case DaysNegative(_) => e.staleAfterDays < 0
    case FolderTaken(i, owner) => ClaimsFolder(e) && FolderOwner(entries, i, e.folder) == Some(owner)
    case AliasIsId(_, at) => at < |e.aliases| && HasId(entries, e.aliases[at])
    case AliasTaken(i, at, owner) =>
      at < |e.aliases| && !HasId(entries, e.aliases[at]) && OwnerBefore(entries, i, at, e.aliases[at]) == Some(owner)
  }

  // ---- the validator ----

  function Get<T>(m: map<string, T>, key: string): Option<T> { if key in m then Some(m[key]) else None }

  predicate AboutEntry(p: Problem) { p.IdShape? || p.IdTaken? || p.LabelEmpty? || p.KindUnknown? || p.DaysNegative? }

  predicate AboutFolder(p: Problem) { p.FolderTaken? }

  predicate AboutAlias(p: Problem) { p.AliasIsId? || p.AliasTaken? }

  ghost predicate FoundUpTo(entries: seq<EntityType>, n: nat, kind: Problem -> bool, problems: seq<Problem>) {
    forall p :: p in problems <==> p.index < n && kind(p) && Found(entries, p)
  }

  method CheckEntries(entries: seq<EntityType>) returns (problems: seq<Problem>, ids: map<string, nat>)
    ensures FoundUpTo(entries, |entries|, AboutEntry, problems)
    ensures forall id :: Get(ids, id) == FirstWithId(entries, |entries|, id)
  {
    problems, ids := [], map[];
    for i := 0 to |entries|
      invariant FoundUpTo(entries, i, AboutEntry, problems)
      invariant forall id :: Get(ids, id) == FirstWithId(entries, i, id)
    {
      var e := entries[i];
      var found := CheckEntry(entries, i, ids);
      problems := problems + found;
      if e.id !in ids {
        ids := ids[e.id := i];
      }
    }
  }

  method CheckEntry(entries: seq<EntityType>, i: nat, ids: map<string, nat>) returns (found: seq<Problem>)
    requires i < |entries| && forall id :: Get(ids, id) == FirstWithId(entries, i, id)
    ensures forall p :: p in found <==> p.index == i && AboutEntry(p) && Found(entries, p)
  {
    var e := entries[i];
    found := [];
    if !IdMatches(e.id) { found := found + [IdShape(i)]; }
    assert Get(ids, e.id) == FirstWithId(entries, i, e.id);
    if e.id in ids { found := found + [IdTaken(i, ids[e.id])]; }
    if PyText.Strip(e.labelText) == "" { found := found + [LabelEmpty(i)]; }
    if e.kind !in KINDS { found := found + [KindUnknown(i)]; }
    if e.staleAfterDays < 0 { found := found + [DaysNegative(i)]; }
  }

  method CheckFolders(entries: seq<EntityType>) returns (problems: seq<Problem>)
    ensures FoundUpTo(entries, |entries|, AboutFolder, problems)
  {
    problems := [];
    var folders: map<string, string> := map[];
    for i := 0 to |entries|
      invariant FoundUpTo(entries, i, AboutFolder, problems)
      invariant forall folder :: Get(folders, folder) == FolderOwner(entries, i, folder)
    {
      var e := entries[i];
      if !e.enabled || e.folder == "" {
        continue;
      }
      assert Get(folders, e.folder) == FolderOwner(entries, i, e.folder);
      if e.folder in folders {
        problems := problems + [FolderTaken(i, folders[e.folder])];
      } else {
        folders := folders[e.folder := e.id];
      }
    }
  }

  ghost predicate Owned(entries: seq<EntityType>, owners: map<string, string>, n: nat)
    requires n <= |entries|
  {
    forall name | !HasId(entries, name) :: Get(owners, name) == AliasOwner(entries, n, name)
  }

  ghost predicate OwnedBefore(entries: seq<EntityType>, owners: map<string, string>, n: nat, at: nat)
    requires n < |entries| && at <= |entries[n].aliases|
  {
    forall name | !HasId(entries, name) :: Get(owners, name) == OwnerBefore(entries, n, at, name)
  }

  lemma OwnedNext(entries: seq<EntityType>, owners: map<string, string>, n: nat, at: nat)
    requires n < |entries| && at < |entries[n].aliases| && OwnedBefore(entries, owners, n, at)
    ensures var name := entries[n].aliases[at];
            var known := HasId(entries, name) || name in owners;
            OwnedBefore(entries, if known then owners else owners[name := entries[n].id], n, at + 1)
  {
    var e := entries[n];
    assert e.aliases[..at + 1] == e.aliases[..at] + [e.aliases[at]];
  }

  method CheckAliases(entries: seq<EntityType>, ids: map<string, nat>) returns (problems: seq<Problem>)
    requires forall id :: id in ids <==> HasId(entries, id)
    ensures FoundUpTo(entries, |entries|, AboutAlias, problems)
  {
    problems := [];
    var owners: map<string, string> := map[];
    for i := 0 to |entries|
      invariant FoundUpTo(entries, i, AboutAlias, problems)
      invariant Owned(entries, owners, i)
    {
      var found;
      found, owners := CheckAliasesOf(entries, i, ids, owners);
      problems := problems + found;
    }
  }

  method CheckAliasesOf(entries: seq<EntityType>, i: nat, ids: map<string, nat>, before: map<string, string>)
    returns (found: seq<Problem>, owners: map<string, string>)
    requires i < |entries| && Owned(entries, before, i)
    requires forall id :: id in ids <==> HasId(entries, id)
    ensures forall p :: p in found <==> p.index == i && AboutAlias(p) && Found(entries, p)
    ensures Owned(entries, owners, i + 1)
  {
    var e := entries[i];
    found, owners := [], before;
    for at := 0 to |e.aliases|
      invariant forall p :: p in found <==> p.index == i && AboutAlias(p) && p.at < at && Found(entries, p)
      invariant OwnedBefore(entries, owners, i, at)
    {
      var name := e.aliases[at];
      OwnedNext(entries, owners, i, at);
      if name in ids {
        found := found + [AliasIsId(i, at)];
      } else if name in owners {
        found := found + [AliasTaken(i, at, owners[name])];
      } else {
        owners := owners[name := e.id];
      }
    }
    assert e.aliases[..|e.aliases|] == e.aliases;
  }

  /** Reports every problem of the list and nothing else. */
  method ValidateEntries(entries: seq<EntityType>) returns (problems: seq<Problem>)
    ensures forall p :: p in problems <==> Found(entries, p)
    ensures problems == [] <==> Coherent(entries)
  {
    var ids;
    problems, ids := CheckEntries(entries);
    forall id ensures id in ids <==> HasId(entries, id) {
      FirstWithIdFinds(entries, |entries|, id);
      assert Get(ids, id) == FirstWithId(entries, |entries|, id);
    }
    var folders := CheckFolders(entries);
    var aliases := CheckAliases(entries, ids);
    problems := problems + folders + aliases;
    CoherentHasNoProblem(entries);
    if problems != [] {
      assert Found(entries, problems[0]);
    }
  }

  lemma {:induction false} FirstWithIdFinds(entries: seq<EntityType>, n: nat, id: string)
    requires n <= |entries|
    ensures match FirstWithId(entries, n, id)
            case Some(i) => i < n && entries[i].id == id && forall j | 0 <= j < i :: entries[j].id != id
            case None => forall j | 0 <= j < n :: entries[j].id != id
  {
    if n > 0 {
      FirstWithIdFinds(entries, n - 1, id);
    }
  }

  ghost predicate FirstToClaim(entries: seq<EntityType>, i: nat, folder: string)
    requires i < |entries|
  {
    && entries[i].enabled && entries[i].folder == folder != ""
    && forall j | 0 <= j < i :: !(entries[j].enabled && entries[j].folder == folder)
  }

  lemma {:induction false} FolderOwnerFinds(entries: seq<EntityType>, n: nat, folder: string)
    requires n <= |entries|
    ensures match FolderOwner(entries, n, folder)
            case Some(owner) => exists i | 0 <= i < n :: FirstToClaim(entries, i, folder) && entries[i].id == owner
            case None => forall i | 0 <= i < n :: !(ClaimsFolder(entries[i]) && entries[i].folder == folder)
  {
    if n > 0 {
      FolderOwnerFinds(entries, n - 1, folder);
      if FolderOwner(entries, n - 1, folder).None? && FolderOwner(entries, n, folder).Some? {
        assert FirstToClaim(entries, n - 1, folder);
      }
    }
  }

  ghost predicate FirstToList(entries: seq<EntityType>, i: nat, name: string)
    requires i < |entries|
  {
    name in entries[i].aliases && forall j | 0 <= j < i :: name !in entries[j].aliases
  }

  lemma {:induction false} AliasOwnerFinds(entries: seq<EntityType>, n: nat, name: string)
    requires n <= |entries|
    ensures match AliasOwner(entries, n, name)
            case Some(owner) => exists i | 0 <= i < n :: FirstToList(entries, i, name) && entries[i].id == owner
            case None => forall i | 0 <= i < n :: name !in entries[i].aliases
  {
    if n > 0 {
      AliasOwnerFinds(entries, n - 1, name);
      if AliasOwner(entries, n - 1, name).None? && AliasOwner(entries, n, name).Some? {
        assert FirstToList(entries, n - 1, name);
      }
    }
  }

  /** Whoever is named in a problem came first. */
  lemma FirstComesBefore(entries: seq<EntityType>, p: Problem)
    requires p.index < |entries|
    ensures var e := entries[p.index];
            match p
            case IdTaken(i, first) =>
              Found(entries, p) <==>
              first < i && entries[first].id == e.id && forall j | 0 <= j < first :: entries[j].id != e.id
            case FolderTaken(i, owner) =>
              Found(entries, p) <==>
              e.enabled && exists j | 0 <= j < i :: FirstToClaim(entries, j, e.folder) && entries[j].id == owner
            case AliasTaken(i, at, owner) =>
              Found(entries, p) <==>
              && at < |e.aliases| && (forall other | other in entries :: other.id != e.aliases[at])
              && if exists j | 0 <= j < i :: e.aliases[at] in entries[j].aliases
                 then exists j | 0 <= j < i :: FirstToList(entries, j, e.aliases[at]) && entries[j].id == owner
                 else e.aliases[at] in e.aliases[..at] && owner == e.id
            case _ => true
  {
    var e := entries[p.index];
    match p
    case IdTaken(i, _) => FirstWithIdFinds(entries, i, e.id);
    case FolderTaken(i, owner) =>
      FolderOwnerFinds(entries, i, e.folder);
      FirstClaimIsOne(entries, i, e.folder);
    case AliasTaken(i, at, owner) =>
      if at < |e.aliases| {
        AliasOwnerFinds(entries, i, e.aliases[at]);
        FirstListIsOne(entries, i, e.aliases[at]);
      }
    case _ =>
  }

  lemma FirstClaimIsOne(entries: seq<EntityType>, n: nat, folder: string)
    requires n <= |entries|
    ensures forall i, j | 0 <= i < j < n :: !(FirstToClaim(entries, i, folder) && FirstToClaim(entries, j, folder))
  {
  }

  lemma FirstListIsOne(entries: seq<EntityType>, n: nat, name: string)
    requires n <= |entries|
    ensures forall i, j | 0 <= i < j < n :: !(FirstToList(entries, i, name) && FirstToList(entries, j, name))
  {
  }

  lemma CoherentIsClean(entries: seq<EntityType>, p: Problem)
    requires Coherent(entries)
    ensures !Found(entries, p)
  {
    if p.index < |entries| {
      var i := p.index;
      var e := entries[i];
      assert SoundEntry(e);
      match p
      case IdTaken(_, _) => FirstWithIdFinds(entries, i, e.id);
      case FolderTaken(_, _) => FolderOwnerFinds(entries, i, e.folder);
      case AliasIsId(_, at) => if at < |e.aliases| { NoAliasIsId(entries, i, at); }
      case AliasTaken(_, at, _) => if at < |e.aliases| { NoAliasIsShared(entries, i, at); }
      case _ =>
    }
  }

  lemma NoAliasIsId(entries: seq<EntityType>, i: nat, at: nat)
    requires Coherent(entries) && i < |entries| && at < |entries[i].aliases|
    ensures !HasId(entries, entries[i].aliases[at])
  {
    var name := entries[i].aliases[at];
    assert SoundEntry(entries[i]);
    forall j | 0 <= j < |entries| ensures entries[j].id != name {
      if j < i {
        assert Compatible(entries[j], entries[i]);
      } else if i < j {
        assert Compatible(entries[i], entries[j]);
      }
    }
  }

  lemma NoAliasIsShared(entries: seq<EntityType>, i: nat, at: nat)
    requires Coherent(entries) && i < |entries| && at < |entries[i].aliases|
    ensures OwnerBefore(entries, i, at, entries[i].aliases[at]).None?
  {
    var name := entries[i].aliases[at];
    assert SoundEntry(entries[i]);
    AliasOwnerFinds(entries, i, name);
    forall j | 0 <= j < i ensures name !in entries[j].aliases {
      assert Compatible(entries[j], entries[i]);
    }
  }

  lemma CleanEntry(entries: seq<EntityType>, i: nat)
    requires i < |entries| && forall p :: !Found(entries, p)
    ensures SoundEntry(entries[i])
  {
    var e := entries[i];
    assert !Found(entries, IdShape(i)) && !Found(entries, LabelEmpty(i));
    assert !Found(entries, KindUnknown(i)) && !Found(entries, DaysNegative(i));
    forall at | 0 <= at < |e.aliases| ensures e.aliases[at] != e.id && e.aliases[at] !in e.aliases[..at] {
      assert !Found(entries, AliasIsId(i, at));
      var owner := OwnerBefore(entries, i, at, e.aliases[at]);
      assert owner.Some? ==> !Found(entries, AliasTaken(i, at, owner.value));
    }
    forall a, b | 0 <= a < b < |e.aliases| ensures e.aliases[a] != e.aliases[b] {
      assert e.aliases[a] == e.aliases[..b][a];
      assert e.aliases[b] !in e.aliases[..b];
    }
  }

  lemma CleanAliases(entries: seq<EntityType>, i: nat, name: string)
    requires i < |entries| && name in entries[i].aliases && forall p :: !Found(entries, p)
    ensures !HasId(entries, name) && forall j | 0 <= j < i :: name !in entries[j].aliases
  {
    var at :| 0 <= at < |entries[i].aliases| && entries[i].aliases[at] == name;
    assert !Found(entries, AliasIsId(i, at));
    AliasOwnerFinds(entries, i, name);
    var owner := AliasOwner(entries, i, name);
    assert owner.Some? ==> !Found(entries, AliasTaken(i, at, owner.value));
  }

  lemma CleanPair(entries: seq<EntityType>, i: nat, j: nat)
    requires i < j < |entries| && forall p :: !Found(entries, p)
    ensures Compatible(entries[i], entries[j])
  {
    var a, b := entries[i], entries[j];
    FirstWithIdFinds(entries, j, b.id);
    var first := FirstWithId(entries, j, b.id);
    assert first.Some? ==> !Found(entries, IdTaken(j, first.value));
    FolderOwnerFinds(entries, j, b.folder);
    var owner := FolderOwner(entries, j, b.folder);
    assert owner.Some? ==> !Found(entries, FolderTaken(j, owner.value));
    forall name | name in b.aliases ensures name != a.id && name !in a.aliases {
      CleanAliases(entries, j, name);
    }
    forall name | name in a.aliases ensures name != b.id {
      CleanAliases(entries, i, name);
    }
  }

  /** A list is coherent exactly when it has no problem. */
  lemma CoherentHasNoProblem(entries: seq<EntityType>)
    ensures Coherent(entries) <==> forall p :: !Found(entries, p)
  {
    if forall p :: !Found(entries, p) {
      forall i | 0 <= i < |entries| ensures SoundEntry(entries[i]) { CleanEntry(entries, i); }
      forall i, j | 0 <= i < j < |entries| ensures Compatible(entries[i], entries[j]) { CleanPair(entries, i, j); }
    }
    if Coherent(entries) {
      forall p ensures !Found(entries, p) { CoherentIsClean(entries, p); }
    }
  }

  // ---- the registry ----

  const LEGACY_FOLDERS: map<string, string> := map["active" := "project", "completed" := "project"]

  /** The lookups, computed once from the enabled entries. */
  class EntityTypeRegistry {
    const entries: seq<EntityType>
    const byId: map<string, EntityType>
    const aliases: map<string, string>
    const folderTypes: map<string, string>

    constructor (entries: seq<EntityType>)
      ensures this.entries == entries
      ensures forall id :: Get(byId, id) == LastWithId(entries, id)
      ensures aliases == AliasMap(entries)
      ensures folderTypes == LEGACY_FOLDERS + FolderMap(entries)
      ensures forall folder ::
                Get(folderTypes, folder) ==
                if folder in FolderMap(entries) then Some(FolderMap(entries)[folder])
                else if folder == "active" || folder == "completed" then Some("project") else None
    {
      this.entries := entries;
      var ids: map<string, EntityType> := map[];
      var owners: map<string, string>, folders: map<string, string> := map[], map[];
      for i := 0 to |entries|
        invariant forall id :: Get(ids, id) == LastWithId(entries[..i], id)
        invariant owners == AliasMap(entries[..i])
        invariant folders == FolderMap(entries[..i])
      {
        var e := entries[i];
        assert entries[..i + 1] == entries[..i] + [e];
        ids := ids[e.id := e];
        if e.enabled {
          owners := owners + AliasesTo(e.aliases, e.id);
          if e.folder != "" {
            folders := folders[e.folder := e.id];
          }
        }
      }
      assert entries[..|entries|] == entries;
      byId, aliases, folderTypes := ids, owners, LEGACY_FOLDERS + folders;
    }
  }

  function AliasesTo(names: seq<string>, id: string): map<string, string> { map name | name in names :: id }

  /** Later entries win. */
  function AliasMap(entries: seq<EntityType>): map<string, string> {
    if entries == [] then map[]
    else
      var front, last := AliasMap(entries[..|entries| - 1]), entries[|entries| - 1];
      if last.enabled then front + AliasesTo(last.aliases, last.id) else front
  }

  function FolderMap(entries: seq<EntityType>): map<string, string> {
    if entries == [] then map[]
    else
      var front, last := FolderMap(entries[..|entries| - 1]), entries[|entries| - 1];
      if ClaimsFolder(last) then front[last.folder := last.id] else front
  }

  predicate AliasesOf(e: EntityType, name: string) { e.enabled && name in e.aliases }

  predicate FoldersOf(e: EntityType, folder: string) { ClaimsFolder(e) && e.folder == folder }

  /** The one entry of a coherent list that `owns` a name, if there is one. */
  ghost predicate Resolves(entries: seq<EntityType>, owns: EntityType -> bool, answer: Option<string>) {
    && (forall i | 0 <= i < |entries| && owns(entries[i]) :: answer == Some(entries[i].id))
    && (answer.Some? ==> exists i | 0 <= i < |entries| :: owns(entries[i]))
  }

  lemma ResolvesMore(front: seq<EntityType>, last: EntityType, owns: EntityType -> bool, answer: Option<string>)
    requires Resolves(front, owns, answer)
    requires owns(last) ==> forall i | 0 <= i < |front| :: !owns(front[i])
    ensures Resolves(front + [last], owns, if owns(last) then Some(last.id) else answer)
  {
    var entries := front + [last];
    if owns(last) {
      assert owns(entries[|front|]);
    } else if answer.Some? {
      var i :| 0 <= i < |front| && owns(front[i]);
      assert owns(entries[i]);
    }
  }

  lemma CoherentFront(front: seq<EntityType>, last: EntityType)
    requires Coherent(front + [last])
    ensures Coherent(front) && forall i | 0 <= i < |front| :: Compatible(front[i], last)
  {
    var entries := front + [last];
    forall i | 0 <= i < |front| ensures SoundEntry(front[i]) && Compatible(front[i], last) {
      assert SoundEntry(entries[i]) && Compatible(entries[i], entries[|front|]);
    }
    forall i, j | 0 <= i < j < |front| ensures Compatible(front[i], front[j]) {
      assert Compatible(entries[i], entries[j]);
    }
  }

  /** Every alias of an enabled entry resolves to that entry, and nothing else resolves. */
  lemma {:induction false} AliasesResolve(entries: seq<EntityType>, name: string)
    requires Coherent(entries)
    ensures Resolves(entries, e => AliasesOf(e, name), Get(AliasMap(entries), name))
  {
    if entries != [] {
      var front, last := entries[..|entries| - 1], entries[|entries| - 1];
      assert front + [last] == entries;
      CoherentFront(front, last);
      AliasesResolve(front, name);
      ResolvesMore(front, last, e => AliasesOf(e, name), Get(AliasMap(front), name));
    }
  }

  /** Every folder of an enabled entry resolves to that entry. */
  lemma {:induction false} FoldersResolve(entries: seq<EntityType>, folder: string)
    requires Coherent(entries)
    ensures Resolves(entries, e => FoldersOf(e, folder), Get(FolderMap(entries), folder))
  {
    if entries != [] {
      var front, last := entries[..|entries| - 1], entries[|entries| - 1];
      assert front + [last] == entries;
      CoherentFront(front, last);
      FoldersResolve(front, folder);
      ResolvesMore(front, last, e => FoldersOf(e, folder), Get(FolderMap(front), folder));
    }
  }

  /** In any list, coherent or not, the last enabled entry with an alias or a folder has it. */
  lemma {:induction false} LaterEntriesWin(entries: seq<EntityType>, name: string)
    ensures match Get(AliasMap(entries), name)
            case Some(id) =>
              exists i | 0 <= i < |entries| ::
                && entries[i].enabled && name in entries[i].aliases && entries[i].id == id
                && forall j | i < j < |entries| :: !(entries[j].enabled && name in entries[j].aliases)
            case None => forall i | 0 <= i < |entries| :: !(entries[i].enabled && name in entries[i].aliases)
    ensures match Get(FolderMap(entries), name)
            case Some(id) =>
              name != "" && exists i | 0 <= i < |entries| ::
                && entries[i].enabled && entries[i].folder == name && entries[i].id == id
                && forall j | i < j < |entries| :: !(entries[j].enabled && entries[j].folder == name)
            case None =>
              name == "" || forall i | 0 <= i < |entries| :: !(entries[i].enabled && entries[i].folder == name)
  {
    if entries != [] {
      var n := |entries| - 1;
      LaterEntriesWin(entries[..n], name);
      assert forall i | 0 <= i < n :: entries[..n][i] == entries[i];
    }
  }

  // ---- the order of the entries does not matter ----

  predicate Shuffled(a: seq<EntityType>, b: seq<EntityType>) { multiset(a) == multiset(b) }

  lemma Reordered(a: seq<EntityType>, b: seq<EntityType>, i: nat) returns (j: nat)
    requires Shuffled(a, b) && i < |b|
    ensures j < |a| && a[j] == b[i]
  {
    assert b[i] in multiset(b);
    j :| 0 <= j < |a| && a[j] == b[i];
  }

  lemma OnlyOnce(a: seq<EntityType>, i: nat)
    requires i < |a| && forall j | 0 <= j < |a| && j != i :: a[j] != a[i]
    ensures multiset(a)[a[i]] == 1
  {
    var front, rest := a[..i], a[i + 1..];
    assert a == front + [a[i]] + rest;
    assert multiset(a) == multiset(front) + multiset{a[i]} + multiset(rest);
    assert a[i] !in front && a[i] !in rest;
  }

  lemma NoRepeats(a: seq<EntityType>, x: EntityType)
    requires Coherent(a)
    ensures multiset(a)[x] <= 1
  {
    if x in a {
      var i :| 0 <= i < |a| && a[i] == x;
      forall j | 0 <= j < |a| && j != i ensures a[j] != x {
        CompatibleOrder(a, i, j);
      }
      OnlyOnce(a, i);
    }
  }

  lemma TwiceIsTwo(b: seq<EntityType>, i: nat, j: nat)
    requires i < j < |b| && b[i] == b[j]
    ensures multiset(b)[b[i]] >= 2
  {
    assert b == b[..i] + [b[i]] + b[i + 1..j] + [b[j]] + b[j + 1..];
  }

  lemma CompatibleOrder(a: seq<EntityType>, i: nat, j: nat)
    requires Coherent(a) && i < |a| && j < |a| && i != j
    ensures Compatible(a[i], a[j])
  {
    if i > j {
      assert Compatible(a[j], a[i]);
    }
  }

  /** Coherence is a property of the set of entries, not of their order. */
  lemma CoherentInAnyOrder(a: seq<EntityType>, b: seq<EntityType>)
    requires Coherent(a) && Shuffled(a, b)
    ensures Coherent(b)
  {
    forall i | 0 <= i < |b| ensures SoundEntry(b[i]) {
      var p := Reordered(a, b, i);
      assert SoundEntry(a[p]);
    }
    forall i, j | 0 <= i < j < |b| ensures Compatible(b[i], b[j]) {
      var p := Reordered(a, b, i);
      var q := Reordered(a, b, j);
      assert b[i] != b[j] by {
        NoRepeats(a, b[i]);
        if b[i] == b[j] { TwiceIsTwo(b, i, j); }
      }
      CompatibleOrder(a, p, q);
    }
  }

  lemma SameAnswer(a: seq<EntityType>, b: seq<EntityType>, owns: EntityType -> bool,
                   x: Option<string>, y: Option<string>)
    requires Shuffled(a, b) && Resolves(a, owns, x) && Resolves(b, owns, y)
    ensures x == y
  {
    if x.Some? {
      var i :| 0 <= i < |a| && owns(a[i]);
      var j := Reordered(b, a, i);
      assert owns(b[j]);
    }
    if y.Some? {
      var i :| 0 <= i < |b| && owns(b[i]);
      var j := Reordered(a, b, i);
      assert owns(a[j]);
    }
  }

  /** Two orders of a coherent list give the same registry lookups. */
  lemma LookupsIgnoreOrder(a: seq<EntityType>, b: seq<EntityType>)
    requires Coherent(a) && Shuffled(a, b)
    ensures AliasMap(a) == AliasMap(b) && FolderMap(a) == FolderMap(b)
  {
    CoherentInAnyOrder(a, b);
    forall name ensures Get(AliasMap(a), name) == Get(AliasMap(b), name) {
      AliasesResolve(a, name);
      AliasesResolve(b, name);
      SameAnswer(a, b, e => AliasesOf(e, name), Get(AliasMap(a), name), Get(AliasMap(b), name));
    }
    forall folder ensures Get(FolderMap(a), folder) == Get(FolderMap(b), folder) {
      FoldersResolve(a, folder);
      FoldersResolve(b, folder);
      SameAnswer(a, b, e => FoldersOf(e, folder), Get(FolderMap(a), folder), Get(FolderMap(b), folder));
    }
    SameMaps(AliasMap(a), AliasMap(b));
    SameMaps(FolderMap(a), FolderMap(b));
  }

  lemma SameMaps(m: map<string, string>, n: map<string, string>)
    requires forall key :: Get(m, key) == Get(n, key)
    ensures m == n
  {
    forall key ensures key in m <==> key in n {
      assert Get(m, key) == Get(n, key);
    }
    forall key | key in m ensures m[key] == n[key] {
      assert Get(m, key) == Get(n, key);
    }
  }

  // ---- a submitted list ----

  datatype Submission = Duplicate(id: string) | Malformed(why: Refusal) | Entries(entries: seq<EntityType>)

  /** The first row whose id an earlier row has. */
  function FirstDuplicate(stated: seq<Stated>, seen: set<string>): Option<string> {
    if stated == [] then None
    else if stated[0].entry.id in seen then Some(stated[0].entry.id)
    else FirstDuplicate(stated[1..], seen + {stated[0].entry.id})
  }

  lemma {:induction false} DuplicateFound(stated: seq<Stated>, seen: set<string>)
    ensures FirstDuplicate(stated, seen).None? <==>
            UniqueKeys(stated) && forall i | 0 <= i < |stated| :: stated[i].entry.id !in seen
  {
    if stated != [] {
      DuplicateFound(stated[1..], seen + {stated[0].entry.id});
      if FirstDuplicate(stated, seen).None? {
        forall i | 1 <= i < |stated| ensures stated[i].entry.id !in seen && stated[i].entry.id != stated[0].entry.id {
          assert stated[i] == stated[1..][i - 1];
        }
      }
    }
  }

  /** The id that is named is that of a row, and an earlier row has it. */
  lemma {:induction false} DuplicateIsRepeated(stated: seq<Stated>, n: nat, seen: set<string>)
    requires n <= |stated| && FirstDuplicate(stated[n..], seen).Some?
    requires forall id | id in seen :: exists i | 0 <= i < n :: stated[i].entry.id == id
    ensures var id := FirstDuplicate(stated[n..], seen).value;
            exists i, j | 0 <= i < j < |stated| :: stated[i].entry.id == id == stated[j].entry.id
    decreases |stated| - n
  {
    assert stated[n..] != [] && stated[n..][0] == stated[n] && stated[n..][1..] == stated[n + 1..];
    if stated[n].entry.id !in seen {
      DuplicateIsRepeated(stated, n + 1, seen + {stated[n].entry.id});
    }
  }

  method ParsePayload(shipped: Shipped, rows: seq<Row>) returns (r: Submission)
    ensures match Parse(rows, false, true)
            case Refused(why) => r == Malformed(why)
            case Ok(stated) =>
              if UniqueKeys(stated) then r == Entries(Merged(shipped, stated))
              else r.Duplicate? && exists i, j | 0 <= i < j < |stated| ::
                     stated[i].entry.id == r.id == stated[j].entry.id
  {
    match Parse(rows, false, true)
    case Refused(why) => r := Malformed(why);
    case Ok(stated) =>
      DuplicateFound(stated, {});
      var seen: set<string> := {};
      assert stated[0..] == stated;
      for i := 0 to |stated|
        invariant FirstDuplicate(stated, {}) == FirstDuplicate(stated[i..], seen)
      {
        assert stated[i..][0] == stated[i] && stated[i..][1..] == stated[i + 1..];
        if stated[i].entry.id in seen {
          DuplicateIsRepeated(stated, 0, {});
          return Duplicate(stated[i].entry.id);
        }
        seen := seen + {stated[i].entry.id};
      }
      var entries := Merge(shipped, stated);
      r := Entries(entries);
  }

  // ---- the lists that ship ----

  /** The marks that a shipped file states only where they are true. */
  function Marks(e: EntityType): set<string> {
    (if e.core then {"core"} else {}) + (if e.hidden then {"hidden"} else {}) + (if e.builtin then {"builtin"} else {})
  }

  /** An entry as a shipped file spells it. */
  function ShippedRow(e: EntityType): Row { (map key | key in Marks(e) :: Flag(true)) + RowOf(e) }

  function ShippedRows(entries: seq<EntityType>): seq<Row> {
    seq(|entries|, i requires 0 <= i < |entries| => ShippedRow(entries[i]))
  }

  /** The row holds what the entry does, and no key that the loader does not know. */
  ghost predicate Spells(raw: Row, e: EntityType) {
    && (forall key | key in raw :: IsKnownKey(key))
    && (forall key | key in RowOf(e) :: key in raw && raw[key] == RowOf(e)[key])
    && (if "core" in raw then raw["core"] == Flag(e.core) else !e.core)
    && (if "hidden" in raw then raw["hidden"] == Flag(e.hidden) else !e.hidden)
  }

  lemma RowKeysAreKnown(e: EntityType)
    ensures forall key | key in RowOf(e) :: IsKnownKey(key)
  {
    assert Key(Label) == "label" && Key(Kind) == "kind" && Key(Folder) == "folder" && Key(Enabled) == "enabled";
    assert Key(Description) == "description" && Key(Aliases) == "aliases" && Key(StaleAfterDays) == "stale_after_days";
  }

  lemma MarksAreKnown(e: EntityType)
    ensures forall key | key in Marks(e) :: IsKnownKey(key)
  {
    assert Key(Core) == "core" && Key(Hidden) == "hidden";
  }

  lemma MarksAreNoRowKeys(e: EntityType)
    ensures "core" !in RowOf(e) && "hidden" !in RowOf(e)
  {
    assert RowOf(e).Keys ==
           {"id", "label", "kind", "folder", "description", "aliases", "stale_after_days", "enabled"};
    assert "core"[0] == 'c' && "hidden"[0] == 'h';
  }

  lemma MarkedWhenTrue(e: EntityType)
    ensures ("core" in Marks(e) <==> e.core) && ("hidden" in Marks(e) <==> e.hidden)
  {
    assert "core"[0] == 'c' && "hidden"[0] == 'h' && "builtin"[0] == 'b';
  }

  lemma ShippedRowSpells(e: EntityType)
    ensures Spells(ShippedRow(e), e)
  {
    hide RowOf, Marks, IsKnownKey;
    RowKeysAreKnown(e);
    MarksAreKnown(e);
    MarksAreNoRowKeys(e);
    MarkedWhenTrue(e);
  }

  lemma AliasesAreNames(e: EntityType)
    requires WellFormed(e)
    ensures IsNames(RowOf(e)["aliases"]) && AsNames(RowOf(e)["aliases"]) == e.aliases
  {
    forall i | 0 <= i < |e.aliases| ensures e.aliases[i] != "" {
      assert e.aliases[i] in e.aliases;
    }
  }

  /** What the loader reads of each field. */
  predicate ReadsAs(raw: Row, e: EntityType) {
    && "id" in raw && raw["id"] == Str(e.id) && "label" in raw && "kind" in raw && "enabled" in raw
    && Read(raw, Label, false, Str("")) == Str(e.labelText) && Read(raw, Kind, false, Str("note")) == Str(e.kind)
    && Read(raw, Folder, false, Str("")) == Str(e.folder)
    && Read(raw, Description, false, Str("")) == Str(e.description)
    && Read(raw, Aliases, false, List([])) == RowOf(e)["aliases"]
    && Read(raw, StaleAfterDays, false, Num(0)) == Num(e.staleAfterDays)
    && Read(raw, Enabled, false, Flag(true)) == Flag(e.enabled)
    && Read(raw, Core, false, Flag(false)) == Flag(e.core) && Read(raw, Hidden, false, Flag(false)) == Flag(e.hidden)
  }

  lemma RowFields(e: EntityType)
    ensures var r := RowOf(e);
            && "id" in r && r["id"] == Str(e.id) && "label" in r && r["label"] == Str(e.labelText)
            && "kind" in r && r["kind"] == Str(e.kind) && "folder" in r && r["folder"] == Str(e.folder)
            && "description" in r && r["description"] == Str(e.description) && "aliases" in r
            && "stale_after_days" in r && r["stale_after_days"] == Num(e.staleAfterDays)
            && "enabled" in r && r["enabled"] == Flag(e.enabled)
  {
  }

  lemma SpelledIsRead(raw: Row, e: EntityType)
    requires Spells(raw, e)
    ensures ReadsAs(raw, e)
  {
    hide IsKnownKey, RowOf;
    RowFields(e);
  }

  lemma ShippedRowParses(e: EntityType, builtin: bool)
    requires WellFormed(e) && e.labelText != ""
    ensures ParseEntry(ShippedRow(e), builtin, false).Ok?
    ensures ParseEntry(ShippedRow(e), builtin, false).value.entry == e.(builtin := builtin)
  {
    hide ShippedRow, IsKnownKey, Read, RowOf, StatedFields, AsNames, IsNames;
    ShippedRowSpells(e);
    SpelledIsRead(ShippedRow(e), e);
    AliasesAreNames(e);
  }

  function EntriesOf(stated: seq<Stated>): seq<EntityType> {
    seq(|stated|, i requires 0 <= i < |stated| => stated[i].entry)
  }

  /** A shipped file parses as the entries it spells. */
  lemma {:induction false} ShippedRowsParse(entries: seq<EntityType>, builtin: bool)
    requires forall e | e in entries :: WellFormed(e) && e.labelText != "" && e.builtin == builtin
    ensures Parse(ShippedRows(entries), builtin, false).Ok?
    ensures EntriesOf(Parse(ShippedRows(entries), builtin, false).value) == entries
  {
    hide ParseEntry, ShippedRow;
    if entries != [] {
      ShippedRowParses(entries[0], builtin);
      ShippedRowsParse(entries[1..], builtin);
      assert ShippedRows(entries)[1..] == ShippedRows(entries[1..]);
      var more := Parse(ShippedRows(entries[1..]), builtin, false).value;
      var all := Parse(ShippedRows(entries), builtin, false).value;
      assert EntriesOf(all) == [entries[0]] + EntriesOf(more);
    }
  }

  function StockEntry(id: string, label_: string, kind: string, folder: string, says: string, aliases: seq<string>,
                      days: nat, core: bool, hidden: bool): EntityType
  {
    EntityType(id, label_, kind, folder, says, aliases, days, true, true, core, hidden)
  }

  /** The stock categories; their descriptions are given. */
  function Stock(says: string -> string): seq<EntityType> {
    [StockEntry("person", "Person", "entity", "People", says("person"), [], 90, false, false),
     StockEntry("project", "Project", "entity", "Projects", says("project"), [], 30, true, false),
     StockEntry("place", "Place", "entity", "Places", says("place"), [], 0, false, false),
     StockEntry("idea", "Idea", "entity", "Ideas", says("idea"), [], 0, false, false),
     StockEntry("resource", "Resource", "entity", "Resources", says("resource"), [], 0, false, false),
     StockEntry("journal", "Journal", "note", "journal", says("journal"),
                ["hackathon-log", "log", "project-log"], 0, false, false),
     StockEntry("note", "Note", "note", "", says("note"), ["discussion-prep"], 0, false, false),
     StockEntry("workspace", "Workspace", "note", "Workspace", says("workspace"), [], 0, true, true),
     StockEntry("skill-proposal", "Skill proposal", "note", "", says("skill-proposal"), [], 0, true, true)]
  }

  function RetiredEntry(id: string, label_: string, folder: string, says: string, aliases: seq<string>): EntityType {
    EntityType(id, label_, "note", folder, says, aliases, 0, true, false, false, false)
  }

  /** The categories that stock no longer has. */
  function Retired(says: string -> string): seq<EntityType> {
    [RetiredEntry("product", "Product", "products", says("product"), []),
     RetiredEntry("feature", "Feature", "features", says("feature"), ["feature-brief"]),
     RetiredEntry("automation", "Automation", "automations", says("automation"), []),
     RetiredEntry("document", "Document", "Documents", says("document"), ["doc", "plan", "planning-doc", "template"]),
     RetiredEntry("reference", "Reference", "references", says("reference"), ["analysis"]),
     RetiredEntry("content", "Content", "content", says("content"), [])]
  }

  /** Ids that differ in length or in their first letters. */
  lemma StockIdsDiffer(says: string -> string)
    ensures UniqueIds(Stock(says))
  {
    var ids := ["person", "project", "place", "idea", "resource", "journal", "note", "workspace", "skill-proposal"];
    assert |Stock(says)| == 9 && forall i | 0 <= i < 9 :: Stock(says)[i].id == ids[i];
    assert ids[2][1] == 'l' && ids[0][0] == 'p' && ids[1][0] == 'p';
    assert forall i, j | 0 <= i < j < 9 :: ids[i] != ids[j];
  }

  predicate IsStockEntry(e: EntityType) { WellFormed(e) && e.labelText != "" && e.builtin }

  lemma StockIsWellFormed(says: string -> string)
    ensures forall e | e in Stock(says) :: IsStockEntry(e)
  {
    forall i | 0 <= i < 9 ensures IsStockEntry(Stock(says)[i]) {
    }
  }

  lemma RetiredAreWellFormed(says: string -> string)
    ensures forall e | e in Retired(says) :: WellFormed(e) && e.labelText != "" && !e.builtin
  {
  }

  /** The two files that ship parse as these lists, which are what the save and the merge rely on. */
  lemma ShippedIsSound(says: string -> string)
    ensures Parse(ShippedRows(Stock(says)), true, false).Ok? && Parse(ShippedRows(Retired(says)), false, false).Ok?
    ensures EntriesOf(Parse(ShippedRows(Stock(says)), true, false).value) == Stock(says)
    ensures EntriesOf(Parse(ShippedRows(Retired(says)), false, false).value) == Retired(says)
    ensures Sound(Shipped(Stock(says), Retired(says)))
  {
    hide Stock, Retired, WellFormed;
    StockIsWellFormed(says);
    RetiredAreWellFormed(says);
    StockIdsDiffer(says);
    ShippedRowsParse(Stock(says), true);
    ShippedRowsParse(Retired(says), false);
  }

  lemma {:induction false} PersistedComeFrom(stock: seq<EntityType>, entries: seq<EntityType>)
    ensures forall e | e in Persisted(stock, entries) :: e in entries
  {
    if entries != [] {
      PersistedComeFrom(stock, entries[1..]);
    }
  }

  /** A submission that is accepted is served again unchanged after it is saved. */
  lemma AcceptedListIsServed(shipped: Shipped, rows: seq<Row>)
    requires Sound(shipped) && Parse(rows, false, true).Ok?
    requires Coherent(Merged(shipped, Parse(rows, false, true).value))
    ensures var entries := Merged(shipped, Parse(rows, false, true).value);
            SavedThenLoaded(shipped, entries) == entries
  {
    var overrides := Parse(rows, false, true).value;
    var entries := Merged(shipped, overrides);
    ParsedAreFromFile(rows);
    SaveLoadFixpoint(shipped, overrides);
    PersistedComeFrom(shipped.stock, entries);
    forall e | e in entries ensures e.labelText != "" {
      var i :| 0 <= i < |entries| && entries[i] == e;
      assert SoundEntry(entries[i]);
    }
  }
}
