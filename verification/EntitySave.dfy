/** Saving the user's edit and reading it back: what the merge does with a list of overrides,
    and when a saved list is the list that is served again. */
module EntitySave {
  import opened Basics
  import opened EntityTypes

  predicate UniqueIds(entries: seq<EntityType>) {
    forall i, j | 0 <= i < j < |entries| :: entries[i].id != entries[j].id
  }

  predicate UniqueKeys(pending: seq<Stated>) {
    forall i, j | 0 <= i < j < |pending| :: pending[i].entry.id != pending[j].entry.id
  }

  predicate HasId(entries: seq<EntityType>, id: string) { exists i | 0 <= i < |entries| :: entries[i].id == id }

  // ---- the dictionary of overrides ----

  /** The last row with an id is the one that counts. */
  function LastStated(overrides: seq<Stated>, id: string): Option<Stated> {
    if overrides == [] || id in FOLDED then None
    else if overrides[|overrides| - 1].entry.id == id then Some(overrides[|overrides| - 1])
    else LastStated(overrides[..|overrides| - 1], id)
  }

  lemma {:induction false} FindPut(pending: seq<Stated>, s: Stated, id: string)
    ensures Find(Put(pending, s), id) == if s.entry.id == id then Some(s) else Find(pending, id)
  {
    if pending != [] && pending[0].entry.id != s.entry.id {
      FindPut(pending[1..], s, id);
    }
  }

  lemma {:induction false} FindRemove(pending: seq<Stated>, a: string, id: string)
    requires a != id
    ensures Find(Remove(pending, a), id) == Find(pending, id)
  {
    if pending != [] && pending[0].entry.id != a {
      FindRemove(pending[1..], a, id);
    }
  }

  lemma {:induction false} FindPending(overrides: seq<Stated>, id: string)
    ensures Find(Pending(overrides), id) == LastStated(overrides, id)
  {
    if overrides != [] {
      var front, last := overrides[..|overrides| - 1], overrides[|overrides| - 1];
      FindPending(front, id);
      if last.entry.id !in FOLDED {
        FindPut(Pending(front), last, id);
      }
    }
  }

  lemma {:induction false} FindIsThere(pending: seq<Stated>, id: string)
    ensures Find(pending, id).Some? <==> exists i | 0 <= i < |pending| :: pending[i].entry.id == id
    ensures Find(pending, id).Some? ==> Find(pending, id).value in pending && Find(pending, id).value.entry.id == id
  {
    if pending != [] {
      FindIsThere(pending[1..], id);
      if pending[0].entry.id != id {
        if i :| 0 <= i < |pending| && pending[i].entry.id == id {
          assert pending[1..][i - 1].entry.id == id;
        }
        if i :| 0 <= i < |pending[1..]| && pending[1..][i].entry.id == id {
          assert pending[i + 1].entry.id == id;
        }
      }
    }
  }

  /** Setting a key keeps the order of the keys, and appends only a new one. */
  lemma {:induction false} PutNew(pending: seq<Stated>, s: Stated)
    requires Find(pending, s.entry.id).None?
    ensures Put(pending, s) == pending + [s]
  {
    if pending != [] {
      PutNew(pending[1..], s);
    }
  }

  lemma {:induction false} PutKnown(pending: seq<Stated>, s: Stated)
    requires Find(pending, s.entry.id).Some?
    ensures |Put(pending, s)| == |pending|
    ensures forall i | 0 <= i < |pending| :: Put(pending, s)[i].entry.id == pending[i].entry.id
  {
    if pending[0].entry.id != s.entry.id {
      PutKnown(pending[1..], s);
    }
  }

  lemma {:induction false} PendingIsDictionary(overrides: seq<Stated>)
    ensures UniqueKeys(Pending(overrides))
  {
    if overrides != [] {
      var front, last := Pending(overrides[..|overrides| - 1]), overrides[|overrides| - 1];
      PendingIsDictionary(overrides[..|overrides| - 1]);
      if last.entry.id !in FOLDED {
        FindIsThere(front, last.entry.id);
        if Find(front, last.entry.id).None? { PutNew(front, last); } else { PutKnown(front, last); }
      }
    }
  }

  // ---- what a merge answers ----

  /** Each stock entry with the last override of its id, if there is one. */
  lemma {:induction false} StockEntriesMerged(stock: seq<EntityType>, pending: seq<Stated>)
    requires UniqueIds(stock)
    ensures var merged := MergeStock(stock, pending).0;
            |merged| == |stock|
            && forall i | 0 <= i < |stock| :: merged[i] == Landed(stock[i], Find(pending, stock[i].id))
  {
    if stock != [] {
      var rest := Remove(pending, stock[0].id);
      StockEntriesMerged(stock[1..], rest);
      forall i | 1 <= i < |stock|
        ensures MergeStock(stock, pending).0[i] == Landed(stock[i], Find(pending, stock[i].id))
      {
        assert stock[1..][i - 1] == stock[i];
        FindRemove(pending, stock[0].id, stock[i].id);
      }
    }
  }

  /** The overrides whose id is not in the list, in their order. */
  function Others(stock: seq<EntityType>, pending: seq<Stated>): seq<Stated> {
    if pending == [] then []
    else (if HasId(stock, pending[0].entry.id) then [] else [pending[0]]) + Others(stock, pending[1..])
  }

  lemma HasIdHead(stock: seq<EntityType>, id: string)
    requires stock != []
    ensures HasId(stock, id) <==> stock[0].id == id || HasId(stock[1..], id)
  {
    if i :| 0 <= i < |stock| && stock[i].id == id && i > 0 {
      assert stock[1..][i - 1].id == id;
    }
    if i :| 0 <= i < |stock[1..]| && stock[1..][i].id == id {
      assert stock[i + 1].id == id;
    }
  }

  predicate Lacks(pending: seq<Stated>, id: string) { forall i | 0 <= i < |pending| :: pending[i].entry.id != id }

  lemma {:induction false} OthersWithout(stock: seq<EntityType>, pending: seq<Stated>)
    requires stock != [] && Lacks(pending, stock[0].id)
    ensures Others(stock, pending) == Others(stock[1..], pending)
  {
    if pending != [] {
      OthersWithout(stock, pending[1..]);
      HasIdHead(stock, pending[0].entry.id);
    }
  }

  lemma {:induction false} OthersAfterRemove(stock: seq<EntityType>, pending: seq<Stated>)
    requires stock != [] && UniqueKeys(pending)
    ensures Others(stock, pending) == Others(stock[1..], Remove(pending, stock[0].id))
  {
    if pending != [] {
      HasIdHead(stock, pending[0].entry.id);
      if pending[0].entry.id == stock[0].id {
        OthersWithout(stock, pending[1..]);
      } else {
        OthersAfterRemove(stock, pending[1..]);
      }
    }
  }

  lemma {:induction false} RemoveKeepsKeys(pending: seq<Stated>, id: string)
    requires UniqueKeys(pending)
    ensures UniqueKeys(Remove(pending, id)) && forall s | s in Remove(pending, id) :: s in pending
  {
    if pending != [] && pending[0].entry.id != id {
      RemoveKeepsKeys(pending[1..], id);
      var rest := Remove(pending[1..], id);
      forall j | 0 <= j < |rest| ensures rest[j].entry.id != pending[0].entry.id {
        assert rest[j] in rest && rest[j] in pending[1..];
        var k :| 0 <= k < |pending[1..]| && pending[1..][k] == rest[j];
        assert pending[k + 1] == rest[j];
      }
    }
  }

  lemma {:induction false} MergeLeavesOthers(stock: seq<EntityType>, pending: seq<Stated>)
    requires UniqueKeys(pending)
    ensures MergeStock(stock, pending).1 == Others(stock, pending)
  {
    if stock == [] {
      OthersOfNone(pending);
    } else {
      OthersAfterRemove(stock, pending);
      RemoveKeepsKeys(pending, stock[0].id);
      MergeLeavesOthers(stock[1..], Remove(pending, stock[0].id));
    }
  }

  lemma {:induction false} OthersOfNone(pending: seq<Stated>)
    ensures Others([], pending) == pending
  {
    if pending != [] {
      OthersOfNone(pending[1..]);
    }
  }

  /** A merge answers the stock list in its own order, each entry with the last override of
      its id, then the other overrides as custom categories. */
  lemma MergeAnswers(shipped: Shipped, overrides: seq<Stated>)
    requires UniqueIds(shipped.stock)
    ensures var entries := Merged(shipped, overrides); var n := |shipped.stock|;
            && n <= |entries|
            && (forall i | 0 <= i < n ::
                  entries[i] == Landed(shipped.stock[i], LastStated(overrides, shipped.stock[i].id)))
            && entries[n..] == Customs(shipped.retired, Others(shipped.stock, Pending(overrides)))
  {
    var pending := Pending(overrides);
    PendingIsDictionary(overrides);
    StockEntriesMerged(shipped.stock, pending);
    MergeLeavesOthers(shipped.stock, pending);
    forall i | 0 <= i < |shipped.stock|
      ensures Find(pending, shipped.stock[i].id) == LastStated(overrides, shipped.stock[i].id)
    {
      FindPending(overrides, shipped.stock[i].id);
    }
  }

  /** Each field of an edited entry: the row's where the row states it, and the base's otherwise;
      what makes it core, hidden, shipped or itself stays, and a core entry cannot be switched off. */
  predicate Edited(base: EntityType, s: Stated, e: EntityType) {
    && e.id == base.id && e.builtin == base.builtin && e.core == base.core && e.hidden == base.hidden
    && e.labelText == (if Label in s.names then s.entry.labelText else base.labelText)
    && e.kind == (if Kind in s.names then s.entry.kind else base.kind)
    && e.folder == (if Folder in s.names then s.entry.folder else base.folder)
    && e.description == (if Description in s.names then s.entry.description else base.description)
    && e.aliases == (if Aliases in s.names then s.entry.aliases else base.aliases)
    && e.staleAfterDays == (if StaleAfterDays in s.names then s.entry.staleAfterDays else base.staleAfterDays)
    && e.enabled == (if Enabled in s.names && !base.core then s.entry.enabled else base.enabled)
  }

  /** The last row that names the id, if it is not one that stock has made an alias. */
  predicate IsLastRow(overrides: seq<Stated>, id: string, i: int) {
    && 0 <= i < |overrides| && overrides[i].entry.id == id
    && forall j | i < j < |overrides| :: overrides[j].entry.id != id
  }

  lemma {:induction false} LastRowIsFound(overrides: seq<Stated>, id: string)
    ensures match LastStated(overrides, id)
            case Some(s) => id !in FOLDED && exists i :: IsLastRow(overrides, id, i) && overrides[i] == s
            case None => id in FOLDED || forall i | 0 <= i < |overrides| :: overrides[i].entry.id != id
  {
    if overrides != [] && id !in FOLDED {
      var n := |overrides| - 1;
      LastRowIsFound(overrides[..n], id);
      if overrides[n].entry.id == id {
        assert IsLastRow(overrides, id, n);
      } else if LastStated(overrides[..n], id).Some? {
        var i :| IsLastRow(overrides[..n], id, i) && overrides[..n][i] == LastStated(overrides[..n], id).value;
        assert IsLastRow(overrides, id, i);
      }
    }
  }

  lemma EditsFieldByField(base: EntityType, s: Stated)
    requires s.names <= FILE_FIELDS
    ensures Edited(base, s, Apply(base, s))
  {
  }

  /** A merge, row by row and field by field: a stock entry that no row names, or that has become an
      alias, stays; any other is edited by the last row that names it. */
  lemma StockEntriesTakeTheirLastRow(shipped: Shipped, overrides: seq<Stated>, k: nat)
    requires UniqueIds(shipped.stock) && (forall s | s in overrides :: s.names <= FILE_FIELDS) && k < |shipped.stock|
    ensures var base := shipped.stock[k];
            && k < |Merged(shipped, overrides)|
            && (base.id == "log" || (forall i | 0 <= i < |overrides| :: overrides[i].entry.id != base.id) ==>
                  Merged(shipped, overrides)[k] == base)
            && (forall i | IsLastRow(overrides, base.id, i) && base.id != "log" ::
                  Edited(base, overrides[i], Merged(shipped, overrides)[k]))
  {
    hide Apply, Edited;
    var base := shipped.stock[k];
    MergeAnswers(shipped, overrides);
    LastRowIsFound(overrides, base.id);
    match LastStated(overrides, base.id)
    case None =>
    case Some(s) =>
      var i :| IsLastRow(overrides, base.id, i) && overrides[i] == s;
      assert s in overrides;
      EditsFieldByField(base, s);
      forall j | IsLastRow(overrides, base.id, j) ensures j == i {
      }
  }

  function IdsOf(pending: seq<Stated>): seq<string> {
    seq(|pending|, i requires 0 <= i < |pending| => pending[i].entry.id)
  }

  /** The dictionary of rows has each id once, at the place of its first row; a row for an id that has
      become an alias is passed over. */
  lemma RowsKeepTheirFirstPlace(front: seq<Stated>, last: Stated)
    ensures IdsOf(Pending(front + [last])) ==
            if last.entry.id == "log" || last.entry.id in IdsOf(Pending(front)) then IdsOf(Pending(front))
            else IdsOf(Pending(front)) + [last.entry.id]
  {
    var before := Pending(front);
    assert (front + [last])[..|front|] == front;
    FindIsThere(before, last.entry.id);
    assert last.entry.id in IdsOf(before) <==> Find(before, last.entry.id).Some? by {
      if i :| 0 <= i < |before| && before[i].entry.id == last.entry.id {
        assert IdsOf(before)[i] == last.entry.id;
      }
    }
    if last.entry.id != "log" {
      if Find(before, last.entry.id).None? { PutNew(before, last); } else { PutKnown(before, last); }
    }
  }

  lemma {:induction false} UniqueIsFound(pending: seq<Stated>, k: nat)
    requires UniqueKeys(pending) && k < |pending|
    ensures Find(pending, pending[k].entry.id) == Some(pending[k])
  {
    if k > 0 {
      assert pending[1..][k - 1] == pending[k];
      UniqueIsFound(pending[1..], k - 1);
    }
  }

  // ---- saving ----

  function RowOf(e: EntityType): Row {
    map["id" := Str(e.id), "label" := Str(e.labelText), "kind" := Str(e.kind), "folder" := Str(e.folder),
        "description" := Str(e.description),
        "aliases" := List(seq(|e.aliases|, i requires 0 <= i < |e.aliases| => Str(e.aliases[i]))),
        "stale_after_days" := Num(e.staleAfterDays), "enabled" := Flag(e.enabled)]
  }

  predicate SameFile(a: EntityType, b: EntityType) {
    && a.id == b.id && a.labelText == b.labelText && a.kind == b.kind && a.folder == b.folder
    && a.description == b.description && a.aliases == b.aliases
    && a.staleAfterDays == b.staleAfterDays && a.enabled == b.enabled
  }

  /** A row worth keeping: a custom category, or a stock one that differs from its default. */
  predicate IsPersisted(stock: seq<EntityType>, e: EntityType) {
    match LastWithId(stock, e.id) case None => true case Some(default) => !SameFile(e, default)
  }

  function Persisted(stock: seq<EntityType>, entries: seq<EntityType>): seq<EntityType> {
    if entries == [] then []
    else (if IsPersisted(stock, entries[0]) then [entries[0]] else []) + Persisted(stock, entries[1..])
  }

  function Rows(entries: seq<EntityType>): seq<Row> {
    seq(|entries|, i requires 0 <= i < |entries| => RowOf(entries[i]))
  }

  /** A file that does not parse is dropped whole. */
  function Load(shipped: Shipped, rows: seq<Row>): seq<EntityType> {
    match Parse(rows, false, true)
    case Ok(stated) => Merged(shipped, stated)
    case Refused(_) => Merged(shipped, [])
  }

  function SavedThenLoaded(shipped: Shipped, entries: seq<EntityType>): seq<EntityType> {
    Load(shipped, Rows(Persisted(shipped.stock, entries)))
  }

  // ---- a saved row is read back as what it states ----

  function AsStated(e: EntityType): Stated {
    Stated(e.(builtin := false, core := false, hidden := false), FILE_FIELDS)
  }

  lemma RowReadsBack(e: EntityType)
    requires WellFormed(e)
    ensures ParseEntry(RowOf(e), false, true) ==
            if e.labelText == "" then Refused(EmptyLabel) else Ok(AsStated(e))
  {
    var raw := RowOf(e);
    assert IsNames(raw["aliases"]) by {
      forall i | 0 <= i < |e.aliases| ensures e.aliases[i] != "" {
        assert e.aliases[i] in e.aliases;
      }
    }
    assert AsNames(raw["aliases"]) == e.aliases;
    assert StatedFields(raw, true) == FILE_FIELDS by {
      forall f: Field ensures f in StatedFields(raw, true) <==> f in FILE_FIELDS {
        match f case Label => case _ =>
      }
    }
  }

  predicate AllLabelled(entries: seq<EntityType>) { forall e | e in entries :: e.labelText != "" }

  function AllStated(entries: seq<EntityType>): seq<Stated> {
    seq(|entries|, i requires 0 <= i < |entries| => AsStated(entries[i]))
  }

  lemma RowsHead(entries: seq<EntityType>)
    requires entries != []
    ensures Rows(entries) == [RowOf(entries[0])] + Rows(entries[1..])
    ensures AllStated(entries) == [AsStated(entries[0])] + AllStated(entries[1..])
  {
  }

  lemma ParseHead(raw: Row, more: seq<Row>)
    ensures var first, rest := ParseEntry(raw, false, true), Parse(more, false, true);
            && (first.Refused? ==> Parse([raw] + more, false, true) == Refused(first.why))
            && (first.Ok? && rest.Refused? ==> Parse([raw] + more, false, true) == Refused(rest.why))
            && (first.Ok? && rest.Ok? ==> Parse([raw] + more, false, true) == Ok([first.value] + rest.value))
  {
    assert ([raw] + more)[0] == raw && ([raw] + more)[1..] == more;
  }

  lemma {:induction false} RowsReadBack(entries: seq<EntityType>)
    requires forall e | e in entries :: WellFormed(e)
    ensures Parse(Rows(entries), false, true) ==
            if AllLabelled(entries) then Ok(AllStated(entries)) else Refused(EmptyLabel)
  {
    if entries == [] {
      assert Rows(entries) == [] && AllStated(entries) == [];
    } else {
      RowReadsBack(entries[0]);
      RowsReadBack(entries[1..]);
      RowsHead(entries);
      ParseHead(RowOf(entries[0]), Rows(entries[1..]));
      assert AllLabelled(entries) <==> entries[0].labelText != "" && AllLabelled(entries[1..]);
    }
  }

  // ---- the fixpoint ----

  /** `merged` is the stock list with some of its file fields changed, never a core's `enabled`. */
  predicate Edits(stock: seq<EntityType>, merged: seq<EntityType>) {
    |merged| == |stock| && forall i | 0 <= i < |stock| :: EditOf(stock[i], merged[i])
  }

  predicate EditOf(base: EntityType, e: EntityType) {
    && e.id == base.id && e.builtin == base.builtin && e.core == base.core && e.hidden == base.hidden
    && (base.core ==> e.enabled == base.enabled)
  }

  /** The changed entries of the stock part. */
  function Changed(stock: seq<EntityType>, merged: seq<EntityType>): seq<EntityType>
    requires |merged| == |stock|
  {
    if stock == [] then []
    else (if SameFile(merged[0], stock[0]) then [] else [merged[0]]) + Changed(stock[1..], merged[1..])
  }

  lemma EditIsRestored(base: EntityType, e: EntityType)
    requires EditOf(base, e)
    ensures Apply(base, AsStated(e)) == e
    ensures SameFile(e, base) ==> e == base
  {
  }

  predicate OutOfStock(stock: seq<EntityType>, customs: seq<EntityType>) {
    forall i, j | 0 <= i < |stock| && 0 <= j < |customs| :: stock[i].id != customs[j].id
  }

  lemma {:induction false} FindNowhere(pending: seq<Stated>, id: string)
    requires Lacks(pending, id)
    ensures Find(pending, id).None? && Remove(pending, id) == pending
  {
    if pending != [] {
      FindNowhere(pending[1..], id);
    }
  }

  lemma {:induction false} ChangedIds(stock: seq<EntityType>, merged: seq<EntityType>, id: string)
    requires |merged| == |stock| && (forall i | 0 <= i < |stock| :: merged[i].id == stock[i].id != id)
    ensures forall j | 0 <= j < |Changed(stock, merged)| :: Changed(stock, merged)[j].id != id
  {
    if stock != [] {
      ChangedIds(stock[1..], merged[1..], id);
    }
  }

  lemma MergeTakes(base: EntityType, stock: seq<EntityType>, s: Stated, more: seq<Stated>)
    requires s.entry.id == base.id
    ensures var tail := MergeStock(stock, more);
            MergeStock([base] + stock, [s] + more) == ([Apply(base, s)] + tail.0, tail.1)
  {
    assert ([base] + stock)[1..] == stock && ([s] + more)[1..] == more;
  }

  lemma MergeSkips(base: EntityType, stock: seq<EntityType>, pending: seq<Stated>)
    requires Lacks(pending, base.id)
    ensures var tail := MergeStock(stock, pending); MergeStock([base] + stock, pending) == ([base] + tail.0, tail.1)
  {
    assert ([base] + stock)[1..] == stock;
    FindNowhere(pending, base.id);
  }

  lemma StatedHead(e: EntityType, more: seq<EntityType>)
    ensures AllStated([e] + more) == [AsStated(e)] + AllStated(more)
  {
  }

  lemma SavedLacks(stock: seq<EntityType>, merged: seq<EntityType>, customs: seq<EntityType>, id: string)
    requires |merged| == |stock| && (forall i | 0 <= i < |stock| :: merged[i].id == stock[i].id != id)
    requires forall j | 0 <= j < |customs| :: customs[j].id != id
    ensures Lacks(AllStated(Changed(stock, merged) + customs), id)
  {
    ChangedIds(stock, merged, id);
  }

  ghost predicate Reloads(stock: seq<EntityType>, saved: seq<EntityType>,
                          merged: seq<EntityType>, rest: seq<EntityType>)
  {
    MergeStock(stock, AllStated(saved)) == (merged, AllStated(rest))
  }

  lemma ReloadsChanged(base: EntityType, stock: seq<EntityType>, e: EntityType, saved: seq<EntityType>,
                       merged: seq<EntityType>, rest: seq<EntityType>)
    requires Reloads(stock, saved, merged, rest) && EditOf(base, e)
    ensures Reloads([base] + stock, [e] + saved, [e] + merged, rest)
  {
    EditIsRestored(base, e);
    StatedHead(e, saved);
    MergeTakes(base, stock, AsStated(e), AllStated(saved));
  }

  lemma ReloadsDefault(base: EntityType, stock: seq<EntityType>, saved: seq<EntityType>,
                       merged: seq<EntityType>, rest: seq<EntityType>)
    requires Reloads(stock, saved, merged, rest) && Lacks(AllStated(saved), base.id)
    ensures Reloads([base] + stock, saved, [base] + merged, rest)
  {
    MergeSkips(base, stock, AllStated(saved));
  }

  lemma ChangedHead(stock: seq<EntityType>, merged: seq<EntityType>, customs: seq<EntityType>)
    requires stock != [] && Edits(stock, merged) && UniqueIds(stock) && OutOfStock(stock, customs)
    ensures EditOf(stock[0], merged[0]) && Edits(stock[1..], merged[1..])
    ensures UniqueIds(stock[1..]) && OutOfStock(stock[1..], customs)
    ensures Lacks(AllStated(Changed(stock[1..], merged[1..]) + customs), stock[0].id)
    ensures var saved := Changed(stock[1..], merged[1..]) + customs;
            Changed(stock, merged) + customs == if SameFile(merged[0], stock[0]) then saved else [merged[0]] + saved
  {
    hide SameFile, AllStated;
    SavedLacks(stock[1..], merged[1..], customs, stock[0].id);
    var more := Changed(stock[1..], merged[1..]);
    assert ([merged[0]] + more) + customs == [merged[0]] + (more + customs);
    assert [] + more == more;
  }

  /** The saved rows put the stock part back and leave the custom part. */
  lemma {:induction false} StockPartReloads(stock: seq<EntityType>, merged: seq<EntityType>, customs: seq<EntityType>)
    requires UniqueIds(stock) && Edits(stock, merged) && OutOfStock(stock, customs)
    ensures Reloads(stock, Changed(stock, merged) + customs, merged, customs)
  {
    if stock == [] {
      assert Changed(stock, merged) + customs == customs;
    } else {
      var base, e := stock[0], merged[0];
      var saved := Changed(stock[1..], merged[1..]) + customs;
      assert [base] + stock[1..] == stock && [e] + merged[1..] == merged;
      ChangedHead(stock, merged, customs);
      StockPartReloads(stock[1..], merged[1..], customs);
      if SameFile(e, base) {
        EditIsRestored(base, e);
        ReloadsDefault(base, stock[1..], saved, merged[1..], customs);
      } else {
        ReloadsChanged(base, stock[1..], e, saved, merged[1..], customs);
      }
    }
  }

  /** The other rows become custom categories, each what the last row with its id states, as an edit
      of the category that stock once had under that id, if there was one. */
  lemma CustomEntriesTakeTheirLastRow(shipped: Shipped, overrides: seq<Stated>, k: nat) returns (i: nat)
    requires UniqueIds(shipped.stock) && UniqueIds(shipped.retired)
    requires (forall s | s in overrides :: s.names <= FILE_FIELDS)
    requires |shipped.stock| <= k < |Merged(shipped, overrides)|
    ensures var e := Merged(shipped, overrides)[k];
            && IsLastRow(overrides, e.id, i) && !HasId(shipped.stock, e.id)
            && (!HasId(shipped.retired, e.id) ==> e == overrides[i].entry)
            && (forall base | base in shipped.retired && base.id == e.id :: Edited(base, overrides[i], e))
  {
    hide Apply, Edited;
    var pending := Pending(overrides);
    var rest := Others(shipped.stock, pending);
    MergeAnswers(shipped, overrides);
    PendingIsDictionary(overrides);
    OthersComeFrom(shipped.stock, pending);
    var s := rest[k - |shipped.stock|];
    assert s in rest && s in pending;
    assert Merged(shipped, overrides)[k] == Custom(shipped.retired, s);
    var at :| 0 <= at < |pending| && pending[at] == s;
    UniqueIsFound(pending, at);
    FindPending(overrides, s.entry.id);
    LastRowIsFound(overrides, s.entry.id);
    i :| IsLastRow(overrides, s.entry.id, i) && overrides[i] == s;
    assert s in overrides;
    CustomIsEdit(shipped.retired, s);
  }

  lemma CustomIsEdit(retired: seq<EntityType>, s: Stated)
    requires UniqueIds(retired) && s.names <= FILE_FIELDS
    ensures Custom(retired, s).id == s.entry.id
    ensures !HasId(retired, s.entry.id) ==> Custom(retired, s) == s.entry
    ensures forall base | base in retired && base.id == s.entry.id :: Edited(base, s, Custom(retired, s))
  {
    hide Apply, Edited;
    if r :| 0 <= r < |retired| && retired[r].id == s.entry.id {
      LastWithUniqueId(retired, r);
      EditsFieldByField(retired[r], s);
      assert Custom(retired, s).id == s.entry.id by { EditKeepsId(retired[r], s); }
      forall base | base in retired && base.id == s.entry.id ensures base == retired[r] {
        var q :| 0 <= q < |retired| && retired[q] == base;
      }
    } else {
      LastWithMissingId(retired, s.entry.id);
    }
  }

  lemma EditKeepsId(base: EntityType, s: Stated)
    ensures Apply(base, s).id == base.id
  {
  }

  // ---- which rows a save keeps ----

  lemma {:induction false} LastWithUniqueId(entries: seq<EntityType>, i: nat)
    requires UniqueIds(entries) && i < |entries|
    ensures LastWithId(entries, entries[i].id) == Some(entries[i])
  {
    if i < |entries| - 1 {
      LastWithUniqueId(entries[..|entries| - 1], i);
    }
  }

  lemma {:induction false} LastWithMissingId(entries: seq<EntityType>, id: string)
    requires !HasId(entries, id)
    ensures LastWithId(entries, id).None?
  {
    if entries != [] {
      var front := entries[..|entries| - 1];
      forall i | 0 <= i < |front| ensures front[i].id != id {
        assert front[i] == entries[i];
      }
      LastWithMissingId(front, id);
    }
  }

  lemma {:induction false} PersistedAppend(stock: seq<EntityType>, a: seq<EntityType>, b: seq<EntityType>)
    ensures Persisted(stock, a + b) == Persisted(stock, a) + Persisted(stock, b)
  {
    if a == [] {
      assert a + b == b;
    } else {
      assert (a + b)[1..] == a[1..] + b;
      PersistedAppend(stock, a[1..], b);
    }
  }

  lemma {:induction false} PersistedStock(stock: seq<EntityType>, merged: seq<EntityType>, i: nat)
    requires UniqueIds(stock) && Edits(stock, merged) && i <= |stock|
    ensures Persisted(stock, merged[i..]) == Changed(stock[i..], merged[i..])
    decreases |stock| - i
  {
    if i < |stock| {
      LastWithUniqueId(stock, i);
      assert merged[i..][1..] == merged[i + 1..] && stock[i..][1..] == stock[i + 1..];
      PersistedStock(stock, merged, i + 1);
    }
  }

  lemma {:induction false} PersistedCustoms(stock: seq<EntityType>, customs: seq<EntityType>)
    requires OutOfStock(stock, customs)
    ensures Persisted(stock, customs) == customs
  {
    if customs != [] {
      LastWithMissingId(stock, customs[0].id);
      PersistedCustoms(stock, customs[1..]);
    }
  }

  lemma PersistedParts(stock: seq<EntityType>, merged: seq<EntityType>, customs: seq<EntityType>)
    requires UniqueIds(stock) && Edits(stock, merged) && OutOfStock(stock, customs)
    ensures Persisted(stock, merged + customs) == Changed(stock, merged) + customs
  {
    PersistedAppend(stock, merged, customs);
    PersistedStock(stock, merged, 0);
    assert merged[0..] == merged && stock[0..] == stock;
    PersistedCustoms(stock, customs);
  }

  /** A save writes, in order, each entry that stock does not have and each that differs from stock
      in a field of the file, and no other. */
  lemma SavesOnlyWhatDiffers(stock: seq<EntityType>, a: seq<EntityType>, b: seq<EntityType>, e: EntityType)
    requires UniqueIds(stock)
    ensures Persisted(stock, a + b) == Persisted(stock, a) + Persisted(stock, b)
    ensures Persisted(stock, [e]) ==
            if exists base | base in stock && base.id == e.id ::
                 && e.labelText == base.labelText && e.kind == base.kind && e.folder == base.folder
                 && e.description == base.description && e.aliases == base.aliases
                 && e.staleAfterDays == base.staleAfterDays && e.enabled == base.enabled
            then [] else [e]
  {
    PersistedAppend(stock, a, b);
    assert [e][1..] == [];
    if i :| 0 <= i < |stock| && stock[i].id == e.id {
      LastWithUniqueId(stock, i);
      forall base | base in stock && base.id == e.id ensures base == stock[i] {
        var q :| 0 <= q < |stock| && stock[q] == base;
      }
    } else {
      assert !HasId(stock, e.id);
      LastWithMissingId(stock, e.id);
    }
  }

  // ---- saved rows as overrides ----

  predicate NoneFolded(entries: seq<EntityType>) { forall i | 0 <= i < |entries| :: entries[i].id !in FOLDED }

  lemma {:induction false} SavedArePending(entries: seq<EntityType>)
    requires UniqueIds(entries) && NoneFolded(entries)
    ensures Pending(AllStated(entries)) == AllStated(entries)
  {
    if entries != [] {
      var n := |entries| - 1;
      var front, all := AllStated(entries[..n]), AllStated(entries);
      assert all[..n] == front && all == front + [AsStated(entries[n])];
      SavedArePending(entries[..n]);
      FindNowhere(front, entries[n].id);
      PutNew(front, AsStated(entries[n]));
    }
  }

  ghost predicate CustomsReload(retired: seq<EntityType>, customs: seq<EntityType>) {
    Customs(retired, AllStated(customs)) == customs
  }

  /** What a list must be for its rows to bring it back. */
  ghost predicate Restorable(shipped: Shipped, merged: seq<EntityType>, customs: seq<EntityType>) {
    && UniqueIds(shipped.stock) && Edits(shipped.stock, merged) && OutOfStock(shipped.stock, customs)
    && CustomsReload(shipped.retired, customs)
    && SavedIsSound(Changed(shipped.stock, merged) + customs)
  }

  predicate SavedIsSound(saved: seq<EntityType>) {
    UniqueIds(saved) && NoneFolded(saved) && forall e | e in saved :: WellFormed(e)
  }

  lemma LabelledIsRestored(shipped: Shipped, merged: seq<EntityType>, customs: seq<EntityType>)
    requires Restorable(shipped, merged, customs)
    requires AllLabelled(Changed(shipped.stock, merged) + customs)
    ensures SavedThenLoaded(shipped, merged + customs) == merged + customs
  {
    var saved := Changed(shipped.stock, merged) + customs;
    PersistedParts(shipped.stock, merged, customs);
    RowsReadBack(saved);
    SavedArePending(saved);
    StockPartReloads(shipped.stock, merged, customs);
  }

  lemma {:induction false} NothingChanged(stock: seq<EntityType>)
    ensures Changed(stock, stock) == []
  {
    if stock != [] {
      NothingChanged(stock[1..]);
    }
  }

  lemma StockSavesNothing(stock: seq<EntityType>, merged: seq<EntityType>, customs: seq<EntityType>)
    requires |merged| == |stock| && stock == merged + customs
    ensures Changed(stock, merged) + customs == []
  {
    assert merged == stock && customs == [];
    NothingChanged(stock);
  }

  lemma {:induction false} MergeNothing(stock: seq<EntityType>)
    ensures MergeStock(stock, []) == (stock, [])
  {
    if stock != [] {
      MergeNothing(stock[1..]);
      assert [stock[0]] + stock[1..] == stock;
    }
  }

  /** A file with an unlabelled row is dropped, and the stock list is not what was saved. */
  lemma UnlabelledIsLost(shipped: Shipped, merged: seq<EntityType>, customs: seq<EntityType>)
    requires Restorable(shipped, merged, customs)
    requires !AllLabelled(Changed(shipped.stock, merged) + customs)
    ensures SavedThenLoaded(shipped, merged + customs) == shipped.stock != merged + customs
  {
    PersistedParts(shipped.stock, merged, customs);
    RowsReadBack(Changed(shipped.stock, merged) + customs);
    MergeNothing(shipped.stock);
    if shipped.stock == merged + customs {
      StockSavesNothing(shipped.stock, merged, customs);
    }
  }

  // ---- lists that a merge answers ----

  /** What parsing a vault file or a submission gives for each row. */
  predicate FromFile(s: Stated) {
    && WellFormed(s.entry) && s.names <= FILE_FIELDS
    && !s.entry.builtin && !s.entry.core && !s.entry.hidden
  }

  lemma {:induction false} ParsedAreFromFile(rows: seq<Row>)
    requires Parse(rows, false, true).Ok?
    ensures forall s | s in Parse(rows, false, true).value :: FromFile(s)
  {
    if rows != [] {
      EntryIsWellFormed(rows[0], false, true);
      ParsedAreFromFile(rows[1..]);
    }
  }

  lemma {:induction false} PutComesFrom(pending: seq<Stated>, s: Stated)
    ensures forall t | t in Put(pending, s) :: t == s || t in pending
  {
    if pending != [] && pending[0].entry.id != s.entry.id {
      PutComesFrom(pending[1..], s);
    }
  }

  lemma {:induction false} PendingComesFrom(overrides: seq<Stated>)
    ensures forall t | t in Pending(overrides) :: t in overrides && t.entry.id !in FOLDED
  {
    if overrides != [] {
      PendingComesFrom(overrides[..|overrides| - 1]);
      if overrides[|overrides| - 1].entry.id !in FOLDED {
        PutComesFrom(Pending(overrides[..|overrides| - 1]), overrides[|overrides| - 1]);
      }
    }
  }

  lemma {:induction false} LastStatedComesFrom(overrides: seq<Stated>, id: string)
    requires LastStated(overrides, id).Some?
    ensures var s := LastStated(overrides, id).value; s in overrides && s.entry.id == id && id !in FOLDED
  {
    if overrides[|overrides| - 1].entry.id != id {
      LastStatedComesFrom(overrides[..|overrides| - 1], id);
    }
  }

  lemma {:induction false} LastWithIdComesFrom(entries: seq<EntityType>, id: string)
    requires LastWithId(entries, id).Some?
    ensures var e := LastWithId(entries, id).value; e in entries && e.id == id
  {
    if entries[|entries| - 1].id != id {
      LastWithIdComesFrom(entries[..|entries| - 1], id);
    }
  }

  lemma {:induction false} OthersComeFrom(stock: seq<EntityType>, pending: seq<Stated>)
    requires UniqueKeys(pending)
    ensures UniqueKeys(Others(stock, pending))
    ensures forall t | t in Others(stock, pending) :: t in pending && !HasId(stock, t.entry.id)
  {
    if pending != [] {
      OthersComeFrom(stock, pending[1..]);
      var rest := Others(stock, pending[1..]);
      forall j | 0 <= j < |rest| ensures rest[j].entry.id != pending[0].entry.id {
        assert rest[j] in pending[1..];
        var k :| 0 <= k < |pending[1..]| && pending[1..][k] == rest[j];
        assert pending[k + 1] == rest[j];
      }
    }
  }

  lemma AppliedIsEdit(base: EntityType, s: Stated)
    requires WellFormed(base) && FromFile(s)
    ensures EditOf(base, Apply(base, s)) && WellFormed(Apply(base, s))
  {
  }

  lemma CustomReloads(retired: seq<EntityType>, s: Stated)
    requires FromFile(s) && forall e | e in retired :: WellFormed(e)
    ensures var e := Custom(retired, s);
            e.id == s.entry.id && WellFormed(e) && Custom(retired, AsStated(e)) == e
  {
    var base := LastWithId(retired, s.entry.id);
    if base.Some? {
      LastWithIdComesFrom(retired, s.entry.id);
      AppliedIsEdit(base.value, s);
      EditIsRestored(base.value, Apply(base.value, s));
    }
  }

  ghost predicate Sound(shipped: Shipped) {
    && UniqueIds(shipped.stock)
    && (forall e | e in shipped.stock :: WellFormed(e))
    && (forall e | e in shipped.retired :: WellFormed(e))
  }

  function StockPart(shipped: Shipped, overrides: seq<Stated>): seq<EntityType> {
    MergeStock(shipped.stock, Pending(overrides)).0
  }

  function CustomPart(shipped: Shipped, overrides: seq<Stated>): seq<EntityType> {
    Customs(shipped.retired, MergeStock(shipped.stock, Pending(overrides)).1)
  }

  lemma StockPartIsEdit(shipped: Shipped, overrides: seq<Stated>)
    requires Sound(shipped) && forall s | s in overrides :: FromFile(s)
    ensures var merged := StockPart(shipped, overrides);
            && Edits(shipped.stock, merged)
            && (forall i | 0 <= i < |merged| :: WellFormed(merged[i]))
            && (forall i | 0 <= i < |merged| && merged[i].id in FOLDED :: merged[i] == shipped.stock[i])
  {
    var merged := StockPart(shipped, overrides);
    MergeAnswers(shipped, overrides);
    StockEntriesMerged(shipped.stock, Pending(overrides));
    forall i | 0 <= i < |shipped.stock|
      ensures EditOf(shipped.stock[i], merged[i]) && WellFormed(merged[i])
      ensures merged[i].id in FOLDED ==> merged[i] == shipped.stock[i]
    {
      var base := shipped.stock[i];
      assert base in shipped.stock;
      FindPending(overrides, base.id);
      if LastStated(overrides, base.id).Some? {
        LastStatedComesFrom(overrides, base.id);
        AppliedIsEdit(base, LastStated(overrides, base.id).value);
      }
    }
  }

  lemma CustomPartReloads(shipped: Shipped, overrides: seq<Stated>)
    requires Sound(shipped) && forall s | s in overrides :: FromFile(s)
    ensures var customs := CustomPart(shipped, overrides);
            && OutOfStock(shipped.stock, customs) && CustomsReload(shipped.retired, customs) && SavedIsSound(customs)
  {
    var rest := MergeStock(shipped.stock, Pending(overrides)).1;
    PendingIsDictionary(overrides);
    PendingComesFrom(overrides);
    MergeLeavesOthers(shipped.stock, Pending(overrides));
    OthersComeFrom(shipped.stock, Pending(overrides));
    forall i | 0 <= i < |rest|
      ensures var e := Custom(shipped.retired, rest[i]);
              && e.id == rest[i].entry.id && e.id !in FOLDED && !HasId(shipped.stock, e.id)
              && WellFormed(e) && Custom(shipped.retired, AsStated(e)) == e
    {
      assert rest[i] in rest;
      CustomReloads(shipped.retired, rest[i]);
    }
  }

  lemma {:induction false} ChangedComeFrom(stock: seq<EntityType>, merged: seq<EntityType>)
    requires UniqueIds(stock) && Edits(stock, merged)
    ensures UniqueIds(Changed(stock, merged))
    ensures forall e | e in Changed(stock, merged) ::
              exists i | 0 <= i < |stock| :: e == merged[i] && !SameFile(merged[i], stock[i])
  {
    if stock != [] {
      assert Edits(stock[1..], merged[1..]);
      var rest := Changed(stock[1..], merged[1..]);
      ChangedComeFrom(stock[1..], merged[1..]);
      ChangedIds(stock[1..], merged[1..], stock[0].id);
      forall e | e in rest ensures exists i | 0 <= i < |stock| :: e == merged[i] && !SameFile(merged[i], stock[i]) {
        var k :| 0 <= k < |stock[1..]| && e == merged[1..][k] && !SameFile(merged[1..][k], stock[1..][k]);
        assert e == merged[k + 1] && !SameFile(merged[k + 1], stock[k + 1]);
      }
    }
  }

  lemma SavedPartsAreSound(stock: seq<EntityType>, merged: seq<EntityType>, customs: seq<EntityType>)
    requires UniqueIds(stock) && Edits(stock, merged) && OutOfStock(stock, customs) && SavedIsSound(customs)
    requires forall i | 0 <= i < |merged| :: WellFormed(merged[i])
    requires forall i | 0 <= i < |merged| && merged[i].id in FOLDED :: merged[i] == stock[i]
    ensures SavedIsSound(Changed(stock, merged) + customs)
  {
    var changed := Changed(stock, merged);
    ChangedComeFrom(stock, merged);
    forall a | 0 <= a < |changed|
      ensures changed[a].id !in FOLDED && WellFormed(changed[a])
      ensures forall b | 0 <= b < |customs| :: changed[a].id != customs[b].id
    {
      assert changed[a] in changed;
      var i :| 0 <= i < |stock| && changed[a] == merged[i] && !SameFile(merged[i], stock[i]);
    }
  }

  lemma MergedIsRestorable(shipped: Shipped, overrides: seq<Stated>)
    requires Sound(shipped) && forall s | s in overrides :: FromFile(s)
    ensures Merged(shipped, overrides) == StockPart(shipped, overrides) + CustomPart(shipped, overrides)
    ensures Restorable(shipped, StockPart(shipped, overrides), CustomPart(shipped, overrides))
  {
    StockPartIsEdit(shipped, overrides);
    CustomPartReloads(shipped, overrides);
    SavedPartsAreSound(shipped.stock, StockPart(shipped, overrides), CustomPart(shipped, overrides));
  }

  /** Saving a merged list and loading the file gives the list back, entry for entry and in
      order, exactly when no saved row has an empty label. */
  lemma SaveLoadFixpoint(shipped: Shipped, overrides: seq<Stated>)
    requires Sound(shipped) && forall s | s in overrides :: FromFile(s)
    ensures var entries := Merged(shipped, overrides);
            SavedThenLoaded(shipped, entries) == entries <==> AllLabelled(Persisted(shipped.stock, entries))
  {
    var merged, customs := StockPart(shipped, overrides), CustomPart(shipped, overrides);
    MergedIsRestorable(shipped, overrides);
    PersistedParts(shipped.stock, merged, customs);
    if AllLabelled(Changed(shipped.stock, merged) + customs) {
      LabelledIsRestored(shipped, merged, customs);
    } else {
      UnlabelledIsLost(shipped, merged, customs);
    }
  }

  const BARE_ROW: Row := map["id" := Str("zine")]

  const BARE_ENTRY := EntityType("zine", "", "note", "", "", [], 0, true, false, false, false)

  lemma BareRowParses()
    ensures ParseEntry(BARE_ROW, false, true) == Ok(Stated(BARE_ENTRY, {}))
  {
    assert StatedFields(BARE_ROW, true) == {};
    assert AsNames(List([])) == [];
    assert "id" in BARE_ROW && BARE_ROW["id"] == Str("zine");
  }

  const BARE := Stated(BARE_ENTRY, {})

  /** The merge with a file that only names a new category. */
  lemma BareMerges(shipped: Shipped)
    requires Sound(shipped) && !HasId(shipped.stock, "zine") && !HasId(shipped.retired, "zine")
    ensures StockPart(shipped, [BARE]) == shipped.stock && CustomPart(shipped, [BARE]) == [BARE_ENTRY]
  {
    assert [BARE][..0] == [];
    assert Pending([BARE]) == [BARE];
    StockEntriesMerged(shipped.stock, [BARE]);
    MergeLeavesOthers(shipped.stock, [BARE]);
    assert [BARE][1..] == [] && Others(shipped.stock, []) == [];
    assert Others(shipped.stock, [BARE]) == [BARE];
    forall i | 0 <= i < |shipped.stock| ensures Find([BARE], shipped.stock[i].id).None? {
      assert shipped.stock[i].id != "zine";
      FindNowhere([BARE], shipped.stock[i].id);
    }
    LastWithMissingId(shipped.retired, "zine");
  }

  /** Whatever the program ships: a file that only names a new category is read as that category,
      which the next save then loses. */
  lemma UnlabelledCategoryVanishes(shipped: Shipped)
    requires Sound(shipped) && !HasId(shipped.stock, "zine") && !HasId(shipped.retired, "zine")
    ensures Load(shipped, [BARE_ROW]) == shipped.stock + [BARE_ENTRY]
    ensures SavedThenLoaded(shipped, Load(shipped, [BARE_ROW])) == shipped.stock
  {
    BareRowParses();
    ParseHead(BARE_ROW, []);
    assert [BARE_ROW] + [] == [BARE_ROW] && [BARE] + [] == [BARE];
    BareMerges(shipped);
    MergedIsRestorable(shipped, [BARE]);
    var saved := Changed(shipped.stock, shipped.stock) + [BARE_ENTRY];
    assert saved[|saved| - 1] == BARE_ENTRY && BARE_ENTRY in saved;
    UnlabelledIsLost(shipped, shipped.stock, [BARE_ENTRY]);
  }
}
