/** The vault's category list: reading rows, merging them with the shipped list, and saving
    only what the user changed. */
module EntityTypes {
  import opened Basics

  /** A parsed YAML or JSON value; `Other` is null, a float or a mapping. */
  datatype Value = Str(s: string) | Num(n: int) | Flag(b: bool) | List(items: seq<Value>) | Other

  type Row = map<string, Value>

  datatype EntityType = EntityType(
    id: string, labelText: string, kind: string, folder: string, description: string,
    aliases: seq<string>, staleAfterDays: int, enabled: bool,
    builtin: bool, core: bool, hidden: bool)

  datatype Field = Label | Kind | Folder | Description | Aliases | StaleAfterDays | Enabled | Core | Hidden

  const FILE_FIELDS := {Label, Kind, Folder, Description, Aliases, StaleAfterDays, Enabled}

  const KINDS := {"entity", "note"}

  /** A parsed entry beside the fields that its row stated. */
  datatype Stated = Stated(entry: EntityType, names: set<Field>)

  datatype Refusal = UnknownKey | BadId | Missing | EmptyLabel | BadValue(field: Field)

  datatype Parsed<T> = Ok(value: T) | Refused(why: Refusal)

  function Key(f: Field): string {
    match f
    case Label => "label" case Kind => "kind" case Folder => "folder" case Description => "description"
    case Aliases => "aliases" case StaleAfterDays => "stale_after_days" case Enabled => "enabled"
    case Core => "core" case Hidden => "hidden"
  }

  // ---- one row ----

  /** Only the shipped file may say what is core or hidden. */
  predicate Reads(raw: Row, f: Field, partial: bool) {
    Key(f) in raw && !(partial && (f.Core? || f.Hidden?))
  }

  function StatedFields(raw: Row, partial: bool): set<Field> {
    set f: Field | Reads(raw, f, partial)
  }

  function Read(raw: Row, f: Field, partial: bool, default: Value): Value {
    if Reads(raw, f, partial) then raw[Key(f)] else default
  }

  predicate IsNames(v: Value) {
    v.List? && forall i | 0 <= i < |v.items| :: v.items[i].Str? && v.items[i].s != ""
  }

  function AsNames(v: Value): seq<string>
    requires IsNames(v)
  {
    seq(|v.items|, i requires 0 <= i < |v.items| => v.items[i].s)
  }

  predicate IsKnownKey(key: string) { key == "id" || key == "builtin" || exists f: Field :: key == Key(f) }

  function ParseEntry(raw: Row, builtin: bool, partial: bool): Parsed<Stated> {
    var labelText := Read(raw, Label, partial, Str(""));
    var kind := Read(raw, Kind, partial, Str("note"));
    var folder := Read(raw, Folder, partial, Str(""));
    var description := Read(raw, Description, partial, Str(""));
    var aliases := Read(raw, Aliases, partial, List([]));
    var days := Read(raw, StaleAfterDays, partial, Num(0));
    var enabled := Read(raw, Enabled, partial, Flag(true));
    var core := Read(raw, Core, partial, Flag(false));
    var hidden := Read(raw, Hidden, partial, Flag(false));
    if !partial && exists key | key in raw :: !IsKnownKey(key) then Refused(UnknownKey)
    else if !("id" in raw && raw["id"].Str? && raw["id"].s != "") then Refused(BadId)
    else if !partial && !("label" in raw && "kind" in raw && "enabled" in raw) then Refused(Missing)
    else if !labelText.Str? then Refused(BadValue(Label))
    else if "label" in raw && labelText.s == "" then Refused(EmptyLabel)
    else if !kind.Str? || kind.s !in KINDS then Refused(BadValue(Kind))
    else if !folder.Str? then Refused(BadValue(Folder))
    else if !description.Str? then Refused(BadValue(Description))
    else if !IsNames(aliases) then Refused(BadValue(Aliases))
    else if !days.Num? || days.n < 0 then Refused(BadValue(StaleAfterDays))
    else if !enabled.Flag? then Refused(BadValue(Enabled))
    else if !core.Flag? then Refused(BadValue(Core))
    else if !hidden.Flag? then Refused(BadValue(Hidden))
    else
      Ok(Stated(EntityType(raw["id"].s, labelText.s, kind.s, folder.s, description.s, AsNames(aliases),
                           days.n, enabled.b, builtin, core.b, hidden.b),
                StatedFields(raw, partial)))
  }

  /** One bad row refuses the whole list. */
  function Parse(rows: seq<Row>, builtin: bool, partial: bool): Parsed<seq<Stated>> {
    if rows == [] then Ok([])
    else
      match ParseEntry(rows[0], builtin, partial)
      case Refused(why) => Refused(why)
      case Ok(stated) =>
        match Parse(rows[1..], builtin, partial)
        case Refused(why) => Refused(why)
        case Ok(more) => Ok([stated] + more)
  }

  /** What every parsed entry is, whichever file it came from. */
  predicate WellFormed(e: EntityType) {
    e.id != "" && e.kind in KINDS && e.staleAfterDays >= 0 && forall name | name in e.aliases :: name != ""
  }

  lemma EntryIsWellFormed(raw: Row, builtin: bool, partial: bool)
    requires ParseEntry(raw, builtin, partial).Ok?
    ensures var s := ParseEntry(raw, builtin, partial).value;
            && WellFormed(s.entry) && s.entry.builtin == builtin
            && (partial ==> s.names <= FILE_FIELDS && !s.entry.core && !s.entry.hidden)
            && (Label in s.names || !partial ==> s.entry.labelText != "")
            && (Label !in s.names ==> s.entry.labelText == "")
  {
  }

  /** When a row is accepted, and what its entry then holds: each field as the row states it, where
      the file may state it, and its default where the row does not. */
  lemma EntryTakesWhatTheRowStates(raw: Row, builtin: bool, partial: bool)
    requires ParseEntry(raw, builtin, partial).Ok?
    ensures var s := ParseEntry(raw, builtin, partial).value; var e := s.entry;
            && "id" in raw && raw["id"] == Str(e.id) && e.builtin == builtin
            && (if "label" in raw then raw["label"] == Str(e.labelText) && e.labelText != "" else e.labelText == "")
            && (if "kind" in raw then raw["kind"] == Str(e.kind) else e.kind == "note")
            && (if "folder" in raw then raw["folder"] == Str(e.folder) else e.folder == "")
            && (if "description" in raw then raw["description"] == Str(e.description) else e.description == "")
            && (if "stale_after_days" in raw then raw["stale_after_days"] == Num(e.staleAfterDays)
                else e.staleAfterDays == 0)
            && (if "enabled" in raw then raw["enabled"] == Flag(e.enabled) else e.enabled)
            && (if "core" in raw && !partial then raw["core"] == Flag(e.core) else !e.core)
            && (if "hidden" in raw && !partial then raw["hidden"] == Flag(e.hidden) else !e.hidden)
  {
    hide IsKnownKey, StatedFields, IsNames, AsNames;
  }

  lemma AliasesAreTaken(raw: Row, builtin: bool, partial: bool)
    requires ParseEntry(raw, builtin, partial).Ok?
    ensures var e := ParseEntry(raw, builtin, partial).value.entry;
            if "aliases" in raw then
              && raw["aliases"].List? && |e.aliases| == |raw["aliases"].items|
              && forall i | 0 <= i < |e.aliases| :: raw["aliases"].items[i] == Str(e.aliases[i])
            else e.aliases == []
  {
    hide IsKnownKey, StatedFields;
  }

  /** What a row states is what it has a key for, but that only a shipped file may say what is core
      or hidden. */
  lemma StatedIsInTheRow(raw: Row, builtin: bool, partial: bool)
    requires ParseEntry(raw, builtin, partial).Ok?
    ensures var names := ParseEntry(raw, builtin, partial).value.names;
            && (Label in names <==> "label" in raw) && (Kind in names <==> "kind" in raw)
            && (Folder in names <==> "folder" in raw) && (Description in names <==> "description" in raw)
            && (Aliases in names <==> "aliases" in raw) && (StaleAfterDays in names <==> "stale_after_days" in raw)
            && (Enabled in names <==> "enabled" in raw)
            && (Core in names <==> "core" in raw && !partial) && (Hidden in names <==> "hidden" in raw && !partial)
  {
    hide IsKnownKey, IsNames, AsNames, Read;
  }

  /** A value that the field can hold. */
  predicate Fits(v: Value, f: Field) {
    match f
    case Label => v.Str? && v.s != ""
    case Kind => v == Str("entity") || v == Str("note")
    case Folder => v.Str?
    case Description => v.Str?
    case Aliases => v.List? && forall i | 0 <= i < |v.items| :: v.items[i].Str? && v.items[i].s != ""
    case StaleAfterDays => v.Num? && v.n >= 0
    case _ => v.Flag?
  }

  /** A row is accepted exactly when it has an id and every field that it states fits; a shipped row
      must also state label, kind and enabled, and nothing that is not a field. */
  lemma RowIsAcceptedWhen(raw: Row, builtin: bool, partial: bool)
    ensures ParseEntry(raw, builtin, partial).Ok? <==>
            && "id" in raw && raw["id"].Str? && raw["id"].s != ""
            && (forall f: Field | Reads(raw, f, partial) :: Fits(raw[Key(f)], f))
            && (!partial ==>
                  "label" in raw && "kind" in raw && "enabled" in raw && forall key | key in raw :: IsKnownKey(key))
  {
    hide IsKnownKey, StatedFields, AsNames;
    FieldsFit(raw, partial);
  }

  lemma FieldsFit(raw: Row, partial: bool)
    ensures (forall f: Field | Reads(raw, f, partial) :: Fits(raw[Key(f)], f)) <==>
            && ("label" in raw ==> Fits(raw["label"], Label)) && ("kind" in raw ==> Fits(raw["kind"], Kind))
            && ("folder" in raw ==> Fits(raw["folder"], Folder))
            && ("description" in raw ==> Fits(raw["description"], Description))
            && ("aliases" in raw ==> Fits(raw["aliases"], Aliases))
            && ("stale_after_days" in raw ==> Fits(raw["stale_after_days"], StaleAfterDays))
            && ("enabled" in raw ==> Fits(raw["enabled"], Enabled))
            && (!partial && "core" in raw ==> Fits(raw["core"], Core))
            && (!partial && "hidden" in raw ==> Fits(raw["hidden"], Hidden))
  {
    hide Fits;
    if forall f: Field | Reads(raw, f, partial) :: Fits(raw[Key(f)], f) {
      assert Reads(raw, Label, partial) ==> Fits(raw[Key(Label)], Label);
      assert Reads(raw, Kind, partial) ==> Fits(raw[Key(Kind)], Kind);
      assert Reads(raw, Folder, partial) ==> Fits(raw[Key(Folder)], Folder);
      assert Reads(raw, Description, partial) ==> Fits(raw[Key(Description)], Description);
      assert Reads(raw, Aliases, partial) ==> Fits(raw[Key(Aliases)], Aliases);
      assert Reads(raw, StaleAfterDays, partial) ==> Fits(raw[Key(StaleAfterDays)], StaleAfterDays);
      assert Reads(raw, Enabled, partial) ==> Fits(raw[Key(Enabled)], Enabled);
      assert Reads(raw, Core, partial) ==> Fits(raw[Key(Core)], Core);
      assert Reads(raw, Hidden, partial) ==> Fits(raw[Key(Hidden)], Hidden);
    }
  }

  // ---- the merge ----

  const FOLDED := {"log"}

  /** Sets a key of an insertion-ordered dictionary: a known key keeps its place. */
  function Put(pending: seq<Stated>, s: Stated): seq<Stated> {
    if pending == [] then [s]
    else if pending[0].entry.id == s.entry.id then [s] + pending[1..]
    else [pending[0]] + Put(pending[1..], s)
  }

  function Find(pending: seq<Stated>, id: string): Option<Stated> {
    if pending == [] then None
    else if pending[0].entry.id == id then Some(pending[0])
    else Find(pending[1..], id)
  }

  function Remove(pending: seq<Stated>, id: string): seq<Stated> {
    if pending == [] then []
    else if pending[0].entry.id == id then pending[1..]
    else [pending[0]] + Remove(pending[1..], id)
  }

  function Pending(overrides: seq<Stated>): seq<Stated> {
    if overrides == [] then []
    else
      var front, last := overrides[..|overrides| - 1], overrides[|overrides| - 1];
      if last.entry.id in FOLDED then Pending(front) else Put(Pending(front), last)
  }

  /** The base entry with the stated fields; a core category cannot be switched off. */
  function Apply(base: EntityType, s: Stated): EntityType {
    var names := if base.core then s.names - {Enabled} else s.names;
    base.(labelText := if Label in names then s.entry.labelText else base.labelText,
          kind := if Kind in names then s.entry.kind else base.kind,
          folder := if Folder in names then s.entry.folder else base.folder,
          description := if Description in names then s.entry.description else base.description,
          aliases := if Aliases in names then s.entry.aliases else base.aliases,
          staleAfterDays := if StaleAfterDays in names then s.entry.staleAfterDays else base.staleAfterDays,
          enabled := if Enabled in names then s.entry.enabled else base.enabled,
          core := if Core in names then s.entry.core else base.core,
          hidden := if Hidden in names then s.entry.hidden else base.hidden)
  }

  function Landed(base: EntityType, s: Option<Stated>): EntityType {
    match s case None => base case Some(stated) => Apply(base, stated)
  }

  /** Each stock entry takes its override out of the dictionary. */
  function MergeStock(stock: seq<EntityType>, pending: seq<Stated>): (seq<EntityType>, seq<Stated>) {
    if stock == [] then ([], pending)
    else
      var (merged, rest) := MergeStock(stock[1..], Remove(pending, stock[0].id));
      ([Landed(stock[0], Find(pending, stock[0].id))] + merged, rest)
  }

  /** A dictionary by id built from a list: a repeated id means its last entry. */
  function LastWithId(entries: seq<EntityType>, id: string): Option<EntityType> {
    if entries == [] then None
    else if entries[|entries| - 1].id == id then Some(entries[|entries| - 1])
    else LastWithId(entries[..|entries| - 1], id)
  }

  function Custom(retired: seq<EntityType>, s: Stated): EntityType {
    match LastWithId(retired, s.entry.id) case Some(base) => Apply(base, s) case None => s.entry
  }

  function Customs(retired: seq<EntityType>, rest: seq<Stated>): seq<EntityType> {
    seq(|rest|, i requires 0 <= i < |rest| => Custom(retired, rest[i]))
  }

  /** The two lists that ship with the program. */
  datatype Shipped = Shipped(stock: seq<EntityType>, retired: seq<EntityType>)

  function Merged(shipped: Shipped, overrides: seq<Stated>): seq<EntityType> {
    var (merged, rest) := MergeStock(shipped.stock, Pending(overrides));
    merged + Customs(shipped.retired, rest)
  }

  lemma MergeStockHead(stock: seq<EntityType>, i: nat, pending: seq<Stated>)
    requires i < |stock|
    ensures MergeStock(stock[i..], pending) ==
            var (merged, rest) := MergeStock(stock[i + 1..], Remove(pending, stock[i].id));
            ([Landed(stock[i], Find(pending, stock[i].id))] + merged, rest)
  {
    assert stock[i..][0] == stock[i] && stock[i..][1..] == stock[i + 1..];
  }

  method CollectPending(overrides: seq<Stated>) returns (pending: seq<Stated>)
    ensures pending == Pending(overrides)
  {
    pending := [];
    for i := 0 to |overrides|
      invariant pending == Pending(overrides[..i])
    {
      assert overrides[..i + 1] == overrides[..i] + [overrides[i]];
      if overrides[i].entry.id !in FOLDED {
        pending := Put(pending, overrides[i]);
      }
    }
    assert overrides[..|overrides|] == overrides;
  }

  method TakeOverrides(stock: seq<EntityType>, overrides: seq<Stated>)
    returns (merged: seq<EntityType>, pending: seq<Stated>)
    ensures (merged, pending) == MergeStock(stock, overrides)
  {
    merged, pending := [], overrides;
    assert stock[0..] == stock;
    for i := 0 to |stock|
      invariant MergeStock(stock[i..], pending).1 == MergeStock(stock, overrides).1
      invariant merged + MergeStock(stock[i..], pending).0 == MergeStock(stock, overrides).0
    {
      MergeStockHead(stock, i, pending);
      var stated := Find(pending, stock[i].id);
      pending := Remove(pending, stock[i].id);
      ghost var before, more := merged, MergeStock(stock[i + 1..], pending).0;
      merged := merged + [Landed(stock[i], stated)];
      assert merged + more == before + ([Landed(stock[i], stated)] + more);
    }
    assert stock[|stock|..] == [] && merged + [] == merged;
  }

  method Merge(shipped: Shipped, overrides: seq<Stated>) returns (entries: seq<EntityType>)
    ensures entries == Merged(shipped, overrides)
  {
    var pending := CollectPending(overrides);
    entries, pending := TakeOverrides(shipped.stock, pending);
    ghost var merged := entries;
    for i := 0 to |pending|
      invariant entries == merged + Customs(shipped.retired, pending[..i])
    {
      entries := entries + [Custom(shipped.retired, pending[i])];
    }
    assert pending[..|pending|] == pending;
  }
}
