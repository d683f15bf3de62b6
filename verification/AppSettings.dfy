/** The settings file: reading it, writing it, and the updates in between. */
module AppSettings {
  import opened Basics
  import opened PyText

  /** A decoded JSON value; `Other` is a list. */
  datatype Value = Str(s: string) | Bool(b: bool) | Num(x: real) | Obj(entries: map<string, Value>) | Null | Other

  datatype TextField =
    | LastAttempt | LastSuccess | LastCommit | Remote | SendMode | MidTurn | Contrast | BodyFont | Theme
    | PwaHost | LogLevel | AppRepo

  datatype FlagField = BackupEnabled | BackupPaused | DevMode | LegacyImported | Resume

  datatype MapField = DefaultModels | DefaultThinking | InsightsModels | DefaultModes

  /** The keys that the module knows; `OldInsights` is the retired global one. */
  datatype Key =
    | Text(text: TextField) | Flag(flag: FlagField) | Nested(nested: MapField)
    | Shortcuts | FontScale | CustomColors | OldInsights

  type Json = map<Key, Value>

  datatype Pair = Pair(bg: string, fg: string)

  /** Missing entries are the empty defaults; `flags` are the ones that are true. */
  datatype Settings = Settings(
    texts: map<TextField, string>, flags: set<FlagField>, nested: map<MapField, map<string, string>>,
    shortcuts: map<string, string>, fontScale: Option<real>, colors: map<string, Pair>)

  /** What the module asks of other code. */
  datatype Env = Env(
    validHost: string -> bool, levelName: string -> string, isAbsolute: string -> bool, resolve: string -> string,
    knownProvider: string -> bool, modes: set<string>, isShortcut: string -> bool, isBinding: string -> bool)

  // ---- small text functions ----

  function LowerChar(c: char): char { if 'A' <= c <= 'Z' then (c as int + 32) as char else c }

  function Lower(s: string): string { seq(|s|, i requires 0 <= i < |s| => LowerChar(s[i])) }

  predicate AllDigits(s: string) { s != "" && forall i | 0 <= i < |s| :: '0' <= s[i] <= '9' }

  const LOG_LEVELS := {"debug", "info", "warning", "error"}

  function NormalizeLevel(env: Env, raw: string): string {
    var value := Lower(Strip(raw));
    var name := if AllDigits(value) then Lower(env.levelName(value)) else value;
    var level := if name == "warn" then "warning" else name;
    if level in LOG_LEVELS then level else ""
  }

  const THEMES := {"dark", "light", "system"}
  const BODY_FONTS := {"serif", "mono"}
  const SEND_MODES := {"modifier", "enter"}
  const RETIRED := {"apple", "apfel"}

  // ---- reading ----

  /** What a stored text becomes after stripping: the value itself, or the default. */
  function Accepted(env: Env, f: TextField, t: string): string {
    match f
    case SendMode => if t in SEND_MODES then t else ""
    case MidTurn => if t == "steer" then t else ""
    case Contrast => if t == "soft" then t else ""
    case BodyFont => if t in BODY_FONTS then t else ""
    case Theme => if t in THEMES then t else ""
    case PwaHost => if t != "" && !env.validHost(t) then "" else t
    case LogLevel => NormalizeLevel(env, t)
    case _ => t
  }

  function ReadText(env: Env, raw: Json, f: TextField): string {
    if Text(f) in raw && raw[Text(f)].Str? then Accepted(env, f, Strip(raw[Text(f)].s)) else ""
  }

  const DEFAULT_FLAGS := {BackupEnabled, Resume}
  const SPARSE := {DevMode, LegacyImported}

  predicate ReadFlag(raw: Json, f: FlagField) {
    if Flag(f) in raw && raw[Flag(f)].Bool? then raw[Flag(f)].b else f in DEFAULT_FLAGS
  }

  predicate Takes(env: Env, f: MapField, provider: string, value: Value) {
    && env.knownProvider(provider) && value.Str?
    && if f.DefaultModes? then Strip(value.s) in env.modes else Strip(value.s) != ""
  }

  /** `_clean_provider_map` and `_clean_default_modes`. */
  function Clean(env: Env, f: MapField, v: Value): map<string, string> {
    if !v.Obj? then map[]
    else map p | p in v.entries && Takes(env, f, p, v.entries[p]) :: Strip(v.entries[p].s)
  }

  predicate IsRetired(model: string) { Lower(Strip(model)) in RETIRED }

  function DropRetired(f: MapField, m: map<string, string>): map<string, string> {
    if f.InsightsModels? then map p | p in m && !IsRetired(m[p]) :: m[p] else m
  }

  function ReadNested(env: Env, raw: Json, f: MapField): map<string, string> {
    if Nested(f) in raw then DropRetired(f, Clean(env, f, raw[Nested(f)])) else map[]
  }

  function ReadShortcuts(raw: Json): map<string, string> {
    if Shortcuts in raw && raw[Shortcuts].Obj?
    then map k | k in raw[Shortcuts].entries && raw[Shortcuts].entries[k].Str? :: raw[Shortcuts].entries[k].s
    else map[]
  }

  predicate IsHexDigit(c: char) { '0' <= c <= '9' || 'a' <= c <= 'f' || 'A' <= c <= 'F' }

  predicate IsHexColor(s: string) { |s| == 7 && s[0] == '#' && forall i | 1 <= i < 7 :: IsHexDigit(s[i]) }

  const COLOR_MODES := {"dark", "light"}

  predicate IsPair(v: Value) {
    && v.Obj? && v.entries.Keys == {"bg", "fg"}
    && v.entries["bg"].Str? && IsHexColor(v.entries["bg"].s) && v.entries["fg"].Str? && IsHexColor(v.entries["fg"].s)
  }

  predicate AreColors(v: Value) {
    v.Obj? && forall mode | mode in v.entries :: mode in COLOR_MODES && IsPair(v.entries[mode])
  }

  /** One bad entry empties the whole map. */
  function CleanColors(v: Value): map<string, Pair> {
    if !AreColors(v) then map[]
    else
      map mode | mode in v.entries ::
        Pair(Lower(v.entries[mode].entries["bg"].s), Lower(v.entries[mode].entries["fg"].s))
  }

  const SLACK := 0.000000001
  const STEP_SLACK := 0.000001

  function Steps(x: real): real { (x - 0.8) * 20.0 }

  function Nearest(x: real): int { (x + 0.5).Floor }

  predicate ValidScale(x: real) {
    && 0.8 - SLACK <= x <= 1.5 + SLACK
    && -STEP_SLACK < Steps(x) - Nearest(Steps(x)) as real < STEP_SLACK
  }

  /** `round(x, 2)` */
  function Round2(x: real): real { Nearest(x * 100.0) as real / 100.0 }

  function ReadScale(raw: Json): Option<real> {
    if FontScale in raw && raw[FontScale].Num? && ValidScale(raw[FontScale].x)
    then Some(Round2(raw[FontScale].x)) else None
  }

  /** `_parse_settings` */
  function Parse(env: Env, raw: Json): Settings {
    Settings(map f: TextField | ReadText(env, raw, f) != "" :: ReadText(env, raw, f),
             set f: FlagField | ReadFlag(raw, f),
             map f: MapField | ReadNested(env, raw, f) != map[] :: ReadNested(env, raw, f),
             ReadShortcuts(raw), ReadScale(raw), if CustomColors in raw then CleanColors(raw[CustomColors]) else map[])
  }

  // ---- what reading takes ----

  /** A level is taken by its name, in any case, `warn` for `warning`; a number by the name it has. */
  lemma LevelsAreTakenByName(env: Env, raw: string)
    ensures var value := Lower(Strip(raw)); var name := if AllDigits(value) then Lower(env.levelName(value)) else value;
            NormalizeLevel(env, raw) ==
            if name == "warn" || name == "warning" then "warning"
            else if name == "debug" || name == "info" || name == "error" then name
            else ""
  {
    hide Lower, Strip, AllDigits;
  }

  /** A text of the file counts stripped; one of a closed vocabulary only when it is a word of it. */
  lemma TextsAreTaken(env: Env, raw: Json, f: TextField)
    ensures !(Text(f) in raw && raw[Text(f)].Str?) ==> ReadText(env, raw, f) == ""
    ensures Text(f) in raw && raw[Text(f)].Str? ==>
              var t, r := Strip(raw[Text(f)].s), ReadText(env, raw, f);
              match f
              case SendMode => r == if t == "modifier" || t == "enter" then t else ""
              case MidTurn => r == if t == "steer" then t else ""
              case Contrast => r == if t == "soft" then t else ""
              case BodyFont => r == if t == "serif" || t == "mono" then t else ""
              case Theme => r == if t == "dark" || t == "light" || t == "system" then t else ""
              case PwaHost => r == if env.validHost(t) then t else ""
              case LogLevel => r == NormalizeLevel(env, t)
              case _ => r == t
  {
    hide Strip, NormalizeLevel;
  }

  /** Without a file, and without a key, the backup is on, a restart resumes, and nothing else is set. */
  lemma NothingMeansDefaults(env: Env)
    ensures var s := Parse(env, map[]);
            s.texts == map[] && s.flags == {BackupEnabled, Resume} && s.nested == map[] && s.shortcuts == map[]
            && s.fontScale == None && s.colors == map[]
    ensures forall raw: Json, f: FlagField ::
              ReadFlag(raw, f) <==> if Flag(f) in raw && raw[Flag(f)].Bool? then raw[Flag(f)].b
                                    else f == BackupEnabled || f == Resume
  {
  }

  /** A map by provider is taken entry by entry: known providers with a text that is not blank, or
      for modes is one; a retired model is no insights model. */
  lemma MapsAreTaken(env: Env, raw: Json, f: MapField, p: string)
    ensures var m := ReadNested(env, raw, f);
            p in m <==>
              && Nested(f) in raw && raw[Nested(f)].Obj? && p in raw[Nested(f)].entries && env.knownProvider(p)
              && raw[Nested(f)].entries[p].Str?
              && var v := Strip(raw[Nested(f)].entries[p].s);
                 (if f.DefaultModes? then v in env.modes else v != "")
                 && (f.InsightsModels? ==> Lower(Strip(v)) != "apple" && Lower(Strip(v)) != "apfel")
    ensures p in ReadNested(env, raw, f) ==> ReadNested(env, raw, f)[p] == Strip(raw[Nested(f)].entries[p].s)
  {
    hide Strip, Lower;
  }

  // ---- writing ----

  function Strings(m: map<string, string>): Value { Obj(map k | k in m :: Str(m[k])) }

  function Palette(m: map<string, Pair>): Value {
    Obj(map k | k in m :: Obj(map["bg" := Str(m[k].bg), "fg" := Str(m[k].fg)]))
  }

  predicate Writes(s: Settings, key: Key) {
    match key
    case Text(f) => f in s.texts && s.texts[f] != ""
    case Flag(f) => f !in SPARSE || f in s.flags
    case Nested(f) => f in s.nested && s.nested[f] != map[]
    case Shortcuts => s.shortcuts != map[]
    case FontScale => s.fontScale.Some? && s.fontScale.value != 0.0
    case CustomColors => s.colors != map[]
    case OldInsights => false
  }

  function Stored(s: Settings, key: Key): Value
    requires Writes(s, key)
  {
    match key
    case Text(f) => Str(s.texts[f])
    case Flag(f) => Bool(f in s.flags)
    case Nested(f) => Strings(s.nested[f])
    case Shortcuts => Strings(s.shortcuts)
    case FontScale => Num(s.fontScale.value)
    case CustomColors => Palette(s.colors)
  }

  function AllKeys(): set<Key> {
    (set f: TextField :: Text(f)) + (set f: FlagField :: Flag(f)) + (set f: MapField :: Nested(f))
    + {Shortcuts, FontScale, CustomColors}
  }

  /** `_save` */
  function Save(s: Settings): Json { map key | key in AllKeys() && Writes(s, key) :: Stored(s, key) }

  // ---- settings that a restart brings back ----

  predicate StableText(env: Env, f: TextField, t: string) { t != "" && Accepted(env, f, Strip(t)) == t }

  predicate StableEntry(env: Env, f: MapField, p: string, v: string) {
    && env.knownProvider(p) && Strip(v) == v && (if f.DefaultModes? then v in env.modes else v != "")
    && (f.InsightsModels? ==> !IsRetired(v))
  }

  predicate StableMap(env: Env, f: MapField, m: map<string, string>) {
    m != map[] && forall p | p in m :: StableEntry(env, f, p, m[p])
  }

  predicate StablePair(mode: string, c: Pair) {
    mode in COLOR_MODES && IsHexColor(c.bg) && IsHexColor(c.fg) && Lower(c.bg) == c.bg && Lower(c.fg) == c.fg
  }

  predicate StableColors(m: map<string, Pair>) { forall mode | mode in m :: StablePair(mode, m[mode]) }

  predicate StableScale(x: Option<real>) { x.Some? ==> ValidScale(x.value) && Round2(x.value) == x.value }

  /** Every part is in the form that reading gives it. */
  predicate Canonical(env: Env, s: Settings) {
    && (forall f | f in s.texts :: StableText(env, f, s.texts[f]))
    && (forall f | f in s.nested :: StableMap(env, f, s.nested[f]))
    && StableScale(s.fontScale) && StableColors(s.colors)
  }

  lemma SavedKey(s: Settings, key: Key)
    ensures key in Save(s) <==> Writes(s, key)
    ensures Writes(s, key) ==> Save(s)[key] == Stored(s, key)
  {
    hide Writes, Stored;
    match key
    case Text(f) => assert key in AllKeys();
    case Flag(f) => assert key in AllKeys();
    case Nested(f) => assert key in AllKeys();
    case OldInsights => NothingOld(s);
    case _ =>
  }

  lemma NothingOld(s: Settings)
    ensures !Writes(s, OldInsights)
  {
  }

  lemma SavedText(env: Env, s: Settings, f: TextField)
    ensures ReadText(env, Save(s), f) ==
            if f in s.texts && s.texts[f] != "" then Accepted(env, f, Strip(s.texts[f])) else ""
  {
    hide Accepted, Save;
    SavedKey(s, Text(f));
  }

  lemma SavedFlag(s: Settings, f: FlagField)
    ensures ReadFlag(Save(s), f) <==> f in s.flags
  {
    hide Save;
    SavedKey(s, Flag(f));
  }

  lemma CleanStrings(env: Env, f: MapField, m: map<string, string>)
    ensures DropRetired(f, Clean(env, f, Strings(m))) == m <==> forall p | p in m :: StableEntry(env, f, p, m[p])
  {
    hide Strip, IsRetired;
    var cleaned := DropRetired(f, Clean(env, f, Strings(m)));
    if forall p | p in m :: StableEntry(env, f, p, m[p]) {
      assert cleaned.Keys == m.Keys;
    }
    if cleaned == m {
      forall p | p in m ensures StableEntry(env, f, p, m[p]) {
        assert p in cleaned && cleaned[p] == Strip(m[p]);
      }
    }
  }

  lemma SavedNested(env: Env, s: Settings, f: MapField)
    ensures ReadNested(env, Save(s), f) ==
            if f in s.nested && s.nested[f] != map[] then DropRetired(f, Clean(env, f, Strings(s.nested[f]))) else map[]
  {
    hide Save, Clean, DropRetired;
    SavedKey(s, Nested(f));
  }

  lemma SavedShortcuts(s: Settings)
    ensures ReadShortcuts(Save(s)) == s.shortcuts
  {
    hide Save;
    SavedKey(s, Shortcuts);
  }

  lemma SavedScale(s: Settings)
    ensures ReadScale(Save(s)) == s.fontScale <==> StableScale(s.fontScale)
  {
    hide Save, Round2;
    SavedKey(s, FontScale);
    ZeroIsNoScale();
  }

  lemma ZeroIsNoScale()
    ensures !ValidScale(0.0)
  {
  }

  lemma CleanPalette(m: map<string, Pair>)
    ensures CleanColors(Palette(m)) == m <==> StableColors(m)
  {
    hide Lower, IsHexColor;
    var v := Palette(m);
    if StableColors(m) {
      forall mode | mode in v.entries ensures IsPair(v.entries[mode]) {
        assert StablePair(mode, m[mode]);
      }
      assert AreColors(v);
      forall mode | mode in m ensures CleanColors(v)[mode] == m[mode] {
        assert StablePair(mode, m[mode]);
      }
    }
    if CleanColors(v) == m {
      forall mode | mode in m ensures StablePair(mode, m[mode]) {
        PaletteEntry(m, mode);
      }
    }
  }

  lemma PaletteEntry(m: map<string, Pair>, mode: string)
    requires mode in m && CleanColors(Palette(m)) == m
    ensures StablePair(mode, m[mode])
  {
    hide IsHexColor;
    var v := Palette(m);
    assert AreColors(v) by { assert !AreColors(v) ==> CleanColors(v) == map[]; }
    LowerTwice(v.entries[mode].entries["bg"].s);
    LowerTwice(v.entries[mode].entries["fg"].s);
  }

  lemma LowerTwice(s: string)
    ensures Lower(Lower(s)) == Lower(s)
  {
  }

  lemma SavedColors(s: Settings)
    ensures var raw := Save(s);
            (if CustomColors in raw then CleanColors(raw[CustomColors]) else map[]) == s.colors
            <==> StableColors(s.colors)
  {
    hide Save, CleanColors;
    SavedKey(s, CustomColors);
    CleanPalette(s.colors);
  }

  /** What is written is read back unchanged exactly when every part is in the form reading gives. */
  lemma StableIffCanonical(env: Env, s: Settings)
    ensures Parse(env, Save(s)) == s <==> Canonical(env, s)
  {
    hide Save, ReadText, ReadFlag, ReadNested, ReadShortcuts, ReadScale, Accepted, Clean, DropRetired;
    hide StableScale, StableColors, CleanColors;
    var t := Parse(env, Save(s));
    forall f: FlagField ensures f in t.flags <==> f in s.flags { SavedFlag(s, f); }
    SavedShortcuts(s);
    SavedScale(s);
    SavedColors(s);
    TextsMatch(env, s);
    NestedMatch(env, s);
  }

  lemma TextsMatch(env: Env, s: Settings)
    ensures Parse(env, Save(s)).texts == s.texts <==> forall f | f in s.texts :: StableText(env, f, s.texts[f])
  {
    hide Save, Accepted;
    var t := Parse(env, Save(s)).texts;
    forall f: TextField
      ensures f in t <==> f in s.texts && s.texts[f] != "" && Accepted(env, f, Strip(s.texts[f])) != ""
      ensures f in t ==> t[f] == Accepted(env, f, Strip(s.texts[f]))
    {
      SavedText(env, s, f);
    }
  }

  lemma NestedMatch(env: Env, s: Settings)
    ensures Parse(env, Save(s)).nested == s.nested <==> forall f | f in s.nested :: StableMap(env, f, s.nested[f])
  {
    hide Save, Clean, DropRetired;
    var t := Parse(env, Save(s)).nested;
    forall f: MapField
      ensures f in t <==>
              f in s.nested && s.nested[f] != map[] && DropRetired(f, Clean(env, f, Strings(s.nested[f]))) != map[]
      ensures f in t ==> t[f] == DropRetired(f, Clean(env, f, Strings(s.nested[f])))
    {
      SavedNested(env, s, f);
    }
    forall f | f in s.nested
      ensures StableMap(env, f, s.nested[f]) <==>
              s.nested[f] != map[] && DropRetired(f, Clean(env, f, Strings(s.nested[f]))) == s.nested[f]
    {
      CleanStrings(env, f, s.nested[f]);
    }
  }

  // ---- everything that is read is in that form ----

  lemma LevelsAreStable(env: Env, t: string)
    requires t in LOG_LEVELS
    ensures Strip(t) == t && NormalizeLevel(env, t) == t
  {
    assert Stripped(t);
    StripClean(t);
    assert Lower(t) == t;
    assert !AllDigits(t) by { assert !('0' <= t[0] <= '9'); }
  }

  lemma WordsAreStripped(t: string)
    requires t in SEND_MODES || t in BODY_FONTS || t in THEMES || t == "steer" || t == "soft"
    ensures Strip(t) == t
  {
    assert Stripped(t);
    StripClean(t);
  }

  lemma StripTwice(s: string)
    ensures Strip(Strip(s)) == Strip(s)
  {
    StripIsStripped(s);
    StripClean(Strip(s));
  }

  /** An accepted text is accepted again. */
  lemma AcceptedIsStable(env: Env, f: TextField, t: string)
    requires Strip(t) == t && Accepted(env, f, t) != ""
    ensures StableText(env, f, Accepted(env, f, t))
  {
    hide Strip, NormalizeLevel;
    var a := Accepted(env, f, t);
    match f
    case LogLevel =>
      assert a in LOG_LEVELS by { LevelIsLevel(env, t); }
      LevelsAreStable(env, a);
    case SendMode => WordsAreStripped(a);
    case MidTurn => WordsAreStripped(a);
    case Contrast => WordsAreStripped(a);
    case BodyFont => WordsAreStripped(a);
    case Theme => WordsAreStripped(a);
    case _ =>
  }

  lemma LevelIsLevel(env: Env, t: string)
    ensures NormalizeLevel(env, t) in LOG_LEVELS || NormalizeLevel(env, t) == ""
  {
  }

  lemma CleanedIsStable(env: Env, f: MapField, v: Value)
    ensures var m := DropRetired(f, Clean(env, f, v)); forall p | p in m :: StableEntry(env, f, p, m[p])
  {
    hide Strip, IsRetired;
    var m := DropRetired(f, Clean(env, f, v));
    forall p | p in m ensures StableEntry(env, f, p, m[p]) {
      StripTwice(v.entries[p].s);
    }
  }

  lemma HexStaysHex(s: string)
    requires IsHexColor(s)
    ensures IsHexColor(Lower(s)) && Lower(Lower(s)) == Lower(s)
  {
  }

  lemma CleanedColorsAreStable(v: Value)
    ensures StableColors(CleanColors(v))
  {
    hide Lower, IsHexColor;
    var m := CleanColors(v);
    forall mode | mode in m ensures StablePair(mode, m[mode]) {
      assert AreColors(v) && IsPair(v.entries[mode]);
      HexStaysHex(v.entries[mode].entries["bg"].s);
      HexStaysHex(v.entries[mode].entries["fg"].s);
    }
  }

  /** A valid scale is at one of the fifteen steps from 0.8 to 1.5, but for a trace, and rounds to it. */
  lemma ScaleIsAStep(x: real) returns (k: nat)
    requires ValidScale(x)
    ensures k <= 14 && -0.0000001 < x - (0.8 + k as real / 20.0) < 0.0000001 && Round2(x) == 0.8 + k as real / 20.0
  {
    var n := Nearest(Steps(x));
    var step := 0.8 + n as real / 20.0;
    assert -0.0000001 < x - step < 0.0000001;
    StepInRange(n);
    k := n;
    assert step * 100.0 == 80.0 + 5.0 * (n as real) == (80 + 5 * n) as real;
    NearestOf(x * 100.0, 80 + 5 * n);
  }

  /** And every such step is valid. */
  lemma StepsAreValid(k: nat)
    requires k <= 14
    ensures ValidScale(0.8 + k as real / 20.0)
  {
    var step := 0.8 + k as real / 20.0;
    assert Steps(step) == k as real;
    NearestOf(Steps(step), k);
  }

  /** A valid scale rounds to its step, which is valid and its own rounding. */
  lemma RoundedScaleIsStable(x: real)
    requires ValidScale(x)
    ensures ValidScale(Round2(x)) && Round2(Round2(x)) == Round2(x)
  {
    var k := Nearest(Steps(x));
    var step := 0.8 + k as real / 20.0;
    assert -0.0000001 < x - step < 0.0000001;
    assert step * 100.0 == 80.0 + 5.0 * (k as real) == (80 + 5 * k) as real;
    NearestOf(x * 100.0, 80 + 5 * k);
    assert Round2(x) == step;
    NearestOf(step * 100.0, 80 + 5 * k);
    assert Steps(step) == k as real;
    NearestOf(Steps(step), k);
    StepInRange(k);
  }

  lemma NearestOf(x: real, n: int)
    requires -0.4 < x - n as real < 0.4
    ensures Nearest(x) == n
  {
  }

  lemma StepInRange(k: int)
    ensures 0.8 - 0.0000002 < 0.8 + k as real / 20.0 < 1.5 + 0.0000002 ==> 0 <= k <= 14
  {
  }

  lemma ParsedIsCanonical(env: Env, raw: Json)
    ensures Canonical(env, Parse(env, raw))
  {
    hide Accepted, Strip, Clean, DropRetired, CleanColors, ValidScale, Round2, ReadFlag, ReadShortcuts;
    var s := Parse(env, raw);
    forall f | f in s.texts ensures StableText(env, f, s.texts[f]) {
      StripTwice(raw[Text(f)].s);
      AcceptedIsStable(env, f, Strip(raw[Text(f)].s));
    }
    forall f | f in s.nested ensures StableMap(env, f, s.nested[f]) {
      CleanedIsStable(env, f, raw[Nested(f)]);
    }
    if s.fontScale.Some? {
      RoundedScaleIsStable(raw[FontScale].x);
    }
    if CustomColors in raw {
      CleanedColorsAreStable(raw[CustomColors]);
    }
  }

  // ---- updates ----

  function SetText(s: Settings, f: TextField, t: string): Settings {
    s.(texts := if t == "" then s.texts - {f} else s.texts[f := t])
  }

  function SetNested(s: Settings, f: MapField, m: map<string, string>): Settings {
    s.(nested := if m == map[] then s.nested - {f} else s.nested[f := m])
  }

  function OneOf(v: Value, words: set<string>): Option<string> {
    if v.Str? && v.s in words then Some(v.s) else None
  }

  /** The default of a closed vocabulary is stored as the empty text. */
  function Unless(v: Option<string>, default: string): Option<string> {
    match v case Some(t) => Some(if t == default then "" else t) case None => None
  }

  /** The text that an update stores, or nothing when it refuses the value. */
  function UpdatedText(env: Env, f: TextField, v: Value): Option<string> {
    match f
    case SendMode => Unless(OneOf(v, SEND_MODES), "modifier")
    case MidTurn => Unless(OneOf(v, {"queue", "steer"}), "queue")
    case Contrast => Unless(OneOf(v, {"normal", "soft"}), "normal")
    case BodyFont => Unless(OneOf(v, BODY_FONTS + {"system"}), "system")
    case Theme => OneOf(v, THEMES)
    case _ =>
      if !v.Str? then None
      else
        var t := Strip(v.s);
        if f.PwaHost? && t != "" && !env.validHost(t) then None
        else if f.LogLevel? && t != "" then
          if NormalizeLevel(env, t) != Lower(t) then None else Some(Lower(t))
        else if f.AppRepo? && t != "" && !env.isAbsolute(t) then None
        else Some(t)
  }

  predicate AreModes(env: Env, m: map<string, Value>) {
    forall p | p in m :: m[p].Str? && (Strip(m[p].s) == "" || Strip(m[p].s) in env.modes)
  }

  predicate AreShortcuts(env: Env, m: map<string, Value>) {
    forall k | k in m :: m[k].Str? && env.isShortcut(k) && (m[k].s == "disabled" || env.isBinding(m[k].s))
  }

  /** One key of an update; a key that is not a setting changes nothing. */
  function UpdatedKey(env: Env, s: Settings, key: Key, v: Value): Option<Settings> {
    match key
    case OldInsights => Some(s)
    case Flag(f) =>
      if f.LegacyImported? then Some(s)
      else if !v.Bool? then None
      else Some(s.(flags := if v.b then s.flags + {f} else s.flags - {f}))
    case Nested(f) =>
      if !v.Obj? || (f.DefaultModes? && !AreModes(env, v.entries)) then None
      else Some(SetNested(s, f, Clean(env, f, v)))
    case Shortcuts =>
      if !v.Obj? || !AreShortcuts(env, v.entries) then None
      else Some(s.(shortcuts := map k | k in v.entries :: v.entries[k].s))
    case FontScale => if !v.Num? || !ValidScale(v.x) then None else Some(s.(fontScale := Some(Round2(v.x))))
    case CustomColors =>
      if v.Null? then Some(s.(colors := map[]))
      else if !v.Obj? || (v.entries != map[] && CleanColors(v) == map[]) then None
      else Some(s.(colors := CleanColors(v)))
    case Text(f) => (match UpdatedText(env, f, v) case Some(t) => Some(SetText(s, f, t)) case None => None)
  }

  function UpdatedKeys(env: Env, s: Settings, changes: seq<(Key, Value)>): Option<Settings>
    decreases |changes|
  {
    if changes == [] then Some(s)
    else
      match UpdatedKey(env, s, changes[0].0, changes[0].1)
      case None => None
      case Some(next) => UpdatedKeys(env, next, changes[1..])
  }

  function WithoutRetired(s: Settings): Settings {
    if InsightsModels in s.nested
    then SetNested(s, InsightsModels, DropRetired(InsightsModels, s.nested[InsightsModels])) else s
  }

  /** `update`: every key or none. */
  function Updated(env: Env, s: Settings, changes: seq<(Key, Value)>): Option<Settings> {
    match UpdatedKeys(env, s, changes) case Some(next) => Some(WithoutRetired(next)) case None => None
  }

  // ---- what an update does ----

  function TextOf(s: Settings, f: TextField): string { if f in s.texts then s.texts[f] else "" }

  function NestedOf(s: Settings, f: MapField): map<string, string> { if f in s.nested then s.nested[f] else map[] }

  /** The setting of a key is the same in both. */
  predicate SameSetting(s: Settings, t: Settings, key: Key) {
    match key
    case Text(f) => TextOf(s, f) == TextOf(t, f)
    case Flag(f) => f in s.flags <==> f in t.flags
    case Nested(f) => NestedOf(s, f) == NestedOf(t, f)
    case Shortcuts => s.shortcuts == t.shortcuts
    case FontScale => s.fontScale == t.fontScale
    case CustomColors => s.colors == t.colors
    case OldInsights => true
  }

  /** The text that a field is set to: the default of a closed vocabulary counts as none. */
  predicate IsStoredText(f: TextField, given: string, stored: string) {
    match f
    case SendMode => stored == if given == "enter" then "enter" else ""
    case MidTurn => stored == if given == "steer" then "steer" else ""
    case Contrast => stored == if given == "soft" then "soft" else ""
    case BodyFont => stored == if given == "system" then "" else given
    case Theme => stored == given
    case LogLevel => stored == Lower(Strip(given))
    case _ => stored == Strip(given)
  }

  /** Two decimals, and no further off than half of the last. */
  predicate IsRounding(x: real, r: real) { -0.005 <= r - x <= 0.005 && (r * 100.0).Floor as real == r * 100.0 }

  /** A text that is not blank, and for modes is one. */
  predicate IsGivenModel(env: Env, f: MapField, v: Value) {
    v.Str? && if f.DefaultModes? then Strip(v.s) in env.modes else Strip(v.s) != ""
  }

  /** The setting of a key holds what an accepted update gave for it. */
  ghost predicate HoldsGiven(env: Env, t: Settings, key: Key, v: Value) {
    match key
    case Text(f) => v.Str? && IsStoredText(f, v.s, TextOf(t, f))
    case Flag(f) => f.LegacyImported? || (v.Bool? && (f in t.flags <==> v.b))
    case Nested(f) =>
      && v.Obj?
      && (forall p ::
            p in NestedOf(t, f) <==> p in v.entries && env.knownProvider(p) && IsGivenModel(env, f, v.entries[p]))
      && (forall p | p in NestedOf(t, f) :: NestedOf(t, f)[p] == Strip(v.entries[p].s))
    case Shortcuts =>
      v.Obj? && t.shortcuts.Keys == v.entries.Keys
      && forall k | k in v.entries :: v.entries[k].Str? && t.shortcuts[k] == v.entries[k].s
    case FontScale => v.Num? && t.fontScale.Some? && IsRounding(v.x, t.fontScale.value)
    case CustomColors =>
      if v.Null? then t.colors == map[]
      else
        v.Obj? && t.colors.Keys == v.entries.Keys
        && forall mode | mode in v.entries ::
             && v.entries[mode].Obj? && "bg" in v.entries[mode].entries && "fg" in v.entries[mode].entries
             && v.entries[mode].entries["bg"].Str? && v.entries[mode].entries["fg"].Str?
             && t.colors[mode] == Pair(Lower(v.entries[mode].entries["bg"].s), Lower(v.entries[mode].entries["fg"].s))
    case OldInsights => true
  }

  lemma RoundsToNearest(x: real)
    ensures IsRounding(x, Round2(x))
  {
    var n := (x * 100.0 + 0.5).Floor;
    assert Round2(x) * 100.0 == n as real;
  }

  lemma TextIsSet(env: Env, s: Settings, f: TextField, v: Value)
    requires UpdatedText(env, f, v).Some?
    ensures v.Str? && IsStoredText(f, v.s, UpdatedText(env, f, v).value)
    ensures TextOf(SetText(s, f, UpdatedText(env, f, v).value), f) == UpdatedText(env, f, v).value
    ensures forall g: TextField | g != f ::
              TextOf(SetText(s, f, UpdatedText(env, f, v).value), g) == TextOf(s, g)
  {
    hide Strip, Lower, NormalizeLevel;
    StripsToNothing();
    LowersToNothing();
  }

  /** Setting a text, a flag or a map sets that and nothing else. */
  lemma SettingTexts(s: Settings, f: TextField, t: string)
    ensures TextOf(SetText(s, f, t), f) == t
    ensures forall key | key != Text(f) :: SameSetting(s, SetText(s, f, t), key)
    ensures SetText(s, f, t).flags == s.flags && SetText(s, f, t).nested == s.nested
  {
    forall key | key != Text(f) ensures SameSetting(s, SetText(s, f, t), key) {
      match key case Text(_) => case _ =>
    }
  }

  lemma SettingMaps(s: Settings, f: MapField, m: map<string, string>)
    ensures NestedOf(SetNested(s, f, m), f) == m
    ensures forall key | key != Nested(f) :: SameSetting(s, SetNested(s, f, m), key)
  {
    forall key | key != Nested(f) ensures SameSetting(s, SetNested(s, f, m), key) {
      match key case Text(_) => case _ =>
    }
  }

  lemma LowersToNothing()
    ensures Lower("") == ""
  {
  }

  ghost predicate SetsOnly(env: Env, s: Settings, key: Key, v: Value) {
    UpdatedKey(env, s, key, v).Some? ==>
      var t := UpdatedKey(env, s, key, v).value;
      HoldsGiven(env, t, key, v) && forall k | k != key :: SameSetting(s, t, k)
  }

  lemma NestedIsSet(s: Settings, f: MapField, m: map<string, string>)
    ensures NestedOf(SetNested(s, f, m), f) == m
    ensures forall k | k != Nested(f) :: SameSetting(s, SetNested(s, f, m), k)
  {
  }

  lemma MapIsSet(env: Env, s: Settings, f: MapField, v: Value)
    ensures SetsOnly(env, s, Nested(f), v)
  {
    hide Strip, AreModes, SetNested, SameSetting, NestedOf;
    NestedIsSet(s, f, Clean(env, f, v));
  }

  lemma TextIsSetOnly(env: Env, s: Settings, f: TextField, v: Value)
    ensures SetsOnly(env, s, Text(f), v)
  {
    hide UpdatedText, IsStoredText, TextOf;
    if UpdatedText(env, f, v).Some? { TextIsSet(env, s, f, v); }
  }

  lemma FlagIsSet(env: Env, s: Settings, f: FlagField, v: Value)
    ensures SetsOnly(env, s, Flag(f), v)
  {
  }

  lemma ShortcutsAreSet(env: Env, s: Settings, v: Value)
    ensures SetsOnly(env, s, Shortcuts, v)
  {
  }

  lemma ScaleIsSet(env: Env, s: Settings, v: Value)
    ensures SetsOnly(env, s, FontScale, v)
  {
    hide ValidScale, Round2, IsRounding;
    if v.Num? { RoundsToNearest(v.x); }
  }

  lemma AllColorsAreSet(env: Env, s: Settings, v: Value)
    ensures SetsOnly(env, s, CustomColors, v)
  {
    hide CleanColors, Lower;
    if v.Obj? && (v.entries != map[] ==> CleanColors(v) != map[]) { ColorsAreSet(v); }
  }

  lemma ColorsAreSet(v: Value)
    requires v.Obj? && (v.entries != map[] ==> CleanColors(v) != map[])
    ensures forall env, s: Settings :: HoldsGiven(env, s.(colors := CleanColors(v)), CustomColors, v)
  {
    hide Lower, IsHexColor;
    if v.entries != map[] {
      assert AreColors(v);
    }
  }

  /** One key: its setting holds what was given, and every other is kept. */
  lemma OneKeyIsSet(env: Env, s: Settings, key: Key, v: Value)
    requires UpdatedKey(env, s, key, v).Some?
    ensures HoldsGiven(env, UpdatedKey(env, s, key, v).value, key, v)
    ensures forall k | k != key :: SameSetting(s, UpdatedKey(env, s, key, v).value, k)
  {
    hide UpdatedKey, HoldsGiven, SameSetting;
    match key
    case Text(f) => TextIsSetOnly(env, s, f, v);
    case Flag(f) => FlagIsSet(env, s, f, v);
    case Nested(f) => MapIsSet(env, s, f, v);
    case Shortcuts => ShortcutsAreSet(env, s, v);
    case FontScale => ScaleIsSet(env, s, v);
    case CustomColors => AllColorsAreSet(env, s, v);
    case OldInsights => NothingIsSet(env, s, v);
  }

  lemma NothingIsSet(env: Env, s: Settings, v: Value)
    ensures SetsOnly(env, s, OldInsights, v)
  {
    forall k ensures SameSetting(s, s, k) {
      match k case Text(_) => case _ =>
    }
  }

  lemma SameHoldsSame(env: Env, s: Settings, t: Settings, key: Key, v: Value)
    requires SameSetting(s, t, key) && HoldsGiven(env, s, key, v)
    ensures HoldsGiven(env, t, key, v)
  {
    hide Strip, Lower, IsRounding, IsStoredText;
  }

  predicate DistinctKeys(changes: seq<(Key, Value)>) {
    forall i, j | 0 <= i < j < |changes| :: changes[i].0 != changes[j].0
  }

  predicate Names(changes: seq<(Key, Value)>, key: Key) { exists i | 0 <= i < |changes| :: changes[i].0 == key }

  lemma {:induction false} KeysAreSet(env: Env, s: Settings, changes: seq<(Key, Value)>)
    requires UpdatedKeys(env, s, changes).Some? && DistinctKeys(changes)
    ensures var t := UpdatedKeys(env, s, changes).value;
            && (forall i | 0 <= i < |changes| :: HoldsGiven(env, t, changes[i].0, changes[i].1))
            && (forall key | !Names(changes, key) :: SameSetting(s, t, key))
    decreases |changes|
  {
    hide UpdatedKey, HoldsGiven;
    var t := UpdatedKeys(env, s, changes).value;
    if changes == [] {
      forall key ensures SameSetting(s, s, key) {
        match key case Text(_) => case _ =>
      }
    } else {
      var (key, v) := (changes[0].0, changes[0].1);
      var next := UpdatedKey(env, s, key, v).value;
      var rest := changes[1..];
      OneKeyIsSet(env, s, key, v);
      forall i, j | 0 <= i < j < |rest| ensures rest[i].0 != rest[j].0 {
        assert rest[i] == changes[i + 1] && rest[j] == changes[j + 1];
      }
      KeysAreSet(env, next, rest);
      assert !Names(rest, key);
      SameHoldsSame(env, next, t, key, v);
      forall i | 0 <= i < |changes| ensures HoldsGiven(env, t, changes[i].0, changes[i].1) {
        if i > 0 { assert changes[i] == rest[i - 1]; }
      }
      forall k | !Names(changes, k) ensures SameSetting(s, t, k) {
        assert k != key by { assert changes[0].0 == key; }
        forall i | 0 <= i < |rest| ensures rest[i].0 != k {
          assert changes[i + 1] == rest[i];
        }
        SameTwice(s, next, t, k);
      }
    }
  }

  lemma SameTwice(s: Settings, t: Settings, u: Settings, key: Key)
    requires SameSetting(s, t, key) && SameSetting(t, u, key)
    ensures SameSetting(s, u, key)
  {
  }

  /** The insights models of `t` are those of `u` that are not retired. */
  predicate IsWithoutRetired(u: Settings, t: Settings) {
    && (forall p | p in NestedOf(t, InsightsModels) ::
          p in NestedOf(u, InsightsModels) && NestedOf(t, InsightsModels)[p] == NestedOf(u, InsightsModels)[p])
    && (forall p | p in NestedOf(u, InsightsModels) ::
          p in NestedOf(t, InsightsModels) <==>
          Lower(Strip(NestedOf(u, InsightsModels)[p])) !in {"apple", "apfel"})
  }

  lemma RetiredGo(u: Settings)
    ensures var t := WithoutRetired(u);
            IsWithoutRetired(u, t) && t.nested.Keys <= u.nested.Keys
            && forall key | key != Nested(InsightsModels) :: SameSetting(u, t, key)
  {
    hide Lower, Strip;
    var t := WithoutRetired(u);
    forall key | key != Nested(InsightsModels) ensures SameSetting(u, t, key) {
      match key case Text(_) => case _ =>
    }
  }

  /** The insights models hold what was given, but for retired ones. */
  ghost predicate HoldsGivenInsights(env: Env, t: Settings, v: Value) {
    && v.Obj?
    && (forall p ::
          p in NestedOf(t, InsightsModels) <==>
          && p in v.entries && env.knownProvider(p) && v.entries[p].Str? && Strip(v.entries[p].s) != ""
          && Lower(Strip(Strip(v.entries[p].s))) !in {"apple", "apfel"})
    && (forall p | p in NestedOf(t, InsightsModels) :: NestedOf(t, InsightsModels)[p] == Strip(v.entries[p].s))
  }

  lemma GivenWithoutRetired(env: Env, u: Settings, t: Settings, v: Value)
    requires HoldsGiven(env, u, Nested(InsightsModels), v) && IsWithoutRetired(u, t)
    ensures HoldsGivenInsights(env, t, v)
  {
    hide Strip, Lower, NestedOf;
  }

  lemma SameWithoutRetired(s: Settings, u: Settings, t: Settings)
    requires SameSetting(s, u, Nested(InsightsModels)) && IsWithoutRetired(u, t)
    ensures IsWithoutRetired(s, t)
  {
  }

  /** An accepted update: each key that it names holds what it gave, and the others are kept; only the
      insights models lose their retired ones, whoever set them. */
  lemma UpdateSetsWhatItNames(env: Env, s: Settings, changes: seq<(Key, Value)>)
    requires Updated(env, s, changes).Some? && DistinctKeys(changes)
    ensures var t := Updated(env, s, changes).value;
            && (forall i | 0 <= i < |changes| ::
                  if changes[i].0 == Nested(InsightsModels) then HoldsGivenInsights(env, t, changes[i].1)
                  else HoldsGiven(env, t, changes[i].0, changes[i].1))
            && (forall key | !Names(changes, key) ::
                  if key == Nested(InsightsModels) then IsWithoutRetired(s, t) else SameSetting(s, t, key))
  {
    hide UpdatedKeys, HoldsGiven, HoldsGivenInsights, IsWithoutRetired, WithoutRetired, SameSetting;
    KeysAreSet(env, s, changes);
    var u := UpdatedKeys(env, s, changes).value;
    var t := Updated(env, s, changes).value;
    RetiredGo(u);
    forall i | 0 <= i < |changes|
      ensures if changes[i].0 == Nested(InsightsModels) then HoldsGivenInsights(env, t, changes[i].1)
              else HoldsGiven(env, t, changes[i].0, changes[i].1)
    {
      if changes[i].0 == Nested(InsightsModels) {
        GivenWithoutRetired(env, u, t, changes[i].1);
      } else {
        SameHoldsSame(env, u, t, changes[i].0, changes[i].1);
      }
    }
    forall key | !Names(changes, key)
      ensures if key == Nested(InsightsModels) then IsWithoutRetired(s, t) else SameSetting(s, t, key)
    {
      if key == Nested(InsightsModels) {
        SameWithoutRetired(s, u, t);
      } else {
        SameTwice(s, u, t, key);
      }
    }
  }

  /** What an update may give for a key. */
  predicate IsAcceptable(env: Env, key: Key, v: Value) {
    match key
    case OldInsights => true
    case Flag(f) => f.LegacyImported? || v.Bool?
    case Nested(f) =>
      v.Obj? && (f.DefaultModes? ==>
                   forall p | p in v.entries ::
                     v.entries[p].Str? && (Strip(v.entries[p].s) == "" || Strip(v.entries[p].s) in env.modes))
    case Shortcuts =>
      v.Obj? && forall k | k in v.entries ::
                  && v.entries[k].Str? && env.isShortcut(k)
                  && (v.entries[k].s == "disabled" || env.isBinding(v.entries[k].s))
    case FontScale => v.Num? && ValidScale(v.x)
    case CustomColors => v.Null? || AreColors(v)
    case Text(f) =>
      v.Str? &&
      match f
      case SendMode => v.s == "modifier" || v.s == "enter"
      case MidTurn => v.s == "queue" || v.s == "steer"
      case Contrast => v.s == "normal" || v.s == "soft"
      case BodyFont => v.s == "system" || v.s == "serif" || v.s == "mono"
      case Theme => v.s == "dark" || v.s == "light" || v.s == "system"
      case PwaHost => Strip(v.s) == "" || env.validHost(Strip(v.s))
      case LogLevel => Strip(v.s) == "" || NormalizeLevel(env, Strip(v.s)) == Lower(Strip(v.s))
      case AppRepo => Strip(v.s) == "" || env.isAbsolute(Strip(v.s))
      case _ => true
  }

  lemma KeyIsAcceptedWhen(env: Env, s: Settings, key: Key, v: Value)
    ensures UpdatedKey(env, s, key, v).Some? <==> IsAcceptable(env, key, v)
  {
    hide Strip, Lower, NormalizeLevel, Clean, ValidScale, Round2, IsPair;
  }

  /** An update is accepted exactly when each of its values is, whatever is set. */
  lemma {:induction false} UpdateIsAcceptedWhen(env: Env, s: Settings, changes: seq<(Key, Value)>)
    ensures Updated(env, s, changes).Some? <==>
            forall i | 0 <= i < |changes| :: IsAcceptable(env, changes[i].0, changes[i].1)
    decreases |changes|
  {
    hide UpdatedKey, IsAcceptable;
    if changes != [] {
      KeyIsAcceptedWhen(env, s, changes[0].0, changes[0].1);
      var rest := changes[1..];
      forall i | 0 <= i < |rest| ensures rest[i] == changes[i + 1] {
      }
      if UpdatedKey(env, s, changes[0].0, changes[0].1).Some? {
        UpdateIsAcceptedWhen(env, UpdatedKey(env, s, changes[0].0, changes[0].1).value, rest);
        assert forall i | 1 <= i < |changes| :: changes[i] == rest[i - 1];
      }
    }
  }

  /** Canonical but for white space around the checkout path, and for retired insights models,
      which an update drops last. */
  predicate NearlyCanonical(env: Env, s: Settings) {
    && (forall f | f in s.texts :: s.texts[f] != "" && (f.AppRepo? || StableText(env, f, s.texts[f])))
    && (forall f | f in s.nested :: NearlyStable(env, f, s.nested[f]))
    && StableScale(s.fontScale) && StableColors(s.colors)
  }

  predicate NearlyStable(env: Env, f: MapField, m: map<string, string>) {
    m != map[] && forall p | p in m ::
      env.knownProvider(p) && Strip(m[p]) == m[p] && if f.DefaultModes? then m[p] in env.modes else m[p] != ""
  }

  lemma CleanedIsNearlyStable(env: Env, f: MapField, v: Value)
    ensures Clean(env, f, v) != map[] ==> NearlyStable(env, f, Clean(env, f, v))
  {
    hide Strip;
    var m := Clean(env, f, v);
    forall p | p in m ensures Strip(m[p]) == m[p] {
      StripTwice(v.entries[p].s);
    }
  }

  lemma UpdatedTextIsStable(env: Env, f: TextField, v: Value)
    requires UpdatedText(env, f, v).Some? && UpdatedText(env, f, v).value != ""
    ensures StableText(env, f, UpdatedText(env, f, v).value)
  {
    hide Strip, NormalizeLevel, Lower;
    var t := UpdatedText(env, f, v).value;
    match f
    case SendMode => WordsAreStripped(t);
    case MidTurn => WordsAreStripped(t);
    case Contrast => WordsAreStripped(t);
    case BodyFont => WordsAreStripped(t);
    case Theme => WordsAreStripped(t);
    case LogLevel =>
      LevelIsLevel(env, Strip(v.s));
      LevelsAreStable(env, t);
    case _ => StripTwice(v.s);
  }

  lemma UpdatedKeyIsNearlyCanonical(env: Env, s: Settings, key: Key, v: Value)
    requires NearlyCanonical(env, s) && UpdatedKey(env, s, key, v).Some?
    ensures NearlyCanonical(env, UpdatedKey(env, s, key, v).value)
  {
    hide Strip, Clean, CleanColors, ValidScale, Round2, StableText, NearlyStable, UpdatedText;
    match key
    case Text(f) =>
      if UpdatedText(env, f, v).value != "" { UpdatedTextIsStable(env, f, v); }
    case Nested(f) => CleanedIsNearlyStable(env, f, v);
    case FontScale => RoundedScaleIsStable(v.x);
    case CustomColors => if !v.Null? { CleanedColorsAreStable(v); }
    case _ =>
  }

  lemma {:induction false} UpdatedKeysAreNearlyCanonical(env: Env, s: Settings, changes: seq<(Key, Value)>)
    requires NearlyCanonical(env, s) && UpdatedKeys(env, s, changes).Some?
    ensures NearlyCanonical(env, UpdatedKeys(env, s, changes).value)
    decreases |changes|
  {
    hide UpdatedKey, NearlyCanonical;
    if changes != [] {
      UpdatedKeyIsNearlyCanonical(env, s, changes[0].0, changes[0].1);
      UpdatedKeysAreNearlyCanonical(env, UpdatedKey(env, s, changes[0].0, changes[0].1).value, changes[1..]);
    }
  }

  lemma OthersAreStable(env: Env, f: MapField, m: map<string, string>)
    requires NearlyStable(env, f, m) && !f.InsightsModels?
    ensures StableMap(env, f, m)
  {
    hide Strip, IsRetired;
  }

  lemma DroppingKeepsNearly(env: Env, s: Settings)
    requires NearlyCanonical(env, s)
    ensures NearlyCanonical(env, WithoutRetired(s)) && !HasRetired(WithoutRetired(s))
    ensures TextOf(WithoutRetired(s), AppRepo) == TextOf(s, AppRepo)
  {
    hide StableText, NearlyStable, IsRetired, DropRetired, StableScale, StableColors;
    if InsightsModels in s.nested {
      DroppedIsNearlyStable(env, s.nested[InsightsModels]);
    }
  }

  lemma DroppedIsNearlyStable(env: Env, m: map<string, string>)
    requires NearlyStable(env, InsightsModels, m)
    ensures var kept := DropRetired(InsightsModels, m);
            && (kept != map[] ==> NearlyStable(env, InsightsModels, kept))
            && forall p | p in kept :: !IsRetired(kept[p])
  {
    hide Strip, IsRetired;
  }

  function InsightsOf(s: Settings): map<string, string> { NestedOf(s, InsightsModels) }

  predicate HasRetired(s: Settings) { exists p | p in InsightsOf(s) :: IsRetired(InsightsOf(s)[p]) }

  predicate HasTidyRepo(s: Settings) { Strip(TextOf(s, AppRepo)) == TextOf(s, AppRepo) }

  /** What is missing from the full form. */
  lemma NearlyIsCanonical(env: Env, s: Settings)
    requires NearlyCanonical(env, s)
    ensures Canonical(env, s) <==> HasTidyRepo(s) && !HasRetired(s)
  {
    hide Strip, IsRetired, Accepted;
    StripsToNothing();
    TidyRepo(env, s);
    NoRetired(env, s);
  }

  lemma TidyRepo(env: Env, s: Settings)
    requires NearlyCanonical(env, s)
    ensures (forall f | f in s.texts :: StableText(env, f, s.texts[f])) <==> HasTidyRepo(s)
  {
    hide Strip;
    StripsToNothing();
    if AppRepo in s.texts {
      assert StableText(env, AppRepo, s.texts[AppRepo]) <==> HasTidyRepo(s);
    }
  }

  lemma NoRetired(env: Env, s: Settings)
    requires NearlyCanonical(env, s)
    ensures (forall f | f in s.nested :: StableMap(env, f, s.nested[f])) <==> !HasRetired(s)
  {
    hide Strip, IsRetired, StableText;
    forall f | f in s.nested
      ensures StableMap(env, f, s.nested[f]) <==> !f.InsightsModels? || !HasRetired(s)
    {
      if f.InsightsModels? {
        assert InsightsOf(s) == s.nested[f];
      } else {
        OthersAreStable(env, f, s.nested[f]);
      }
    }
  }

  lemma CanonicalIsNearlyCanonical(env: Env, s: Settings)
    requires Canonical(env, s)
    ensures NearlyCanonical(env, s)
  {
    hide Strip, IsRetired, Accepted;
    forall f | f in s.nested ensures NearlyStable(env, f, s.nested[f]) {
      assert StableMap(env, f, s.nested[f]);
    }
  }

  /** An accepted update leaves settings that a restart brings back. */
  lemma UpdateKeepsCanonical(env: Env, s: Settings, changes: seq<(Key, Value)>)
    requires Canonical(env, s) && Updated(env, s, changes).Some?
    ensures Canonical(env, Updated(env, s, changes).value)
  {
    hide Canonical, NearlyCanonical, WithoutRetired, HasTidyRepo, HasRetired;
    CanonicalIsNearlyCanonical(env, s);
    NearlyIsCanonical(env, s);
    UpdatedKeysKeepTidyRepo(env, s, changes);
    UpdateKeepsNearly(env, s, changes);
    NearlyIsCanonical(env, Updated(env, s, changes).value);
  }

  /** An accepted update leaves no retired model, and repairs nothing but what it sets. */
  lemma UpdateKeepsNearly(env: Env, s: Settings, changes: seq<(Key, Value)>)
    requires NearlyCanonical(env, s) && Updated(env, s, changes).Some?
    ensures var t := Updated(env, s, changes).value;
            && NearlyCanonical(env, t) && !HasRetired(t)
            && HasTidyRepo(t) == HasTidyRepo(UpdatedKeys(env, s, changes).value)
  {
    hide NearlyCanonical, WithoutRetired, HasRetired, Strip;
    UpdatedKeysAreNearlyCanonical(env, s, changes);
    DroppingKeepsNearly(env, UpdatedKeys(env, s, changes).value);
  }

  lemma {:induction false} UpdatedKeysKeepTidyRepo(env: Env, s: Settings, changes: seq<(Key, Value)>)
    requires HasTidyRepo(s) && UpdatedKeys(env, s, changes).Some?
    ensures HasTidyRepo(UpdatedKeys(env, s, changes).value)
    decreases |changes|
  {
    hide UpdatedKey, HasTidyRepo;
    if changes != [] {
      UpdatedKeyKeepsTidyRepo(env, s, changes[0].0, changes[0].1);
      UpdatedKeysKeepTidyRepo(env, UpdatedKey(env, s, changes[0].0, changes[0].1).value, changes[1..]);
    }
  }

  lemma UpdatedKeyKeepsTidyRepo(env: Env, s: Settings, key: Key, v: Value)
    requires HasTidyRepo(s) && UpdatedKey(env, s, key, v).Some?
    ensures HasTidyRepo(UpdatedKey(env, s, key, v).value)
  {
    hide Strip, Clean, CleanColors, ValidScale, Round2;
    StripsToNothing();
    if key == Text(AppRepo) {
      StripTwice(v.s);
    }
  }

  // ---- the retired environment variables ----

  /** The values of the old variables, empty when unset. */
  datatype Legacy = Legacy(host: string, level: string, devMode: string, appRepo: string)

  const TRUTHY := {"true", "1", "yes", "y", "on"}

  function WithFlag(s: Settings, f: FlagField, on: bool): Settings {
    s.(flags := if on then s.flags + {f} else s.flags - {f})
  }

  function ImportedHost(env: Env, s: Settings, host: string): Settings {
    if host == "" || !env.validHost(host) then s else SetText(s, PwaHost, host)
  }

  function ImportedLevel(env: Env, s: Settings, level: string): Settings {
    if level == "" || NormalizeLevel(env, level) == "" then s else SetText(s, LogLevel, NormalizeLevel(env, level))
  }

  function ImportedRepo(env: Env, s: Settings, repo: string): Settings {
    if repo == "" then s else SetText(s, AppRepo, env.resolve(repo))
  }

  function StrippedLegacy(raw: Legacy): Legacy {
    Legacy(Strip(raw.host), Strip(raw.level), Strip(raw.devMode), Strip(raw.appRepo))
  }

  function ImportedMode(s: Settings, devMode: string): Settings {
    if devMode == "" then s else WithFlag(s, DevMode, Lower(devMode) in TRUTHY)
  }

  /** `import_legacy_env`: once. */
  function Imported(env: Env, s: Settings, raw: Legacy): Settings {
    if LegacyImported in s.flags then s
    else
      var l := StrippedLegacy(raw);
      var s1 := ImportedLevel(env, ImportedHost(env, s, l.host), l.level);
      WithFlag(ImportedRepo(env, ImportedMode(s1, l.devMode), l.appRepo), LegacyImported, true)
  }

  lemma SetTextKeepsNearly(env: Env, s: Settings, f: TextField, t: string)
    requires NearlyCanonical(env, s) && (t == "" || f.AppRepo? || StableText(env, f, t))
    ensures NearlyCanonical(env, SetText(s, f, t)) && SetText(s, f, t).nested == s.nested
    ensures TextOf(SetText(s, f, t), AppRepo) == if f.AppRepo? then t else TextOf(s, AppRepo)
  {
    hide StableText, NearlyStable, StableScale, StableColors;
  }

  lemma FlagsDoNotMatter(env: Env, s: Settings, f: FlagField, on: bool)
    ensures NearlyCanonical(env, WithFlag(s, f, on)) <==> NearlyCanonical(env, s)
    ensures WithFlag(s, f, on).nested == s.nested && WithFlag(s, f, on).texts == s.texts
  {
  }

  lemma SettingFlags(s: Settings, f: FlagField, on: bool)
    ensures (f in WithFlag(s, f, on).flags <==> on)
    ensures forall key | key != Flag(f) :: SameSetting(s, WithFlag(s, f, on), key)
  {
    forall key | key != Flag(f) ensures SameSetting(s, WithFlag(s, f, on), key) {
      match key case Text(_) => case _ =>
    }
  }

  /** `t` has what the import takes of a text, or what `s` had. */
  predicate TakesOrKeeps(s: Settings, t: Settings, f: TextField, takes: bool, value: string) {
    TextOf(t, f) == if takes then value else TextOf(s, f)
  }

  const IMPORTED_KEYS := {Text(PwaHost), Text(LogLevel), Text(AppRepo), Flag(DevMode), Flag(LegacyImported)}

  /** An import that has not run takes each old variable that can be used, records that it ran, and
      leaves everything else; one that has run takes nothing. */
  lemma ImportTakes(env: Env, s: Settings, raw: Legacy)
    ensures var t := Imported(env, s, raw); var l := StrippedLegacy(raw);
            if LegacyImported in s.flags then t == s
            else
              && TakesOrKeeps(s, t, PwaHost, l.host != "" && env.validHost(l.host), l.host)
              && TakesOrKeeps(s, t, LogLevel, NormalizeLevel(env, l.level) != "", NormalizeLevel(env, l.level))
              && TakesOrKeeps(s, t, AppRepo, l.appRepo != "", env.resolve(l.appRepo))
              && (DevMode in t.flags <==>
                    if l.devMode == "" then DevMode in s.flags else Lower(l.devMode) in {"true", "1", "yes", "y", "on"})
              && LegacyImported in t.flags
              && (forall key | key !in IMPORTED_KEYS :: SameSetting(s, t, key))
  {
    hide Strip, Lower, NormalizeLevel, SetText, WithFlag, TextOf, NestedOf;
    if LegacyImported !in s.flags {
      var l := StrippedLegacy(raw);
      NoLevelIsNoLevel(env);
      var s0 := ImportedHost(env, s, l.host);
      var s1 := ImportedLevel(env, s0, l.level);
      var s2 := ImportedMode(s1, l.devMode);
      var s3 := ImportedRepo(env, s2, l.appRepo);
      SettingTexts(s, PwaHost, l.host);
      SettingTexts(s0, LogLevel, NormalizeLevel(env, l.level));
      SettingFlags(s1, DevMode, Lower(l.devMode) in TRUTHY);
      SettingTexts(s2, AppRepo, env.resolve(l.appRepo));
      SettingFlags(s3, LegacyImported, true);
      var t := Imported(env, s, raw);
      assert t == WithFlag(s3, LegacyImported, true);
      ImportChain(s, s0, s1, s2, s3, t);
    }
  }

  /** Settings that differ in one key after another differ in no other. */
  lemma ImportChain(s: Settings, s0: Settings, s1: Settings, s2: Settings, s3: Settings, t: Settings)
    requires s0 == s || forall key | key != Text(PwaHost) :: SameSetting(s, s0, key)
    requires s1 == s0 || forall key | key != Text(LogLevel) :: SameSetting(s0, s1, key)
    requires s2 == s1 || forall key | key != Flag(DevMode) :: SameSetting(s1, s2, key)
    requires s3 == s2 || forall key | key != Text(AppRepo) :: SameSetting(s2, s3, key)
    requires forall key | key != Flag(LegacyImported) :: SameSetting(s3, t, key)
    ensures forall key | key !in IMPORTED_KEYS :: SameSetting(s, t, key)
    ensures TextOf(t, PwaHost) == TextOf(s0, PwaHost) && TextOf(t, LogLevel) == TextOf(s1, LogLevel)
    ensures TextOf(t, AppRepo) == TextOf(s3, AppRepo) && (DevMode in t.flags <==> DevMode in s2.flags)
    ensures TextOf(s0, LogLevel) == TextOf(s, LogLevel) && TextOf(s2, AppRepo) == TextOf(s, AppRepo)
    ensures DevMode in s1.flags <==> DevMode in s.flags
  {
    hide TextOf, NestedOf;
    forall key ensures SameSetting(s, s, key) {
      match key case Text(_) => case _ =>
    }
    assert SameSetting(s0, s1, Text(PwaHost)) || s1 == s0;
    assert SameSetting(s1, s2, Text(PwaHost)) || s2 == s1;
    assert SameSetting(s2, s3, Text(PwaHost)) || s3 == s2;
    assert SameSetting(s3, t, Text(PwaHost));
    assert SameSetting(s, s0, Text(LogLevel)) || s0 == s;
    assert SameSetting(s1, s2, Text(LogLevel)) || s2 == s1;
    assert SameSetting(s2, s3, Text(LogLevel)) || s3 == s2;
    assert SameSetting(s3, t, Text(LogLevel));
    assert SameSetting(s, s0, Text(AppRepo)) || s0 == s;
    assert SameSetting(s0, s1, Text(AppRepo)) || s1 == s0;
    assert SameSetting(s1, s2, Text(AppRepo)) || s2 == s1;
    assert SameSetting(s3, t, Text(AppRepo));
    assert SameSetting(s, s0, Flag(DevMode)) || s0 == s;
    assert SameSetting(s0, s1, Flag(DevMode)) || s1 == s0;
    assert SameSetting(s2, s3, Flag(DevMode)) || s3 == s2;
    assert SameSetting(s3, t, Flag(DevMode));
    forall key | key !in IMPORTED_KEYS ensures SameSetting(s, t, key) {
      SameOrEqual(s, s0, s1, key);
      SameOrEqual(s, s1, s2, key);
      SameOrEqual(s, s2, s3, key);
      SameOrEqual(s, s3, t, key);
    }
  }

  lemma SameOrEqual(s: Settings, t: Settings, u: Settings, key: Key)
    requires t == s || SameSetting(s, t, key)
    requires u == t || SameSetting(t, u, key)
    ensures SameSetting(s, u, key)
  {
  }

  lemma NoLevelIsNoLevel(env: Env)
    ensures NormalizeLevel(env, "") == ""
  {
    StripsToNothing();
    LowersToNothing();
  }

  /** The checkout path that an import leaves. */
  function RepoAfterImport(env: Env, s: Settings, l: Legacy): string {
    if LegacyImported in s.flags || Strip(l.appRepo) == "" then TextOf(s, AppRepo) else env.resolve(Strip(l.appRepo))
  }

  lemma ImportKeepsNearly(env: Env, s: Settings, raw: Legacy)
    requires NearlyCanonical(env, s)
    ensures var t := Imported(env, s, raw);
            NearlyCanonical(env, t) && t.nested == s.nested && TextOf(t, AppRepo) == RepoAfterImport(env, s, raw)
  {
    hide NearlyCanonical, Strip, Lower, NormalizeLevel, SetText, WithFlag;
    if LegacyImported !in s.flags {
      var l := StrippedLegacy(raw);
      StripTwice(raw.host);
      if l.host != "" && env.validHost(l.host) {
        SetTextKeepsNearly(env, s, PwaHost, l.host);
      }
      var s0 := ImportedHost(env, s, l.host);
      LevelIsStable(env, l.level);
      SetTextKeepsNearly(env, s0, LogLevel, NormalizeLevel(env, l.level));
      var s1 := ImportedLevel(env, s0, l.level);
      FlagsDoNotMatter(env, s1, DevMode, Lower(l.devMode) in TRUTHY);
      var s2 := ImportedMode(s1, l.devMode);
      SetTextKeepsNearly(env, s2, AppRepo, env.resolve(l.appRepo));
      FlagsDoNotMatter(env, ImportedRepo(env, s2, l.appRepo), LegacyImported, true);
    }
  }

  /** The import keeps settings that a restart brings back, unless the resolved checkout path
      begins or ends with white space. */
  lemma ImportKeepsCanonical(env: Env, s: Settings, l: Legacy)
    requires Canonical(env, s)
    ensures Canonical(env, Imported(env, s, l)) <==>
            || LegacyImported in s.flags || Strip(l.appRepo) == ""
            || Strip(env.resolve(Strip(l.appRepo))) == env.resolve(Strip(l.appRepo))
  {
    hide Canonical, NearlyCanonical, Strip, Imported, IsRetired;
    CanonicalIsNearlyCanonical(env, s);
    NearlyIsCanonical(env, s);
    ImportKeepsNearly(env, s, l);
    assert InsightsOf(Imported(env, s, l)) == InsightsOf(s);
    NearlyIsCanonical(env, Imported(env, s, l));
  }

  lemma StripsToNothing()
    ensures Strip("") == ""
  {
  }

  lemma LevelIsStable(env: Env, level: string)
    ensures NormalizeLevel(env, level) != "" ==> StableText(env, LogLevel, NormalizeLevel(env, level))
  {
    hide NormalizeLevel, Strip;
    LevelIsLevel(env, level);
    if NormalizeLevel(env, level) != "" {
      LevelsAreStable(env, NormalizeLevel(env, level));
    }
  }

  // ---- the retired global insights model ----

  function Partition(model: string): (string, bool, string) {
    (Before(model, ':'), ':' in model, AfterFirst(model, ':'))
  }

  /** The provider and the model that the old value names. */
  function OldChoice(raw: Json): Option<(string, string)> {
    if OldInsights !in raw || !raw[OldInsights].Str? then None
    else
      var model := Strip(raw[OldInsights].s);
      if model == "" || Lower(model) in RETIRED then None
      else
        var (provider, sep, rest) := Partition(model);
        if sep && provider == "opencode" then Some(("opencode", Strip(rest))) else Some(("claude", model))
  }

  /** `_migrate_global_insights_model` */
  function Migrated(env: Env, raw: Json, s: Settings): Settings {
    match OldChoice(raw)
    case None => s
    case Some((provider, model)) =>
      if model == "" || provider in InsightsOf(s) then s
      else SetNested(s, InsightsModels, Clean(env, InsightsModels, Strings(InsightsOf(s)[provider := model])))
  }

  /** What loading gives: the parsed file, with the retired choice moved to its provider. */
  function Loaded(env: Env, raw: Json): Settings { Migrated(env, raw, Parse(env, raw)) }

  /** The retired global choice goes to the provider that it names, or else to Claude, if that
      provider is known and has none of its own; nothing else changes. */
  lemma MigrationMoves(env: Env, raw: Json)
    ensures var s, t := Parse(env, raw), Loaded(env, raw);
            && (forall key | key != Nested(InsightsModels) :: SameSetting(s, t, key))
            && var old_ := if OldInsights in raw && raw[OldInsights].Str? then Strip(raw[OldInsights].s) else "";
               var isOpencode := StartsWith(old_, "opencode:");
               var model := if isOpencode then Strip(old_[9..]) else old_;
               var provider := if isOpencode then "opencode" else "claude";
               InsightsOf(t) ==
               if Lower(old_) !in {"", "apple", "apfel"} && model != "" && provider !in InsightsOf(s)
                  && env.knownProvider(provider)
               then InsightsOf(s)[provider := model] else InsightsOf(s)
  {
    hide Parse, OldChoice, Strip, IsRetired, Clean, Canonical, SetNested, StableEntry, TextOf, Lower;
    var s := Parse(env, raw);
    OldChoiceIs(raw);
    ParsedIsCanonical(env, raw);
    SettingMaps(s, InsightsModels, InsightsOf(s));
    forall key ensures SameSetting(s, s, key) {
      match key case Text(_) => case _ =>
    }
    if OldChoice(raw).Some? {
      var (provider, model) := OldChoice(raw).value;
      if model != "" && provider !in InsightsOf(s) {
        OldChoiceIsStripped(raw);
        InsightsAreStable(env, s);
        CleanInsights(env, InsightsOf(s), provider, model);
        SettingMaps(s, InsightsModels, Clean(env, InsightsModels, Strings(InsightsOf(s)[provider := model])));
      }
    }
  }

  lemma InsightsAreStable(env: Env, s: Settings)
    requires Canonical(env, s)
    ensures forall p | p in InsightsOf(s) :: StableEntry(env, InsightsModels, p, InsightsOf(s)[p])
  {
    hide StableEntry, StableText, StableScale, StableColors;
  }

  /** The migration moves in a model that reading a file would drop. */
  predicate BringsRetired(env: Env, raw: Json) {
    var choice := OldChoice(raw);
    choice.Some? && choice.value.1 != "" && choice.value.0 !in InsightsOf(Parse(env, raw))
    && env.knownProvider(choice.value.0) && IsRetired(choice.value.1)
  }

  lemma {:induction false} BeforeAndAfter(name: string, c: char, rest: string)
    requires c !in name
    ensures Before(name + [c] + rest, c) == name && AfterFirst(name + [c] + rest, c) == rest
  {
    var t := name + [c] + rest;
    if name == "" {
      assert t[1..] == rest;
    } else {
      assert t[0] == name[0] && t[1..] == name[1..] + [c] + rest;
      BeforeAndAfter(name[1..], c, rest);
    }
  }

  lemma {:induction false} PartsMeet(s: string, c: char)
    requires c in s
    ensures s == Before(s, c) + [c] + AfterFirst(s, c)
  {
    if s[0] != c {
      PartsMeet(s[1..], c);
    }
  }

  /** A value that starts with `opencode:` is a model of that provider, and any other one of Claude. */
  lemma OldChoiceIs(raw: Json)
    ensures var old_ := if OldInsights in raw && raw[OldInsights].Str? then Strip(raw[OldInsights].s) else "";
            OldChoice(raw) ==
            if Lower(old_) in {"", "apple", "apfel"} then None
            else if StartsWith(old_, "opencode:") then Some(("opencode", Strip(old_[9..]))) else Some(("claude", old_))
  {
    hide Strip, Before, AfterFirst;
    var old_ := if OldInsights in raw && raw[OldInsights].Str? then Strip(raw[OldInsights].s) else "";
    OpencodeIsBefore(old_);
    assert |Lower(old_)| == |old_|;
  }

  lemma OpencodeIsBefore(s: string)
    ensures ':' in s && Before(s, ':') == "opencode" <==> StartsWith(s, "opencode:")
    ensures StartsWith(s, "opencode:") ==> AfterFirst(s, ':') == s[9..]
  {
    hide Before, AfterFirst;
    var name := "opencode";
    assert ':' !in name && name + [':'] == "opencode:";
    if StartsWith(s, "opencode:") {
      assert s == name + [':'] + s[9..];
      BeforeAndAfter(name, ':', s[9..]);
    }
    if ':' in s && Before(s, ':') == name {
      PartsMeet(s, ':');
      assert s[..9] == name + [':'];
    }
  }

  lemma OldChoiceIsStripped(raw: Json)
    requires OldChoice(raw).Some?
    ensures Strip(OldChoice(raw).value.1) == OldChoice(raw).value.1
  {
    hide Strip, Lower;
    StripTwice(raw[OldInsights].s);
    StripTwice(AfterFirst(Strip(raw[OldInsights].s), ':'));
  }

  lemma CleanInsights(env: Env, m: map<string, string>, provider: string, model: string)
    requires forall p | p in m :: StableEntry(env, InsightsModels, p, m[p])
    requires Strip(model) == model && model != "" && provider !in m
    ensures Clean(env, InsightsModels, Strings(m[provider := model])) ==
            if env.knownProvider(provider) then m[provider := model] else m
  {
    hide Strip, IsRetired;
    var more := m[provider := model];
    var goal := if env.knownProvider(provider) then more else m;
    forall p | p in goal ensures p in more && more[p] == goal[p] && Takes(env, InsightsModels, p, Str(more[p])) {
    }
  }

  /** Loading gives settings that a restart brings back, unless the old global choice was a
      retired model named for a provider that has none yet: that one is gone at the next start. */
  lemma LoadedIsCanonical(env: Env, raw: Json)
    ensures Canonical(env, Loaded(env, raw)) <==> !BringsRetired(env, raw)
  {
    hide Parse, Strip, IsRetired, Clean, OldChoice;
    ParsedIsCanonical(env, raw);
    var s := Parse(env, raw);
    var choice := OldChoice(raw);
    if choice.Some? && choice.value.1 != "" && choice.value.0 !in InsightsOf(s) {
      var (provider, model) := choice.value;
      OldChoiceIsStripped(raw);
      assert forall p | p in InsightsOf(s) :: StableEntry(env, InsightsModels, p, InsightsOf(s)[p]);
      CleanInsights(env, InsightsOf(s), provider, model);
      NestedKeeps(env, s, provider, model);
    }
  }

  lemma SetNestedKeeps(env: Env, s: Settings, f: MapField, m: map<string, string>)
    requires Canonical(env, s)
    ensures Canonical(env, SetNested(s, f, m)) <==> m == map[] || StableMap(env, f, m)
  {
    hide StableText, StableMap, StableScale, StableColors;
    var u := SetNested(s, f, m);
    if m != map[] {
      assert f in u.nested && u.nested[f] == m;
    }
  }

  lemma OneMoreEntry(env: Env, m: map<string, string>, provider: string, model: string)
    requires forall p | p in m :: StableEntry(env, InsightsModels, p, m[p])
    requires env.knownProvider(provider) && Strip(model) == model && model != "" && provider !in m
    ensures StableMap(env, InsightsModels, m[provider := model]) <==> !IsRetired(model)
  {
    hide Strip, IsRetired;
    var more := m[provider := model];
    assert provider in more && more[provider] == model;
  }

  /** Putting a new entry into the insights map. */
  lemma NestedKeeps(env: Env, s: Settings, provider: string, model: string)
    requires Canonical(env, s) && Strip(model) == model && model != "" && provider !in InsightsOf(s)
    ensures Canonical(env, SetNested(s, InsightsModels, InsightsOf(s)))
    ensures env.knownProvider(provider) ==>
              (Canonical(env, SetNested(s, InsightsModels, InsightsOf(s)[provider := model])) <==> !IsRetired(model))
  {
    hide Strip, IsRetired, StableText, StableScale, StableColors, StableEntry, SetNested;
    SetNestedKeeps(env, s, InsightsModels, InsightsOf(s));
    if env.knownProvider(provider) {
      var more := InsightsOf(s)[provider := model];
      assert provider in more;
      OneMoreEntry(env, InsightsOf(s), provider, model);
      SetNestedKeeps(env, s, InsightsModels, more);
    }
  }

  // ---- the store over its life ----

  datatype Op = Change(changes: seq<(Key, Value)>) | Import(legacy: Legacy)

  function AfterOp(env: Env, s: Settings, op: Op): Settings {
    match op
    case Change(changes) => (match Updated(env, s, changes) case Some(t) => t case None => s)
    case Import(legacy) => Imported(env, s, legacy)
  }

  function AfterOps(env: Env, s: Settings, ops: seq<Op>): Settings
    decreases |ops|
  {
    if ops == [] then s else AfterOps(env, AfterOp(env, s, ops[0]), ops[1..])
  }

  lemma LoadedIsNearly(env: Env, raw: Json)
    ensures NearlyCanonical(env, Loaded(env, raw))
  {
    hide Parse, Strip, IsRetired, Clean, OldChoice, Canonical, StableText, NearlyStable;
    ParsedIsCanonical(env, raw);
    var s := Parse(env, raw);
    CanonicalIsNearlyCanonical(env, s);
    var choice := OldChoice(raw);
    if choice.Some? {
      CleanedIsNearlyStable(env, InsightsModels, Strings(InsightsOf(s)[choice.value.0 := choice.value.1]));
    }
  }

  lemma {:induction false} OpsKeepNearly(env: Env, s: Settings, ops: seq<Op>)
    requires NearlyCanonical(env, s)
    ensures NearlyCanonical(env, AfterOps(env, s, ops))
    decreases |ops|
  {
    hide NearlyCanonical, Updated, Imported, HasRetired, HasTidyRepo;
    if ops != [] {
      match ops[0] {
        case Change(changes) => if Updated(env, s, changes).Some? { UpdateKeepsNearly(env, s, changes); }
        case Import(legacy) => ImportKeepsNearly(env, s, legacy);
      }
      OpsKeepNearly(env, AfterOp(env, s, ops[0]), ops[1..]);
    }
  }

  /** From any file, after any updates and imports, a restart finds the settings as they were,
      exactly when the checkout path has no white space at its ends and no retired model is
      among the insights models. */
  lemma SettingsSurviveRestart(env: Env, raw: Json, ops: seq<Op>)
    ensures var s := AfterOps(env, Loaded(env, raw), ops);
            Loaded(env, Save(s)) == s <==> HasTidyRepo(s) && !HasRetired(s)
  {
    hide Canonical, NearlyCanonical, Parse, Save, HasTidyRepo, HasRetired;
    LoadedIsNearly(env, raw);
    OpsKeepNearly(env, Loaded(env, raw), ops);
    var s := AfterOps(env, Loaded(env, raw), ops);
    NearlyIsCanonical(env, s);
    StableIffCanonical(env, s);
    SavedKey(s, OldInsights);
    NothingOld(s);
  }

  /** Every import among them resolves its checkout path to one without white space at its ends. */
  predicate TidyImports(env: Env, ops: seq<Op>) {
    forall op | op in ops && op.Import? ::
      var repo := Strip(op.legacy.appRepo); repo == "" || Strip(env.resolve(repo)) == env.resolve(repo)
  }

  lemma {:induction false} OpsKeepCanonical(env: Env, s: Settings, ops: seq<Op>)
    requires Canonical(env, s) && TidyImports(env, ops)
    ensures Canonical(env, AfterOps(env, s, ops))
    decreases |ops|
  {
    hide Canonical, Strip, Updated, Imported;
    if ops != [] {
      assert ops[0] in ops;
      match ops[0] {
        case Change(changes) => if Updated(env, s, changes).Some? { UpdateKeepsCanonical(env, s, changes); }
        case Import(legacy) => ImportKeepsCanonical(env, s, legacy);
      }
      OpsKeepCanonical(env, AfterOp(env, s, ops[0]), ops[1..]);
    }
  }

  /** So updates alone never lose anything, nor does an import with a tidy path. */
  lemma TidyHistoriesSurvive(env: Env, raw: Json, ops: seq<Op>)
    requires !BringsRetired(env, raw) && TidyImports(env, ops)
    ensures var s := AfterOps(env, Loaded(env, raw), ops); Loaded(env, Save(s)) == s
  {
    hide Canonical, Parse, Save, BringsRetired, TidyImports;
    LoadedIsCanonical(env, raw);
    OpsKeepCanonical(env, Loaded(env, raw), ops);
    var s := AfterOps(env, Loaded(env, raw), ops);
    StableIffCanonical(env, s);
    SavedKey(s, OldInsights);
    NothingOld(s);
  }

  /** A checkout below a folder whose name ends in a space is another checkout at the next start. */
  lemma ImportedPathIsCutShort(env: Env)
    requires env.resolve("/tmp/a /.") == "/tmp/a "
    ensures var s := AfterOps(env, Loaded(env, map[]), [Import(Legacy("", "", "", "/tmp/a /."))]);
            TextOf(s, AppRepo) == "/tmp/a " && TextOf(Loaded(env, Save(s)), AppRepo) == "/tmp/a"
  {
    hide Parse, Save, Strip, Imported, NearlyCanonical, ReadText;
    var legacy := Legacy("", "", "", "/tmp/a /.");
    var s0 := Loaded(env, map[]);
    FreshStart(env);
    StripClean("/tmp/a /.");
    ImportKeepsNearly(env, s0, legacy);
    var s := Imported(env, s0, legacy);
    assert [Import(legacy)][1..] == [];
    assert AfterOps(env, s0, [Import(legacy)]) == AfterOps(env, AfterOp(env, s0, Import(legacy)), []);
    TextAfterRestart(env, s, AppRepo);
    CutsShort();
  }

  lemma FreshStart(env: Env)
    ensures var s := Loaded(env, map[]); LegacyImported !in s.flags && NearlyCanonical(env, s)
  {
    hide ReadText, ReadNested, NearlyCanonical;
    assert !ReadFlag(map[], LegacyImported);
    LoadedIsNearly(env, map[]);
  }

  lemma TextAfterRestart(env: Env, s: Settings, f: TextField)
    ensures TextOf(Loaded(env, Save(s)), f) == if TextOf(s, f) == "" then "" else Accepted(env, f, Strip(TextOf(s, f)))
  {
    hide Save, Accepted, Strip;
    SavedText(env, s, f);
    SavedKey(s, OldInsights);
    NothingOld(s);
  }

  lemma CutsShort()
    ensures Strip("/tmp/a ") == "/tmp/a"
  {
    assert StripLeft("/tmp/a ", IsSpace) == "/tmp/a ";
    assert "/tmp/a "[..6] == "/tmp/a";
    assert StripRight("/tmp/a", IsSpace) == "/tmp/a";
  }

  /** The retired choice `opencode:apple` is moved in by one start and dropped by the next. */
  lemma AppleIsDroppedNextTime(env: Env)
    requires env.knownProvider("opencode")
    ensures var s := Loaded(env, map[OldInsights := Str("opencode:apple")]);
            InsightsOf(s) == map["opencode" := "apple"] && InsightsOf(Loaded(env, Save(s))) == map[]
  {
    hide Parse, Save, Strip, Clean, IsRetired;
    var raw := map[OldInsights := Str("opencode:apple")];
    ChoosesApple(raw);
    NoInsightsYet(env, raw);
    AppleIsClean(env);
    var s := Loaded(env, raw);
    InsightsAfterRestart(env, s);
    assert IsRetired("apple") by { AppleIsRetired(); }
  }

  lemma ChoosesApple(raw: Json)
    requires OldInsights in raw && raw[OldInsights] == Str("opencode:apple")
    ensures OldChoice(raw) == Some(("opencode", "apple"))
  {
    hide Strip, Lower, Before, AfterFirst;
    StripClean("opencode:apple");
    StripClean("apple");
    PartsAt("opencode", ':', "apple");
    assert "opencode" + [':'] + "apple" == "opencode:apple";
    assert "opencode:apple"[8] == ':';
    LongIsNotRetired("opencode:apple");
  }

  lemma LongIsNotRetired(model: string)
    requires |model| > 5
    ensures Lower(model) !in RETIRED
  {
  }

  lemma {:induction false} PartsAt(front: string, c: char, rest: string)
    requires c !in front
    ensures Before(front + [c] + rest, c) == front && AfterFirst(front + [c] + rest, c) == rest
  {
    var s := front + [c] + rest;
    if front != "" {
      PartsAt(front[1..], c, rest);
      assert s[1..] == front[1..] + [c] + rest;
    } else {
      assert s[1..] == rest;
    }
  }

  lemma NoInsightsYet(env: Env, raw: Json)
    requires raw.Keys == {OldInsights}
    ensures InsightsOf(Parse(env, raw)) == map[]
  {
    hide ReadText, ReadFlag, ReadShortcuts, ReadScale, Clean;
  }

  lemma AppleIsClean(env: Env)
    requires env.knownProvider("opencode")
    ensures Clean(env, InsightsModels, Strings(map["opencode" := "apple"])) == map["opencode" := "apple"]
  {
    hide Strip;
    StripClean("apple");
  }

  lemma AppleIsRetired()
    ensures IsRetired("apple")
  {
    StripClean("apple");
    assert Lower("apple") == "apple";
  }

  lemma InsightsAfterRestart(env: Env, s: Settings)
    ensures InsightsOf(Loaded(env, Save(s))) ==
            DropRetired(InsightsModels, Clean(env, InsightsModels, Strings(InsightsOf(s))))
  {
    hide Save, Clean, DropRetired;
    SavedNested(env, s, InsightsModels);
    SavedKey(s, OldInsights);
    NothingOld(s);
    assert DropRetired(InsightsModels, Clean(env, InsightsModels, Strings(map[]))) == map[] by {
      CleanStrings(env, InsightsModels, map[]);
    }
  }

  class AppSettingsStore {
    const env: Env
    var settings: Settings
    var file: Json
    /** The default models found by the first overlay. */
    var defaults: Option<map<string, string>>

    constructor (env: Env, raw: Json)
      ensures this.env == env && settings == Loaded(env, raw) && defaults.None?
      ensures file == if OldInsights in raw then Save(settings) else raw
    {
      this.env := env;
      var s := Migrated(env, raw, Parse(env, raw));
      settings := s;
      file := if OldInsights in raw then Save(s) else raw;
      defaults := None;
    }

    /** Takes every key or none; a refused update leaves memory and file as they were. */
    method Update(changes: seq<(Key, Value)>) returns (ok: bool)
      modifies this
      ensures ok <==> Updated(env, old(settings), changes).Some?
      ensures ok ==> settings == Updated(env, old(settings), changes).value && file == Save(settings)
      ensures !ok ==> settings == old(settings) && file == old(file)
      ensures defaults == old(defaults)
    {
      hide UpdatedKey, WithoutRetired, Save;
      var updated := settings;
      assert changes[0..] == changes;
      for i := 0 to |changes|
        invariant settings == old(settings) && file == old(file) && defaults == old(defaults)
        invariant UpdatedKeys(env, updated, changes[i..]) == UpdatedKeys(env, settings, changes)
      {
        assert changes[i..][0] == changes[i] && changes[i..][1..] == changes[i + 1..];
        match UpdatedKey(env, updated, changes[i].0, changes[i].1)
        case None => return false;
        case Some(next) => updated := next;
      }
      assert changes[|changes|..] == [];
      settings := WithoutRetired(updated);
      file := Save(settings);
      ok := true;
    }

    method ImportLegacyEnv(raw: Legacy)
      modifies this
      ensures settings == Imported(env, old(settings), raw)
      ensures file == if LegacyImported in old(settings).flags then old(file) else Save(settings)
      ensures defaults == old(defaults)
    {
      hide Save, NormalizeLevel, Lower, Strip;
      if LegacyImported in settings.flags {
        return;
      }
      var l := StrippedLegacy(raw);
      if l.host != "" && env.validHost(l.host) {
        settings := SetText(settings, PwaHost, l.host);
      }
      if l.level != "" && NormalizeLevel(env, l.level) != "" {
        settings := SetText(settings, LogLevel, NormalizeLevel(env, l.level));
      }
      if l.devMode != "" {
        settings := WithFlag(settings, DevMode, Lower(l.devMode) in TRUTHY);
      }
      if l.appRepo != "" {
        settings := SetText(settings, AppRepo, env.resolve(l.appRepo));
      }
      settings := WithFlag(settings, LegacyImported, true);
      file := Save(settings);
    }

    /** The first overlay remembers the default models it finds, and sets the two values that
        only a start may set. */
    method ApplyToConfig(config: Config)
      modifies this, config
      ensures settings == old(settings) && file == old(file)
      ensures (defaults, config.models) == Overlaid(old(defaults), old(config.models), OverridesOf(settings))
      ensures old(defaults).Some? ==> config.host == old(config.host) && config.level == old(config.level)
      ensures old(defaults).None? ==>
                && config.host == Or(TextOf(settings, PwaHost), "0.0.0.0")
                && config.level == Or(TextOf(settings, LogLevel), "info")
      ensures config.devMode == (DevMode in settings.flags) && config.appRepo == CheckoutOf(env, settings)
      ensures config.maps == MapsOf(settings)
      ensures defaults == if old(defaults).Some? then old(defaults) else Some(old(config.models))
      ensures config.models.Keys == old(config.models).Keys
      ensures forall p | p in config.models ::
                config.models[p] ==
                (var own := NestedOf(settings, DefaultModels);
                 if p in own && own[p] != "" then own[p] else if p in defaults.value then defaults.value[p] else "")
      ensures config.appRepo ==
              if TextOf(settings, AppRepo) == "" then None else Some(env.resolve(TextOf(settings, AppRepo)))
      ensures forall f: MapField | !f.DefaultModes? :: f in config.maps && config.maps[f] == NestedOf(settings, f)
      ensures DefaultModes in config.maps && config.maps[DefaultModes].Keys == NestedOf(settings, DefaultModes).Keys
      ensures forall p | p in NestedOf(settings, DefaultModes) ::
                config.maps[DefaultModes][p] ==
                (var mode := NestedOf(settings, DefaultModes)[p]; if mode == "manual" then "normal" else mode)
    {
      if defaults.None? {
        config.host := Or(TextOf(settings, PwaHost), "0.0.0.0");
        config.level := Or(TextOf(settings, LogLevel), "info");
        defaults := Some(config.models);
      }
      config.devMode := DevMode in settings.flags;
      config.appRepo := CheckoutOf(env, settings);
      config.maps := MapsOf(settings);
      config.models := Overlay(defaults.value, config.models.Keys, OverridesOf(settings));
    }
  }

  // ---- the overlay on the live configuration ----

  /** `models` has the default model of each provider that has such a setting. */
  class Config {
    var host: string
    var level: string
    var devMode: bool
    var appRepo: Option<string>
    var maps: map<MapField, map<string, string>>
    var models: map<string, string>

    constructor (host: string, level: string, models: map<string, string>)
      ensures this.host == host && this.level == level && this.models == models && !devMode
      ensures appRepo == None && maps == map[]
    {
      this.host, this.level, this.models, devMode := host, level, models, false;
      appRepo, maps := None, map[];
    }
  }

  function CheckoutOf(env: Env, s: Settings): Option<string> {
    if TextOf(s, AppRepo) == "" then None else Some(env.resolve(TextOf(s, AppRepo)))
  }

  /** A provider knows the mode `manual` as `normal`. */
  function MapsOf(s: Settings): map<MapField, map<string, string>> {
    map f: MapField :: var m := NestedOf(s, f);
                       if f.DefaultModes? then map p | p in m :: if m[p] == "manual" then "normal" else m[p] else m
  }

  function OverridesOf(s: Settings): map<string, string> { NestedOf(s, DefaultModels) }

  function Lookup(m: map<string, string>, key: string): string { if key in m then m[key] else "" }

  type Models = map<string, string>

  function Overlay(defaults: Models, providers: set<string>, overrides: Models): Models {
    map p | p in providers :: Or(Lookup(overrides, p), Lookup(defaults, p))
  }

  function Overlaid(defaults: Option<Models>, models: Models, overrides: Models): (Option<Models>, Models) {
    var d := if defaults.Some? then defaults.value else models;
    (Some(d), Overlay(d, models.Keys, overrides))
  }

  /** Overlays with changing overrides, one after another. */
  function AfterOverlays(defaults: Option<Models>, models: Models, overrides: seq<Models>): (Option<Models>, Models)
    decreases |overrides|
  {
    if overrides == [] then (defaults, models)
    else
      var (d, m) := Overlaid(defaults, models, overrides[0]);
      AfterOverlays(d, m, overrides[1..])
  }

  /** However often the overrides changed, each provider ends with its last override, or else
      with the model that it had before the first overlay. */
  lemma {:induction false} OverlaysKeepDefaults(defaults: Models, models: Models, overrides: seq<Models>)
    requires overrides != []
    ensures AfterOverlays(Some(defaults), models, overrides) ==
            (Some(defaults), Overlay(defaults, models.Keys, overrides[|overrides| - 1]))
    decreases |overrides|
  {
    var next := Overlay(defaults, models.Keys, overrides[0]);
    assert next.Keys == models.Keys;
    if |overrides| > 1 {
      OverlaysKeepDefaults(defaults, next, overrides[1..]);
    } else {
      assert overrides[1..] == [];
    }
  }

  lemma ModelsAfterOverlays(models: Models, overrides: seq<Models>)
    requires overrides != []
    ensures AfterOverlays(None, models, overrides) ==
            (Some(models), Overlay(models, models.Keys, overrides[|overrides| - 1]))
    ensures var (_, now) := AfterOverlays(None, models, overrides); var last := overrides[|overrides| - 1];
            && now.Keys == models.Keys
            && forall p | p in models :: now[p] == if p in last && last[p] != "" then last[p] else models[p]
  {
    OverlaysKeepDefaults(models, models, overrides);
    assert Overlaid(None, models, overrides[0]) == Overlaid(Some(models), models, overrides[0]);
  }
}
