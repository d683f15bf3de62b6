/** The path scope of an unattended backup: what is enforced on a path, and what is reported
    as a list of prefixes. */
module BackupScope {
  import opened Basics
  import opened PyText

  // ---- paths ----

  /** A data-root-relative path as its segments. */
  type Path = seq<string>

  predicate IsSegment(s: string) { s != "" && s != "." && '/' !in s }

  predicate IsClean(p: Path) { forall i | 0 <= i < |p| :: IsSegment(p[i]) }

  /** A path in POSIX spelling; the empty path is the data root. */
  function Posix(p: Path): string {
    if p == [] then "" else if |p| == 1 then p[0] else p[0] + "/" + Posix(p[1..])
  }

  /** `PurePosixPath(s).parts` of a relative path. */
  function Parts(s: string): Path
    decreases |s|
  {
    if s == "" then []
    else
      var first := Before(s, '/');
      var rest := if |first| < |s| then Parts(s[|first| + 1..]) else [];
      (if first == "" || first == "." then [] else [first]) + rest
  }

  lemma {:induction false} BeforeSlash(a: string, rest: string)
    requires '/' !in a && (rest == "" || rest[0] == '/')
    ensures Before(a + rest, '/') == a
  {
    if a == "" {
      assert a + rest == rest;
    } else {
      assert (a + rest)[1..] == a[1..] + rest;
      BeforeSlash(a[1..], rest);
    }
  }

  lemma {:induction false} BeforeIsShort(s: string, c: char)
    ensures |Before(s, c)| <= |s|
  {
    if s != "" && s[0] != c {
      BeforeIsShort(s[1..], c);
    }
  }

  lemma {:induction false} PartsOfPosix(p: Path)
    requires IsClean(p)
    ensures Parts(Posix(p)) == p
  {
    if |p| == 1 {
      BeforeSlash(p[0], "");
      assert p[0] + "" == p[0];
    } else if |p| > 1 {
      var rest := "/" + Posix(p[1..]);
      assert Posix(p) == p[0] + rest;
      BeforeSlash(p[0], rest);
      assert Posix(p)[|p[0]| + 1..] == Posix(p[1..]);
      PartsOfPosix(p[1..]);
    }
  }

  // ---- one path below another ----

  /** `_remainder`: the path against a base, or nothing when it is not under it. */
  function Remainder(rel: string, base: string): Option<string> {
    if base == "" then Some(rel)
    else if StartsWith(rel, base + "/") then Some(rel[|base| + 1..])
    else None
  }

  lemma {:induction false} PosixNonEmpty(p: Path)
    requires IsClean(p) && p != []
    ensures Posix(p) != "" && Posix(p)[0] != '/'
  {
    assert IsSegment(p[0]);
  }

  predicate Under(p: Path, base: Path) { base == [] || base < p }

  /** Two texts that start with a segment and a slash start with the same segment. */
  lemma SameFirst(a: string, x: string, b: string, y: string)
    requires '/' !in a && '/' !in b && StartsWith(b + y, a + "/" + x) && (y == "" || y[0] == '/')
    ensures a == b && y != "" && StartsWith(y[1..], x)
  {
    var t := b + y;
    var tail := t[|a + "/" + x|..];
    assert t == a + ("/" + x + tail);
    BeforeSlash(b, y);
    BeforeSlash(a, "/" + x + tail);
    assert a == b;
    assert y == t[|b|..] == "/" + x + tail;
  }

  /** What follows the first segment of a path. */
  function AfterFirstSegment(p: Path): string
    requires p != []
  {
    if |p| == 1 then "" else "/" + Posix(p[1..])
  }

  /** A spelled path is its first segment and what follows it. */
  lemma PosixHead(p: Path)
    requires p != []
    ensures Posix(p) == p[0] + AfterFirstSegment(p)
    ensures |p| > 1 ==> AfterFirstSegment(p)[1..] == Posix(p[1..])
  {
  }

  /** What follows the first segment of a base and its slash. */
  function BaseTail(base: Path): string
    requires base != []
  {
    if |base| == 1 then "" else Posix(base[1..]) + "/"
  }

  lemma BaseHead(base: Path)
    requires base != []
    ensures Posix(base) + "/" == base[0] + "/" + BaseTail(base)
  {
  }

  lemma {:induction false} StringUnder(p: Path, base: Path)
    requires IsClean(p) && IsClean(base) && base != [] && StartsWith(Posix(p), Posix(base) + "/")
    ensures base < p
  {
    if p != [] {
      PosixHead(p);
      BaseHead(base);
      SameFirst(base[0], BaseTail(base), p[0], AfterFirstSegment(p));
      StringUnderRest(p, base);
      if |base| > 1 {
        StringUnder(p[1..], base[1..]);
        assert p == [p[0]] + p[1..] && base == [base[0]] + base[1..];
      }
    }
  }

  lemma StringUnderRest(p: Path, base: Path)
    requires p != [] && base != [] && AfterFirstSegment(p) != ""
    requires StartsWith(AfterFirstSegment(p)[1..], BaseTail(base))
    ensures |p| > 1 && (|base| > 1 ==> StartsWith(Posix(p[1..]), Posix(base[1..]) + "/"))
  {
  }

  lemma {:induction false} PosixAppend(base: Path, rest: Path)
    requires base != [] && rest != []
    ensures Posix(base + rest) == Posix(base) + "/" + Posix(rest)
  {
    assert (base + rest)[1..] == base[1..] + rest;
    if |base| == 1 {
      assert base[1..] + rest == rest;
    } else {
      PosixAppend(base[1..], rest);
    }
  }

  /** On clean paths the string test of the code is the prefix of segments. */
  lemma RemainderIsDrop(p: Path, base: Path)
    requires IsClean(p) && IsClean(base)
    ensures Remainder(Posix(p), Posix(base)) == if Under(p, base) then Some(Posix(p[|base|..])) else None
  {
    if base == [] {
      assert p[0..] == p;
    } else {
      PosixNonEmpty(base);
      if base < p {
        assert p == base + p[|base|..];
        PosixAppend(base, p[|base|..]);
        var head := Posix(base) + "/";
        assert Posix(p) == head + Posix(p[|base|..]);
      } else if StartsWith(Posix(p), Posix(base) + "/") {
        StringUnder(p, base);
      }
    }
  }

  // ---- the rules ----

  const DURABLE_ROOTS := ["memory-vault", "skills", "subagents", "commands"]
  const GUIDE_NAME := "AGENTS.md"
  const ALLOWED_FILES := [".runtime/schedules.json"]
  const LOGS := "Logs"
  const CHATS := "Chats"

  datatype Kind = Agent | Vault | Archive

  datatype Base = Base(path: Path, kind: Kind)

  /** The names that are refused at any depth. */
  datatype Denials = Denials(dirs: set<string>, files: set<string>, suffix: string)

  /** The bases, and where the transcript archive is when it is inside the data root. */
  datatype Scope = Scope(bases: seq<Base>, archive: Option<Path>)

  predicate EndsWith(s: string, suffix: string) { |suffix| <= |s| && s[|s| - |suffix|..] == suffix }

  /** A part that names a refused directory, or a last part that names a refused file. */
  predicate Denied(d: Denials, parts: Path) {
    || parts == []
    || (exists part | part in parts :: part in d.dirs)
    || parts[|parts| - 1] in d.files || EndsWith(parts[|parts| - 1], d.suffix)
  }

  predicate HoldsTranscripts(parts: Path, offset: nat) {
    |parts| > offset + 2 && parts[offset + 1] == LOGS && parts[offset + 2] == CHATS
  }

  predicate HoldsGuide(parts: Path, offset: nat) {
    |parts| == offset + 1 && parts[|parts| - 1] == GUIDE_NAME
  }

  predicate HoldsDurableTree(parts: Path, offset: nat) {
    |parts| > offset + 1 && parts[offset] in DURABLE_ROOTS
  }

  predicate IsDurable(d: Denials, remainder: string, kind: Kind) {
    !Denied(d, Parts(remainder)) && HasShape(Parts(remainder), kind)
  }

  /** What counts as durable below a base, by its kind. */
  predicate HasShape(parts: Path, kind: Kind) {
    match kind
    case Vault => true
    case Archive => !HoldsTranscripts(parts, 1) && (HoldsDurableTree(parts, 1) || HoldsGuide(parts, 1))
    case Agent => HoldsDurableTree(parts, 0) || HoldsGuide(parts, 0)
  }

  predicate InArchive(rel: string, archive: Option<Path>) {
    match archive
    case None => false
    case Some(p) => p == [] || rel == Posix(p) || StartsWith(rel, Posix(p) + "/")
  }

  predicate EligibleWithin(d: Denials, rel: string, scope: Scope) {
    !InArchive(rel, scope.archive)
    && (rel in ALLOWED_FILES
        || exists i | 0 <= i < |scope.bases| :: UnderDurable(d, rel, scope.bases[i]))
  }

  predicate UnderDurable(d: Denials, rel: string, base: Base) {
    var remainder := Remainder(rel, Posix(base.path));
    remainder.Some? && IsDurable(d, remainder.value, base.kind)
  }

  method CheckEligible(d: Denials, rel: string, scope: Scope) returns (ok: bool)
    ensures ok == EligibleWithin(d, rel, scope)
  {
    if InArchive(rel, scope.archive) {
      return false;
    }
    if rel in ALLOWED_FILES {
      return true;
    }
    for i := 0 to |scope.bases|
      invariant forall j | 0 <= j < i :: !UnderDurable(d, rel, scope.bases[j])
    {
      var remainder := Remainder(rel, Posix(scope.bases[i].path));
      if remainder.Some? && IsDurable(d, remainder.value, scope.bases[i].kind) {
        assert UnderDurable(d, rel, scope.bases[i]);
        return true;
      }
    }
    ok := false;
  }

  const DENIALS := Denials(
    {".runtime", "secrets", ".claude", ".agents", ".opencode", ".codex", ".worktrees", "node_modules", "__pycache__",
     ".venv", "venv", ".mypy_cache", ".pytest_cache", ".ruff_cache", ".cache", "dist", "build", "target", ".git"},
    {".env", ".envrc", "opencode.json"},
    ".env")

  // ---- what is reported ----

  /** A listed prefix: a directory or one file, below a base; `*` stands for one level. */
  datatype Prefix = Directory(base: Base, below: Path) | OneFile(base: Base, below: Path)

  const ANY := "*"

  function Level(kind: Kind): Path { if kind.Archive? then [ANY] else [] }

  function Listed(base: Base): seq<Prefix> {
    if base.kind.Vault? then [Directory(base, [])]
    else
      var level := Level(base.kind);
      seq(|DURABLE_ROOTS|, i requires 0 <= i < |DURABLE_ROOTS| => Directory(base, level + [DURABLE_ROOTS[i]]))
      + [OneFile(base, level + [GUIDE_NAME])]
  }

  function ListedAll(bases: seq<Base>): seq<Prefix> {
    if bases == [] then [] else ListedAll(bases[..|bases| - 1]) + Listed(bases[|bases| - 1])
  }

  /** The prefix as it is shown; a base that is the data root shows nothing in front of it. */
  function Shown(p: Prefix): string {
    var full := Posix(p.base.path + p.below);
    match p
    case Directory(_, _) => if full == "" then "./" else full + "/"
    case OneFile(_, _) => full
  }

  function ShownAll(prefixes: seq<Prefix>): seq<string> {
    seq(|prefixes|, i requires 0 <= i < |prefixes| => Shown(prefixes[i]))
  }

  lemma ShownJoin(a: seq<Prefix>, b: seq<Prefix>)
    ensures ShownAll(a + b) == ShownAll(a) + ShownAll(b)
  {
  }

  method ShowBase(base: Base) returns (shown: seq<string>)
    ensures shown == ShownAll(Listed(base))
  {
    hide Shown;
    if base.kind.Vault? {
      return [Shown(Directory(base, []))];
    }
    var level := Level(base.kind);
    shown := [];
    for k := 0 to |DURABLE_ROOTS|
      invariant shown == ShownAll(Listed(base)[..k])
    {
      ghost var before, now := Listed(base)[..k], Directory(base, level + [DURABLE_ROOTS[k]]);
      assert Listed(base)[..k + 1] == before + [now];
      ShownJoin(before, [now]);
      shown := shown + [Shown(Directory(base, level + [DURABLE_ROOTS[k]]))];
    }
    shown := shown + [Shown(OneFile(base, level + [GUIDE_NAME]))];
    ghost var front, last := Listed(base)[..|DURABLE_ROOTS|], OneFile(base, level + [GUIDE_NAME]);
    assert Listed(base) == front + [last];
    ShownJoin(front, [last]);
  }

  /** The reported list: what every base lists, then the allowed files. */
  method EligibleRelpaths(bases: seq<Base>) returns (shown: seq<string>)
    ensures shown == ShownAll(ListedAll(bases)) + ALLOWED_FILES
  {
    hide Listed, Shown;
    shown := [];
    for i := 0 to |bases|
      invariant shown == ShownAll(ListedAll(bases[..i]))
    {
      assert bases[..i + 1] == bases[..i] + [bases[i]];
      ShownJoin(ListedAll(bases[..i]), Listed(bases[i]));
      var more := ShowBase(bases[i]);
      shown := shown + more;
    }
    assert bases[..|bases|] == bases;
    shown := shown + ALLOWED_FILES;
  }

  /** How a reader takes a listed prefix: literal segments, and `*` for any one. */
  predicate Fits(pattern: Path, p: Path) {
    |pattern| <= |p| && forall i | 0 <= i < |pattern| :: pattern[i] == ANY || pattern[i] == p[i]
  }

  predicate Matches(prefix: Prefix, p: Path) {
    Under(p, prefix.base.path) &&
    var rest := p[|prefix.base.path|..];
    Fits(prefix.below, rest) && if prefix.Directory? then |rest| > |prefix.below| else |rest| == |prefix.below|
  }

  /** The denials below the base that a prefix was listed for. */
  predicate PassesDenials(d: Denials, base: Base, p: Path)
    requires |base.path| <= |p|
  {
    var rest := p[|base.path|..];
    !Denied(d, rest) && (base.kind.Archive? ==> !HoldsTranscripts(rest, 1))
  }

  lemma ListedMatches(base: Base, p: Path)
    requires Under(p, base.path)
    ensures var rest := p[|base.path|..];
            (exists i | 0 <= i < |Listed(base)| :: Matches(Listed(base)[i], p)) <==>
              match base.kind
              case Vault => rest != []
              case Archive => HoldsDurableTree(rest, 1) || HoldsGuide(rest, 1)
              case Agent => HoldsDurableTree(rest, 0) || HoldsGuide(rest, 0)
  {
    var rest := p[|base.path|..];
    var listed := Listed(base);
    if base.kind.Vault? {
      assert listed[0] == Directory(base, []);
      assert rest != [] ==> Matches(listed[0], p);
    } else {
      var level := Level(base.kind);
      var offset := |level|;
      assert listed[4] == OneFile(base, level + [GUIDE_NAME]);
      forall i | 0 <= i < 4
        ensures listed[i] == Directory(base, level + [DURABLE_ROOTS[i]])
        ensures Matches(listed[i], p) <==> |rest| > offset + 1 && rest[offset] == DURABLE_ROOTS[i]
      {
        assert DURABLE_ROOTS[i] != ANY;
        assert (level + [DURABLE_ROOTS[i]])[offset] == DURABLE_ROOTS[i];
      }
      assert GUIDE_NAME != ANY && (level + [GUIDE_NAME])[offset] == GUIDE_NAME;
      assert Matches(listed[4], p) <==> HoldsGuide(rest, offset);
      if HoldsDurableTree(rest, offset) {
        var i :| 0 <= i < 4 && rest[offset] == DURABLE_ROOTS[i];
        assert Matches(listed[i], p);
      }
    }
  }

  // ---- the reported scope is the enforced one ----

  /** A listed prefix that a path fits and whose denials it passes. */
  predicate Reaches(d: Denials, prefix: Prefix, p: Path) {
    Matches(prefix, p) && PassesDenials(d, prefix.base, p)
  }

  predicate CleanScope(scope: Scope) {
    && (forall i | 0 <= i < |scope.bases| :: IsClean(scope.bases[i].path))
    && (scope.archive.Some? ==> IsClean(scope.archive.value))
  }

  lemma ListedBase(base: Base)
    ensures forall i | 0 <= i < |Listed(base)| :: Listed(base)[i].base == base
  {
  }

  lemma CleanDrop(p: Path, n: nat)
    requires IsClean(p) && n <= |p|
    ensures IsClean(p[n..])
  {
  }

  lemma BaseReaches(d: Denials, p: Path, base: Base)
    requires IsClean(p) && p != [] && IsClean(base.path)
    ensures UnderDurable(d, Posix(p), base) <==> exists i | 0 <= i < |Listed(base)| :: Reaches(d, Listed(base)[i], p)
  {
    hide Listed, Matches, Denied;
    RemainderIsDrop(p, base.path);
    ListedBase(base);
    if Under(p, base.path) {
      var rest := p[|base.path|..];
      CleanDrop(p, |base.path|);
      PartsOfPosix(rest);
      ListedMatches(base, p);
      NothingIsDenied(d);
      if i :| 0 <= i < |Listed(base)| && Matches(Listed(base)[i], p) && PassesDenials(d, base, p) {
        assert Reaches(d, Listed(base)[i], p);
      }
    } else {
      forall i | 0 <= i < |Listed(base)| ensures !Reaches(d, Listed(base)[i], p) {
        MatchesUnder(Listed(base)[i], p);
      }
    }
  }

  lemma MatchesUnder(prefix: Prefix, p: Path)
    ensures Matches(prefix, p) ==> Under(p, prefix.base.path)
  {
  }

  lemma NothingIsDenied(d: Denials)
    ensures Denied(d, [])
  {
  }

  lemma {:induction false} ListedAllReaches(d: Denials, p: Path, bases: seq<Base>)
    ensures (exists i | 0 <= i < |ListedAll(bases)| :: Reaches(d, ListedAll(bases)[i], p)) <==>
            exists j | 0 <= j < |bases| :: exists i | 0 <= i < |Listed(bases[j])| :: Reaches(d, Listed(bases[j])[i], p)
  {
    hide Listed, Reaches;
    if bases != [] {
      var n := |bases| - 1;
      var front, last := ListedAll(bases[..n]), Listed(bases[n]);
      var all := ListedAll(bases);
      assert all == front + last;
      ListedAllReaches(d, p, bases[..n]);
      if i :| 0 <= i < |all| && Reaches(d, all[i], p) {
        if i < |front| {
          assert Reaches(d, front[i], p);
          var j :| 0 <= j < n && exists k | 0 <= k < |Listed(bases[..n][j])| :: Reaches(d, Listed(bases[..n][j])[k], p);
          assert bases[..n][j] == bases[j];
        } else {
          assert Reaches(d, last[i - |front|], p);
        }
      }
      if j :| 0 <= j < |bases| && exists i | 0 <= i < |Listed(bases[j])| :: Reaches(d, Listed(bases[j])[i], p) {
        if j < n {
          assert bases[..n][j] == bases[j];
          var i :| 0 <= i < |front| && Reaches(d, front[i], p);
          assert all[i] == front[i];
        } else {
          var i :| 0 <= i < |last| && Reaches(d, last[i], p);
          assert all[|front| + i] == last[i];
        }
      }
    }
  }

  predicate InArchivePath(p: Path, archive: Option<Path>) { archive.Some? && archive.value <= p }

  lemma SpelledUnder(p: Path, base: Path)
    requires IsClean(p) && IsClean(base) && base != []
    ensures StartsWith(Posix(p), Posix(base) + "/") <==> base < p
    ensures Posix(p) == Posix(base) <==> p == base
  {
    hide Posix, Parts;
    RemainderIsDrop(p, base);
    PosixNonEmpty(base);
    PartsOfPosix(p);
    PartsOfPosix(base);
  }

  lemma ArchiveIsPrefix(p: Path, archive: Option<Path>)
    requires IsClean(p) && p != [] && (archive.Some? ==> IsClean(archive.value))
    ensures InArchive(Posix(p), archive) <==> InArchivePath(p, archive)
  {
    hide Posix;
    if archive.Some? && archive.value != [] {
      SpelledUnder(p, archive.value);
    }
  }

  /** A path is backed up exactly when it is outside the transcript archive and is an allowed
      file, or fits a prefix of the reported list and passes the denials below its base. */
  lemma ReportedIsEnforced(d: Denials, p: Path, scope: Scope)
    requires IsClean(p) && p != [] && CleanScope(scope)
    ensures EligibleWithin(d, Posix(p), scope) <==>
            !InArchivePath(p, scope.archive)
            && (Posix(p) in ALLOWED_FILES
                || exists i | 0 <= i < |ListedAll(scope.bases)| :: Reaches(d, ListedAll(scope.bases)[i], p))
  {
    hide UnderDurable, Reaches, Listed, ListedAll, InArchive, Posix;
    ArchiveIsPrefix(p, scope.archive);
    ListedAllReaches(d, p, scope.bases);
    forall j | 0 <= j < |scope.bases|
      ensures UnderDurable(d, Posix(p), scope.bases[j]) <==>
              exists i | 0 <= i < |Listed(scope.bases[j])| :: Reaches(d, Listed(scope.bases[j])[i], p)
    {
      BaseReaches(d, p, scope.bases[j]);
    }
  }

  /** Below a refused directory that holds no base, the allowed files are all there is. */
  lemma RefusedDirectoriesStayShut(d: Denials, p: Path, scope: Scope, i: nat)
    requires IsClean(p) && p != [] && CleanScope(scope) && i < |p| && p[i] in d.dirs
    requires forall b | b in scope.bases && Under(p, b.path) :: |b.path| <= i
    ensures EligibleWithin(d, Posix(p), scope) <==> !InArchivePath(p, scope.archive) && Posix(p) in ALLOWED_FILES
  {
    hide Posix, Parts, Remainder, InArchive, HoldsTranscripts, HoldsDurableTree, HoldsGuide;
    ArchiveIsPrefix(p, scope.archive);
    forall j | 0 <= j < |scope.bases| ensures !UnderDurable(d, Posix(p), scope.bases[j]) {
      var base := scope.bases[j];
      RemainderIsDrop(p, base.path);
      if Under(p, base.path) {
        assert base in scope.bases;
        CleanDrop(p, |base.path|);
        PartsOfPosix(p[|base.path|..]);
        assert p[|base.path|..][i - |base.path|] == p[i];
      }
    }
  }

  // ---- classification ----

  /** A path as the caller gave it, and its data-root-relative spelling when it has one. */
  datatype Raw = Raw(given: string, rel: string)

  function LabelOf(raw: Raw): string { if raw.rel != "" then raw.rel else raw.given }

  predicate Keeps(d: Denials, scope: Scope, raw: Raw) { raw.rel != "" && EligibleWithin(d, raw.rel, scope) }

  /** The first path of each label, in order. */
  function FirstOfEach(paths: seq<Raw>): seq<Raw> {
    if paths == [] then []
    else
      var front, last := FirstOfEach(paths[..|paths| - 1]), paths[|paths| - 1];
      if LabelOf(last) in Labels(front) then front else front + [last]
  }

  function Labels(paths: seq<Raw>): seq<string> {
    seq(|paths|, i requires 0 <= i < |paths| => LabelOf(paths[i]))
  }

  function Kept(d: Denials, scope: Scope, paths: seq<Raw>, keep: bool): seq<string> {
    if paths == [] then []
    else
      var front, last := Kept(d, scope, paths[..|paths| - 1], keep), paths[|paths| - 1];
      if Keeps(d, scope, last) == keep then front + [LabelOf(last)] else front
  }

  lemma KeptMore(d: Denials, scope: Scope, paths: seq<Raw>, raw: Raw, keep: bool)
    ensures Kept(d, scope, paths + [raw], keep) ==
            Kept(d, scope, paths, keep) + if Keeps(d, scope, raw) == keep then [LabelOf(raw)] else []
  {
    assert (paths + [raw])[..|paths|] == paths;
  }

  lemma LabelsMore(paths: seq<Raw>, raw: Raw)
    ensures Labels(paths + [raw]) == Labels(paths) + [LabelOf(raw)]
  {
  }

  /** Both halves of the deduplicated input, each in the order of the input. */
  method Classify(d: Denials, scope: Scope, paths: seq<Raw>) returns (eligible: seq<string>, excluded: seq<string>)
    ensures eligible == Kept(d, scope, FirstOfEach(paths), true)
    ensures excluded == Kept(d, scope, FirstOfEach(paths), false)
  {
    eligible, excluded := [], [];
    var seen: set<string> := {};
    for i := 0 to |paths|
      invariant eligible == Kept(d, scope, FirstOfEach(paths[..i]), true)
      invariant excluded == Kept(d, scope, FirstOfEach(paths[..i]), false)
      invariant forall l :: l in seen <==> l in Labels(FirstOfEach(paths[..i]))
    {
      hide Keeps;
      assert paths[..i + 1] == paths[..i] + [paths[i]];
      ghost var sofar := FirstOfEach(paths[..i]);
      var label_ := LabelOf(paths[i]);
      if label_ in seen {
        continue;
      }
      KeptMore(d, scope, sofar, paths[i], true);
      KeptMore(d, scope, sofar, paths[i], false);
      LabelsMore(sofar, paths[i]);
      seen := seen + {label_};
      if Keeps(d, scope, paths[i]) {
        eligible := eligible + [label_];
      } else {
        excluded := excluded + [label_];
      }
    }
    assert paths[..|paths|] == paths;
  }

  lemma DistinctMore(labels: seq<string>, l: string)
    ensures Distinct(labels + [l]) <==> Distinct(labels) && l !in labels
  {
    var more := labels + [l];
    if Distinct(more) {
      forall i, j | 0 <= i < j < |labels| ensures labels[i] != labels[j] {
        assert more[i] != more[j];
      }
      forall i | 0 <= i < |labels| ensures labels[i] != l {
        assert more[i] != more[|labels|];
      }
    }
  }

  lemma {:induction false} FirstOfEachIsDistinct(paths: seq<Raw>)
    ensures Distinct(Labels(FirstOfEach(paths)))
    ensures forall l :: l in Labels(FirstOfEach(paths)) <==> l in Labels(paths)
  {
    hide LabelOf;
    if paths != [] {
      var front, last := paths[..|paths| - 1], paths[|paths| - 1];
      FirstOfEachIsDistinct(front);
      LabelsMore(front, last);
      assert paths == front + [last];
      LabelsMore(FirstOfEach(front), last);
      DistinctMore(Labels(FirstOfEach(front)), LabelOf(last));
    }
  }

  lemma {:induction false} KeptIsPart(d: Denials, scope: Scope, paths: seq<Raw>)
    ensures |Kept(d, scope, paths, true)| + |Kept(d, scope, paths, false)| == |paths|
    ensures forall l :: l in Labels(paths) <==> l in Kept(d, scope, paths, true) || l in Kept(d, scope, paths, false)
    ensures Distinct(Labels(paths)) ==>
              forall l :: !(l in Kept(d, scope, paths, true) && l in Kept(d, scope, paths, false))
  {
    hide LabelOf, Keeps;
    if paths != [] {
      var front, last := paths[..|paths| - 1], paths[|paths| - 1];
      KeptIsPart(d, scope, front);
      assert paths == front + [last];
      LabelsMore(front, last);
      DistinctMore(Labels(front), LabelOf(last));
    }
  }

  /** Every label of the input is in exactly one half, once. */
  lemma ClassifySplits(d: Denials, scope: Scope, paths: seq<Raw>)
    ensures var eligible := Kept(d, scope, FirstOfEach(paths), true);
            var excluded := Kept(d, scope, FirstOfEach(paths), false);
            && (forall l :: l in Labels(paths) <==> (l in eligible) != (l in excluded))
            && |eligible| + |excluded| == |FirstOfEach(paths)|
  {
    hide Kept, Labels;
    FirstOfEachIsDistinct(paths);
    KeptIsPart(d, scope, FirstOfEach(paths));
  }

  // ---- which directories are bases ----

  /** A directory already makes what is below it durable by the name of the next segment. */
  predicate Encloses(a: Path, b: Path) { a < b && b[|a|] in DURABLE_ROOTS }

  predicate IsKept(candidates: seq<Base>, base: Base) {
    !exists other | other in candidates :: other != base && Encloses(other.path, base.path)
  }

  /** A candidate inside a durable tree of another one is not a base of its own. */
  function KeptBases(candidates: seq<Base>, i: nat): seq<Base>
    requires i <= |candidates|
    decreases |candidates| - i
  {
    if i == |candidates| then []
    else (if IsKept(candidates, candidates[i]) then [candidates[i]] else []) + KeptBases(candidates, i + 1)
  }

  lemma {:induction false} KeptBasesAre(candidates: seq<Base>, i: nat)
    requires i <= |candidates|
    ensures forall b :: b in KeptBases(candidates, i) <==> b in candidates[i..] && IsKept(candidates, b)
    decreases |candidates| - i
  {
    if i < |candidates| {
      KeptBasesAre(candidates, i + 1);
      assert candidates[i..] == [candidates[i]] + candidates[i + 1..];
    }
  }

  /** Whatever is dropped lies in a durable tree of a base that is kept. */
  lemma {:induction false} DroppedHasKeptEncloser(candidates: seq<Base>, base: Base) returns (a: Base)
    requires base in candidates && !IsKept(candidates, base)
    ensures a in KeptBases(candidates, 0) && Encloses(a.path, base.path)
    decreases |base.path|
  {
    a :| a in candidates && a != base && Encloses(a.path, base.path);
    KeptBasesAre(candidates, 0);
    assert candidates[0..] == candidates;
    if !IsKept(candidates, a) {
      var between := a;
      a := DroppedHasKeptEncloser(candidates, between);
      assert base.path[|a.path|] == between.path[|a.path|];
    }
  }

  lemma DeniedBelow(d: Denials, front: Path, rest: Path)
    requires rest != []
    ensures Denied(d, front + rest) <==> Denied(d, rest) || exists part | part in front :: part in d.dirs
  {
    var all := front + rest;
    assert all[|all| - 1] == rest[|rest| - 1];
    assert forall part :: part in all <==> part in front || part in rest;
  }

  /** On clean paths a base takes what is below it, not denied and of its shape. */
  lemma UnderDurableIs(d: Denials, p: Path, base: Base)
    requires IsClean(p) && IsClean(base.path)
    ensures UnderDurable(d, Posix(p), base) <==>
            Under(p, base.path) && !Denied(d, p[|base.path|..]) && HasShape(p[|base.path|..], base.kind)
  {
    hide Posix, Parts, Denied, Remainder, HasShape;
    RemainderIsDrop(p, base.path);
    if Under(p, base.path) {
      CleanDrop(p, |base.path|);
      PartsOfPosix(p[|base.path|..]);
    }
  }

  predicate NoneRefused(d: Denials, parts: Path) { forall part | part in parts :: part !in d.dirs }

  /** `p` is below `b`, `b` is below `a`, and what is below `b` is not denied. */
  lemma Between(d: Denials, p: Path, a: Path, b: Path)
    requires a <= b < p && !Denied(d, p[|b|..])
    ensures Denied(d, p[|a|..]) <==> !NoneRefused(d, b[|a|..])
  {
    hide Denied;
    assert p[|a|..] == b[|a|..] + p[|b|..];
    DeniedBelow(d, b[|a|..], p[|b|..]);
  }

  lemma BelowBase(d: Denials, p: Path, b: Base)
    requires IsClean(p) && IsClean(b.path) && UnderDurable(d, Posix(p), b)
    ensures b.path < p && !Denied(d, p[|b.path|..])
  {
    hide Posix, Denied, HasShape, UnderDurable;
    UnderDurableIs(d, p, b);
    NothingIsDenied(d);
    assert p[|b.path|..] != [];
  }

  /** What a dropped base would back up is backed up through a base around it, exactly when no
      directory between the two has a refused name and, around an archive, it has the archive's shape. */
  lemma DroppedBaseIsCovered(d: Denials, p: Path, a: Base, b: Base)
    requires IsClean(p) && IsClean(a.path) && IsClean(b.path)
    requires Encloses(a.path, b.path) && UnderDurable(d, Posix(p), b)
    ensures |a.path| <= |p|
    ensures UnderDurable(d, Posix(p), a) <==>
            NoneRefused(d, b.path[|a.path|..]) && (a.kind.Archive? ==> HasShape(p[|a.path|..], Archive))
  {
    hide Posix, Denied, UnderDurable;
    BelowBase(d, p, b);
    UnderDurableIs(d, p, a);
    Between(d, p, a.path, b.path);
  }

  /** No base that is kept lies further down towards `p` than the one that encloses it. */
  lemma KeptBasesEndAbove(candidates: seq<Base>, p: Path, a: Base, c: Base)
    requires a in candidates && c in KeptBases(candidates, 0) && Under(p, c.path)
    requires Encloses(a.path, p)
    ensures |c.path| <= |a.path|
  {
    KeptBasesAre(candidates, 0);
    assert candidates[0..] == candidates;
    assert |c.path| > |a.path| ==> Encloses(a.path, c.path);
  }

  /** Besides the archive, a dropped base's files can be reached by a vault around the archive, or by
      another base in its very place. */
  predicate ReachesPast(d: Denials, c: Base, a: Base) {
    && !c.kind.Archive? && c.path <= a.path && (c.kind.Agent? ==> c.path == a.path)
    && NoneRefused(d, a.path[|c.path|..])
  }

  predicate OneArchive(candidates: seq<Base>) {
    forall a, c | a in candidates && c in candidates && a.kind.Archive? && c.kind.Archive? :: a == c
  }

  /** Whether any kept base but the archive `a` itself takes the file. */
  lemma OthersAroundArchive(d: Denials, p: Path, candidates: seq<Base>, a: Base, b: Base, c: Base)
    requires IsClean(p) && IsClean(a.path) && IsClean(b.path) && IsClean(c.path) && OneArchive(candidates)
    requires a in KeptBases(candidates, 0) && a.kind.Archive? && Encloses(a.path, b.path)
    requires c in KeptBases(candidates, 0) && c != a && UnderDurable(d, Posix(p), b)
    requires NoneRefused(d, b.path[|a.path|..])
    ensures UnderDurable(d, Posix(p), c) <==> ReachesPast(d, c, a)
  {
    hide Posix, Denied, UnderDurable, KeptBases;
    KeptBasesAre(candidates, 0);
    assert candidates[0..] == candidates;
    BelowBase(d, p, b);
    UnderDurableIs(d, p, c);
    assert !c.kind.Archive?;
    if Under(p, c.path) {
      KeptBasesEndAbove(candidates, p, a, c);
      PrefixesAreOrdered(c.path, a.path, p);
      Between(d, p, c.path, b.path);
      assert b.path[|c.path|..] == a.path[|c.path|..] + b.path[|a.path|..];
      assert !Encloses(c.path, a.path);
    }
  }

  lemma PrefixesAreOrdered(a: Path, b: Path, p: Path)
    requires (a == [] || a < p) && b < p && |a| <= |b|
    ensures a <= b
  {
    forall i | 0 <= i < |a| ensures a[i] == b[i] {
      assert a[i] == p[i] == b[i];
    }
  }

  // ---- the scope in its own words ----

  /** What a base takes, said of the whole path: no refused name below the base, no credential, and the
      shape that its kind asks for. */
  ghost predicate Takes(d: Denials, base: Base, p: Path) {
    var n := |base.path|;
    && base.path < p && (forall i | n <= i < |p| :: p[i] !in d.dirs)
    && p[|p| - 1] !in d.files && !EndsWith(p[|p| - 1], d.suffix)
    && match base.kind
       case Vault => true
       case Agent => (|p| > n + 1 && IsTree(p[n])) || (|p| == n + 1 && p[n] == "AGENTS.md")
       case Archive =>
         || (|p| > n + 2 && IsTree(p[n + 1]) && !(|p| > n + 3 && p[n + 2] == "Logs" && p[n + 3] == "Chats"))
         || (|p| == n + 2 && p[n + 1] == "AGENTS.md")
  }

  predicate IsTree(name: string) {
    name == "memory-vault" || name == "skills" || name == "subagents" || name == "commands"
  }

  lemma TreesAreFour(name: string)
    ensures name in DURABLE_ROOTS <==> IsTree(name)
  {
    if IsTree(name) {
      assert DURABLE_ROOTS[0] == "memory-vault" && DURABLE_ROOTS[1] == "skills";
      assert DURABLE_ROOTS[2] == "subagents" && DURABLE_ROOTS[3] == "commands";
    }
  }

  lemma DeniedIs(d: Denials, p: Path, n: nat)
    requires n < |p|
    ensures Denied(d, p[n..]) <==>
            || (exists i | n <= i < |p| :: p[i] in d.dirs)
            || p[|p| - 1] in d.files || EndsWith(p[|p| - 1], d.suffix)
  {
    hide EndsWith;
    var rest := p[n..];
    assert rest[|rest| - 1] == p[|p| - 1];
    if i :| n <= i < |p| && p[i] in d.dirs {
      assert rest[i - n] in rest;
    }
  }

  lemma ShapeIs(p: Path, n: nat, kind: Kind)
    requires n < |p|
    ensures HasShape(p[n..], kind) <==>
            match kind
            case Vault => true
            case Agent => (|p| > n + 1 && IsTree(p[n])) || (|p| == n + 1 && p[n] == "AGENTS.md")
            case Archive =>
              || (|p| > n + 2 && IsTree(p[n + 1]) && !(|p| > n + 3 && p[n + 2] == "Logs" && p[n + 3] == "Chats"))
              || (|p| == n + 2 && p[n + 1] == "AGENTS.md")
  {
    hide IsTree;
    TreesAreFour(p[n]);
    if |p| > n + 1 { TreesAreFour(p[n + 1]); }
  }

  lemma TakesIs(d: Denials, p: Path, base: Base)
    requires IsClean(p) && IsClean(base.path)
    ensures UnderDurable(d, Posix(p), base) <==> Takes(d, base, p)
  {
    hide Posix, Denied, HasShape, UnderDurable, EndsWith, IsTree;
    UnderDurableIs(d, p, base);
    NothingIsDenied(d);
    if |base.path| < |p| {
      DeniedIs(d, p, |base.path|);
      ShapeIs(p, |base.path|, base.kind);
    } else if Under(p, base.path) {
      assert p[|base.path|..] == [];
    }
  }

  /** What may be committed: nothing of the transcript archive; the store of the schedules; and what a
      base takes. */
  lemma EligibleWhen(d: Denials, p: Path, scope: Scope)
    requires IsClean(p) && p != [] && CleanScope(scope)
    ensures EligibleWithin(d, Posix(p), scope) <==>
            && !(scope.archive.Some? && scope.archive.value <= p)
            && (Posix(p) == ".runtime/schedules.json" || exists base | base in scope.bases :: Takes(d, base, p))
  {
    hide Posix, UnderDurable, Takes, InArchive;
    ArchiveIsPrefix(p, scope.archive);
    assert ALLOWED_FILES == [".runtime/schedules.json"];
    forall i | 0 <= i < |scope.bases|
      ensures UnderDurable(d, Posix(p), scope.bases[i]) <==> Takes(d, scope.bases[i], p)
    {
      TakesIs(d, p, scope.bases[i]);
    }
  }

  /** A candidate is a base unless it lies in a durable tree of another candidate. */
  lemma BasesAreThese(candidates: seq<Base>, base: Base)
    ensures base in KeptBases(candidates, 0) <==>
            && base in candidates
            && forall other | other in candidates && other != base ::
                 !(other.path < base.path && IsTree(base.path[|other.path|]))
  {
    hide IsTree;
    KeptBasesAre(candidates, 0);
    assert candidates[0..] == candidates;
    forall other | other in candidates && other.path < base.path
      ensures Encloses(other.path, base.path) <==> IsTree(base.path[|other.path|])
    {
      TreesAreFour(base.path[|other.path|]);
    }
  }

  /** A path whose label came before changes nothing; any other goes to the end of one half: to the first
      when it has a spelling against the data root and the scope takes it, and to the second otherwise,
      then as it was given when it has no such spelling. */
  lemma ClassifiedOneByOne(d: Denials, scope: Scope, paths: seq<Raw>, raw: Raw)
    ensures var eligible := Kept(d, scope, FirstOfEach(paths), true);
            var excluded := Kept(d, scope, FirstOfEach(paths), false);
            var label_ := if raw.rel != "" then raw.rel else raw.given;
            var isNew := forall p | p in paths :: (if p.rel != "" then p.rel else p.given) != label_;
            var taken := raw.rel != "" && EligibleWithin(d, raw.rel, scope);
            var more := FirstOfEach(paths + [raw]);
            && Kept(d, scope, more, true) == eligible + (if isNew && taken then [label_] else [])
            && Kept(d, scope, more, false) == excluded + (if isNew && !taken then [label_] else [])
    ensures Kept(d, scope, FirstOfEach([]), true) == [] && Kept(d, scope, FirstOfEach([]), false) == []
  {
    hide EligibleWithin;
    var firsts := FirstOfEach(paths);
    assert (paths + [raw])[..|paths|] == paths;
    FirstOfEachIsDistinct(paths);
    LabelsHold(paths, LabelOf(raw));
    KeptMore(d, scope, firsts, raw, true);
    KeptMore(d, scope, firsts, raw, false);
  }

  lemma LabelsHold(paths: seq<Raw>, l: string)
    ensures l in Labels(paths) <==> exists p | p in paths :: (if p.rel != "" then p.rel else p.given) == l
  {
    if p :| p in paths && (if p.rel != "" then p.rel else p.given) == l {
      var i :| 0 <= i < |paths| && paths[i] == p;
      assert Labels(paths)[i] == l;
    }
    if l in Labels(paths) {
      var i :| 0 <= i < |Labels(paths)| && Labels(paths)[i] == l;
      assert paths[i] in paths;
    }
  }

  function Head(base: Path): string { if base == [] then "" else Posix(base) + "/" }

  lemma PosixBelow(base: Path, rest: Path)
    requires rest != []
    ensures Posix(base + rest) == Head(base) + Posix(rest)
  {
    hide Posix;
    if base == [] {
      assert [] + rest == rest;
    } else {
      PosixAppend(base, rest);
    }
  }

  lemma PosixShort(name: string)
    ensures Posix([name]) == name && Posix([ANY, name]) == "*/" + name
  {
    assert [ANY, name][1..] == [name];
  }

  function Front(base: Base): string { Head(base.path) + (if base.kind.Archive? then "*/" else "") }

  lemma PosixAtLevel(base: Base, name: string)
    requires !base.kind.Vault?
    ensures Posix(base.path + (Level(base.kind) + [name])) == Front(base) + name
  {
    hide Posix, Head;
    PosixShort(name);
    if base.kind.Archive? {
      assert [ANY] + [name] == [ANY, name];
      PosixBelow(base.path, [ANY, name]);
      assert Head(base.path) + ("*/" + name) == Head(base.path) + "*/" + name;
    } else {
      assert [] + [name] == [name];
      PosixBelow(base.path, [name]);
      assert Head(base.path) + "" == Head(base.path);
    }
  }

  lemma NamesAreNotEmpty(i: nat)
    requires i < 4
    ensures DURABLE_ROOTS[i] != ""
  {
  }

  lemma ShownIs(base: Base, i: nat)
    requires !base.kind.Vault? && i < 5
    ensures |Listed(base)| == 5
    ensures Shown(Listed(base)[i]) == if i < 4 then Front(base) + DURABLE_ROOTS[i] + "/" else Front(base) + GUIDE_NAME
  {
    hide Posix, Front, Level;
    PosixAtLevel(base, if i < 4 then DURABLE_ROOTS[i] else GUIDE_NAME);
    if i < 4 { NamesAreNotEmpty(i); }
  }

  lemma VaultIsShown(base: Base)
    requires IsClean(base.path) && base.kind.Vault?
    ensures ShownAll(Listed(base)) == [if base.path == [] then "./" else Posix(base.path) + "/"]
  {
    assert base.path + [] == base.path;
    if base.path != [] { PosixNonEmpty(base.path); }
  }

  /** What a base shows: a vault itself, and any other the four trees and the guide, an archive's one
      level further down; and the bases one after the other. */
  lemma ShownBaseByBase(bases: seq<Base>, base: Base)
    requires IsClean(base.path)
    ensures ShownAll(ListedAll([])) == []
    ensures ShownAll(ListedAll(bases + [base])) == ShownAll(ListedAll(bases)) + ShownAll(Listed(base))
    ensures base.kind.Vault? ==> ShownAll(Listed(base)) == [if base.path == [] then "./" else Posix(base.path) + "/"]
    ensures !base.kind.Vault? ==>
              var head := if base.path == [] then "" else Posix(base.path) + "/";
              var front := head + (if base.kind.Archive? then "*/" else "");
              ShownAll(Listed(base)) ==
                [front + DURABLE_ROOTS[0] + "/", front + DURABLE_ROOTS[1] + "/", front + DURABLE_ROOTS[2] + "/",
                 front + DURABLE_ROOTS[3] + "/", front + GUIDE_NAME]
  {
    hide Shown, Listed, Posix, DURABLE_ROOTS, GUIDE_NAME;
    assert (bases + [base])[..|bases|] == bases;
    ShownJoin(ListedAll(bases), Listed(base));
    if base.kind.Vault? {
      VaultIsShown(base);
    } else {
      ShownIs(base, 0);
      ShownIs(base, 1);
      ShownIs(base, 2);
      ShownIs(base, 3);
      ShownIs(base, 4);
    }
  }

  /** What the scope does with the files of a dropped base below `a`. */
  predicate StillTaken(d: Denials, p: Path, kept: seq<Base>, a: Base, b: Base)
    requires |a.path| <= |b.path| && |a.path| <= |p|
  {
    && NoneRefused(d, b.path[|a.path|..])
    && (a.kind.Archive? ==>
          HasShape(p[|a.path|..], Archive) || exists c | c in kept :: ReachesPast(d, c, a))
  }

  /** Of the files that a dropped base would have backed up, exactly these are still backed up, and
      the allowed ones: those outside the transcript archive, with no refused name between the base
      and a kept one around it; and where that is the folder of archived workspaces, those of its
      shape or within reach of a base that is not an archive. */
  lemma DroppedBaseIsBackedUpWhen(d: Denials, p: Path, candidates: seq<Base>, archive: Option<Path>, a: Base, b: Base)
    requires IsClean(p) && (forall c | c in candidates :: IsClean(c.path)) && (archive.Some? ==> IsClean(archive.value))
    requires OneArchive(candidates) && b in candidates && UnderDurable(d, Posix(p), b)
    requires a in KeptBases(candidates, 0) && Encloses(a.path, b.path)
    ensures |a.path| <= |p|
    ensures EligibleWithin(d, Posix(p), Scope(KeptBases(candidates, 0), archive)) <==>
            !InArchivePath(p, archive)
            && (Posix(p) in ALLOWED_FILES || StillTaken(d, p, KeptBases(candidates, 0), a, b))
  {
    hide Posix, InArchive, UnderDurable, KeptBases, ReachesPast, HasShape;
    KeptBasesAre(candidates, 0);
    assert candidates[0..] == candidates;
    var kept := KeptBases(candidates, 0);
    BelowBase(d, p, b);
    ArchiveIsPrefix(p, archive);
    if NoneRefused(d, b.path[|a.path|..]) {
      TakenBy(d, p, candidates, a, b);
    } else {
      var i :| |a.path| <= i < |b.path| && b.path[i] in d.dirs;
      forall c | c in kept && Under(p, c.path) ensures |c.path| <= i {
        KeptBasesEndAbove(candidates, p, a, c);
      }
      RefusedDirectoriesStayShut(d, p, Scope(kept, archive), i);
    }
  }

  lemma TakenBy(d: Denials, p: Path, candidates: seq<Base>, a: Base, b: Base)
    requires IsClean(p) && (forall c | c in candidates :: IsClean(c.path)) && OneArchive(candidates)
    requires b in candidates && UnderDurable(d, Posix(p), b)
    requires a in KeptBases(candidates, 0) && Encloses(a.path, b.path) && NoneRefused(d, b.path[|a.path|..])
    ensures |a.path| <= |p|
    ensures var kept := KeptBases(candidates, 0);
            (exists i | 0 <= i < |kept| :: UnderDurable(d, Posix(p), kept[i])) <==> StillTaken(d, p, kept, a, b)
  {
    hide Posix, UnderDurable, KeptBases, HasShape;
    KeptBasesAre(candidates, 0);
    assert candidates[0..] == candidates;
    var kept := KeptBases(candidates, 0);
    BelowBase(d, p, b);
    DroppedBaseIsCovered(d, p, a, b);
    var j :| 0 <= j < |kept| && kept[j] == a;
    if a.kind.Archive? {
      assert !ReachesPast(d, a, a);
      forall i | 0 <= i < |kept| && kept[i] != a
        ensures UnderDurable(d, Posix(p), kept[i]) <==> ReachesPast(d, kept[i], a)
      {
        assert kept[i] in kept;
        OthersAroundArchive(d, p, candidates, a, b, kept[i]);
      }
    }
  }

  const NOTE := ["memory-vault", "build", "todo.md"]
  const ROOT := Base([], Agent)
  const BUILD_VAULT := Base(["memory-vault", "build"], Vault)
  const LAYOUT := [ROOT, BUILD_VAULT, Base([".archived-workspaces"], Archive)]

  lemma LayoutIsClean()
    ensures IsClean(NOTE) && forall c | c in LAYOUT :: IsClean(c.path)
  {
  }

  lemma VaultTakesTheNote()
    ensures UnderDurable(DENIALS, Posix(NOTE), BUILD_VAULT)
  {
    hide Posix, Parts, Remainder;
    LayoutIsClean();
    RemainderIsDrop(NOTE, BUILD_VAULT.path);
    assert NOTE[2..] == ["todo.md"];
    PartsOfPosix(["todo.md"]);
    assert !EndsWith("todo.md", ".env") by { assert "todo.md"[6] == 'd'; }
  }

  lemma RootIsKept()
    ensures ROOT in KeptBases(LAYOUT, 0) && Encloses(ROOT.path, BUILD_VAULT.path)
  {
    hide KeptBases;
    KeptBasesAre(LAYOUT, 0);
    assert LAYOUT[0] == ROOT && LAYOUT[0..] == LAYOUT;
    assert IsKept(LAYOUT, ROOT);
    assert BUILD_VAULT.path[0] == DURABLE_ROOTS[0];
  }

  /** With the install root as agent root, the notes of a vault in `memory-vault/build` are not
      backed up, though the vault's own rule would take them. */
  lemma VaultNamedBuildIsNotBackedUp()
    ensures UnderDurable(DENIALS, Posix(NOTE), BUILD_VAULT)
    ensures !EligibleWithin(DENIALS, Posix(NOTE), Scope(KeptBases(LAYOUT, 0), None))
  {
    hide Posix, KeptBases, UnderDurable, EligibleWithin, Encloses;
    LayoutIsClean();
    VaultTakesTheNote();
    RootIsKept();
    assert LAYOUT[1] == BUILD_VAULT;
    DroppedBaseIsBackedUpWhen(DENIALS, NOTE, LAYOUT, None, ROOT, BUILD_VAULT);
    assert BUILD_VAULT.path[0..][1] == "build";
    NoteIsNotAllowed();
  }

  lemma NoteIsNotAllowed()
    ensures Posix(NOTE) !in ALLOWED_FILES
  {
    assert NOTE[1..][1..] == ["todo.md"];
    assert Posix(NOTE) == "memory-vault" + "/" + Posix(NOTE[1..]);
    assert Posix(NOTE)[0] == 'm';
  }
}
