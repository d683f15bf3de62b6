/** Writing the managed section of a rules file and reading it back. */
module RulesSection {
  import opened Basics
  import opened PyText
  import opened RulesFence
  import opened RulesFile

  // ---- line ends ----

  predicate HasCrlf(t: string) { exists i | 0 <= i < |t| - 1 :: t[i] == '\r' && t[i + 1] == '\n' }

  /** `text.replace("\r\n", "\n")` */
  function Unixed(t: string): string
    decreases |t|
  {
    if t == "" then ""
    else if |t| > 1 && t[0] == '\r' && t[1] == '\n' then "\n" + Unixed(t[2..])
    else [t[0]] + Unixed(t[1..])
  }

  /** `body.replace("\n", nl)` */
  function Breaks(body: string, nl: string): string {
    if body == "" then "" else (if body[0] == '\n' then nl else [body[0]]) + Breaks(body[1..], nl)
  }

  predicate IsCut(c: char) { IsBreak(c) || c == '\r' }

  /** The part of a text before its first line end. */
  function Line(t: string): (line: string)
    ensures line <= t
  {
    if t == "" || IsCut(t[0]) then "" else [t[0]] + Line(t[1..])
  }

  /** `str.splitlines` on a text that still has its carriage returns. */
  function Lines(t: string): seq<string>
    decreases |t|
  {
    if t == "" then []
    else
      var n := |Line(t)|;
      if n == |t| then [t]
      else if t[n] == '\r' && n + 1 < |t| && t[n + 1] == '\n' then [t[..n]] + Lines(t[n + 2..])
      else [t[..n]] + Lines(t[n + 1..])
  }

  // ---- the lint that needs no digest ----

  datatype Rule = Rule(key: string, verdict: string, start: nat)

  /** What the patterns of the module recognise. */
  datatype Grammar = Grammar(unsafeChar: char -> bool, ruleOf: string -> Option<Rule>, isKey: string -> bool)

  datatype Refusal =
    | OverCap | UnsafeChar | NamesMarker | BadHeading | NotARule | Markup | UnknownKey | TooLong | TwoRules

  datatype RuleLine = RuleLine(line: string, rule: Rule)

  datatype Linted = Refused(why: Refusal) | Rules(rules: seq<RuleLine>)

  const WRITE_CAP := 2500
  const LINE_CAP := 300
  const HEADINGS := {"## Keep", "## Drop", "## Themes"}

  function LintLine(g: Grammar, line: string): Option<Refusal> {
    var rule := g.ruleOf(line);
    if !StartsWith(line, "- ") || rule.None? then Some(NotARule)
    else if rule.value.start > |line| || exists c | c in line[..rule.value.start] :: c == '<' || c == '>'
    then Some(Markup)
    else if !g.isKey(rule.value.key) then Some(UnknownKey)
    else if |line| > LINE_CAP then Some(TooLong)
    else None
  }

  predicate IsHeading(line: string) { StartsWith(line, "##") }

  function LintLines(g: Grammar, lines: seq<string>, seen: set<string>): Linted {
    if lines == [] then Rules([])
    else if Strip(lines[0]) == "" then LintLines(g, lines[1..], seen)
    else if IsHeading(lines[0]) then
      if lines[0] !in HEADINGS then Refused(BadHeading) else LintLines(g, lines[1..], seen)
    else if LintLine(g, lines[0]).Some? then Refused(LintLine(g, lines[0]).value)
    else
      var rule := g.ruleOf(lines[0]).value;
      if rule.key in seen then Refused(TwoRules)
      else
        match LintLines(g, lines[1..], seen + {rule.key})
        case Refused(why) => Refused(why)
        case Rules(more) => Rules([RuleLine(lines[0], rule)] + more)
  }

  predicate HasUnsafe(g: Grammar, body: string) { exists c | c in body :: c != '\n' && g.unsafeChar(c) }

  predicate Mentions(body: string, w: string) { exists n: nat | n <= |body| :: At(body, n, w) }

  function LintStructure(g: Grammar, body: string): Linted {
    if |body| > WRITE_CAP then Refused(OverCap)
    else if HasUnsafe(g, body) then Refused(UnsafeChar)
    else if Mentions(body, "ciao:rules") then Refused(NamesMarker)
    else LintLines(g, Lines(body), {})
  }

  predicate IsBlankOrHeading(line: string) {
    Strip(line) == "" || line == "## Keep" || line == "## Drop" || line == "## Themes"
  }

  /** A line of the section that states a rule, with no markup before it. */
  predicate IsGoodRule(g: Grammar, line: string) {
    && Strip(line) != "" && !StartsWith(line, "##") && StartsWith(line, "- ") && |line| <= 300 && g.ruleOf(line).Some?
    && g.ruleOf(line).value.start <= |line|
    && (forall c | c in line[..g.ruleOf(line).value.start] :: c != '<' && c != '>')
    && g.isKey(g.ruleOf(line).value.key)
  }

  ghost predicate AllPass(g: Grammar, lines: seq<string>) {
    forall i | 0 <= i < |lines| :: IsBlankOrHeading(lines[i]) || IsGoodRule(g, lines[i])
  }

  function RuleLines(lines: seq<string>): seq<string> {
    if lines == [] then []
    else (if IsBlankOrHeading(lines[0]) then [] else [lines[0]]) + RuleLines(lines[1..])
  }

  ghost predicate KeysDiffer(g: Grammar, lines: seq<string>, seen: set<string>) {
    && (forall i | 0 <= i < |lines| :: g.ruleOf(lines[i]).Some? ==> g.ruleOf(lines[i]).value.key !in seen)
    && (forall i, j | 0 <= i < j < |lines| ::
          g.ruleOf(lines[i]).Some? && g.ruleOf(lines[j]).Some? ==>
            g.ruleOf(lines[i]).value.key != g.ruleOf(lines[j]).value.key)
  }

  lemma KeysDifferHead(g: Grammar, line: string, more: seq<string>, seen: set<string>)
    requires g.ruleOf(line).Some?
    ensures KeysDiffer(g, [line] + more, seen) <==>
            g.ruleOf(line).value.key !in seen && KeysDiffer(g, more, seen + {g.ruleOf(line).value.key})
  {
    var all := [line] + more;
    if KeysDiffer(g, all, seen) {
      assert all[0] == line;
      forall i | 0 <= i < |more| && g.ruleOf(more[i]).Some?
        ensures g.ruleOf(more[i]).value.key !in seen + {g.ruleOf(line).value.key}
      {
        assert all[i + 1] == more[i];
      }
      forall i, j | 0 <= i < j < |more| && g.ruleOf(more[i]).Some? && g.ruleOf(more[j]).Some?
        ensures g.ruleOf(more[i]).value.key != g.ruleOf(more[j]).value.key
      {
        assert all[i + 1] == more[i] && all[j + 1] == more[j];
      }
    }
  }

  lemma HeadingsAreThree(line: string)
    ensures line in HEADINGS <==> line == "## Keep" || line == "## Drop" || line == "## Themes"
    ensures line in HEADINGS ==> IsHeading(line)
  {
    assert "## Keep"[..2] == "##" && "## Drop"[..2] == "##" && "## Themes"[..2] == "##";
  }

  lemma LintLineIs(g: Grammar, line: string)
    requires Strip(line) != "" && !IsHeading(line)
    ensures LintLine(g, line).None? <==> IsGoodRule(g, line)
  {
    hide Strip;
  }

  /** Lines pass exactly when each is blank, a heading or a good rule, and no two rules share a key. */
  lemma {:induction false} LinesPassWhen(g: Grammar, lines: seq<string>, seen: set<string>)
    ensures LintLines(g, lines, seen).Rules? <==>
            AllPass(g, lines) && KeysDiffer(g, RuleLines(lines), seen)
  {
    hide Strip, IsGoodRule, LintLine, IsHeading, KeysDiffer, AllPass, IsBlankOrHeading;
    if lines == [] {
      NonePass(g);
      NoKeysDiffer(g, seen);
    } else {
      var line, more := lines[0], lines[1..];
      AllOfMore(g, lines);
      BlankOrHeadingIs(line);
      if IsBlankOrHeading(line) {
        LinesPassWhen(g, more, seen);
        assert [] + RuleLines(more) == RuleLines(more);
      } else if IsHeading(line) {
        GoodRuleIsNoHeading(g, line);
      } else {
        LintLineIs(g, line);
        if LintLine(g, line).None? {
          GoodRuleHasRule(g, line);
          LinesPassWhen(g, more, seen + {g.ruleOf(line).value.key});
          KeysDifferHead(g, line, RuleLines(more), seen);
        }
      }
    }
  }

  lemma BlankOrHeadingIs(line: string)
    ensures IsBlankOrHeading(line) <==> Strip(line) == "" || line in HEADINGS
    ensures line in HEADINGS ==> IsHeading(line)
  {
    hide Strip;
    HeadingsAreThree(line);
  }

  /** The rules that come out are the lines that are not blank and no headings, in order, with what
      the grammar reads in them. */
  lemma {:induction false} RulesComeOut(g: Grammar, lines: seq<string>, seen: set<string>)
    requires LintLines(g, lines, seen).Rules?
    ensures var rules := LintLines(g, lines, seen).rules;
            && |rules| == |RuleLines(lines)|
            && forall i | 0 <= i < |rules| ::
                 rules[i].line == RuleLines(lines)[i] && g.ruleOf(rules[i].line) == Some(rules[i].rule)
  {
    hide Strip, LintLine, IsHeading, IsBlankOrHeading;
    if lines != [] {
      var line, more := lines[0], lines[1..];
      BlankOrHeadingIs(line);
      if IsBlankOrHeading(line) {
        RulesComeOut(g, more, seen);
        assert [] + RuleLines(more) == RuleLines(more);
      } else {
        GoodRuleIsRead(g, line);
        RulesComeOut(g, more, seen + {g.ruleOf(line).value.key});
      }
    }
  }

  lemma GoodRuleIsRead(g: Grammar, line: string)
    ensures LintLine(g, line).None? ==> g.ruleOf(line).Some?
  {
  }

  lemma AllOfMore(g: Grammar, lines: seq<string>)
    requires lines != []
    ensures AllPass(g, lines) <==> (IsBlankOrHeading(lines[0]) || IsGoodRule(g, lines[0])) && AllPass(g, lines[1..])
  {
    hide IsBlankOrHeading, IsGoodRule;
    assert forall i | 1 <= i < |lines| :: lines[i] == lines[1..][i - 1];
  }

  lemma NonePass(g: Grammar)
    ensures AllPass(g, [])
  {
  }

  lemma NoKeysDiffer(g: Grammar, seen: set<string>)
    ensures KeysDiffer(g, [], seen)
  {
  }

  lemma GoodRuleIsNoHeading(g: Grammar, line: string)
    requires IsHeading(line)
    ensures !IsGoodRule(g, line)
  {
  }

  lemma GoodRuleHasRule(g: Grammar, line: string)
    requires IsGoodRule(g, line)
    ensures g.ruleOf(line).Some?
  {
  }

  /** The lint that needs no digest passes exactly this. */
  lemma BodyPassesWhen(g: Grammar, body: string)
    ensures LintStructure(g, body).Rules? <==>
            && |body| <= 2500 && (forall c | c in body && c != '\n' :: !g.unsafeChar(c))
            && (forall n: nat | n <= |body| :: !At(body, n, "ciao:rules"))
            && AllPass(g, Lines(body)) && KeysDiffer(g, RuleLines(Lines(body)), {})
  {
    hide AllPass, KeysDiffer, LintLines, Lines;
    LinesPassWhen(g, Lines(body), {});
  }

  // ---- reading ----

  /** `fenced` is false for a text without a fence and for a malformed one. */
  datatype State = State(
    present: bool, text: string, managed: string, outside: string, source: string,
    rules: map<string, string>, fenced: bool, malformed: bool)

  function RulesIn(g: Grammar, lines: seq<string>): map<string, string> {
    if lines == [] then map[]
    else
      var front, last := RulesIn(g, lines[..|lines| - 1]), g.ruleOf(lines[|lines| - 1]);
      if last.Some? then front[last.value.key := last.value.verdict] else front
  }

  function Between(t: string, f: Fence): string
    requires f.Fence? && f.open.mark.end <= f.close.start <= |t|
  {
    Strip(t[f.open.mark.end..f.close.start])
  }

  function Outside(t: string, f: Fence): string
    requires f.Fence? && f.open.start <= |t| && f.close.mark.end <= |t|
  {
    t[..f.open.start] + "\n" + t[f.close.mark.end..]
  }

  predicate InText(t: string, f: Fence) {
    f.Fence? ==> f.open.start <= f.open.mark.end <= f.close.start <= f.close.mark.end <= |t|
  }

  lemma {:induction false} SpansAreInText(kind: Kind, t: string, i: nat)
    requires i <= |t|
    ensures forall s | s in Scan(kind, t, i) :: s.start <= s.mark.end <= |t|
    decreases |t| - i
  {
    if i < |t| {
      match Here(MARKER, kind, t, i)
      case Some(m) => SpansAreInText(kind, t, m.end);
      case None => SpansAreInText(kind, t, i + 1);
    }
  }

  lemma ParseIsInText(t: string)
    ensures InText(t, Parse(t))
  {
    SpansAreInText(Opening, t, 0);
    SpansAreInText(Closing, t, 0);
    if Parse(t).Fence? {
      assert Parse(t).open in Scan(Opening, t, 0) && Parse(t).close in Scan(Closing, t, 0);
    }
  }

  function ReadState(g: Grammar, file: Option<string>): State {
    match file
    case None => State(false, "", "", "", "", map[], false, false)
    case Some(t) =>
      ParseIsInText(t);
      match Parse(t)
      case Malformed => State(true, t, "", t, "", map[], false, true)
      case NoFence => State(true, t, "", t, "", map[], false, false)
      case Fence(open, close) =>
        var managed := Between(t, Parse(t));
        State(true, t, managed, Outside(t, Parse(t)), open.mark.source, RulesIn(g, Lines(managed)), true, false)
  }

  /** Of several lines with a rule for one key the last counts. */
  lemma {:induction false} LastRuleCounts(g: Grammar, before: seq<string>, line: string, after: seq<string>,
                                          key: string)
    requires IsRuleFor(g, line, key) && NoRuleFor(g, after, key)
    ensures var rules := RulesIn(g, before + [line] + after);
            key in rules && rules[key] == g.ruleOf(line).value.verdict
    ensures key !in RulesIn(g, after)
    decreases |after|
  {
    var all := before + [line] + after;
    if after == [] {
      assert all[|all| - 1] == line;
    } else {
      var n := |after| - 1;
      assert all[|all| - 1] == after[n] && after[n] in after;
      assert all[..|all| - 1] == before + [line] + after[..n];
      LastRuleCounts(g, before, line, after[..n], key);
    }
  }

  predicate NoRuleFor(g: Grammar, lines: seq<string>, key: string) {
    forall line | line in lines :: !IsRuleFor(g, line, key)
  }

  predicate IsRuleFor(g: Grammar, line: string, key: string) { g.ruleOf(line).Some? && g.ruleOf(line).value.key == key }

  // ---- writing ----

  datatype RulesKind = MemoryRules | TaskRules

  const TAGS := "---\ntags: [ciao, "
  const TITLE := ", rules]\n---\n\n# "
  const ADVICE := "\n\nEdit freely outside the fenced section; "
  const PROMISE := "the weekly pass rewrites only inside it.\n\n"

  function Header(kind: RulesKind): string {
    match kind
    case MemoryRules => TAGS + "memory" + TITLE + "Memory review rules" + ADVICE + PROMISE
    case TaskRules => TAGS + "tasks" + TITLE + "Task rules" + ADVICE + PROMISE
  }

  function LineEnd(t: string): string { if HasCrlf(t) then "\r\n" else "\n" }

  function Middle(body: string, nl: string): string { nl + Breaks(body, nl) + nl }

  function Separator(t: string, nl: string): string {
    (if t != "" && (t[|t| - 1] == '\n' || t[|t| - 1] == '\r') then "" else nl) + nl
  }

  /** The text around the section: what comes before it, and what comes after it. */
  function Around(kind: RulesKind, file: Option<string>): (string, string)
    requires file.Some? ==> !Parse(file.value).Malformed?
  {
    match file
    case None => (Header(kind), "\n")
    case Some(t) =>
      ParseIsInText(t);
      match Parse(t)
      case Fence(open, close) => (t[..open.start], t[close.mark.end..])
      case NoFence => (t + Separator(t, LineEnd(t)), LineEnd(t))
  }

  function Written(kind: RulesKind, file: Option<string>, body: string, source: string): string
    requires file.Some? ==> !Parse(file.value).Malformed?
  {
    var nl := if file.Some? then LineEnd(file.value) else "\n";
    var (pre, post) := Around(kind, file);
    Spliced(pre, source, Middle(body, nl), post)
  }

  /** A body takes the file's line ends one by one. */
  lemma {:induction false} BreaksAreCharwise(a: string, b: string, c: char, nl: string)
    ensures Breaks(a + b, nl) == Breaks(a, nl) + Breaks(b, nl)
    ensures Breaks([c], nl) == if c == '\n' then nl else [c]
  {
    assert [c][1..] == "";
    if a == "" {
      assert a + b == b;
    } else {
      assert (a + b)[1..] == a[1..] + b;
      BreaksAreCharwise(a[1..], b, c, nl);
    }
  }

  /** Undoing the line ends gives the body back. */
  lemma {:induction false} UnixedUndoesBreaks(body: string)
    requires '\r' !in body
    ensures Unixed(Breaks(body, "\r\n")) == body && Unixed(body) == body
  {
    if body != "" {
      var rest := Breaks(body[1..], "\r\n");
      UnixedUndoesBreaks(body[1..]);
      var all := Breaks(body, "\r\n");
      assert body[0] in body;
      if body[0] == '\n' {
        assert all == "\r\n" + rest && all[2..] == rest;
      } else {
        assert all == [body[0]] + rest && all[1..] == rest;
      }
    }
  }

  lemma Regroup(pre: string, open: string, nl: string, text: string, close: string, post: string)
    ensures pre + (open + ((nl + text + nl) + (close + post))) == pre + (open + nl + text + nl + close) + post
  {
    assert open + ((nl + text + nl) + (close + post)) == (open + nl + text + nl + close) + post;
  }

  /** The whole text that a write gives: the section between its markers in place of the one that was
      there, at the end behind an empty line, or under the header of a new file. */
  lemma TextThatIsWritten(kind: RulesKind, file: Option<string>, body: string, source: string)
    requires file.Some? ==> !Parse(file.value).Malformed?
    ensures var nl := if file.Some? && HasCrlf(file.value) then "\r\n" else "\n";
            var block := OpenMarker(source) + nl + Breaks(body, nl) + nl + CLOSE_MARKER;
            var t := Written(kind, file, body, source);
            match file
            case None => t == Header(kind) + block + "\n"
            case Some(old_) =>
              match Parse(old_)
              case Fence(open, close) =>
                InText(old_, Parse(old_)) && t == old_[..open.start] + block + old_[close.mark.end..]
              case NoFence =>
                var ended := old_ != "" && (old_[|old_| - 1] == '\n' || old_[|old_| - 1] == '\r');
                t == old_ + (if ended then nl else nl + nl) + block + nl
              case Malformed => true
  {
    hide Parse, Breaks, HasCrlf, Header, OpenMarker, CLOSE_MARKER;
    var nl := if file.Some? && HasCrlf(file.value) then "\r\n" else "\n";
    if file.Some? { ParseIsInText(file.value); }
    var (pre, post) := Around(kind, file);
    Regroup(pre, OpenMarker(source), nl, Breaks(body, nl), CLOSE_MARKER, post);
  }

  /** A new file says which of the two it is. */
  lemma HeaderNamesItsKind(kind: RulesKind)
    ensures match kind
            case MemoryRules => Header(kind)[..|TAGS| + 6] == TAGS + "memory"
            case TaskRules => Header(kind)[..|TAGS| + 5] == TAGS + "tasks"
  {
    hide TAGS, TITLE, ADVICE, PROMISE;
  }

  // ---- the body between the markers ----

  predicate IsLineEnd(nl: string) { nl == "\n" || nl == "\r\n" }

  lemma {:induction false} StripLeftPast(w: string, s: string)
    requires (forall c | c in w :: IsSpace(c)) && s != "" && !IsSpace(s[0])
    ensures StripLeft(w + s, IsSpace) == s
  {
    if w == "" {
      assert w + s == s;
    } else {
      assert (w + s)[1..] == w[1..] + s && (w + s)[0] == w[0];
      StripLeftPast(w[1..], s);
    }
  }

  lemma {:induction false} StripRightPast(s: string, w: string)
    requires (forall c | c in w :: IsSpace(c)) && s != "" && !IsSpace(s[|s| - 1])
    ensures StripRight(s + w, IsSpace) == s
  {
    if w == "" {
      assert s + w == s;
    } else {
      var n := |w| - 1;
      assert (s + w)[..|s + w| - 1] == s + w[..n] && (s + w)[|s + w| - 1] == w[n];
      StripRightPast(s, w[..n]);
    }
  }

  lemma {:induction false} BreaksEnds(body: string, nl: string)
    requires IsLineEnd(nl) && body != "" && body[0] != '\n' && body[|body| - 1] != '\n'
    ensures var b := Breaks(body, nl); b != "" && b[0] == body[0] && b[|b| - 1] == body[|body| - 1]
  {
    BreaksLast(body, nl);
  }

  lemma {:induction false} BreaksLast(body: string, nl: string)
    requires IsLineEnd(nl) && body != "" && body[|body| - 1] != '\n'
    ensures var b := Breaks(body, nl); b != "" && b[|b| - 1] == body[|body| - 1]
  {
    if |body| > 1 {
      BreaksLast(body[1..], nl);
    } else {
      assert Breaks(body[1..], nl) == "";
    }
  }

  lemma StripMiddle(body: string, nl: string)
    requires IsLineEnd(nl) && Stripped(body)
    ensures Strip(Middle(body, nl)) == Breaks(body, nl)
  {
    var b := Breaks(body, nl);
    BreaksEnds(body, nl);
    assert forall c | c in nl :: IsSpace(c);
    StripLeftPast(nl, b + nl);
    assert nl + b + nl == nl + (b + nl);
    StripRightPast(b, nl);
  }

  /** A word without a line end that the broken body contains is in the body. */
  lemma {:induction false} WordInBreaks(body: string, nl: string, n: nat, w: string) returns (m: nat)
    requires IsLineEnd(nl) && w != "" && '\n' !in w && '\r' !in w && At(Breaks(body, nl), n, w)
    ensures m <= |body| && At(body, m, w)
    decreases body
  {
    var b := Breaks(body, nl);
    assert b[n] == w[0] && w[0] in w;
    if body[0] == '\n' {
      assert b == nl + Breaks(body[1..], nl);
      assert n >= |nl|;
      AtBehind(nl, Breaks(body[1..], nl), n - |nl|, w);
      var k := WordInBreaks(body[1..], nl, n - |nl|, w);
      AtBehind([body[0]], body[1..], k, w);
      assert body == [body[0]] + body[1..];
      m := k + 1;
    } else if n > 0 {
      assert b == [body[0]] + Breaks(body[1..], nl);
      AtBehind([body[0]], Breaks(body[1..], nl), n - 1, w);
      var k := WordInBreaks(body[1..], nl, n - 1, w);
      AtBehind([body[0]], body[1..], k, w);
      assert body == [body[0]] + body[1..];
      m := k + 1;
    } else {
      WordLeadsBreaks(body, nl, w);
      m := 0;
    }
  }

  lemma AtBehind(u: string, v: string, i: nat, w: string)
    ensures At(u + v, |u| + i, w) <==> At(v, i, w)
  {
    MovedAt(u, v, i, w);
  }

  lemma {:induction false} WordLeadsBreaks(body: string, nl: string, w: string)
    requires IsLineEnd(nl) && '\n' !in w && '\r' !in w && At(Breaks(body, nl), 0, w)
    ensures At(body, 0, w)
  {
    if w != "" {
      var b := Breaks(body, nl);
      assert b[0] == w[0] && w[0] in w;
      assert body[0] != '\n';
      assert b == [body[0]] + Breaks(body[1..], nl);
      forall p | 0 <= p < |w| - 1 ensures Breaks(body[1..], nl)[p] == w[1..][p] {
        assert b[p + 1] == w[p + 1];
      }
      WordLeadsBreaks(body[1..], nl, w[1..]);
      forall p | 0 <= p < |w| ensures body[p] == w[p] {
        if p > 0 { assert body[1..][p - 1] == w[1..][p - 1]; }
      }
    }
  }

  const LINTED_NAME := "ciao:rules"

  lemma NameIsLinted(t: string, n: nat)
    requires At(t, n, MARKER.name)
    ensures At(t, n, LINTED_NAME)
  {
    assert MARKER.name == LINTED_NAME + ":";
    assert forall k | 0 <= k < 10 :: MARKER.name[k] == LINTED_NAME[k];
  }

  lemma Joined(u: string, v: string, k: nat)
    requires k < |u| + |v|
    ensures (u + v)[k] == (if k < |u| then u[k] else v[k - |u|]) && (k >= |u| ==> (u + v)[k] in v)
  {
  }

  /** A word without line ends inside the middle is inside the broken body. */
  lemma WordInMiddle(body: string, nl: string, n: nat, w: string) returns (m: nat)
    requires IsLineEnd(nl) && w != "" && '\n' !in w && '\r' !in w && At(Middle(body, nl), n, w)
    ensures m <= |body| && At(body, m, w)
  {
    var b := Breaks(body, nl);
    var mid := Middle(body, nl);
    assert mid == nl + (b + nl);
    assert mid[n] == w[0] && w[0] in w && mid[n + |w| - 1] == w[|w| - 1] && w[|w| - 1] in w;
    assert mid == (nl + b) + nl;
    Joined(nl, b + nl, n);
    Joined(nl + b, nl, n + |w| - 1);
    AtBehind(nl, b + nl, n - |nl|, w);
    AtFront(b, nl, n - |nl|, w);
    m := WordInBreaks(body, nl, n - |nl|, w);
  }

  lemma MiddleIsNameless(body: string, nl: string)
    requires IsLineEnd(nl) && !Mentions(body, LINTED_NAME)
    ensures Nameless(Middle(body, nl))
  {
    var mid := Middle(body, nl);
    assert MARKER.name == "ciao:rules:";
    forall n: nat | n + 11 <= |mid| ensures !At(mid, n, MARKER.name) {
      if At(mid, n, MARKER.name) {
        var m := WordInMiddle(body, nl, n, MARKER.name);
        NameIsLinted(body, m);
      }
    }
  }

  // ---- the text around the section ----

  lemma {:induction false} ClearWithoutOpen(kind: RulesFence.Kind, t: string)
    requires '<' !in t
    ensures Clear(kind, t, 0, |t|)
  {
    hide Here;
    ClearInside(kind, t, 0, |t|);
  }

  lemma EndsOpen(kind: RulesFence.Kind, t: string, k: nat)
    requires k <= |t| && Here(MARKER, kind, t, k).Some?
    ensures var end := Here(MARKER, kind, t, k).value.end; k < end <= |t| && t[end - 1] == '>'
  {
    hide Here;
    MarkerIsSensible();
    var n := HereFacts(MARKER, kind, t, k);
  }

  lemma ClearAppended(kind: RulesFence.Kind, t: string, sep: string)
    requires Clear(kind, t, 0, |t|) && '<' !in sep && '>' !in sep
    ensures Clear(kind, t + sep, 0, |t + sep|)
  {
    hide Here;
    MarkerIsSensible();
    var u := t + sep;
    forall k | 0 <= k < |u| ensures Here(MARKER, kind, u, k).None? {
      if Here(MARKER, kind, u, k).Some? {
        var m := Here(MARKER, kind, u, k).value;
        StartsOpen(kind, u, k);
        EndsOpen(kind, u, k);
        Joined(t, sep, k);
        Joined(t, sep, m.end - 1);
        SameHere(MARKER, kind, u, t, k, m);
      }
    }
  }

  lemma TagsHaveNoOpen()
    ensures '<' !in TAGS && '<' !in TITLE
  {
  }

  lemma AdviceHasNoOpen()
    ensures '<' !in ADVICE
  {
  }

  lemma PromiseHasNoOpen()
    ensures '<' !in PROMISE
  {
  }

  lemma HeaderHasNoOpen(kind: RulesKind)
    ensures '<' !in Header(kind)
  {
    TagsHaveNoOpen();
    AdviceHasNoOpen();
    PromiseHasNoOpen();
  }

  lemma FenceParts(t: string)
    requires Parse(t).Fence?
    ensures var f := Parse(t);
            && InText(t, f) && Unmarked(t[..f.open.start]) && Unmarked(t[f.close.mark.end..])
  {
    hide Here;
    var f := Parse(t);
    ParseIsInText(t);
    ScannedOne(Opening, t, 0, f.open);
    ScannedOne(Closing, t, 0, f.close);
    ClearPrefix(Opening, t, f.open.start);
    ClearPrefix(Closing, t, f.open.start);
    var u, v := t[..f.close.mark.end], t[f.close.mark.end..];
    assert t == u + v;
    ClearMoved(Opening, u, v, 0, |v|);
    ClearMoved(Closing, u, v, 0, |v|);
  }

  lemma AroundIsUnmarked(kind: RulesKind, file: Option<string>)
    requires file.Some? ==> !Parse(file.value).Malformed?
    ensures Unmarked(Around(kind, file).0) && Unmarked(Around(kind, file).1)
  {
    hide Here;
    match file
    case None =>
      HeaderHasNoOpen(kind);
      ClearWithoutOpen(Opening, Header(kind));
      ClearWithoutOpen(Closing, Header(kind));
      ClearWithoutOpen(Opening, "\n");
      ClearWithoutOpen(Closing, "\n");
    case Some(t) =>
      if Parse(t).Fence? {
        FenceParts(t);
      } else {
        var nl := LineEnd(t);
        ScannedNone(Opening, t, 0);
        ScannedNone(Closing, t, 0);
        ClearAppended(Opening, t, Separator(t, nl));
        ClearAppended(Closing, t, Separator(t, nl));
        ClearWithoutOpen(Opening, nl);
        ClearWithoutOpen(Closing, nl);
      }
  }

  // ---- writing, then reading ----

  /** What a body that passed the lint is, as far as the file is concerned. */
  ghost predicate Writable(body: string, source: string) {
    Stripped(body) && !Mentions(body, LINTED_NAME) && '\r' !in body && IsSource(source)
  }

  predicate WellFenced(file: Option<string>) { file.Some? ==> !Parse(file.value).Malformed? }

  function EndOf(file: Option<string>): string { if file.Some? then LineEnd(file.value) else "\n" }

  lemma SplicedSlices(pre: string, source: string, mid: string, post: string)
    requires IsSource(source)
    ensures var t := Spliced(pre, source, mid, post); var b, c := |pre| + OPEN_LEN, |pre| + OPEN_LEN + |mid|;
            c + CLOSE_LEN <= |t| && t[..|pre|] == pre && t[b..c] == mid && t[c + CLOSE_LEN..] == post
  {
    OpenIsOne(source);
    CloseIsOne();
    var t := Spliced(pre, source, mid, post);
    var open := OpenMarker(source);
    assert t == pre + open + mid + CLOSE_MARKER + post;
    assert |pre + open| == |pre| + OPEN_LEN;
  }

  /** The text that was written is parsed into the same surroundings and the same middle. */
  lemma WrittenParts(kind: RulesKind, file: Option<string>, body: string, source: string)
    requires WellFenced(file) && Writable(body, source)
    ensures var t := Written(kind, file, body, source); var f := Parse(t);
            && f.Fence? && InText(t, f) && f.open.mark.source == source
            && Between(t, f) == Breaks(body, EndOf(file))
            && (t[..f.open.start], t[f.close.mark.end..]) == Around(kind, file)
  {
    hide Breaks, Around, Here, HasCrlf;
    var nl := EndOf(file);
    var (pre, post) := Around(kind, file);
    var mid := Middle(body, nl);
    AroundIsUnmarked(kind, file);
    MiddleIsNameless(body, nl);
    SplicedParses(pre, source, mid, post);
    SplicedSlices(pre, source, mid, post);
    StripMiddle(body, nl);
  }

  lemma {:induction false} BreaksUnix(body: string)
    ensures Breaks(body, "\n") == body
  {
    if body != "" {
      BreaksUnix(body[1..]);
    }
  }

  /** What appending adds to the text outside the fence. */
  function OuterLines(t: string): string { Separator(t, LineEnd(t)) + "\n" + LineEnd(t) }

  /** The text outside the fence of what was written is the text around the section. */
  lemma OutsideOfWritten(kind: RulesKind, file: Option<string>, body: string, source: string)
    requires WellFenced(file) && Writable(body, source)
    ensures var t := Written(kind, file, body, source); var f := Parse(t); var (pre, post) := Around(kind, file);
            f.Fence? && InText(t, f) && Outside(t, f) == pre + "\n" + post
  {
    hide Parse, Written, Around, Between;
    WrittenParts(kind, file, body, source);
  }

  lemma OutsideOfAround(kind: RulesKind, t: string)
    requires !Parse(t).Malformed?
    ensures InText(t, Parse(t))
    ensures var (pre, post) := Around(kind, Some(t));
            pre + "\n" + post == if Parse(t).Fence? then Outside(t, Parse(t)) else t + OuterLines(t)
  {
    hide Parse, Separator, LineEnd;
    ParseIsInText(t);
    assert t + Separator(t, LineEnd(t)) + "\n" + LineEnd(t) == t + OuterLines(t);
  }

  /** Reading after writing gives the body in the file's line ends, its fingerprint and its
      rules, and leaves the operator's text outside the fence as it was. */
  lemma WriteThenRead(g: Grammar, kind: RulesKind, file: Option<string>, body: string, source: string)
    requires WellFenced(file) && Writable(body, source)
    ensures var before, t := ReadState(g, file), Written(kind, file, body, source);
            var after := ReadState(g, Some(t));
            && after.fenced && !after.malformed && after.source == source
            && after.managed == Breaks(body, EndOf(file))
            && after.rules == RulesIn(g, Lines(body))
            && (before.fenced ==> after.outside == before.outside)
            && (!before.fenced && file.Some? ==>
                  && file.value <= after.outside
                  && after.outside[|file.value|..] == OuterLines(file.value))
  {
    hide Breaks, Lines, Parse, Written, Around, Between, Outside, OuterLines, EndOf, Writable;
    WrittenParts(kind, file, body, source);
    OutsideOfWritten(kind, file, body, source);
    LinesOfWritten(body, file, source);
    if file.Some? {
      OutsideOfAround(kind, file.value);
    }
  }

  lemma LinesOfWritten(body: string, file: Option<string>, source: string)
    requires Writable(body, source)
    ensures Lines(Breaks(body, EndOf(file))) == Lines(body)
  {
    hide Lines, Breaks, HasCrlf;
    LinesOfBreaks(body, EndOf(file));
  }

  // ---- lines, whatever ends them ----

  lemma {:induction false} LineOfBreaks(body: string, nl: string)
    requires IsLineEnd(nl) && '\r' !in body
    ensures Line(Breaks(body, nl)) == Line(body)
    ensures var n := |Line(body)|;
            if n == |body| then |Breaks(body, nl)| == n
            else n < |Breaks(body, nl)| && Breaks(body, nl)[n..] == Breaks(body[n..], nl)
  {
    if body == "" {
    } else if body[0] == '\n' {
      assert Breaks(body, nl) == nl + Breaks(body[1..], nl);
      assert body[0..] == body && Breaks(body, nl)[0..] == Breaks(body, nl);
    } else {
      var b := Breaks(body, nl);
      assert b == [body[0]] + Breaks(body[1..], nl);
      assert b[1..] == Breaks(body[1..], nl);
      if IsCut(body[0]) {
        assert body[0..] == body && b[0..] == b;
      } else {
        LineOfBreaks(body[1..], nl);
        var n := |Line(body)|;
        assert body[n..] == body[1..][n - 1..];
        if n < |body| {
          assert b[n..] == b[1..][n - 1..];
        }
      }
    }
  }

  lemma LinesCut(t: string, n: nat, k: nat)
    requires n == |Line(t)| && n + k <= |t|
    requires (k == 1 && t[n] != '\r') || (k == 2 && t[n] == '\r' && t[n + 1] == '\n')
    ensures Lines(t) == [Line(t)] + Lines(t[n + k..])
  {
    hide Line;
    LineStops(t);
  }

  lemma AfterCut(b: string, n: nat, cut: string, rest: string)
    requires n <= |b| && b[n..] == cut + rest
    ensures n + |cut| <= |b| && b[n + |cut|..] == rest && forall k | 0 <= k < |cut| :: b[n + k] == cut[k]
  {
    assert |b[n..]| == |cut + rest|;
    assert b[n + |cut|..] == b[n..][|cut|..] == rest;
    forall k | 0 <= k < |cut| ensures b[n + k] == cut[k] {
      assert b[n..][k] == (cut + rest)[k];
    }
  }

  lemma LinesWhole(t: string)
    requires |Line(t)| == |t|
    ensures Lines(t) == if t == "" then [] else [t]
  {
  }

  function CutOf(body: string, nl: string): string
    requires body != ""
  {
    if body[0] == '\n' then nl else [body[0]]
  }

  lemma BreaksCut(body: string, nl: string)
    requires body != ""
    ensures Breaks(body, nl) == CutOf(body, nl) + Breaks(body[1..], nl)
  {
  }

  lemma LineStops(t: string)
    ensures var n := |Line(t)|;
            && n <= |t| && Line(t) == t[..n]
            && (n < |t| ==> t[n..][0] == t[n] && t[n..][1..] == t[n + 1..])
  {
  }

  lemma {:induction false} LinesOfBreaks(body: string, nl: string)
    requires IsLineEnd(nl) && '\r' !in body
    ensures Lines(Breaks(body, nl)) == Lines(body)
    decreases |body|
  {
    hide Lines, Breaks, Line, IsCut;
    var n := |Line(body)|;
    var b := Breaks(body, nl);
    LineOfBreaks(body, nl);
    LineStops(body);
    if n < |body| {
      var rest := body[n..];
      var cut := CutOf(rest, nl);
      BreaksCut(rest, nl);
      AfterCut(b, n, cut, Breaks(rest[1..], nl));
      LinesCut(body, n, 1);
      LinesCut(b, n, |cut|);
      LinesOfBreaks(rest[1..], nl);
    } else {
      LinesWhole(body);
      LinesWhole(b);
      LineStops(b);
      assert body[..n] == body && b[..n] == b;
    }
  }

  // ---- writing twice ----

  lemma CrlfJoin(u: string, v: string)
    ensures HasCrlf(u + v) <==>
            HasCrlf(u) || HasCrlf(v) || (u != "" && v != "" && u[|u| - 1] == '\r' && v[0] == '\n')
  {
    var t := u + v;
    if i :| 0 <= i < |u| - 1 && u[i] == '\r' && u[i + 1] == '\n' {
      assert t[i] == '\r' && t[i + 1] == '\n';
    }
    if i :| 0 <= i < |v| - 1 && v[i] == '\r' && v[i + 1] == '\n' {
      assert t[|u| + i] == '\r' && t[|u| + i + 1] == '\n';
    }
    if u != "" && v != "" && u[|u| - 1] == '\r' && v[0] == '\n' {
      assert t[|u| - 1] == '\r' && t[|u| - 1 + 1] == '\n';
    }
    if i :| 0 <= i < |t| - 1 && t[i] == '\r' && t[i + 1] == '\n' {
      if i < |u| - 1 {
        assert u[i] == '\r' && u[i + 1] == '\n';
      } else if i >= |u| {
        assert v[i - |u|] == '\r' && v[i - |u| + 1] == '\n';
      }
    }
  }

  lemma NoReturnNoCrlf(t: string)
    requires '\r' !in t
    ensures !HasCrlf(t)
  {
  }

  lemma CrlfSlice(t: string, i: nat, j: nat)
    requires i <= j <= |t|
    ensures HasCrlf(t[i..j]) ==> HasCrlf(t)
  {
    if k :| 0 <= k < j - i - 1 && t[i..j][k] == '\r' && t[i..j][k + 1] == '\n' {
      assert t[i + k] == '\r' && t[i + k + 1] == '\n';
    }
  }

  lemma {:induction false} BreaksHaveNoReturn(body: string)
    requires '\r' !in body
    ensures '\r' !in Middle(body, "\n")
  {
    BreaksUnix(body);
  }

  lemma MarkersHaveNoReturn(source: string)
    requires IsSource(source)
    ensures '\r' !in OpenMarker(source) && '\r' !in CLOSE_MARKER
  {
    assert '\r' !in source;
    assert OpenMarker(source) == LEAD + "start source=" + source + " -->";
  }

  /** A text ends in a lone carriage return, which appending completes to a line end. */
  predicate EndsInReturn(file: Option<string>) {
    file.Some? && Parse(file.value).NoFence? && file.value != "" && file.value[|file.value| - 1] == '\r'
  }

  lemma TagsHaveNoReturn()
    ensures '\r' !in TAGS && '\r' !in TITLE
  {
  }

  lemma AdviceHasNoReturn()
    ensures '\r' !in ADVICE
  {
  }

  lemma PromiseHasNoReturn()
    ensures '\r' !in PROMISE
  {
  }

  lemma HeaderHasNoReturn(kind: RulesKind)
    ensures '\r' !in Header(kind)
  {
    TagsHaveNoReturn();
    AdviceHasNoReturn();
    PromiseHasNoReturn();
  }

  lemma CrlfAround(kind: RulesKind, file: Option<string>)
    requires WellFenced(file) && EndOf(file) == "\n"
    ensures HasCrlf(Around(kind, file).0) <==> EndsInReturn(file)
    ensures !HasCrlf(Around(kind, file).1)
  {
    match file
    case None => HeaderHasNoReturn(kind);
    case Some(t) =>
      if Parse(t).Fence? {
        ParseIsInText(t);
        CrlfSlice(t, 0, Parse(t).open.start);
        CrlfSlice(t, Parse(t).close.mark.end, |t|);
      } else {
        var sep := Separator(t, "\n");
        assert sep[0] == '\n' && '\r' !in sep;
        CrlfJoin(t, sep);
      }
  }

  /** The written text has a `\r\n` when the old one had, or when appending makes the first. */
  lemma CrlfWritten(kind: RulesKind, file: Option<string>, body: string, source: string)
    requires WellFenced(file) && Writable(body, source)
    ensures HasCrlf(Written(kind, file, body, source)) <==> EndOf(file) == "\r\n" || EndsInReturn(file)
  {
    hide Around, HasCrlf, Breaks;
    var nl := EndOf(file);
    var (pre, post) := Around(kind, file);
    var mid, open := Middle(body, nl), OpenMarker(source);
    OpenIsOne(source);
    MarkersHaveNoReturn(source);
    NoReturnNoCrlf(open);
    NoReturnNoCrlf(CLOSE_MARKER);
    CrlfJoin(CLOSE_MARKER, post);
    CrlfJoin(mid, CLOSE_MARKER + post);
    CrlfJoin(open, mid + (CLOSE_MARKER + post));
    CrlfJoin(pre, open + (mid + (CLOSE_MARKER + post)));
    if nl == "\n" {
      CrlfAround(kind, file);
      BreaksHaveNoReturn(body);
      NoReturnNoCrlf(mid);
      assert CLOSE_MARKER[|CLOSE_MARKER| - 1] == '>' && open[|open| - 1] == '>';
    } else {
      CrlfLeads(body);
    }
  }

  lemma CrlfLeads(body: string)
    ensures HasCrlf(Middle(body, "\r\n"))
  {
    var mid := Middle(body, "\r\n");
    assert mid[0] == '\r' && mid[0 + 1] == '\n';
  }

  lemma MiddlesDiffer(pre: string, source: string, a: string, b: string, post: string)
    requires Spliced(pre, source, a, post) == Spliced(pre, source, b, post) && IsSource(source)
    ensures a == b
  {
    assert |a| == |b|;
    SplicedSlices(pre, source, a, post);
    SplicedSlices(pre, source, b, post);
  }

  lemma MiddleTellsLineEnd(body: string)
    ensures Middle(body, "\n") != Middle(body, "\r\n")
  {
    assert Middle(body, "\n")[0] == '\n' && Middle(body, "\r\n")[0] == '\r';
  }

  /** Writing the same section again changes nothing, unless the first write appended to a text
      that ends in a lone carriage return. */
  lemma SecondWriteIsQuiet(kind: RulesKind, file: Option<string>, body: string, source: string)
    requires WellFenced(file) && Writable(body, source)
    ensures var t := Written(kind, file, body, source);
            && WellFenced(Some(t))
            && (Written(kind, Some(t), body, source) == t <==> EndOf(file) == "\r\n" || !EndsInReturn(file))
  {
    hide Around, HasCrlf, Breaks, Parse;
    var t := Written(kind, file, body, source);
    var (pre, post) := Around(kind, file);
    WrittenParts(kind, file, body, source);
    CrlfWritten(kind, file, body, source);
    assert Around(kind, Some(t)) == (pre, post) by { SameAround(kind, t); }
    if Written(kind, Some(t), body, source) == t {
      MiddlesDiffer(pre, source, Middle(body, EndOf(Some(t))), Middle(body, EndOf(file)), post);
      MiddleTellsLineEnd(body);
    }
  }

  lemma SameAround(kind: RulesKind, t: string)
    requires Parse(t).Fence?
    ensures InText(t, Parse(t)) && Around(kind, Some(t)) == (t[..Parse(t).open.start], t[Parse(t).close.mark.end..])
  {
    hide Scan;
    ParseIsInText(t);
  }

  // ---- what a prompt is shown ----

  lemma LintedIsWritable(g: Grammar, body: string, source: string)
    requires LintStructure(g, body).Rules? && g.unsafeChar('\r') && Stripped(body) && IsSource(source)
    ensures Writable(body, source)
  {
  }

  /** The reader lints the section again, and refuses what the writer put into a file with
      `\r\n` line ends as soon as it has two lines. */
  lemma ServedUnlessCrlf(g: Grammar, kind: RulesKind, file: Option<string>, body: string, source: string)
    requires WellFenced(file) && g.unsafeChar('\r') && Stripped(body) && IsSource(source)
    requires LintStructure(g, body).Rules?
    ensures var served := LintStructure(g, ReadState(g, Some(Written(kind, file, body, source))).managed);
            && (served.Rules? <==> EndOf(file) == "\n" || '\n' !in body)
            && (served.Rules? ==> served == LintStructure(g, body))
  {
    hide LintLines, Written, Lines, RulesIn;
    LintedIsWritable(g, body, source);
    WriteThenRead(g, kind, file, body, source);
    if '\n' !in body {
      BreaksOfLine(body, EndOf(file));
    } else if EndOf(file) == "\n" {
      BreaksUnix(body);
    } else {
      BreaksBringReturn(body);
    }
  }

  lemma {:induction false} BreaksOfLine(body: string, nl: string)
    requires '\n' !in body
    ensures Breaks(body, nl) == body
  {
    if body != "" {
      BreaksOfLine(body[1..], nl);
    }
  }

  lemma {:induction false} BreaksBringReturn(body: string)
    requires '\n' in body
    ensures '\r' in Breaks(body, "\r\n")
  {
    var b := Breaks(body, "\r\n");
    if body[0] == '\n' {
      assert b[0] == '\r';
    } else {
      BreaksBringReturn(body[1..]);
      assert b == [body[0]] + Breaks(body[1..], "\r\n");
    }
  }

  // ---- which way a group leans ----

  /** One decision of a group: whether it kept the item, and whether the user made it. */
  datatype Vote = Vote(accepted: bool, byUser: bool)

  datatype Lean = Keep | Drop | Mixed

  const LEAN_MIN := 4

  function Accepts(votes: seq<Vote>): nat {
    if votes == [] then 0 else (if votes[0].byUser && votes[0].accepted then 1 else 0) + Accepts(votes[1..])
  }

  function Dismisses(votes: seq<Vote>): nat {
    if votes == [] then 0 else (if votes[0].byUser && !votes[0].accepted then 1 else 0) + Dismisses(votes[1..])
  }

  /** At least three quarters of at least four decisions of the user. */
  function LeanOf(votes: seq<Vote>): Lean {
    var kept, n := Accepts(votes), Accepts(votes) + Dismisses(votes);
    if n < LEAN_MIN then Mixed
    else if 4 * kept >= 3 * n then Keep
    else if 4 * (n - kept) >= 3 * n then Drop
    else Mixed
  }

  lemma {:induction false} CountsAreMultiplicities(votes: seq<Vote>)
    ensures Accepts(votes) == multiset(votes)[Vote(true, true)]
    ensures Dismisses(votes) == multiset(votes)[Vote(false, true)]
  {
    if votes != [] {
      assert votes == [votes[0]] + votes[1..];
      CountsAreMultiplicities(votes[1..]);
    }
  }

  /** `most` is at least three quarters of at least four. */
  predicate IsLargeShare(most: nat, other: nat) { most + other >= 4 && 4 * most >= 3 * (most + other) }

  /** A group leans to one side exactly when that side has a large share of what the user decided;
      the order of the rows, and those that an agent relayed, play no part. */
  lemma LeanIsUsersShare(votes: seq<Vote>)
    ensures var kept, dropped := multiset(votes)[Vote(true, true)], multiset(votes)[Vote(false, true)];
            && (LeanOf(votes) == Keep <==> IsLargeShare(kept, dropped))
            && (LeanOf(votes) == Drop <==> IsLargeShare(dropped, kept))
  {
    CountsAreMultiplicities(votes);
  }

  // ---- the lint against the digest ----

  datatype Group = Group(lean: string, flipApproved: bool, cites: seq<string>)

  datatype Digest = Digest(groups: map<string, Group>, freeCites: set<string>, source: string, isTheme: string -> bool)

  const THEME_MARK := "(from free-text reasons)"
  const MAX_THEMES := 3
  const MIN_THEME_SUPPORT := 3

  predicate FlipAllowed(d: Digest, existing: map<string, string>, r: Rule) {
    r.key in existing && existing[r.key] != r.verdict ==> r.key in d.groups && d.groups[r.key].flipApproved
  }

  predicate IsNewTheme(d: Digest, kept: seq<string>, r: RuleLine) { r.line !in kept && d.isTheme(r.rule.key) }

  function NewThemes(d: Digest, kept: seq<string>, rules: seq<RuleLine>): nat {
    if rules == [] then 0
    else NewThemes(d, kept, rules[..|rules| - 1]) + if IsNewTheme(d, kept, rules[|rules| - 1]) then 1 else 0
  }

  function Support(d: Digest, line: string): set<string> { set cite | cite in d.freeCites && Mentions(line, cite) }

  /** A line that is already in the file stands; a new one is a supported theme or follows its group. */
  predicate Acceptable(d: Digest, existing: map<string, string>, kept: seq<string>, rules: seq<RuleLine>, i: nat)
    requires i < |rules|
  {
    var r := rules[i];
    && FlipAllowed(d, existing, r.rule)
    && (r.line !in kept ==>
          if d.isTheme(r.rule.key) then NewThemes(d, kept, rules[..i + 1]) <= MAX_THEMES && IsSupported(d, r)
          else FollowsGroup(d, r))
  }

  predicate IsSupported(d: Digest, r: RuleLine) {
    && |Support(d, r.line)| >= MIN_THEME_SUPPORT
    && r.rule.start <= |r.line| && Mentions(r.line[..r.rule.start], THEME_MARK)
  }

  predicate FollowsGroup(d: Digest, r: RuleLine) {
    && r.rule.key in d.groups && d.groups[r.rule.key].lean == r.rule.verdict
    && exists cite | cite in d.groups[r.rule.key].cites :: Mentions(r.line, cite)
  }

  method Lint(d: Digest, existing: map<string, string>, kept: seq<string>, rules: seq<RuleLine>) returns (ok: bool)
    ensures ok <==> forall i | 0 <= i < |rules| :: Acceptable(d, existing, kept, rules, i)
  {
    hide IsSupported, FollowsGroup, FlipAllowed, Mentions;
    var themes := 0;
    for i := 0 to |rules|
      invariant themes == NewThemes(d, kept, rules[..i])
      invariant forall j | 0 <= j < i :: Acceptable(d, existing, kept, rules, j)
    {
      var r := rules[i];
      assert rules[..i + 1] == rules[..i] + [r];
      if !FlipAllowed(d, existing, r.rule) {
        assert !Acceptable(d, existing, kept, rules, i);
        return false;
      }
      if r.line in kept {
        continue;
      }
      if d.isTheme(r.rule.key) {
        themes := themes + 1;
        if themes > MAX_THEMES || !IsSupported(d, r) {
          assert NewThemes(d, kept, rules[..i + 1]) == themes;
          assert !Acceptable(d, existing, kept, rules, i);
          return false;
        }
        continue;
      }
      if !FollowsGroup(d, r) {
        assert !Acceptable(d, existing, kept, rules, i);
        return false;
      }
    }
    ok := true;
  }

  // ---- what the lint against the digest means ----

  /** The places of the themes that the file did not have. */
  function ThemePlaces(d: Digest, kept: seq<string>, rules: seq<RuleLine>): set<nat> {
    set i: nat | i < |rules| && rules[i].line !in kept && d.isTheme(rules[i].rule.key)
  }

  lemma {:induction false} NewThemesAreCounted(d: Digest, kept: seq<string>, rules: seq<RuleLine>)
    ensures NewThemes(d, kept, rules) == |ThemePlaces(d, kept, rules)|
  {
    if rules != [] {
      var n := |rules| - 1;
      NewThemesAreCounted(d, kept, rules[..n]);
      var before, all := ThemePlaces(d, kept, rules[..n]), ThemePlaces(d, kept, rules);
      forall i: nat ensures i in all <==> i in before || (i == n && IsNewTheme(d, kept, rules[n])) {
        if i < n { assert rules[..n][i] == rules[i]; }
      }
      if IsNewTheme(d, kept, rules[n]) { assert all == before + {n}; } else { assert all == before; }
    }
  }

  lemma {:induction false} NewThemesGrow(d: Digest, kept: seq<string>, rules: seq<RuleLine>, i: nat)
    requires i <= |rules|
    ensures NewThemes(d, kept, rules[..i]) <= NewThemes(d, kept, rules)
    decreases |rules|
  {
    if i < |rules| {
      NewThemesGrow(d, kept, rules[..|rules| - 1], i);
      assert rules[..|rules| - 1][..i] == rules[..i];
    } else {
      assert rules[..i] == rules;
    }
  }

  /** With a new theme at the end, or none further down, the prefix up to the last has them all. */
  lemma {:induction false} LastThemeHasThemAll(d: Digest, kept: seq<string>, rules: seq<RuleLine>) returns (i: nat)
    requires NewThemes(d, kept, rules) > 0
    ensures i < |rules| && IsNewTheme(d, kept, rules[i])
    ensures NewThemes(d, kept, rules[..i + 1]) == NewThemes(d, kept, rules)
  {
    var n := |rules| - 1;
    if IsNewTheme(d, kept, rules[n]) {
      i := n;
      assert rules[..n + 1] == rules;
    } else {
      i := LastThemeHasThemAll(d, kept, rules[..n]);
      assert rules[..n][..i + 1] == rules[..i + 1];
    }
  }

  /** What a rule needs on its own: a verdict that changes has its group's approval, and a line that is
      not in the file yet follows its group, with its lean and one of its cites word for word, or is a
      theme that cites three free-text reasons and is marked as one. */
  ghost predicate Stands(d: Digest, existing: map<string, string>, kept: seq<string>, r: RuleLine) {
    && (r.rule.key in existing && existing[r.rule.key] != r.rule.verdict ==>
          r.rule.key in d.groups && d.groups[r.rule.key].flipApproved)
    && (r.line !in kept && !d.isTheme(r.rule.key) ==>
          && r.rule.key in d.groups && d.groups[r.rule.key].lean == r.rule.verdict
          && exists cite | cite in d.groups[r.rule.key].cites :: Mentions(r.line, cite))
    && (r.line !in kept && d.isTheme(r.rule.key) ==>
          && |set cite | cite in d.freeCites && Mentions(r.line, cite)| >= 3
          && r.rule.start <= |r.line| && Mentions(r.line[..r.rule.start], "(from free-text reasons)"))
  }

  lemma AcceptableIs(d: Digest, existing: map<string, string>, kept: seq<string>, rules: seq<RuleLine>, i: nat)
    requires i < |rules|
    ensures Acceptable(d, existing, kept, rules, i) <==>
            && Stands(d, existing, kept, rules[i])
            && (IsNewTheme(d, kept, rules[i]) ==> NewThemes(d, kept, rules[..i + 1]) <= 3)
  {
    hide Mentions, NewThemes;
  }

  /** The second lint lets the rules through exactly when each stands on its own and at most three of
      them are themes that the file did not have. */
  lemma RulesAreAcceptedWhen(d: Digest, existing: map<string, string>, kept: seq<string>, rules: seq<RuleLine>)
    ensures (forall i | 0 <= i < |rules| :: Acceptable(d, existing, kept, rules, i)) <==>
            && (forall i | 0 <= i < |rules| :: Stands(d, existing, kept, rules[i]))
            && |ThemePlaces(d, kept, rules)| <= 3
  {
    hide Acceptable, Stands, ThemePlaces, IsNewTheme, NewThemes;
    NewThemesAreCounted(d, kept, rules);
    forall i | 0 <= i < |rules|
      ensures Acceptable(d, existing, kept, rules, i) ==> Stands(d, existing, kept, rules[i])
      ensures Stands(d, existing, kept, rules[i]) && NewThemes(d, kept, rules) <= 3 ==>
                Acceptable(d, existing, kept, rules, i)
    {
      AcceptableIs(d, existing, kept, rules, i);
      NewThemesGrow(d, kept, rules, i + 1);
    }
    if NewThemes(d, kept, rules) > 0 {
      var last := LastThemeHasThemAll(d, kept, rules);
      AcceptableIs(d, existing, kept, rules, last);
    }
  }

  // ---- the file ----

  datatype WriteResult = NotWritten | Wrote(chars: nat, changed: bool)

  predicate LintPasses(g: Grammar, d: Digest, file: Option<string>, body: string) {
    var state := ReadState(g, file);
    var linted := LintStructure(g, body);
    linted.Rules? && forall i | 0 <= i < |linted.rules| ::
      Acceptable(d, state.rules, Lines(state.managed), linted.rules, i)
  }

  class RulesNote {
    var text: Option<string>

    constructor (text: Option<string>)
      ensures this.text == text
    {
      this.text := text;
    }

    /** Writes exactly a body that is not empty and passes both lints, into a file whose fence
        is whole; anything else leaves the file alone. */
    method WriteManaged(g: Grammar, kind: RulesKind, raw: string, d: Digest) returns (r: WriteResult)
      requires g.unsafeChar('\r') && IsSource(d.source)
      modifies this
      ensures var body := Strip(Unixed(raw));
              && (r.Wrote? <==> body != "" && WellFenced(old(text)) && LintPasses(g, d, old(text), body))
              && (r.Wrote? ==> WellFenced(old(text)) && Writable(body, d.source)
                               && text == Some(Written(kind, old(text), body, d.source))
                               && r.chars == |body| && (!r.changed ==> text == old(text)))
              && (r.NotWritten? ==> text == old(text))
    {
      var body := Strip(Unixed(raw));
      if body == "" {
        return NotWritten;
      }
      StripIsStripped(Unixed(raw));
      if text.Some? && Parse(text.value).Malformed? {
        return NotWritten;
      }
      var state := ReadState(g, text);
      var linted := LintStructure(g, body);
      if linted.Refused? {
        return NotWritten;
      }
      var ok := Lint(d, state.rules, Lines(state.managed), linted.rules);
      if !ok {
        return NotWritten;
      }
      LintedIsWritable(g, body, d.source);
      var written := Written(kind, text, body, d.source);
      WrittenIsNotEmpty(kind, text, body, d.source);
      var changed := written != state.text;
      if changed {
        text := Some(written);
      }
      r := Wrote(|body|, changed);
    }
  }

  lemma WrittenIsNotEmpty(kind: RulesKind, file: Option<string>, body: string, source: string)
    requires WellFenced(file) && IsSource(source)
    ensures Written(kind, file, body, source) != ""
  {
    hide Around;
    OpenIsOne(source);
  }

  // ---- at a concrete file ----

  const FINGERPRINT := "0123456789abcdef"
  const TWO_HEADINGS := "## Keep\n## Drop"
  const LONE_RETURN := "Notes\r"
  const WINDOWS := "Notes\r\n"

  lemma PlainTextHasNoFence(t: string)
    requires '<' !in t
    ensures Parse(t).NoFence?
  {
    hide Here;
    ClearWithoutOpen(Opening, t);
    ClearWithoutOpen(Closing, t);
    ScanSkips(Opening, t, 0, |t|);
    ScanSkips(Closing, t, 0, |t|);
    NoMarkerAtEnd(Opening, t);
    NoMarkerAtEnd(Closing, t);
  }

  lemma FingerprintIsSource()
    ensures IsSource(FINGERPRINT)
  {
  }

  lemma {:induction false} LineEndsAt(line: string, rest: string)
    requires (forall c | c in line :: !IsCut(c)) && (rest == "" || IsCut(rest[0]))
    ensures Line(line + rest) == line
  {
    if line == "" {
      assert line + rest == rest;
    } else {
      assert (line + rest)[0] == line[0] && (line + rest)[1..] == line[1..] + rest;
      LineEndsAt(line[1..], rest);
    }
  }

  lemma TwoLines(first: string, second: string)
    requires (forall c | c in first :: !IsCut(c)) && (forall c | c in second :: !IsCut(c)) && second != ""
    ensures Lines(first + "\n" + second) == [first, second]
  {
    var t := first + "\n" + second;
    assert t == first + ("\n" + second) && t[|first| + 1..] == second;
    LineEndsAt(first, "\n" + second);
    LineEndsAt(second, "");
    assert second + "" == second;
    LinesCut(t, |first|, 1);
    LinesWhole(second);
  }

  lemma HeadingsAreLines()
    ensures Lines(TWO_HEADINGS) == ["## Keep", "## Drop"]
  {
    hide Lines;
    TwoLines("## Keep", "## Drop");
    assert "## Keep" + "\n" + "## Drop" == TWO_HEADINGS;
  }

  lemma HeadingPasses(line: string)
    requires line == "## Keep" || line == "## Drop"
    ensures Strip(line) == line && IsHeading(line) && line in HEADINGS
  {
    StripClean(line);
    assert line[..2] == "##";
  }

  lemma NotMentioned(t: string, w: string)
    requires w != "" && w[0] !in t
    ensures !Mentions(t, w)
  {
    forall n: nat | n <= |t| ensures !At(t, n, w) {
      assert n + |w| <= |t| ==> t[n] in t && t[n] != w[0];
    }
  }

  lemma HeadingsNameNoMarker()
    ensures !Mentions(TWO_HEADINGS, LINTED_NAME)
  {
    hide Mentions;
    assert LINTED_NAME[0] == 'c' && 'c' !in TWO_HEADINGS;
    NotMentioned(TWO_HEADINGS, LINTED_NAME);
  }

  /** Two headings pass the lint that needs no digest, under every grammar that flags none of their
      characters, and there is no rule in them for the other lint to refuse. */
  lemma HeadingsPass(g: Grammar, d: Digest, file: Option<string>)
    requires !HasUnsafe(g, TWO_HEADINGS)
    ensures LintStructure(g, TWO_HEADINGS) == Rules([]) && LintPasses(g, d, file, TWO_HEADINGS)
  {
    hide Strip, IsHeading, HasUnsafe, Mentions, Lines, ReadState, Acceptable;
    assert |TWO_HEADINGS| == 15;
    HeadingsNameNoMarker();
    HeadingsAreLines();
    HeadingPasses("## Keep");
    HeadingPasses("## Drop");
    var lines := ["## Keep", "## Drop"];
    assert lines[1..] == ["## Drop"] && lines[1..][1..] == [];
    assert LintLines(g, lines[1..], {}) == Rules([]);
  }

  lemma HeadingsAreStripped()
    ensures Stripped(TWO_HEADINGS) && '\n' in TWO_HEADINGS
  {
    assert TWO_HEADINGS[0] == '#' && TWO_HEADINGS[7] == '\n';
  }

  lemma LoneReturnFacts()
    ensures Parse(LONE_RETURN).NoFence? && EndOf(Some(LONE_RETURN)) == "\n" && EndsInReturn(Some(LONE_RETURN))
  {
    hide Parse;
    PlainTextHasNoFence(LONE_RETURN);
    assert !HasCrlf(LONE_RETURN) && LONE_RETURN[5] == '\r';
  }

  /** A lone carriage return at the end is completed by the first write, and the second, identical
      write, which both lints pass as well, takes the file for one with `\r\n` line ends. */
  lemma LoneReturnChangesTwice(g: Grammar, d: Digest, kind: RulesKind)
    requires g.unsafeChar('\r') && !HasUnsafe(g, TWO_HEADINGS)
    ensures WellFenced(Some(LONE_RETURN)) && LintPasses(g, d, Some(LONE_RETURN), TWO_HEADINGS)
    ensures var t := Written(kind, Some(LONE_RETURN), TWO_HEADINGS, FINGERPRINT);
            && t != LONE_RETURN && WellFenced(Some(t)) && LintPasses(g, d, Some(t), TWO_HEADINGS)
            && Written(kind, Some(t), TWO_HEADINGS, FINGERPRINT) != t
  {
    hide Parse, Written, Writable, LintPasses, HasUnsafe, EndOf, EndsInReturn, IsSource, Stripped, LintStructure;
    LoneReturnFacts();
    FingerprintIsSource();
    HeadingsAreStripped();
    HeadingsPass(g, d, Some(LONE_RETURN));
    LintedIsWritable(g, TWO_HEADINGS, FINGERPRINT);
    var t := Written(kind, Some(LONE_RETURN), TWO_HEADINGS, FINGERPRINT);
    WrittenHasFence(kind, Some(LONE_RETURN), TWO_HEADINGS, FINGERPRINT);
    SecondWriteIsQuiet(kind, Some(LONE_RETURN), TWO_HEADINGS, FINGERPRINT);
    HeadingsPass(g, d, Some(t));
  }

  lemma WrittenHasFence(kind: RulesKind, file: Option<string>, body: string, source: string)
    requires WellFenced(file) && Writable(body, source)
    ensures Parse(Written(kind, file, body, source)).Fence?
  {
    hide Parse, Written, Between;
    WrittenParts(kind, file, body, source);
  }

  /** Two headings that pass both lints, written into a file with `\r\n` line ends, are refused by
      the reader's lint, so nothing of the section reaches a prompt. */
  lemma WindowsFileIsNotServed(g: Grammar, d: Digest, kind: RulesKind)
    requires g.unsafeChar('\r') && !HasUnsafe(g, TWO_HEADINGS)
    ensures WellFenced(Some(WINDOWS)) && LintPasses(g, d, Some(WINDOWS), TWO_HEADINGS)
    ensures var t := Written(kind, Some(WINDOWS), TWO_HEADINGS, FINGERPRINT);
            LintStructure(g, ReadState(g, Some(t)).managed).Refused?
  {
    hide Parse, Written, LintStructure, ReadState, LintPasses, HasUnsafe;
    PlainTextHasNoFence(WINDOWS);
    FingerprintIsSource();
    HeadingsAreStripped();
    HeadingsPass(g, d, Some(WINDOWS));
    assert WINDOWS[5] == '\r' && WINDOWS[5 + 1] == '\n';
    assert HasCrlf(WINDOWS);
    ServedUnlessCrlf(g, kind, Some(WINDOWS), TWO_HEADINGS, FINGERPRINT);
  }

  // ---- when a section is due again ----

  const MIN_RULE_ROWS := 5

  /** `fingerprint` hashes the sorted rows, so it is a function of their multiset. */
  predicate IsStale<Row(==)>(g: Grammar, file: Option<string>, votes: nat, rows: multiset<Row>,
                             fingerprint: multiset<Row> -> string)
  {
    votes >= MIN_RULE_ROWS && fingerprint(rows) != ReadState(g, file).source
  }

  /** After a write the kind is due again only when it has enough votes and other rows. */
  lemma StaleAfterWrite<Row>(g: Grammar, kind: RulesKind, file: Option<string>, body: string,
                             written: multiset<Row>, votes: nat, now: multiset<Row>,
                             fingerprint: multiset<Row> -> string)
    requires WellFenced(file) && Writable(body, fingerprint(written))
    ensures var t := Written(kind, file, body, fingerprint(written));
            && (IsStale(g, Some(t), votes, now, fingerprint) <==>
                  votes >= 5 && fingerprint(now) != fingerprint(written))
            && (now == written ==> !IsStale(g, Some(t), votes, now, fingerprint))
  {
    hide Written;
    WriteThenRead(g, kind, file, body, fingerprint(written));
  }
}
