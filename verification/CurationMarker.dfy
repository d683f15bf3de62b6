/** The `last_full_pass` marker in the frontmatter of the curation log: its writer and its
    reader.  A log's text is what a universal-newline read gives, so it has no `\r`. */
module CurationMarker {
  import opened PyText

  const MARKER := "last_full_pass"
  const FENCE := "\n---"

  datatype Cut = Cut(block: string, found: bool, body: string)

  /** `rest.partition("\n---")` */
  function CutFence(rest: string): Cut {
    if |rest| < 4 then Cut(rest, false, "")
    else if rest[..4] == FENCE then Cut("", true, rest[4..])
    else
      var tail := CutFence(rest[1..]);
      Cut([rest[0]] + tail.block, tail.found, tail.body)
  }

  function KeyOf(line: string): string { Strip(Before(line, ':')) }

  function ValueOf(line: string): string { StripQuotes(Strip(AfterFirst(line, ':'))) }

  /** The frontmatter lines and the body, where the text has both fences. */
  datatype Frontmatter = NoFrontmatter | Frontmatter(lines: seq<string>, body: string)

  function Parse(text: string): Frontmatter {
    if !StartsWith(text, "---") then NoFrontmatter
    else
      var cut := CutFence(AfterFirst(text, '\n'));
      if cut.found then Frontmatter(SplitLines(cut.block), cut.body) else NoFrontmatter
  }

  // ---- reader ----

  function FindStamp(lines: seq<string>, isDate: string -> bool): string {
    if lines == [] then ""
    else if KeyOf(lines[0]) != MARKER then FindStamp(lines[1..], isDate)
    else if isDate(ValueOf(lines[0])) then ValueOf(lines[0])
    else ""
  }

  function ReadMarker(text: string, isDate: string -> bool): string {
    match Parse(text)
    case NoFrontmatter => ""
    case Frontmatter(lines, _) => FindStamp(lines, isDate)
  }

  method ReadLastFullPass(text: string, isDate: string -> bool) returns (stamp: string)
    ensures stamp == ReadMarker(text, isDate)
  {
    if !StartsWith(text, "---") {
      return "";
    }
    var cut := CutFence(AfterFirst(text, '\n'));
    if !cut.found {
      return "";
    }
    var lines := SplitLines(cut.block);
    var i := 0;
    while i < |lines|
      invariant 0 <= i <= |lines| && FindStamp(lines[i..], isDate) == FindStamp(lines, isDate)
    {
      assert lines[i..][0] == lines[i] && lines[i..][1..] == lines[i + 1..];
      if KeyOf(lines[i]) == MARKER {
        stamp := ValueOf(lines[i]);
        return if isDate(stamp) then stamp else "";
      }
      i := i + 1;
    }
    stamp := "";
  }

  /** The first line with the marker's key decides, with its value if that is a date. */
  lemma {:induction false} FirstMarkerDecides(lines: seq<string>, isDate: string -> bool, i: nat)
    requires i <= |lines| && forall j | 0 <= j < i :: Strip(Before(lines[j], ':')) != "last_full_pass"
    requires i < |lines| ==> Strip(Before(lines[i], ':')) == "last_full_pass"
    ensures FindStamp(lines, isDate) ==
            if i == |lines| then ""
            else
              var value := StripQuotes(Strip(AfterFirst(lines[i], ':'))); if isDate(value) then value else ""
  {
    if lines != [] && i > 0 {
      forall j | 0 <= j < i - 1 ensures Strip(Before(lines[1..][j], ':')) != "last_full_pass" {
        assert lines[1..][j] == lines[j + 1];
      }
      FirstMarkerDecides(lines[1..], isDate, i - 1);
    }
  }

  // ---- writer ----

  /** The lines that are not the marker's own. */
  function Kept(lines: seq<string>): seq<string> {
    if lines == [] then []
    else (if KeyOf(lines[0]) == MARKER then [] else [lines[0]]) + Kept(lines[1..])
  }

  function MarkerLine(stamp: string): string { MARKER + ": " + stamp }

  function Framed(lines: seq<string>, body: string): string { "---\n" + Join(lines) + FENCE + body }

  const EMPTY_LOG := "# Curation log\n"

  function WriteMarker(text: string, stamp: string): string {
    match Parse(text)
    case Frontmatter(lines, body) => Framed(Kept(lines) + [MarkerLine(stamp)], body)
    case NoFrontmatter =>
      Framed([MarkerLine(stamp)], "\n\n" + if text != "" then text else EMPTY_LOG)
  }

  // ---- what a stamp looks like ----

  predicate IsStampChar(c: char) { '0' <= c <= '9' || c == '-' }

  predicate IsStamp(stamp: string) { stamp != "" && forall c | c in stamp :: IsStampChar(c) }

  lemma StripStamp(stamp: string)
    requires IsStamp(stamp)
    ensures Strip(" " + stamp) == stamp && StripQuotes(stamp) == stamp
  {
    assert stamp[0] in stamp && stamp[|stamp| - 1] in stamp;
    assert (" " + stamp)[1..] == stamp;
    assert StripLeft(" " + stamp, IsSpace) == StripLeft(stamp, IsSpace);
  }

  lemma MarkerName()
    ensures ':' !in MARKER && Strip(MARKER) == MARKER && !StartsWith(MARKER, "---")
    ensures forall c | c in MARKER :: !IsBreak(c)
  {
    assert MARKER[0] == 'l' && MARKER[|MARKER| - 1] == 's';
    StripClean(MARKER);
  }

  lemma MarkerLineReads(stamp: string)
    requires IsStamp(stamp)
    ensures KeyOf(MarkerLine(stamp)) == MARKER && ValueOf(MarkerLine(stamp)) == stamp
  {
    MarkerName();
    AroundFirst(MARKER, ':', " " + stamp);
    assert MarkerLine(stamp) == MARKER + [':'] + (" " + stamp);
    StripStamp(stamp);
  }

  lemma MarkerLineIsOneLine(stamp: string)
    requires IsStamp(stamp)
    ensures forall c | c in MarkerLine(stamp) :: !IsBreak(c)
    ensures !StartsWith(MarkerLine(stamp), "---")
  {
    MarkerName();
    assert MarkerLine(stamp)[0] == MARKER[0];
  }

  lemma {:induction false} AroundFirst(key: string, c: char, value: string)
    requires c !in key
    ensures Before(key + [c] + value, c) == key && AfterFirst(key + [c] + value, c) == value
  {
    var s := key + [c] + value;
    if key == "" {
      assert s == [c] + value;
      assert s[1..] == value;
    } else {
      assert s[1..] == key[1..] + [c] + value;
      AroundFirst(key[1..], c, value);
    }
  }

  // ---- where the closing fence is found again ----

  lemma CutOneChar(c: char, rest: string)
    requires c != '\n' || !StartsWith(rest, "---")
    ensures CutFence([c] + rest) == CutFence(rest).(block := [c] + CutFence(rest).block)
  {
    var s := [c] + rest;
    assert s[0] == c && s[1..] == rest;
    if |s| >= 4 {
      assert s[..4][0] == c && s[..4][1..] == rest[..3];
      assert FENCE[0] == '\n' && FENCE[1..] == "---";
    }
  }

  lemma {:induction false} CutFenceLine(line: string, rest: string)
    requires '\n' !in line
    ensures CutFence(line + rest) == CutFence(rest).(block := line + CutFence(rest).block)
  {
    if line == "" {
      assert line + rest == rest && line + CutFence(rest).block == CutFence(rest).block;
    } else {
      assert line == [line[0]] + line[1..];
      assert line + rest == [line[0]] + (line[1..] + rest);
      assert [line[0]] + (line[1..] + CutFence(rest).block) == line + CutFence(rest).block;
      CutFenceLine(line[1..], rest);
      CutOneChar(line[0], line[1..] + rest);
    }
  }

  lemma CutAtFence(line: string, body: string)
    requires '\n' !in line
    ensures CutFence(line + FENCE + body) == Cut(line, true, body)
  {
    var tail := FENCE + body;
    assert line + FENCE + body == line + tail;
    assert tail[..4] == FENCE && tail[4..] == body;
    CutFenceLine(line, tail);
    assert line + "" == line;
  }

  lemma CutPastLine(line: string, rest: string)
    requires '\n' !in line && !StartsWith(rest, "---")
    ensures CutFence(line + "\n" + rest) == CutFence(rest).(block := line + "\n" + CutFence(rest).block)
  {
    var tail := "\n" + rest;
    var block := CutFence(rest).block;
    assert CutFence(tail) == CutFence(rest).(block := "\n" + block) by { CutOneChar('\n', rest); }
    assert CutFence(line + tail) == CutFence(tail).(block := line + CutFence(tail).block) by {
      CutFenceLine(line, tail);
    }
    assert line + "\n" + rest == line + tail;
    assert line + "\n" + block == line + ("\n" + block);
  }

  ghost predicate NoFenceFrom(rest: string, n: nat) { forall k: nat | n <= k :: !At(rest, k, FENCE) }

  /** The first line end with a fence behind it. */
  ghost predicate IsFirstFence(rest: string, n: nat) {
    At(rest, n, FENCE) && forall k: nat | k < n :: !At(rest, k, FENCE)
  }

  lemma FenceMoves(c: char, tail: string)
    requires !At([c] + tail, 0, FENCE)
    ensures NoFenceFrom(tail, 0) ==> NoFenceFrom([c] + tail, 0)
    ensures forall n: nat | IsFirstFence(tail, n) :: IsFirstFence([c] + tail, n + 1)
  {
    hide At;
    var t := [c] + tail;
    assert t[1..] == tail;
    forall k: nat | k > 0 ensures At(t, k, FENCE) <==> At(tail, k - 1, FENCE) {
      AtNext(t, k, FENCE);
    }
  }

  /** The block goes up to the first fence, and the body starts behind it. */
  lemma {:induction false} CutFenceIs(rest: string)
    ensures var cut := CutFence(rest);
            if cut.found then rest == cut.block + FENCE + cut.body && IsFirstFence(rest, |cut.block|)
            else NoFenceFrom(rest, 0)
  {
    hide IsFirstFence, NoFenceFrom, At;
    if |rest| < 4 {
      ShortHasNoFence(rest);
    } else {
      AtStart(rest, FENCE);
      if rest[..4] == FENCE {
        assert rest == "" + FENCE + rest[4..];
        FirstIsFirst(rest);
      } else {
        var c, more := rest[0], rest[1..];
        var tail := CutFence(more);
        assert rest == [c] + more;
        CutFenceIs(more);
        FenceMoves(c, more);
        if tail.found {
          Prepend(c, tail.block, FENCE, tail.body);
        }
      }
    }
  }

  lemma Prepend(c: char, a: string, w: string, b: string)
    ensures [c] + (a + w + b) == ([c] + a) + w + b
  {
  }

  lemma ShortHasNoFence(t: string)
    requires |t| < 4
    ensures NoFenceFrom(t, 0)
  {
  }

  lemma FirstIsFirst(t: string)
    requires At(t, 0, FENCE)
    ensures IsFirstFence(t, 0)
  {
  }

  lemma AtStart(t: string, w: string)
    ensures At(t, 0, w) <==> |w| <= |t| && t[..|w|] == w
  {
  }

  lemma AtNext(t: string, k: nat, w: string)
    requires t != "" && k > 0
    ensures At(t, k, w) <==> At(t[1..], k - 1, w)
  {
    var u := t[1..];
    assert forall p | 1 <= p < |t| :: t[p] == u[p - 1];
    if At(t, k, w) {
      forall p | k - 1 <= p < k - 1 + |w| ensures u[p] == w[p - (k - 1)] {
        assert t[p + 1] == w[p + 1 - k];
      }
    }
    if At(u, k - 1, w) {
      forall p | k <= p < k + |w| ensures t[p] == w[p - k] {
        assert u[p - 1] == w[p - 1 - (k - 1)];
      }
    }
  }

  ghost predicate CutsAt(rest: string, n: nat, lines: seq<string>, body: string) {
    n + 4 <= |rest| && IsFirstFence(rest, n) && lines == SplitLines(rest[..n]) && body == rest[n + 4..]
  }

  /** A text has frontmatter exactly when it starts with a fence and has another behind a line end after
      its first line; the lines between are its block, and what follows is its body. */
  lemma FrontmatterIs(text: string)
    ensures var rest := AfterFirst(text, '\n');
            && (Parse(text).Frontmatter? ==>
                  && StartsWith(text, "---")
                  && exists n: nat :: CutsAt(rest, n, Parse(text).lines, Parse(text).body))
            && (Parse(text).NoFrontmatter? ==> !StartsWith(text, "---") || NoFenceFrom(rest, 0))
  {
    hide At, IsFirstFence, NoFenceFrom;
    var cut := CutFence(AfterFirst(text, '\n'));
    CutFenceIs(AfterFirst(text, '\n'));
    if cut.found {
      PartsOf(cut.block, FENCE, cut.body);
      assert CutsAt(AfterFirst(text, '\n'), |cut.block|, SplitLines(cut.block), cut.body);
    }
  }

  lemma PartsOf(a: string, w: string, b: string)
    ensures var t := a + w + b; At(t, |a|, w) && t[..|a|] == a && t[|a| + |w|..] == b
  {
    var t := a + w + b;
    assert forall p | |a| <= p < |a| + |w| :: t[p] == w[p - |a|];
  }

  /** How many lines precede the first later one that looks like a fence. */
  function Visible(lines: seq<string>): (n: nat)
    requires lines != []
    ensures 1 <= n <= |lines|
  {
    if |lines| == 1 || StartsWith(lines[1], "---") then 1 else 1 + Visible(lines[1..])
  }

  lemma NoNewline(lines: seq<string>)
    requires lines != [] && Unbroken(lines)
    ensures '\n' !in lines[0]
  {
    assert IsBreak('\n');
  }

  /** The closing fence is found after the first line that the next one, or the fence, cuts off. */
  lemma {:induction false} CutFramed(lines: seq<string>, body: string)
    requires lines != [] && Unbroken(lines)
    ensures var cut := CutFence(Join(lines) + FENCE + body);
            cut.found && cut.block == Join(lines[..Visible(lines)])
            && (Visible(lines) == |lines| ==> cut.body == body)
  {
    NoNewline(lines);
    if |lines| == 1 {
      CutAtFence(lines[0], body);
      assert lines[..1] == lines;
    } else {
      var line, more := lines[0], lines[1..];
      var rest := Join(more) + FENCE + body;
      assert Join(lines) + FENCE + body == line + "\n" + rest;
      if StartsWith(lines[1], "---") {
        assert StartsWith(Join(more), "---");
        var after := rest[3..];
        assert rest == "---" + after;
        assert line + "\n" + rest == line + FENCE + after;
        CutAtFence(line, after);
        assert lines[..1] == [line];
      } else {
        FencePrefix(more, FENCE + body);
        assert rest == Join(more) + (FENCE + body);
        CutPastLine(line, rest);
        CutFramed(more, body);
        JoinVisible(lines);
      }
    }
  }

  lemma JoinVisible(lines: seq<string>)
    requires |lines| > 1 && !StartsWith(lines[1], "---")
    ensures Join(lines[..Visible(lines)]) == lines[0] + "\n" + Join(lines[1..][..Visible(lines[1..])])
  {
    var more := lines[1..][..Visible(lines[1..])];
    assert lines[..Visible(lines)] == [lines[0]] + more;
    JoinFirst(lines[0], more);
  }

  /** Joined lines look like a fence only if their first line does. */
  lemma FencePrefix(lines: seq<string>, tail: string)
    requires lines != [] && !StartsWith(lines[0], "---") && tail != "" && tail[0] == '\n'
    ensures !StartsWith(Join(lines) + tail, "---")
  {
    var s := Join(lines) + tail;
    var n := |lines[0]|;
    assert lines[0] <= s;
    if n < 3 {
      assert s[n] == '\n' && "---"[n] == '-';
    } else {
      assert s[..3] == lines[0][..3];
      assert lines[0][..3] != "---";
    }
  }

  // ---- reading back what was written ----

  lemma FramedSplits(lines: seq<string>, body: string)
    ensures StartsWith(Framed(lines, body), "---")
    ensures AfterFirst(Framed(lines, body), '\n') == Join(lines) + FENCE + body
  {
    var rest := Join(lines) + FENCE + body;
    assert Framed(lines, body) == "---" + ['\n'] + rest;
    AroundFirst("---", '\n', rest);
  }

  ghost predicate CutsAs(text: string, lines: seq<string>, body: string)
    requires lines != []
  {
    var cut := CutFence(AfterFirst(text, '\n'));
    && StartsWith(text, "---") && cut.found && cut.block == Join(lines[..Visible(lines)])
    && (Visible(lines) == |lines| ==> cut.body == body)
  }

  lemma FramedCuts(lines: seq<string>, body: string)
    requires lines != [] && Unbroken(lines)
    ensures CutsAs(Framed(lines, body), lines, body)
  {
    FramedSplits(lines, body);
    CutFramed(lines, body);
  }

  ghost predicate ParsesAs(text: string, lines: seq<string>, body: string)
    requires lines != []
  {
    && Parse(text).Frontmatter? && Parse(text).lines == DropBlankEnd(lines[..Visible(lines)])
    && (Visible(lines) == |lines| ==> Parse(text).body == body)
  }

  lemma CutsParse(text: string, lines: seq<string>, body: string)
    requires lines != [] && Unbroken(lines) && CutsAs(text, lines, body)
    ensures ParsesAs(text, lines, body)
  {
    SplitJoined(lines[..Visible(lines)]);
  }

  lemma ParseFramed(lines: seq<string>, body: string)
    requires lines != [] && Unbroken(lines)
    ensures ParsesAs(Framed(lines, body), lines, body)
  {
    FramedCuts(lines, body);
    CutsParse(Framed(lines, body), lines, body);
  }

  predicate NoMarker(lines: seq<string>) { forall i | 0 <= i < |lines| :: KeyOf(lines[i]) != MARKER }

  lemma {:induction false} KeptHasNoMarker(lines: seq<string>)
    ensures NoMarker(Kept(lines)) && (Unbroken(lines) ==> Unbroken(Kept(lines)))
  {
    if lines != [] {
      KeptHasNoMarker(lines[1..]);
    }
  }

  lemma {:induction false} KeptOfClean(lines: seq<string>, more: seq<string>)
    requires NoMarker(lines)
    ensures Kept(lines + more) == lines + Kept(more)
  {
    if lines == [] {
      assert lines + more == more;
    } else {
      assert (lines + more)[1..] == lines[1..] + more;
      KeptOfClean(lines[1..], more);
    }
  }

  lemma {:induction false} FindPastClean(lines: seq<string>, more: seq<string>, isDate: string -> bool)
    requires NoMarker(lines)
    ensures FindStamp(lines + more, isDate) == FindStamp(more, isDate)
  {
    if lines == [] {
      assert lines + more == more;
    } else {
      assert (lines + more)[1..] == lines[1..] + more;
      FindPastClean(lines[1..], more, isDate);
    }
  }

  /** No kept line but the first looks like a fence. */
  predicate Survives(text: string) {
    match Parse(text)
    case NoFrontmatter => true
    case Frontmatter(lines, _) => FencesOnlyFirst(Kept(lines))
  }

  predicate FencesOnlyFirst(lines: seq<string>) {
    forall i | 1 <= i < |lines| :: !StartsWith(lines[i], "---")
  }

  lemma {:induction false} VisibleAll(lines: seq<string>)
    requires lines != []
    ensures Visible(lines) == |lines| <==> FencesOnlyFirst(lines)
  {
    if |lines| > 1 && !StartsWith(lines[1], "---") {
      VisibleAll(lines[1..]);
      forall i | 1 <= i < |lines| ensures lines[i] == lines[1..][i - 1] {
      }
      if FencesOnlyFirst(lines[1..]) {
        forall i | 1 <= i < |lines| ensures !StartsWith(lines[i], "---") {
          if i > 1 {
            assert lines[i] == lines[1..][i - 1];
          }
        }
      }
      if FencesOnlyFirst(lines) {
        forall i | 1 <= i < |lines[1..]| ensures !StartsWith(lines[1..][i], "---") {
          assert lines[1..][i] == lines[i + 1];
        }
      }
    }
  }

  /** The lines that the writer puts between the fences. */
  function Written(text: string, stamp: string): seq<string> {
    match Parse(text)
    case NoFrontmatter => [MarkerLine(stamp)]
    case Frontmatter(lines, _) => Kept(lines) + [MarkerLine(stamp)]
  }

  function WrittenBody(text: string): string {
    match Parse(text)
    case NoFrontmatter => "\n\n" + if text != "" then text else EMPTY_LOG
    case Frontmatter(_, body) => body
  }

  lemma WrittenFacts(text: string, stamp: string)
    requires IsStamp(stamp)
    ensures var lines := Written(text, stamp);
            && WriteMarker(text, stamp) == Framed(lines, WrittenBody(text))
            && lines != [] && Unbroken(lines) && lines[|lines| - 1] == MarkerLine(stamp)
            && NoMarker(lines[..|lines| - 1])
            && (Visible(lines) == |lines| <==> Survives(text))
  {
    MarkerLineIsOneLine(stamp);
    var lines := Written(text, stamp);
    VisibleAll(lines);
    match Parse(text)
    case NoFrontmatter =>
    case Frontmatter(before, _) =>
      SplitLinesUnbroken(CutFence(AfterFirst(text, '\n')).block);
      KeptHasNoMarker(before);
      assert lines[..|lines| - 1] == Kept(before);
      forall i | 1 <= i < |Kept(before)| ensures Kept(before)[i] == lines[i] {
      }
  }

  /** A stamp behind lines that fence it off is not read. */
  lemma HiddenStamp(lines: seq<string>, shown: seq<string>, isDate: string -> bool)
    requires NoMarker(lines) && shown <= lines
    ensures FindStamp(shown, isDate) == "" && (shown != [] ==> FindStamp(shown[..|shown| - 1], isDate) == "")
  {
    FindPastClean(shown, [], isDate);
    assert shown + [] == shown;
    if shown != [] {
      var front := shown[..|shown| - 1];
      FindPastClean(front, [], isDate);
      assert front + [] == front;
    }
  }

  lemma ShownStamp(lines: seq<string>, stamp: string, isDate: string -> bool)
    requires IsStamp(stamp) && isDate(stamp) && NoMarker(lines)
    ensures FindStamp(lines + [MarkerLine(stamp)], isDate) == stamp
  {
    MarkerLineReads(stamp);
    FindPastClean(lines, [MarkerLine(stamp)], isDate);
  }

  /** Reading after writing gives the date, exactly when no kept line past the first looks like a fence. */
  lemma MarkerRoundTrip(text: string, stamp: string, isDate: string -> bool)
    requires IsStamp(stamp) && isDate(stamp)
    ensures ReadMarker(WriteMarker(text, stamp), isDate) == stamp <==> Survives(text)
  {
    WrittenFacts(text, stamp);
    var lines := Written(text, stamp);
    ParseFramed(lines, WrittenBody(text));
    var kept, shown := lines[..|lines| - 1], lines[..Visible(lines)];
    if Survives(text) {
      assert shown == kept + [MarkerLine(stamp)];
      ShownStamp(kept, stamp, isDate);
    } else {
      assert shown <= kept;
      HiddenStamp(kept, shown, isDate);
    }
  }

  /** The lines that stay are all but the marker's own, in order. */
  lemma {:induction false} KeptIsLinewise(a: seq<string>, b: seq<string>, line: string)
    ensures Kept(a + b) == Kept(a) + Kept(b)
    ensures Kept([line]) == if Strip(Before(line, ':')) == "last_full_pass" then [] else [line]
  {
    assert [line][1..] == [];
    if a == [] {
      assert a + b == b;
    } else {
      assert (a + b)[1..] == a[1..] + b;
      KeptIsLinewise(a[1..], b, line);
    }
  }

  /** The marker line comes behind the lines that stay, and the body stays as it is, or is the log
      that had no frontmatter: exactly when the date is read back. */
  lemma OtherTextIsKept(text: string, stamp: string)
    requires IsStamp(stamp)
    ensures var kept := if Parse(text).Frontmatter? then Kept(Parse(text).lines) else [];
            var body := if Parse(text).Frontmatter? then Parse(text).body
                        else "\n\n" + if text == "" then "# Curation log\n" else text;
            Survives(text) <==>
            Parse(WriteMarker(text, stamp)) == Frontmatter(kept + ["last_full_pass: " + stamp], body)
  {
    WrittenFacts(text, stamp);
    var lines := Written(text, stamp);
    ParseFramed(lines, WrittenBody(text));
    assert MarkerLine(stamp) == "last_full_pass: " + stamp by {
      assert MARKER + ": " == "last_full_pass: ";
    }
    assert [] + [MarkerLine(stamp)] == [MarkerLine(stamp)];
    if Survives(text) {
      assert lines[..Visible(lines)] == lines;
      assert DropBlankEnd(lines) == lines;
    } else {
      assert |Parse(WriteMarker(text, stamp)).lines| < |lines|;
    }
  }

  lemma RewrittenLines(kept: seq<string>, stamp: string)
    requires IsStamp(stamp) && NoMarker(kept)
    ensures Kept(kept + [MarkerLine(stamp)]) == kept
  {
    KeptOfClean(kept, [MarkerLine(stamp)]);
    MarkerLineReads(stamp);
    assert Kept([MarkerLine(stamp)]) == [];
  }

  /** A later date replaces an earlier one without a trace of it, exactly for those texts; in the
      others the earlier line stays behind. */
  lemma LastWriteWins(text: string, first: string, second: string)
    requires IsStamp(first) && IsStamp(second)
    ensures WriteMarker(WriteMarker(text, first), second) == WriteMarker(text, second) <==> Survives(text)
  {
    if Survives(text) {
      LastWriteReplaces(text, first, second);
    } else {
      EarlierLineStays(text, first, second);
    }
  }

  lemma LastWriteReplaces(text: string, first: string, second: string)
    requires IsStamp(first) && IsStamp(second) && Survives(text)
    ensures WriteMarker(WriteMarker(text, first), second) == WriteMarker(text, second)
  {
    WrittenFacts(text, first);
    var lines := Written(text, first);
    var kept := lines[..|lines| - 1];
    ParseFramed(lines, WrittenBody(text));
    assert lines[..Visible(lines)] == lines == kept + [MarkerLine(first)];
    RewrittenLines(kept, first);
    assert Written(text, second) == kept + [MarkerLine(second)];
    WrittenFacts(text, second);
  }

  lemma {:induction false} CutFenceLength(rest: string)
    ensures CutFence(rest).found ==> |CutFence(rest).block| + 4 + |CutFence(rest).body| == |rest|
  {
    if |rest| >= 4 && rest[..4] != FENCE {
      CutFenceLength(rest[1..]);
    }
  }

  lemma {:induction false} JoinMore(lines: seq<string>, line: string)
    ensures |Join(lines + [line])| == |Join(lines)| + |line| + (if lines == [] then 0 else 1)
  {
    if lines == [] {
      assert lines + [line] == [line];
    } else {
      assert lines + [line] == [lines[0]] + (lines[1..] + [line]);
      JoinFirst(lines[0], lines[1..] + [line]);
      JoinMore(lines[1..], line);
      if |lines| > 1 {
        assert [lines[0]] + lines[1..] == lines;
        JoinFirst(lines[0], lines[1..]);
      }
    }
  }

  /** What is written grows by the marker line when no line of the text is its own. */
  lemma WriteGrows(lines: seq<string>, body: string, stamp: string)
    requires lines != [] && Unbroken(lines) && NoMarker(lines[..|lines| - 1]) && Visible(lines) < |lines|
    ensures |WriteMarker(Framed(lines, body), stamp)| >= |Framed(lines, body)| + |MarkerLine(stamp)|
  {
    var text := Framed(lines, body);
    ParseFramed(lines, body);
    FramedCuts(lines, body);
    FramedSplits(lines, body);
    var rest := AfterFirst(text, '\n');
    CutFenceLength(rest);
    var shown := lines[..Visible(lines)];
    var seen := DropBlankEnd(shown);
    assert shown <= lines[..|lines| - 1] && NoMarker(seen);
    KeptOfClean(seen, []);
    assert seen + [] == seen && Kept(seen) == seen;
    JoinMore(seen, MarkerLine(stamp));
    JoinBlank(shown);
  }

  lemma JoinBlank(lines: seq<string>)
    ensures |Join(lines)| <= |Join(DropBlankEnd(lines))| + (if DropBlankEnd(lines) == [] then 0 else 1)
  {
    if lines != [] && lines[|lines| - 1] == "" {
      var front := lines[..|lines| - 1];
      assert lines == front + [""];
      JoinMore(front, "");
    }
  }

  lemma EarlierLineStays(text: string, first: string, second: string)
    requires IsStamp(first) && IsStamp(second) && !Survives(text)
    ensures |WriteMarker(WriteMarker(text, first), second)| > |WriteMarker(text, second)|
  {
    WrittenFacts(text, first);
    WrittenFacts(text, second);
    WriteGrows(Written(text, first), WrittenBody(text), second);
    var kept := Written(text, first)[..|Written(text, first)| - 1];
    assert Written(text, first) == kept + [MarkerLine(first)] && Written(text, second) == kept + [MarkerLine(second)];
    JoinMore(kept, MarkerLine(first));
    JoinMore(kept, MarkerLine(second));
  }

  const FORM_FEED_LOG := "---\n\U{c}---\n---\n"

  lemma FormFeedSplits()
    ensures SplitLines("\U{c}---") == ["", "---"]
  {
    var block := "\U{c}---";
    assert block[1..] == "---";
    assert FirstLine(block) == "" && SplitLines(block) == [""] + SplitLines("---");
    FirstLineOf("---", "");
    assert "---" + "" == "---";
  }

  lemma FormFeedParses()
    ensures Parse(FORM_FEED_LOG) == Frontmatter(["", "---"], "\n")
  {
    hide AfterFirst, CutFence, SplitLines;
    var rest := "\U{c}---" + FENCE + "\n";
    assert FORM_FEED_LOG == "---" + ['\n'] + rest;
    AroundFirst("---", '\n', rest);
    CutAtFence("\U{c}---", "\n");
    FormFeedSplits();
  }

  lemma KeysOfFormFeedLog()
    ensures Kept(["", "---"]) == ["", "---"]
  {
    assert KeyOf("") == "";
    assert Before("---", ':') == "---";
    StripClean("---");
    assert Kept(["---"]) == ["---"];
    assert ["", "---"][1..] == ["---"];
  }

  /** A form feed before `---` starts a line for the code that splits the frontmatter, and none for
      the code that looks for its end: here the date just written is not the date read. */
  lemma FormFeedHidesTheDate(stamp: string, isDate: string -> bool)
    requires IsStamp(stamp) && isDate(stamp)
    ensures ReadMarker(WriteMarker(FORM_FEED_LOG, stamp), isDate) != stamp
  {
    hide KeyOf, WriteMarker, ReadMarker, Parse;
    FormFeedParses();
    KeysOfFormFeedLog();
    assert Kept(Parse(FORM_FEED_LOG).lines)[1] == "---";
    MarkerRoundTrip(FORM_FEED_LOG, stamp, isDate);
  }

  // ---- texts broken only at newlines ----

  predicate OnlyNewlines(s: string) { forall c | c in s && IsBreak(c) :: c == '\n' }

  predicate FenceAt(s: string, i: int) { 0 <= i && i + 4 <= |s| && s[i..i + 4] == FENCE }

  ghost predicate NoFence(s: string) { forall i :: !FenceAt(s, i) }

  /** The block is the longest part of the text that a fence has not ended. */
  lemma {:induction false} BlockHasNoFence(s: string)
    ensures NoFence(CutFence(s).block) && CutFence(s).block <= s
  {
    var block := CutFence(s).block;
    if |s| >= 4 && s[..4] != FENCE {
      BlockHasNoFence(s[1..]);
      forall i ensures !FenceAt(block, i) {
        if i > 0 {
          assert !FenceAt(block[1..], i - 1);
          assert i + 4 <= |block| ==> block[i..i + 4] == block[1..][i - 1..i + 3];
        } else if i == 0 && 4 <= |block| {
          assert block[..4] == s[..4];
        }
      }
    }
  }

  lemma NextLineIsNoFence(block: string, n: nat)
    requires n < |block| && block[n] == '\n' && !FenceAt(block, n)
    ensures !StartsWith(FirstLine(block[n + 1..]), "---")
  {
    var rest := block[n + 1..];
    if |rest| >= 3 {
      assert block[n..n + 4] == ['\n'] + rest[..3];
      assert ['\n'] + "---" == FENCE;
      assert FirstLine(rest) <= rest;
    }
  }

  lemma {:induction false} LaterLinesFollowNewlines(block: string)
    requires NoFence(block) && OnlyNewlines(block)
    ensures FencesOnlyFirst(SplitLines(block))
    decreases |block|
  {
    var line := FirstLine(block);
    var n := |line|;
    if n < |block| {
      var rest := block[n + 1..];
      var more := SplitLines(rest);
      assert block[n] == '\n' by { assert block[n] in block; }
      assert NoFence(rest) by {
        forall i ensures !FenceAt(rest, i) {
          assert !FenceAt(block, n + 1 + i);
          assert 0 <= i && i + 4 <= |rest| ==> block[n + 1 + i..n + 5 + i] == rest[i..i + 4];
        }
      }
      LaterLinesFollowNewlines(rest);
      forall i | 1 <= i < |SplitLines(block)| ensures !StartsWith(SplitLines(block)[i], "---") {
        assert SplitLines(block)[i] == more[i - 1];
        if i == 1 {
          NextLineIsNoFence(block, n);
        }
      }
    }
  }

  predicate NoneFences(lines: seq<string>) { forall line | line in lines :: !StartsWith(line, "---") }

  lemma {:induction false} KeptStaysClear(lines: seq<string>)
    requires NoneFences(lines)
    ensures NoneFences(Kept(lines))
  {
    if lines != [] {
      KeptStaysClear(lines[1..]);
    }
  }

  lemma PlainTextSurvives(text: string)
    requires OnlyNewlines(text)
    ensures Survives(text)
  {
    if Parse(text).Frontmatter? {
      var rest := AfterFirst(text, '\n');
      var block := CutFence(rest).block;
      var lines := SplitLines(block);
      BlockHasNoFence(rest);
      AfterFirstIsPart(text, '\n');
      LaterLinesFollowNewlines(block);
      if lines != [] {
        KeptStaysClear(lines[1..]);
      }
    }
  }

  lemma {:induction false} AfterFirstIsPart(s: string, c: char)
    ensures forall d | d in AfterFirst(s, c) :: d in s
  {
    if s != "" && s[0] != c {
      AfterFirstIsPart(s[1..], c);
    }
  }

  /** For text broken only at newlines, the date just written is the date read, whatever the log held. */
  lemma PlainRoundTrip(text: string, stamp: string, isDate: string -> bool)
    requires OnlyNewlines(text) && IsStamp(stamp) && isDate(stamp)
    ensures ReadMarker(WriteMarker(text, stamp), isDate) == stamp
  {
    PlainTextSurvives(text);
    MarkerRoundTrip(text, stamp, isDate);
  }
}
