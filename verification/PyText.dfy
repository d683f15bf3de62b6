/** The few Python string operations the modelled code is made of, on `seq<char>`. */
module PyText {

  /** What `str.splitlines` splits at, in a text read with universal newlines (so without `\r`). */
  predicate IsBreak(c: char) {
    || c == '\n' || c == '\U{b}' || c == '\U{c}' || ('\U{1c}' <= c <= '\U{1e}')
    || c == '\U{85}' || c == '\U{2028}' || c == '\U{2029}'
  }

  predicate IsSpace(c: char) {
    || c == ' ' || ('\U{9}' <= c <= '\U{d}') || ('\U{1c}' <= c <= '\U{1f}') || c == '\U{85}' || c == '\U{a0}'
    || c == '\U{1680}' || ('\U{2000}' <= c <= '\U{200a}') || c == '\U{2028}' || c == '\U{2029}'
    || c == '\U{202f}' || c == '\U{205f}' || c == '\U{3000}'
  }

  function StripLeft(s: string, drop: char -> bool): string {
    if s != "" && drop(s[0]) then StripLeft(s[1..], drop) else s
  }

  function StripRight(s: string, drop: char -> bool): string {
    if s != "" && drop(s[|s| - 1]) then StripRight(s[..|s| - 1], drop) else s
  }

  function Strip(s: string): string { StripRight(StripLeft(s, IsSpace), IsSpace) }

  predicate IsQuote(c: char) { c == '"' || c == '\'' }

  function StripQuotes(s: string): string { StripRight(StripLeft(s, IsQuote), IsQuote) }

  /** The literal `w` stands in `t` at `i`. */
  predicate At(t: string, i: nat, w: string) {
    i + |w| <= |t| && forall p | i <= p < i + |w| :: t[p] == w[p - i]
  }

  /** `a or b` */
  function Or(a: string, b: string): string { if a != "" then a else b }

  predicate StartsWith(s: string, prefix: string) { prefix <= s }

  /** The part before the first `c`, and the part after it (empty when there is none). */
  function Before(s: string, c: char): string {
    if s == "" || s[0] == c then "" else [s[0]] + Before(s[1..], c)
  }

  function AfterFirst(s: string, c: char): string {
    if s == "" then "" else if s[0] == c then s[1..] else AfterFirst(s[1..], c)
  }

  function SplitLines(s: string): seq<string>
    decreases |s|
  {
    if s == "" then []
    else
      var line := FirstLine(s);
      if |line| == |s| then [line] else [line] + SplitLines(s[|line| + 1..])
  }

  /** The longest prefix without a line break. */
  function FirstLine(s: string): (line: string)
    ensures line <= s && forall c | c in line :: !IsBreak(c)
    ensures |line| < |s| ==> IsBreak(s[|line|])
  {
    if s == "" || IsBreak(s[0]) then "" else [s[0]] + FirstLine(s[1..])
  }

  /** `"\n".join(lines)` */
  function Join(lines: seq<string>): string {
    if |lines| == 0 then "" else if |lines| == 1 then lines[0] else lines[0] + "\n" + Join(lines[1..])
  }

  lemma JoinFirst(line: string, more: seq<string>)
    requires more != []
    ensures Join([line] + more) == line + "\n" + Join(more)
  {
    assert ([line] + more)[1..] == more;
  }

  lemma {:induction false} FirstLineOf(line: string, rest: string)
    requires forall c | c in line :: !IsBreak(c)
    requires rest == "" || IsBreak(rest[0])
    ensures FirstLine(line + rest) == line
  {
    if line == "" {
      assert line + rest == rest;
    } else {
      assert (line + rest)[0] == line[0] && (line + rest)[1..] == line[1..] + rest;
      FirstLineOf(line[1..], rest);
    }
  }

  predicate Unbroken(lines: seq<string>) {
    forall i | 0 <= i < |lines| :: forall c | c in lines[i] :: !IsBreak(c)
  }

  lemma {:induction false} SplitLinesUnbroken(s: string)
    ensures Unbroken(SplitLines(s))
    decreases |s|
  {
    if s != "" {
      var line := FirstLine(s);
      if |line| < |s| {
        SplitLinesUnbroken(s[|line| + 1..]);
      }
    }
  }

  lemma SplitFirst(line: string, rest: string)
    requires forall c | c in line :: !IsBreak(c)
    ensures SplitLines(line + "\n" + rest) == [line] + SplitLines(rest)
  {
    var s := line + "\n" + rest;
    assert s == line + ("\n" + rest);
    FirstLineOf(line, "\n" + rest);
    assert s[|line| + 1..] == rest;
  }

  function DropBlankEnd(lines: seq<string>): seq<string> {
    if lines != [] && lines[|lines| - 1] == "" then lines[..|lines| - 1] else lines
  }

  /** Splitting what was joined gives the lines back, but for an empty last one. */
  lemma {:induction false} SplitJoined(lines: seq<string>)
    requires Unbroken(lines)
    ensures SplitLines(Join(lines)) == DropBlankEnd(lines)
  {
    if |lines| == 1 {
      FirstLineOf(lines[0], "");
      assert lines[0] + "" == lines[0];
    } else if |lines| > 1 {
      var line, more := lines[0], lines[1..];
      assert lines == [line] + more;
      JoinFirst(line, more);
      SplitFirst(line, Join(more));
      SplitJoined(more);
      DropBlankLater(line, more);
    }
  }

  lemma DropBlankLater(line: string, more: seq<string>)
    requires more != []
    ensures DropBlankEnd([line] + more) == [line] + DropBlankEnd(more)
  {
  }

  /** What `strip` leaves: text whose ends are not white space. */
  predicate Stripped(s: string) { s != "" && !IsSpace(s[0]) && !IsSpace(s[|s| - 1]) }

  lemma StripClean(s: string)
    requires s == "" || Stripped(s)
    ensures Strip(s) == s
  {
  }

  lemma {:induction false} StripIsStripped(s: string)
    ensures Strip(s) == "" || Stripped(Strip(s))
  {
    StripLeftStarts(s);
    StripRightEnds(StripLeft(s, IsSpace));
  }

  lemma {:induction false} StripLeftStarts(s: string)
    ensures var t := StripLeft(s, IsSpace); t == "" || !IsSpace(t[0])
  {
    if s != "" && IsSpace(s[0]) {
      StripLeftStarts(s[1..]);
    }
  }

  lemma {:induction false} StripRightEnds(s: string)
    ensures var t := StripRight(s, IsSpace); t <= s && (t == "" || !IsSpace(t[|t| - 1]))
  {
    if s != "" && IsSpace(s[|s| - 1]) {
      StripRightEnds(s[..|s| - 1]);
    }
  }
}
