/** Task notifications in the CLI's synthetic user records, and the context capsule that is
    stripped from them. */
module CliEnvelopes {
  import opened Basics
  import opened PyText

  // ---- finding literals ----

  /** The first place at or after `i` where `w` stands. */
  function Find(t: string, i: nat, w: string): (r: Option<nat>)
    requires i <= |t|
    ensures r.Some? ==> i <= r.value && r.value + |w| <= |t| && At(t, r.value, w)
    ensures r.Some? ==> forall k | i <= k < r.value :: !At(t, k, w)
    ensures r.None? ==> forall k: nat | i <= k :: !At(t, k, w)
    decreases |t| - i
  {
    if At(t, i, w) then Some(i) else if i == |t| then None else Find(t, i + 1, w)
  }

  // ---- notifications ----

  const OPEN := "<task-notification>"
  const CLOSE := "</task-notification>"

  /** One `<task-notification>` with its body. */
  datatype Match = Match(start: nat, end: nat, body: string)

  /** The first notification from `i` on that is closed, with the shortest body. */
  function NextMatch(t: string, i: nat): (m: Option<Match>)
    requires i <= |t|
    ensures m.Some? ==> i <= m.value.start < m.value.end <= |t|
  {
    match Find(t, i, OPEN)
    case None => None
    case Some(open) =>
      match Find(t, open + |OPEN|, CLOSE)
      case None => None
      case Some(close) => Some(Match(open, close + |CLOSE|, t[open + |OPEN|..close]))
  }

  /** A notification begins at the first opening tag and ends with the first closing one after it. */
  lemma NotificationIsShortest(t: string, i: nat)
    requires i <= |t|
    ensures match NextMatch(t, i)
            case Some(m) =>
              var from, to := m.start + |OPEN|, m.end - |CLOSE|;
              && i <= m.start && from <= to && m.end <= |t| && At(t, m.start, OPEN) && At(t, to, CLOSE)
              && m.body == t[from..to]
              && (forall k | i <= k < m.start :: !At(t, k, OPEN)) && (forall k | from <= k < to :: !At(t, k, CLOSE))
            case None =>
              || (forall k: nat | i <= k :: !At(t, k, OPEN))
              || exists open: nat | i <= open && At(t, open, OPEN) ::
                   forall k: nat | open + |OPEN| <= k :: !At(t, k, CLOSE)
  {
    hide Find, At;
    match Find(t, i, OPEN)
    case None =>
    case Some(open) =>
      assert At(t, open, OPEN);
      match Find(t, open + |OPEN|, CLOSE)
      case None =>
      case Some(close) => assert close + |CLOSE| - |CLOSE| == close;
  }

  /** The notifications from `i` on, in order, none overlapping another. */
  function Matches(t: string, i: nat): seq<Match>
    requires i <= |t|
    decreases |t| - i
  {
    match NextMatch(t, i)
    case None => []
    case Some(m) => [m] + Matches(t, m.end)
  }

  predicate Ordered(t: string, i: nat, matches: seq<Match>) {
    && (forall k | 0 <= k < |matches| :: i <= matches[k].start <= matches[k].end <= |t|)
    && (forall j, k | 0 <= j < k < |matches| :: matches[j].end <= matches[k].start)
  }

  lemma OrderedCons(t: string, i: nat, m: Match, more: seq<Match>)
    requires i <= m.start <= m.end <= |t| && Ordered(t, m.end, more)
    ensures Ordered(t, i, [m] + more)
  {
  }

  lemma {:induction false} MatchesAreOrdered(t: string, i: nat)
    requires i <= |t|
    ensures Ordered(t, i, Matches(t, i))
    decreases |t| - i
  {
    hide NextMatch;
    match NextMatch(t, i)
    case None =>
    case Some(m) =>
      MatchesAreOrdered(t, m.end);
      OrderedCons(t, i, m, Matches(t, m.end));
  }

  predicate Blank(s: string) { Strip(s) == "" }

  /** The text between a notification and the one before it, or the start of the record. */
  function Gap(t: string, matches: seq<Match>, k: nat): string
    requires k < |matches| && Ordered(t, 0, matches)
  {
    t[if k == 0 then 0 else matches[k - 1].end..matches[k].start]
  }

  /** The run of notifications that only white space separates, as long as it goes. */
  ghost predicate IsLeadingRun(t: string, matches: seq<Match>, run: seq<Match>)
    requires Ordered(t, 0, matches)
  {
    && run <= matches
    && (forall k | 0 <= k < |run| :: Blank(Gap(t, matches, k)))
    && (|run| < |matches| ==> !Blank(Gap(t, matches, |run|)))
  }

  function LeadingFrom(t: string, matches: seq<Match>, k: nat): seq<Match>
    requires k <= |matches| && Ordered(t, 0, matches)
    decreases |matches| - k
  {
    if k == |matches| || !Blank(Gap(t, matches, k)) then matches[..k] else LeadingFrom(t, matches, k + 1)
  }

  function Leading(t: string): seq<Match> {
    MatchesAreOrdered(t, 0);
    LeadingFrom(t, Matches(t, 0), 0)
  }

  lemma {:induction false} LeadingFromIsRun(t: string, matches: seq<Match>, k: nat)
    requires k <= |matches| && Ordered(t, 0, matches)
    requires forall j | 0 <= j < k :: Blank(Gap(t, matches, j))
    ensures IsLeadingRun(t, matches, LeadingFrom(t, matches, k))
    decreases |matches| - k
  {
    if k < |matches| && Blank(Gap(t, matches, k)) {
      LeadingFromIsRun(t, matches, k + 1);
    }
  }

  /** There is only one such run. */
  lemma LeadingRunIsUnique(t: string, matches: seq<Match>, a: seq<Match>, b: seq<Match>)
    requires Ordered(t, 0, matches) && IsLeadingRun(t, matches, a) && IsLeadingRun(t, matches, b)
    ensures a == b
  {
    assert a == matches[..|a|] && b == matches[..|b|];
  }

  method TakeLeading(t: string, all: seq<Match>) returns (run: seq<Match>)
    requires Ordered(t, 0, all)
    ensures IsLeadingRun(t, all, run)
  {
    hide Blank;
    run := [];
    var previous: Option<nat> := None;
    for k := 0 to |all|
      invariant run == all[..k]
      invariant previous == if k == 0 then None else Some(all[k - 1].end)
      invariant forall j | 0 <= j < k :: Blank(Gap(t, all, j))
    {
      var gap := if previous.None? then t[..all[k].start] else t[previous.value..all[k].start];
      assert gap == Gap(t, all, k);
      if !Blank(gap) {
        break;
      }
      run := run + [all[k]];
      previous := Some(all[k].end);
    }
  }

  method LeadingMatches(t: string) returns (run: seq<Match>)
    ensures run == Leading(t)
  {
    hide Matches, Blank;
    MatchesAreOrdered(t, 0);
    run := TakeLeading(t, Matches(t, 0));
    LeadingFromIsRun(t, Matches(t, 0), 0);
    LeadingRunIsUnique(t, Matches(t, 0), run, Leading(t));
  }

  // ---- the fields of a notification ----

  datatype Tag = Tag(name: string, text: string)

  predicate IsTagChar(c: char) { 'a' <= c <= 'z' || c == '-' }

  function NameEnd(t: string, i: nat): (n: nat)
    requires i <= |t|
    ensures i <= n <= |t|
    decreases |t| - i
  {
    if i < |t| && IsTagChar(t[i]) then NameEnd(t, i + 1) else i
  }

  /** The element that starts at `i`: `<name>text</name>` with the shortest text. */
  function TagAt(t: string, i: nat): (r: Option<(Tag, nat)>)
    requires i < |t|
    ensures r.Some? ==> i < r.value.1 <= |t|
  {
    var n := NameEnd(t, i + 1);
    if t[i] != '<' || n == i + 1 || n == |t| || t[n] != '>' then None
    else
      var name := t[i + 1..n];
      match Find(t, n + 1, "</" + name + ">")
      case None => None
      case Some(close) => Some((Tag(name, t[n + 1..close]), close + |name| + 3))
  }

  /** Every element of a body, none overlapping another. */
  function Tags(t: string, i: nat): seq<Tag>
    requires i <= |t|
    decreases |t| - i
  {
    if i == |t| then []
    else
      match TagAt(t, i)
      case None => Tags(t, i + 1)
      case Some(found) => [found.0] + Tags(t, found.1)
  }

  const SENTINEL := "__orphan_summary"

  predicate IsTaskId(tag: Tag) {
    tag.name == "task-id" && Strip(tag.text) != "" && !StartsWith(Strip(tag.text), SENTINEL)
  }

  /** A field that carries the status of the ids before it. */
  predicate IsStatus(tag: Tag) { tag.name == "status" }

  function RealTaskIds(tags: seq<Tag>): seq<string> {
    if tags == [] then []
    else (if IsTaskId(tags[0]) then [Strip(tags[0].text)] else []) + RealTaskIds(tags[1..])
  }

  /** The ids are the stripped texts of the `task-id` fields, in order, but for blank ones and for
      the sentinel of an orphan summary. */
  lemma {:induction false} TaskIdsAreFieldwise(a: seq<Tag>, b: seq<Tag>, tag: Tag)
    ensures RealTaskIds(a + b) == RealTaskIds(a) + RealTaskIds(b)
    ensures var value := Strip(tag.text);
            RealTaskIds([tag]) ==
            if tag.name == "task-id" && value != "" && !("__orphan_summary" <= value) then [value] else []
  {
    hide Strip;
    assert [tag][1..] == [];
    if a == [] {
      assert a + b == b;
    } else {
      assert (a + b)[1..] == a[1..] + b;
      TaskIdsAreFieldwise(a[1..], b, tag);
    }
  }

  /** An element as it is written. */
  function Written(tag: Tag): string { "<" + tag.name + ">" + tag.text + "</" + tag.name + ">" }

  function AllWritten(tags: seq<Tag>): string {
    if tags == [] then "" else Written(tags[0]) + AllWritten(tags[1..])
  }

  predicate IsPlain(tag: Tag) {
    tag.name != "" && (forall c | c in tag.name :: 'a' <= c <= 'z' || c == '-') && '<' !in tag.text
  }

  lemma {:induction false} NameEndsAt(t: string, i: nat, j: nat)
    requires i <= j < |t| && (forall k | i <= k < j :: IsTagChar(t[k])) && !IsTagChar(t[j])
    ensures NameEnd(t, i) == j
    decreases j - i
  {
    if i < j {
      NameEndsAt(t, i + 1, j);
    }
  }

  /** The first place where a word stands is the only one before which it does not. */
  lemma FindIs(t: string, i: nat, w: string, at: nat)
    requires i <= at <= |t| && At(t, at, w) && forall k | i <= k < at :: !At(t, k, w)
    ensures Find(t, i, w) == Some(at)
  {
  }

  lemma JoinedParts(a: string, b: string, c: string)
    ensures var t := a + b + c;
            t[|a|..|a| + |b|] == b && forall k | |a| <= k < |a| + |b| :: t[k] == b[k - |a|] && t[k] in b
  {
  }

  /** A name between `<` and `>`. */
  lemma NameAt(pre: string, name: string, post: string)
    requires name != "" && forall c | c in name :: IsTagChar(c)
    ensures var t := pre + "<" + name + ">" + post; var n := |pre| + 1 + |name|;
            NameEnd(t, |pre| + 1) == n && n < |t| && t[|pre|] == '<' && t[n] == '>' && t[|pre| + 1..n] == name
  {
    var t := pre + "<" + name + ">" + post;
    assert t == (pre + "<") + name + (">" + post);
    JoinedParts(pre + "<", name, ">" + post);
    NameEndsAt(t, |pre| + 1, |pre| + 1 + |name|);
  }

  lemma NotBefore(t: string, i: nat, j: nat, w: string)
    requires j <= |t| && w != "" && forall k | i <= k < j :: t[k] != w[0]
    ensures forall k | i <= k < j :: !At(t, k, w)
  {
    forall k | i <= k < j ensures !At(t, k, w) {
      assert t[k] != w[k - k];
    }
  }

  /** A text without `<` and what closes it, by their places. */
  lemma ClosingAt(t: string, i: nat, j: nat, closing: string)
    requires i <= j && j + |closing| <= |t| && closing != "" && closing[0] == '<'
    requires (forall k | i <= k < j :: t[k] != '<') && t[j..j + |closing|] == closing
    ensures Find(t, i, closing) == Some(j)
  {
    hide Find;
    forall p | j <= p < j + |closing| ensures t[p] == closing[p - j] {
      assert t[p] == t[j..j + |closing|][p - j];
    }
    NotBefore(t, i, j, closing);
    FindIs(t, i, closing, j);
  }

  function Closing(name: string): string { "</" + name + ">" }

  lemma WrittenParts(pre: string, tag: Tag, post: string)
    ensures var t := pre + Written(tag) + post; var front := pre + "<" + tag.name + ">";
            && t == pre + "<" + tag.name + ">" + (tag.text + (Closing(tag.name) + post))
            && t == front + (tag.text + (Closing(tag.name) + post))
            && |pre + Written(tag)| == |front| + |tag.text| + |Closing(tag.name)|
            && |front| == |pre| + |tag.name| + 2 && Closing(tag.name)[0] == '<' && |Closing(tag.name)| == |tag.name| + 3
  {
    var t := pre + Written(tag) + post;
    var tail := tag.text + (Closing(tag.name) + post);
    assert Written(tag) == "<" + tag.name + ">" + tag.text + Closing(tag.name);
    assert t == pre + "<" + tag.name + ">" + tail;
  }

  lemma PlainParts(tag: Tag)
    requires IsPlain(tag)
    ensures tag.name != "" && (forall c | c in tag.name :: IsTagChar(c)) && '<' !in tag.text
  {
  }

  lemma PlainTagAt(pre: string, tag: Tag, post: string)
    requires IsPlain(tag)
    ensures var t := pre + Written(tag) + post;
            |pre| < |t| && TagAt(t, |pre|) == Some((tag, |pre + Written(tag)|))
  {
    hide Find, NameEnd, At, IsTagChar, Written, IsPlain;
    PlainParts(tag);
    var closing, front := Closing(tag.name), pre + "<" + tag.name + ">";
    var t := pre + Written(tag) + post;
    WrittenParts(pre, tag, post);
    NameAt(pre, tag.name, tag.text + (closing + post));
    TextAndClosing(front, tag.text, closing, post);
    ClosingAt(t, |front|, |front| + |tag.text|, closing);
  }

  lemma TextAndClosing(front: string, text: string, closing: string, post: string)
    requires '<' !in text
    ensures var t := front + (text + (closing + post)); var j := |front| + |text|;
            && j + |closing| <= |t| && t[|front|..j] == text && t[j..j + |closing|] == closing
            && forall k | |front| <= k < j :: t[k] != '<'
  {
    var t := front + (text + (closing + post));
    forall k | |front| <= k < |front| + |text| ensures t[k] != '<' {
      assert t[k] == text[k - |front|] && text[k - |front|] in text;
    }
  }

  /** Fields that are written one after another are read back, name and text. */
  lemma {:induction false} FieldsAreReadBack(pre: string, tags: seq<Tag>)
    requires forall tag | tag in tags :: IsPlain(tag)
    ensures Tags(pre + AllWritten(tags), |pre|) == tags
    decreases |tags|
  {
    hide TagAt, Written, IsPlain;
    var t := pre + AllWritten(tags);
    if tags != [] {
      var next := pre + Written(tags[0]);
      assert t == next + AllWritten(tags[1..]);
      PlainTagAt(pre, tags[0], AllWritten(tags[1..]));
      FieldsAreReadBack(next, tags[1..]);
    }
  }

  // ---- statuses ----

  const COMPLETED := "completed"

  function StatusValue(tag: Tag, default: string): string { Or(Or(Strip(tag.text), default), COMPLETED) }

  function Paired(ids: seq<string>, status: string): seq<(string, string)> {
    seq(|ids|, i requires 0 <= i < |ids| => (ids[i], status))
  }

  /** The scan of a body: the ids that still wait, and the last status seen. */
  function Scan(tags: seq<Tag>, pending: seq<string>, current: string, default: string): seq<(string, string)> {
    if tags == [] then Paired(pending, current)
    else if tags[0].name == "task-id" then
      Scan(tags[1..], if IsTaskId(tags[0]) then pending + [Strip(tags[0].text)] else pending, current, default)
    else if IsStatus(tags[0]) then
      var status := StatusValue(tags[0], default);
      Paired(pending, status) + Scan(tags[1..], [], status, default)
    else Scan(tags[1..], pending, current, default)
  }

  function TaskStatuses(tags: seq<Tag>, default: string): seq<(string, string)> {
    Scan(tags, [], Or(default, COMPLETED), default)
  }

  method TaskStatusesFromBody(tags: seq<Tag>, default: string) returns (statuses: seq<(string, string)>)
    ensures statuses == TaskStatuses(tags, default)
  {
    var pending: seq<string> := [];
    var current := Or(default, COMPLETED);
    statuses := [];
    assert tags[0..] == tags;
    for k := 0 to |tags|
      invariant statuses + Scan(tags[k..], pending, current, default) == TaskStatuses(tags, default)
    {
      var tag := tags[k];
      ghost var sofar, waiting := statuses, pending;
      assert tags[k..][0] == tag && tags[k..][1..] == tags[k + 1..];
      if tag.name == "task-id" {
        var value := Strip(tag.text);
        if value != "" && !StartsWith(value, SENTINEL) {
          pending := pending + [value];
        }
      } else if tag.name == "status" {
        current := StatusValue(tag, default);
        statuses := statuses + Paired(pending, current);
        pending := [];
        assert sofar + (Paired(waiting, current) + Scan(tags[k + 1..], [], current, default)) ==
               statuses + Scan(tags[k + 1..], [], current, default);
      }
    }
    statuses := statuses + Paired(pending, current);
  }

  /** The status that an id waits for: the first one after it, or the last one known. */
  function StatusAfter(tags: seq<Tag>, current: string, default: string): string {
    if tags == [] then current
    else if IsStatus(tags[0]) then StatusValue(tags[0], default)
    else StatusAfter(tags[1..], current, default)
  }

  /** Each real id with the status that follows it. */
  function EachWithStatus(tags: seq<Tag>, current: string, default: string): seq<(string, string)> {
    if tags == [] then []
    else
      var now := if IsStatus(tags[0]) then StatusValue(tags[0], default) else current;
      (if IsTaskId(tags[0]) then [(Strip(tags[0].text), StatusAfter(tags[1..], now, default))] else [])
      + EachWithStatus(tags[1..], now, default)
  }

  lemma TagKinds(tag: Tag)
    ensures IsTaskId(tag) ==> tag.name == "task-id"
    ensures IsStatus(tag) ==> tag.name != "task-id"
  {
  }

  lemma PairedMore(ids: seq<string>, id: string, status: string)
    ensures Paired(ids + [id], status) == Paired(ids, status) + [(id, status)]
    ensures Paired([], status) == []
  {
  }

  lemma {:induction false} ScanGivesStatuses(tags: seq<Tag>, pending: seq<string>, current: string, default: string)
    ensures Scan(tags, pending, current, default) ==
            Paired(pending, StatusAfter(tags, current, default)) + EachWithStatus(tags, current, default)
  {
    hide IsTaskId, IsStatus, StatusValue, Paired;
    if tags != [] {
      var tag, rest := tags[0], tags[1..];
      TagKinds(tag);
      if IsTaskId(tag) {
        ScanGivesStatuses(rest, pending + [Strip(tag.text)], current, default);
        PairedMore(pending, Strip(tag.text), StatusAfter(rest, current, default));
      } else if IsStatus(tag) {
        var status := StatusValue(tag, default);
        ScanGivesStatuses(rest, [], status, default);
        PairedMore([], "", StatusAfter(rest, status, default));
      } else {
        ScanGivesStatuses(rest, pending, current, default);
      }
    }
  }

  function Firsts(pairs: seq<(string, string)>): seq<string> {
    seq(|pairs|, i requires 0 <= i < |pairs| => pairs[i].0)
  }

  lemma FirstsJoin(a: seq<(string, string)>, b: seq<(string, string)>)
    ensures Firsts(a + b) == Firsts(a) + Firsts(b)
  {
  }

  lemma {:induction false} IdsOfStatuses(tags: seq<Tag>, current: string, default: string)
    ensures Firsts(EachWithStatus(tags, current, default)) == RealTaskIds(tags)
  {
    if tags != [] {
      hide IsTaskId, StatusAfter, StatusValue;
      var now := if IsStatus(tags[0]) then StatusValue(tags[0], default) else current;
      IdsOfStatuses(tags[1..], now, default);
      if IsTaskId(tags[0]) {
        var first := (Strip(tags[0].text), StatusAfter(tags[1..], now, default));
        FirstsJoin([first], EachWithStatus(tags[1..], now, default));
      } else {
        FirstsJoin([], EachWithStatus(tags[1..], now, default));
      }
    }
  }

  // ---- the two readers of a record ----

  /** The value of the last field of a name, which is the one a dictionary keeps. */
  function LastField(tags: seq<Tag>, name: string): string {
    if tags == [] then ""
    else if tags[|tags| - 1].name == name then Strip(tags[|tags| - 1].text)
    else LastField(tags[..|tags| - 1], name)
  }

  function DefaultStatus(tags: seq<Tag>): string { Or(LastField(tags, "status"), COMPLETED) }

  function StatusesOf(run: seq<Match>): seq<(string, string)> {
    if run == [] then []
    else
      var tags := Tags(run[0].body, 0);
      TaskStatuses(tags, DefaultStatus(tags)) + StatusesOf(run[1..])
  }

  function IdsOf(run: seq<Match>): seq<string> {
    if run == [] then [] else RealTaskIds(Tags(run[0].body, 0)) + IdsOf(run[1..])
  }

  /** A record opens with `<task-notification>`, possibly with attributes. */
  predicate OpensNotification(t: string) {
    var body := StripLeft(t, IsSpace);
    var n := |"<task-notification"|;
    && StartsWith(body, "<task-notification") && n < |body|
    && (body[n] == '>' || (IsSpace(body[n]) && exists k | n < k < |body| :: body[k] == '>'))
  }

  function NotificationTaskStatuses(t: string): seq<(string, string)> {
    if OpensNotification(t) then StatusesOf(Leading(t)) else []
  }

  function NotificationTaskIds(t: string): seq<string> { if OpensNotification(t) then IdsOf(Leading(t)) else [] }

  lemma TaskReadersAgree(tags: seq<Tag>, default: string)
    ensures Firsts(TaskStatuses(tags, default)) == RealTaskIds(tags)
  {
    hide Firsts, RealTaskIds, StatusAfter, EachWithStatus, Scan;
    ScanGivesStatuses(tags, [], Or(default, COMPLETED), default);
    var none := Paired([], StatusAfter(tags, Or(default, COMPLETED), default));
    assert none == [];
    assert TaskStatuses(tags, default) == EachWithStatus(tags, Or(default, COMPLETED), default);
    IdsOfStatuses(tags, Or(default, COMPLETED), default);
  }

  lemma {:induction false} RunReadersAgree(run: seq<Match>)
    ensures Firsts(StatusesOf(run)) == IdsOf(run)
  {
    hide TaskStatuses, RealTaskIds, DefaultStatus, Tags;
    if run != [] {
      var tags := Tags(run[0].body, 0);
      var default := DefaultStatus(tags);
      TaskReadersAgree(tags, default);
      RunReadersAgree(run[1..]);
      FirstsJoin(TaskStatuses(tags, default), StatusesOf(run[1..]));
    }
  }

  /** For every record the statuses and the ids name the same tasks, in the same order. */
  lemma ReadersAgree(t: string)
    ensures Firsts(NotificationTaskStatuses(t)) == NotificationTaskIds(t)
  {
    if OpensNotification(t) {
      RunReadersAgree(Leading(t));
    }
  }

  /** Other records have no task. */
  lemma OtherRecordsHaveNone(t: string)
    requires !StartsWith(StripLeft(t, IsSpace), "<task-notification")
    ensures NotificationTaskIds(t) == [] && NotificationTaskStatuses(t) == []
  {
  }

  /** Within one notification each id has the first status after it, or the last one known. */
  lemma StatusesFollowIds(tags: seq<Tag>, default: string)
    ensures TaskStatuses(tags, default) == EachWithStatus(tags, Or(default, COMPLETED), default)
  {
    ScanGivesStatuses(tags, [], Or(default, COMPLETED), default);
    assert Paired([], StatusAfter(tags, Or(default, COMPLETED), default)) == [];
  }

  // ---- one id and its status ----

  predicate NoStatus(tags: seq<Tag>) { forall tag | tag in tags :: tag.name != "status" }

  /** What a status field says: its text, or else the default, or else `completed`. */
  predicate Says(tag: Tag, default: string, status: string) {
    if Strip(tag.text) != "" then status == Strip(tag.text)
    else if default != "" then status == default
    else status == "completed"
  }

  lemma {:induction false} StatusAfterNone(tags: seq<Tag>, current: string, default: string)
    requires NoStatus(tags)
    ensures StatusAfter(tags, current, default) == current
  {
    if tags != [] {
      assert tags[0] in tags;
      StatusAfterNone(tags[1..], current, default);
    }
  }

  lemma {:induction false} StatusAfterFirst(between: seq<Tag>, st: Tag, rest: seq<Tag>, current: string,
                                            default: string)
    requires NoStatus(between) && st.name == "status"
    ensures StatusAfter(between + [st] + rest, current, default) == StatusValue(st, default)
  {
    if between == [] {
      assert ([] + [st] + rest)[0] == st;
    } else {
      assert between[0] in between;
      assert (between + [st] + rest)[0] == between[0] && (between + [st] + rest)[1..] == between[1..] + [st] + rest;
      StatusAfterFirst(between[1..], st, rest, current, default);
    }
  }

  /** The status in force after some fields. */
  function Current(tags: seq<Tag>, current: string, default: string): string {
    if tags == [] then current
    else Current(tags[1..], if IsStatus(tags[0]) then StatusValue(tags[0], default) else current, default)
  }

  lemma {:induction false} CurrentIsLast(before: seq<Tag>, st: Tag, after: seq<Tag>, current: string, default: string)
    requires NoStatus(after) && st.name == "status"
    ensures Current(before + [st] + after, current, default) == StatusValue(st, default)
  {
    if before == [] {
      assert ([] + [st] + after)[0] == st && ([] + [st] + after)[1..] == after;
      CurrentOfNone(after, StatusValue(st, default), default);
    } else {
      var all := before + [st] + after;
      assert all[0] == before[0] && all[1..] == before[1..] + [st] + after;
      var next := if IsStatus(before[0]) then StatusValue(before[0], default) else current;
      CurrentIsLast(before[1..], st, after, next, default);
    }
  }

  lemma {:induction false} CurrentOfNone(tags: seq<Tag>, current: string, default: string)
    requires NoStatus(tags)
    ensures Current(tags, current, default) == current
  {
    if tags != [] {
      assert tags[0] in tags;
      CurrentOfNone(tags[1..], current, default);
    }
  }

  lemma {:induction false} IdAmong(before: seq<Tag>, id: Tag, rest: seq<Tag>, current: string, default: string)
    requires IsTaskId(id)
    ensures var all := EachWithStatus(before + [id] + rest, current, default); var n := |RealTaskIds(before)|;
            n < |all| && all[n] == (Strip(id.text), StatusAfter(rest, Current(before, current, default), default))
  {
    hide IsTaskId, StatusValue, StatusAfter, Strip;
    TagKinds(id);
    var tags := before + [id] + rest;
    if before == [] {
      assert tags[0] == id && tags[1..] == rest;
    } else {
      assert tags[0] == before[0] && tags[1..] == before[1..] + [id] + rest;
      var next := if IsStatus(before[0]) then StatusValue(before[0], default) else current;
      IdAmong(before[1..], id, rest, next, default);
    }
  }

  /** An id with a status field after it has what the first of them says; without one it has what the
      last before it says, and where there is none either, the default, or `completed`. */
  lemma EachIdHasItsStatus(before: seq<Tag>, id: Tag, rest: seq<Tag>, default: string)
    requires id.name == "task-id" && Strip(id.text) != "" && !("__orphan_summary" <= Strip(id.text))
    ensures var all := TaskStatuses(before + [id] + rest, default); var n := |RealTaskIds(before)|;
            && n < |all| && all[n].0 == Strip(id.text)
            && (forall k | 0 <= k < |rest| && rest[k].name == "status" && NoStatus(rest[..k]) ::
                  Says(rest[k], default, all[n].1))
            && (NoStatus(rest) ==>
                  forall k | 0 <= k < |before| && before[k].name == "status" && NoStatus(before[k + 1..]) ::
                    Says(before[k], default, all[n].1))
            && (NoStatus(rest) && NoStatus(before) ==> all[n].1 == if default != "" then default else "completed")
  {
    hide EachWithStatus, StatusAfter, Strip;
    var first := Or(default, COMPLETED);
    StatusesFollowIds(before + [id] + rest, default);
    IdAmong(before, id, rest, first, default);
    var now := Current(before, first, default);
    forall k | 0 <= k < |rest| && rest[k].name == "status" && NoStatus(rest[..k])
      ensures StatusAfter(rest, now, default) == StatusValue(rest[k], default)
    {
      assert rest == rest[..k] + [rest[k]] + rest[k + 1..];
      StatusAfterFirst(rest[..k], rest[k], rest[k + 1..], now, default);
    }
    if NoStatus(rest) {
      StatusAfterNone(rest, now, default);
      forall k | 0 <= k < |before| && before[k].name == "status" && NoStatus(before[k + 1..])
        ensures now == StatusValue(before[k], default)
      {
        assert before == before[..k] + [before[k]] + before[k + 1..];
        CurrentIsLast(before[..k], before[k], before[k + 1..], first, default);
      }
      if NoStatus(before) {
        CurrentOfNone(before, first, default);
      }
    }
  }

  // ---- a whole record ----

  lemma {:induction false} LastFieldIs(before: seq<Tag>, st: Tag, after: seq<Tag>)
    requires st.name == "status" && NoStatus(after)
    ensures LastField(before + [st] + after, "status") == Strip(st.text)
    ensures LastField(after, "status") == ""
    decreases |after|
  {
    hide Strip;
    var all := before + [st] + after;
    if after == [] {
      assert all[|all| - 1] == st;
    } else {
      var n := |after| - 1;
      assert all[|all| - 1] == after[n] && after[n] in after;
      assert all[..|all| - 1] == before + [st] + after[..n];
      LastFieldIs(before, st, after[..n]);
    }
  }

  /** What the last status field of a notification says, or that it is completed. */
  lemma DefaultIsLastStatus(before: seq<Tag>, st: Tag, after: seq<Tag>)
    requires st.name == "status" && NoStatus(after)
    ensures DefaultStatus(before + [st] + after) == if Strip(st.text) != "" then Strip(st.text) else "completed"
    ensures DefaultStatus(after) == "completed"
  {
    hide Strip, LastField;
    LastFieldIs(before, st, after);
  }

  /** A notification as it is written, behind white space. */
  datatype Note = Note(gap: string, tags: seq<Tag>)

  function NoteText(note: Note): string { note.gap + (OPEN + (AllWritten(note.tags) + CLOSE)) }

  predicate IsNote(note: Note) {
    && (forall c | c in note.gap :: IsSpace(c)) && (forall tag | tag in note.tags :: IsPlain(tag))
    && forall k | 0 <= k < |AllWritten(note.tags)| :: !At(AllWritten(note.tags), k, CLOSE)
  }

  function RecordOf(notes: seq<Note>): string {
    if notes == [] then "" else NoteText(notes[0]) + RecordOf(notes[1..])
  }

  function IdsIn(notes: seq<Note>): seq<string> {
    if notes == [] then [] else RealTaskIds(notes[0].tags) + IdsIn(notes[1..])
  }

  function StatusesIn(notes: seq<Note>): seq<(string, string)> {
    if notes == [] then []
    else TaskStatuses(notes[0].tags, DefaultStatus(notes[0].tags)) + StatusesIn(notes[1..])
  }

  lemma ClosesOnlyAtEnd(body: string, post: string)
    requires forall k | 0 <= k < |body| :: !At(body, k, CLOSE)
    ensures forall k | 0 <= k < |body| :: !At(body + (CLOSE + post), k, CLOSE)
  {
    var t := body + (CLOSE + post);
    assert forall i | 1 <= i < |CLOSE| :: CLOSE[i] != '<';
    assert t[|body|] == '<';
    forall k | 0 <= k < |body| ensures !At(t, k, CLOSE) {
      if k + |CLOSE| <= |body| {
        AtFront(body, CLOSE + post, k, CLOSE);
      } else {
        NotAcross(t, k, CLOSE, |body|);
      }
    }
  }

  lemma NotAcross(t: string, i: nat, w: string, p: nat)
    requires i <= p < i + |w| && p < |t| && t[p] != w[p - i]
    ensures !At(t, i, w)
  {
  }

  lemma AtFront(a: string, b: string, n: nat, w: string)
    requires n + |w| <= |a|
    ensures At(a + b, n, w) <==> At(a, n, w)
  {
    var t := a + b;
    assert forall p | n <= p < n + |w| :: t[p] == a[p];
  }

  lemma OpenIsFound(pre: string, gap: string, rest: string)
    requires forall c | c in gap :: IsSpace(c)
    ensures var t := pre + (gap + (OPEN + rest));
            && Find(t, |pre|, OPEN) == Some(|pre| + |gap|)
            && forall k | |pre| <= k < |pre| + |gap| :: IsSpace(t[k])
  {
    hide Find;
    var t := pre + (gap + (OPEN + rest));
    forall k | |pre| <= k < |pre| + |gap| ensures IsSpace(t[k]) && t[k] != '<' {
      assert t[k] == gap[k - |pre|] && gap[k - |pre|] in gap;
    }
    NotBefore(t, |pre|, |pre| + |gap|, OPEN);
    FindIs(t, |pre|, OPEN, |pre| + |gap|);
  }

  lemma FirstClose(body: string, post: string)
    requires forall k | 0 <= k < |body| :: !At(body, k, CLOSE)
    ensures var t := body + (CLOSE + post);
            |body| <= |t| && At(t, |body|, CLOSE) && forall k | 0 <= k < |body| :: !At(t, k, CLOSE)
  {
    hide At;
    ClosesOnlyAtEnd(body, post);
    AtAfter(body, CLOSE, post);
  }

  lemma FoundBehind(front: string, t: string, w: string, n: nat)
    requires n <= |t| && At(t, n, w) && forall k | 0 <= k < n :: !At(t, k, w)
    ensures Find(front + t, |front|, w) == Some(|front| + n)
  {
    hide Find, At;
    forall k | |front| <= k < |front| + n ensures !At(front + t, k, w) {
      AtShifted(front, t, k - |front|, w);
    }
    AtShifted(front, t, n, w);
    FindIs(front + t, |front|, w, |front| + n);
  }

  lemma SliceBehind(a: string, b: string, c: string)
    ensures (a + (b + c))[|a|..|a| + |b|] == b
  {
  }

  lemma AtAfter(a: string, w: string, b: string)
    ensures At(a + (w + b), |a|, w)
  {
    var t := a + (w + b);
    assert forall p | |a| <= p < |a| + |w| :: t[p] == w[p - |a|];
  }

  /** One text, cut in three ways. */
  lemma NoteParts(pre: string, gap: string, open: string, body: string, close: string, post: string)
    ensures var t := pre + ((gap + (open + (body + close))) + post); var inner := pre + gap + open;
            && t == pre + (gap + (open + (body + (close + post)))) && t == inner + (body + (close + post))
            && t == (pre + (gap + (open + (body + close)))) + post
            && |pre + (gap + (open + (body + close)))| == |inner| + |body| + |close|
  {
    var tail := body + (close + post);
    assert (gap + (open + (body + close))) + post == gap + (open + tail);
    assert pre + (gap + (open + tail)) == (pre + gap + open) + tail;
  }

  lemma NoteIsMatched(pre: string, note: Note, post: string)
    requires IsNote(note)
    ensures var t := pre + (NoteText(note) + post); var start := |pre| + |note.gap|;
            && |pre + NoteText(note)| <= |t| && t == (pre + NoteText(note)) + post
            && NextMatch(t, |pre|) == Some(Match(start, |pre + NoteText(note)|, AllWritten(note.tags)))
            && forall k | |pre| <= k < start :: IsSpace(t[k])
  {
    hide Find, At, AllWritten, IsPlain, OPEN, CLOSE;
    var body := AllWritten(note.tags);
    NoteParts(pre, note.gap, OPEN, body, CLOSE, post);
    OpenIsFound(pre, note.gap, body + (CLOSE + post));
    FirstClose(body, post);
    FoundBehind(pre + note.gap + OPEN, body + (CLOSE + post), CLOSE, |body|);
    SliceBehind(pre + note.gap + OPEN, body, CLOSE + post);
  }

  /** From `i` on, nothing but white space comes before each of the notifications. */
  predicate BlankBetween(t: string, i: nat, matches: seq<Match>)
    decreases |matches|
  {
    matches == [] || (
      && i <= matches[0].start <= matches[0].end <= |t|
      && (forall k | i <= k < matches[0].start :: IsSpace(t[k]))
      && BlankBetween(t, matches[0].end, matches[1..]))
  }

  function Bodies(matches: seq<Match>): seq<string> {
    seq(|matches|, i requires 0 <= i < |matches| => matches[i].body)
  }

  function BodiesOf(notes: seq<Note>): seq<string> {
    seq(|notes|, i requires 0 <= i < |notes| => AllWritten(notes[i].tags))
  }

  lemma {:induction false} NotesAreMatched(pre: string, notes: seq<Note>, tail: string)
    requires (forall note | note in notes :: IsNote(note)) && forall k: nat :: !At(tail, k, OPEN)
    ensures var t := pre + (RecordOf(notes) + tail);
            && BlankBetween(t, |pre|, Matches(t, |pre|)) && Bodies(Matches(t, |pre|)) == BodiesOf(notes)
    decreases |notes|
  {
    hide At, IsNote, NoteText, NextMatch, AllWritten;
    var t := pre + (RecordOf(notes) + tail);
    if notes == [] {
      assert t == pre + tail;
      forall k: nat | |pre| <= k ensures !At(t, k, OPEN) {
        AtShifted(pre, tail, k - |pre|, OPEN);
      }
      NothingIsMatched(t, |pre|);
    } else {
      var next := pre + NoteText(notes[0]);
      var more := RecordOf(notes[1..]) + tail;
      assert t == pre + (NoteText(notes[0]) + more);
      NoteIsMatched(pre, notes[0], more);
      NotesAreMatched(next, notes[1..], tail);
      var m := NextMatch(t, |pre|).value;
      assert Matches(t, |pre|) == [m] + Matches(t, m.end);
      assert Bodies(Matches(t, |pre|)) == [m.body] + Bodies(Matches(t, m.end));
      assert BodiesOf(notes) == [AllWritten(notes[0].tags)] + BodiesOf(notes[1..]);
    }
  }

  lemma NothingIsMatched(t: string, i: nat)
    requires i <= |t| && forall k: nat | i <= k :: !At(t, k, OPEN)
    ensures Matches(t, i) == []
  {
    hide At;
  }

  lemma {:induction false} GapsAreBlank(t: string, i: nat, matches: seq<Match>, k: nat)
    requires BlankBetween(t, i, matches) && k < |matches|
    ensures var from := if k == 0 then i else matches[k - 1].end;
            from <= matches[k].start <= |t| && forall p | from <= p < matches[k].start :: IsSpace(t[p])
    decreases |matches|
  {
    if k > 0 {
      GapsAreBlank(t, matches[0].end, matches[1..], k - 1);
    }
  }

  lemma {:induction false} SpacesStripToNothing(s: string)
    requires forall c | c in s :: IsSpace(c)
    ensures StripLeft(s, IsSpace) == "" && Blank(s)
  {
    if s != "" {
      SpacesStripToNothing(s[1..]);
    }
  }

  lemma AllLead(t: string)
    requires BlankBetween(t, 0, Matches(t, 0))
    ensures Leading(t) == Matches(t, 0)
  {
    hide Matches, Blank, BlankBetween;
    var all := Matches(t, 0);
    MatchesAreOrdered(t, 0);
    forall k | 0 <= k < |all| ensures Blank(Gap(t, all, k)) {
      GapsAreBlank(t, 0, all, k);
      var gap := Gap(t, all, k);
      forall c | c in gap ensures IsSpace(c) {
        var p :| 0 <= p < |gap| && gap[p] == c;
      }
      SpacesStripToNothing(gap);
    }
    LeadingFromIsRun(t, all, 0);
    LeadingRunIsUnique(t, all, Leading(t), all);
  }

  lemma {:induction false} BodiesDecide(matches: seq<Match>, notes: seq<Note>)
    requires (forall note | note in notes :: IsNote(note)) && Bodies(matches) == BodiesOf(notes)
    ensures IdsOf(matches) == IdsIn(notes) && StatusesOf(matches) == StatusesIn(notes)
    decreases |notes|
  {
    hide AllWritten, IsNote, RealTaskIds, TaskStatuses, DefaultStatus, Tags;
    assert |matches| == |Bodies(matches)| == |BodiesOf(notes)| == |notes|;
    if notes != [] {
      assert matches[0].body == Bodies(matches)[0] == BodiesOf(notes)[0];
      assert notes[0] in notes;
      NoteFields(notes[0]);
      assert Bodies(matches[1..]) == Bodies(matches)[1..] && BodiesOf(notes[1..]) == BodiesOf(notes)[1..];
      BodiesDecide(matches[1..], notes[1..]);
    }
  }

  lemma NoteFields(note: Note)
    requires IsNote(note)
    ensures Tags(AllWritten(note.tags), 0) == note.tags
  {
    hide AllWritten, At, IsPlain;
    FieldsAreReadBack("", note.tags);
    assert "" + AllWritten(note.tags) == AllWritten(note.tags);
  }

  lemma {:induction false} StripsToRest(gap: string, rest: string)
    requires (forall c | c in gap :: IsSpace(c)) && rest != "" && !IsSpace(rest[0])
    ensures StripLeft(gap + rest, IsSpace) == rest
  {
    if gap == "" {
      assert gap + rest == rest;
    } else {
      assert (gap + rest)[0] == gap[0] && (gap + rest)[1..] == gap[1..] + rest;
      StripsToRest(gap[1..], rest);
    }
  }

  lemma RecordOpens(note: Note, post: string)
    requires IsNote(note)
    ensures OpensNotification(NoteText(note) + post)
  {
    hide AllWritten, At, IsPlain;
    var rest := OPEN + (AllWritten(note.tags) + CLOSE + post);
    assert OPEN == "<task-notification" + ">";
    assert NoteText(note) + post == note.gap + rest;
    StripsToRest(note.gap, rest);
    assert rest[..18] == "<task-notification" && rest[18] == '>';
  }

  /** A record of notifications, white space before each, is read back whole: the ids and the statuses
      are those of the fields of the first, then of the second, and so on; and what follows them does
      not count. */
  lemma RecordIsReadBack(notes: seq<Note>, tail: string)
    requires notes != [] && (forall note | note in notes :: IsNote(note)) && forall k: nat :: !At(tail, k, OPEN)
    ensures NotificationTaskIds(RecordOf(notes) + tail) == IdsIn(notes)
    ensures NotificationTaskStatuses(RecordOf(notes) + tail) == StatusesIn(notes)
  {
    hide At, IsNote, NoteText, OpensNotification, Leading, Matches, BlankBetween, RecordOf, IdsOf, StatusesOf, IdsIn,
         StatusesIn;
    var t := RecordOf(notes) + tail;
    NotesAreMatched("", notes, tail);
    assert "" + t == t;
    AllLead(t);
    BodiesDecide(Matches(t, 0), notes);
    RecordHead(notes, tail);
    assert notes[0] in notes;
    RecordOpens(notes[0], RecordOf(notes[1..]) + tail);
  }

  lemma RecordHead(notes: seq<Note>, tail: string)
    requires notes != []
    ensures RecordOf(notes) + tail == NoteText(notes[0]) + (RecordOf(notes[1..]) + tail)
  {
    hide NoteText;
  }

  // ---- the context capsule ----

  const CONTEXT_BEGIN := "[CIAO_CONTEXT_BEGIN]\n"
  const CONTEXT_END := "\n[CIAO_CONTEXT_END]\n\n"

  /** What is left after one leading capsule, or the text itself. */
  function WithoutCapsule(t: string): (r: string)
    ensures r == t || |r| < |t|
  {
    if !At(t, 0, CONTEXT_BEGIN) then t
    else
      match Find(t, |CONTEXT_BEGIN|, CONTEXT_END)
      case None => t
      case Some(end) => t[end + |CONTEXT_END|..]
  }

  /** What is left when no capsule leads any more. */
  function WithoutCapsules(t: string): (r: string)
    ensures |r| <= |t| && WithoutCapsule(r) == r
    decreases |t|
  {
    if WithoutCapsule(t) == t then t else WithoutCapsules(WithoutCapsule(t))
  }

  function StrippedContext(t: string): string { Or(WithoutCapsules(t), t) }

  method StripInjectedContext(content: string) returns (r: string)
    ensures r == StrippedContext(content)
  {
    var stripped := content;
    while true
      invariant WithoutCapsules(stripped) == WithoutCapsules(content)
      decreases |stripped|
    {
      var next := WithoutCapsule(stripped);
      if next == stripped {
        break;
      }
      stripped := next;
    }
    r := if stripped != "" then stripped else content;
  }

  /** A capsule at the start goes up to its first end mark; a text without one at its start stays;
      and capsules go one after another. */
  lemma CapsulesGo(inside: string, rest: string)
    requires forall k | 0 <= k < |inside| ::
               !At(inside + "\n[CIAO_CONTEXT_END]\n\n" + rest, k, "\n[CIAO_CONTEXT_END]\n\n")
    ensures var t := "[CIAO_CONTEXT_BEGIN]\n" + (inside + "\n[CIAO_CONTEXT_END]\n\n" + rest);
            && WithoutCapsule(t) == rest && WithoutCapsules(t) == WithoutCapsules(rest)
    ensures !("[CIAO_CONTEXT_BEGIN]\n" <= rest) ==> WithoutCapsule(rest) == rest && WithoutCapsules(rest) == rest
  {
    hide Find;
    var tail := inside + CONTEXT_END + rest;
    var t := CONTEXT_BEGIN + tail;
    var at := |CONTEXT_BEGIN| + |inside|;
    assert At(t, 0, CONTEXT_BEGIN);
    assert At(t, at, CONTEXT_END);
    forall k | |CONTEXT_BEGIN| <= k < at ensures !At(t, k, CONTEXT_END) {
      AtShifted(CONTEXT_BEGIN, tail, k - |CONTEXT_BEGIN|, CONTEXT_END);
      assert !At(tail, k - |CONTEXT_BEGIN|, CONTEXT_END);
    }
    FindIs(t, |CONTEXT_BEGIN|, CONTEXT_END, at);
    assert t[at + |CONTEXT_END|..] == rest;
    assert |rest| < |t|;
    if At(rest, 0, CONTEXT_BEGIN) {
      assert CONTEXT_BEGIN <= rest;
    }
  }

  lemma AtShifted(u: string, v: string, i: nat, w: string)
    ensures At(u + v, |u| + i, w) <==> At(v, i, w)
  {
    var t := u + v;
    assert forall p | i <= p < i + |w| && i + |w| <= |v| :: t[|u| + p] == v[p];
    if At(t, |u| + i, w) {
      forall p | i <= p < i + |w| ensures v[p] == w[p - i] {
        assert t[|u| + p] == w[p - i];
      }
    }
  }

  /** Stripping twice is stripping once, and a record of capsules alone is left as it is. */
  lemma StrippingIsIdempotent(t: string)
    ensures StrippedContext(StrippedContext(t)) == StrippedContext(t)
    ensures WithoutCapsule(StrippedContext(t)) == StrippedContext(t) <==> WithoutCapsules(t) != "" || t == ""
  {
  }
}
