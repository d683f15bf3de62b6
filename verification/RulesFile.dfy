/** The rules file: finding its fence, and splicing a managed section between the markers of
    a text that belongs to the operator. */
module RulesFile {
  import opened Basics
  import opened PyText
  import opened RulesFence

  // ---- every marker of a text ----

  datatype Span = Span(start: nat, mark: Mark)

  /** The markers from `i` on, none overlapping another. */
  function Scan(kind: Kind, t: string, i: nat): seq<Span>
    requires i <= |t|
    decreases |t| - i
  {
    if i == |t| then []
    else
      match Here(MARKER, kind, t, i)
      case Some(m) => assert MARKER.head != ""; [Span(i, m)] + Scan(kind, t, m.end)
      case None => Scan(kind, t, i + 1)
  }

  datatype Fence = NoFence | Malformed | Fence(open: Span, close: Span)

  function Parse(t: string): Fence {
    var opens, closes := Scan(Opening, t, 0), Scan(Closing, t, 0);
    if opens == [] && closes == [] then NoFence
    else if |opens| != 1 || |closes| != 1 || closes[0].start < opens[0].mark.end then Malformed
    else Fence(opens[0], closes[0])
  }

  /** No marker of a kind starts in `t` from `i` up to `j`. */
  ghost predicate Clear(kind: Kind, t: string, i: nat, j: nat)
    requires j <= |t|
  {
    forall k | i <= k < j :: Here(MARKER, kind, t, k).None?
  }

  lemma {:induction false} ScanSkips(kind: Kind, t: string, i: nat, j: nat)
    requires i <= j <= |t| && Clear(kind, t, i, j)
    ensures Scan(kind, t, i) == Scan(kind, t, j)
    decreases j - i
  {
    hide Here;
    if i < j {
      ScanSkips(kind, t, i + 1, j);
    }
  }

  lemma NoMarkerAtEnd(kind: Kind, t: string)
    ensures Scan(kind, t, |t|) == []
  {
  }

  lemma ScanOne(kind: Kind, t: string, p: nat, m: Mark)
    requires p < |t| && Here(MARKER, kind, t, p) == Some(m)
    requires Clear(kind, t, 0, p) && Clear(kind, t, m.end, |t|)
    ensures Scan(kind, t, 0) == [Span(p, m)]
  {
    hide Here;
    ScanSkips(kind, t, 0, p);
    ScanSkips(kind, t, m.end, |t|);
    NoMarkerAtEnd(kind, t);
  }

  lemma {:induction false} ScannedNone(kind: Kind, t: string, i: nat)
    requires i <= |t| && Scan(kind, t, i) == []
    ensures Clear(kind, t, i, |t|)
    decreases |t| - i
  {
    hide Here;
    if i < |t| {
      ScannedNone(kind, t, i + 1);
    }
  }

  lemma {:induction false} ScannedOne(kind: Kind, t: string, i: nat, s: Span)
    requires i <= |t| && Scan(kind, t, i) == [s]
    ensures i <= s.start < |t| && s.mark.end <= |t| && Here(MARKER, kind, t, s.start) == Some(s.mark)
    ensures Clear(kind, t, i, s.start) && Clear(kind, t, s.mark.end, |t|)
    decreases |t| - i
  {
    hide Here;
    match Here(MARKER, kind, t, i)
    case Some(m) =>
      var rest := Scan(kind, t, m.end);
      assert Scan(kind, t, i) == [Span(i, m)] + rest;
      assert |[Span(i, m)] + rest| == 1 && ([Span(i, m)] + rest)[0] == Span(i, m);
      ScannedNone(kind, t, m.end);
    case None => ScannedOne(kind, t, i + 1, s);
  }

  // ---- what parsing means ----

  lemma StartsOpen(kind: Kind, t: string, k: nat)
    requires k <= |t| && Here(MARKER, kind, t, k).Some?
    ensures k < |t| && t[k] == '<'
  {
    hide Here;
    MarkerIsSensible();
    var n := HereFacts(MARKER, kind, t, k);
  }

  /** A marker cannot reach past a `<`. */
  lemma StopsAtOpen(kind: Kind, t: string, k: nat, p: nat)
    requires k < p < |t| && t[p] == '<' && Here(MARKER, kind, t, k).Some?
    ensures Here(MARKER, kind, t, k).value.end <= p
  {
    hide Here;
    MarkerIsSensible();
    var n := HereFacts(MARKER, kind, t, k);
  }

  /** The text has this marker of the kind and no other. */
  ghost predicate Only(kind: Kind, t: string, s: Span) {
    && s.start < |t| && Here(MARKER, kind, t, s.start) == Some(s.mark)
    && forall k: nat | k < |t| && k != s.start :: Here(MARKER, kind, t, k).None?
  }

  lemma OnlyIsScanned(kind: Kind, t: string, s: Span)
    ensures Scan(kind, t, 0) == [s] <==> Only(kind, t, s)
  {
    hide Here, Scan;
    if Scan(kind, t, 0) == [s] {
      ScannedOne(kind, t, 0, s);
      forall k: nat | s.start < k < s.mark.end ensures Here(MARKER, kind, t, k).None? {
        if Here(MARKER, kind, t, k).Some? {
          StartsOpen(kind, t, k);
          StopsAtOpen(kind, t, s.start, k);
        }
      }
    } else if Only(kind, t, s) {
      MarkerIsSensible();
      var n := HereFacts(MARKER, kind, t, s.start);
      ScanOne(kind, t, s.start, s.mark);
    }
  }

  lemma NoneIsScanned(kind: Kind, t: string)
    ensures Scan(kind, t, 0) == [] <==> Clear(kind, t, 0, |t|)
  {
    hide Here;
    if Scan(kind, t, 0) == [] {
      ScannedNone(kind, t, 0);
    } else if Clear(kind, t, 0, |t|) {
      ScanSkips(kind, t, 0, |t|);
      NoMarkerAtEnd(kind, t);
    }
  }

  /** A text has a fence exactly when it has one opening marker, one closing marker and the one ends
      before the other starts; it has none exactly when no marker stands in it. */
  lemma FenceIsWhole(t: string, open: Span, close: Span)
    ensures Parse(t) == Fence(open, close) <==>
            Only(Opening, t, open) && Only(Closing, t, close) && open.mark.end <= close.start
    ensures Parse(t).NoFence? <==>
            forall k | 0 <= k < |t| :: Here(MARKER, Opening, t, k).None? && Here(MARKER, Closing, t, k).None?
  {
    hide Here, Scan, Only;
    OnlyIsScanned(Opening, t, open);
    OnlyIsScanned(Closing, t, close);
    NoneIsScanned(Opening, t);
    NoneIsScanned(Closing, t);
  }

  // ---- the markers as they are written ----

  function OpenMarker(source: string): string { "<!-- ciao:rules:start source=" + source + " -->" }

  const CLOSE_MARKER := "<!-- ciao:rules:end -->"

  const OPEN_LEN := 49

  const CLOSE_LEN := 23

  lemma {:induction false} NoSpaces(t: string, i: nat)
    requires i < |t| && !IsSpace(t[i])
    ensures Spaces(t, i) == i
  {
  }

  lemma OneSpace(t: string, i: nat)
    requires i + 1 < |t| && IsSpace(t[i]) && !IsSpace(t[i + 1])
    ensures Spaces(t, i) == i + 1
  {
    NoSpaces(t, i + 1);
  }

  lemma AtPart(a: string, w: string, b: string)
    ensures At(a + w + b, |a|, w)
  {
  }

  lemma OpenMarkerTail(source: string)
    requires IsSource(source)
    ensures var t := OpenMarker(source);
            |t| == OPEN_LEN && SourceAt(t, 29) && t[29..45] == source && Tail(MARKER, t, 45) == Some(49)
  {
    var head := "<!-- ciao:rules:start source=";
    var t := OpenMarker(source);
    assert |head| == 29;
    assert t == head + source + " -->";
    forall p | 29 <= p < 45 ensures IsHex(t[p]) {
      assert t[p] == source[p - 29] && source[p - 29] in source;
    }
    assert t[45] == ' ' && t[46] == '-';
    OneSpace(t, 45);
    AtPart(head + source + " ", "-->", "");
    assert head + source + " " + "-->" + "" == t;
  }

  predicate IsSource(source: string) { |source| == SOURCE_LEN && forall c | c in source :: IsHex(c) }

  lemma OpenMarkerRest(source: string)
    requires IsSource(source)
    ensures OpeningRest(MARKER, OpenMarker(source), 21) == Some(Mark(OPEN_LEN, source))
  {
    var t := OpenMarker(source);
    OpenMarkerTail(source);
    assert t[21] == ' ' && t[22] == 's';
    OneSpace(t, 21);
    assert t == "<!-- ciao:rules:start " + "source=" + (source + " -->");
    AtPart("<!-- ciao:rules:start ", "source=", source + " -->");
    assert Named(MARKER, t, 21) == Some(29);
  }

  /** The marker that a write puts down is recognised, as an opening one and nothing else. */
  lemma OpenMarkerHere(source: string)
    requires IsSource(source)
    ensures |OpenMarker(source)| == OPEN_LEN
    ensures Here(MARKER, Opening, OpenMarker(source), 0) == Some(Mark(OPEN_LEN, source))
    ensures forall rest: string :: Here(MARKER, Closing, OpenMarker(source) + rest, 0).None?
  {
    var t := OpenMarker(source);
    OpenMarkerTail(source);
    OpenMarkerRest(source);
    OpenMarkerBegins(source);
    HereBegins(MARKER, Opening, t, 0);
    forall rest: string ensures Here(MARKER, Closing, t + rest, 0).None? {
      OpenMarkerDoesNotClose(source, rest);
    }
  }

  const LEAD := "<!-- ciao:rules:"

  lemma LeadBegins(rest: string)
    ensures Begins(MARKER, LEAD + rest, 0, 5)
  {
    hide AfterName;
    var t := LEAD + rest;
    assert t[4] == ' ' && t[5] == 'c';
    assert At(t, 0, MARKER.head) by {
      AtPart("", "<!--", " ciao:rules:" + rest);
      assert t == "" + "<!--" + (" ciao:rules:" + rest);
    }
    assert Spaces(t, 4) == 5 by { OneSpace(t, 4); }
    assert At(t, 5, MARKER.name) by {
      AtPart("<!-- ", "ciao:rules:", rest);
      assert t == "<!-- " + "ciao:rules:" + rest;
    }
  }

  lemma OpenMarkerBegins(source: string)
    requires IsSource(source)
    ensures Begins(MARKER, OpenMarker(source), 0, 5)
    ensures AfterName(MARKER, Opening, OpenMarker(source), 16) == OpeningRest(MARKER, OpenMarker(source), 21)
  {
    hide OpeningRest;
    var t := OpenMarker(source);
    var rest := " source=" + source + " -->";
    assert t == LEAD + ("start" + rest);
    LeadBegins("start" + rest);
    assert At(t, 16, MARKER.starts) by {
      AtPart(LEAD, "start", rest);
      assert t == LEAD + "start" + rest;
    }
  }

  lemma OpenMarkerDoesNotClose(source: string, rest: string)
    requires IsSource(source)
    ensures Here(MARKER, Closing, OpenMarker(source) + rest, 0).None?
  {
    var t := OpenMarker(source);
    var u := t + rest;
    OpenMarkerTail(source);
    OpenMarkerBegins(source);
    assert Agree(t, u, OPEN_LEN);
    MarkerIsSensible();
    SameBegin(MARKER, t, u, 0, 5, 17);
    HereBegins(MARKER, Closing, u, 0);
    assert u[16] == t[16] == 's' && "end"[0] == 'e';
  }

  lemma CloseMarkerTail()
    ensures |CLOSE_MARKER| == CLOSE_LEN && Tail(MARKER, CLOSE_MARKER, 19) == Some(CLOSE_LEN)
  {
    var t := CLOSE_MARKER;
    assert t[19] == ' ' && t[20] == '-';
    OneSpace(t, 19);
    AtPart("<!-- ciao:rules:end ", "-->", "");
    assert t == "<!-- ciao:rules:end " + "-->" + "";
  }

  lemma CloseMarkerBegins()
    ensures Begins(MARKER, CLOSE_MARKER, 0, 5)
    ensures AfterName(MARKER, Closing, CLOSE_MARKER, 16) == Some(Mark(CLOSE_LEN, ""))
  {
    hide Tail;
    var t := CLOSE_MARKER;
    assert t == LEAD + "end -->";
    LeadBegins("end -->");
    CloseMarkerTail();
    assert At(t, 16, MARKER.ends) by {
      AtPart(LEAD, "end", " -->");
      assert t == LEAD + "end" + " -->";
    }
  }

  lemma CloseMarkerHere()
    ensures |CLOSE_MARKER| == CLOSE_LEN
    ensures Here(MARKER, Closing, CLOSE_MARKER, 0) == Some(Mark(CLOSE_LEN, ""))
    ensures forall rest: string :: Here(MARKER, Opening, CLOSE_MARKER + rest, 0).None?
  {
    CloseMarkerBegins();
    HereBegins(MARKER, Closing, CLOSE_MARKER, 0);
    MarkerIsSensible();
    forall rest: string ensures Here(MARKER, Opening, CLOSE_MARKER + rest, 0).None? {
      var u := CLOSE_MARKER + rest;
      assert Agree(CLOSE_MARKER, u, CLOSE_LEN);
      SameBegin(MARKER, CLOSE_MARKER, u, 0, 5, 17);
      HereBegins(MARKER, Opening, u, 0);
      assert u[16] == 'e' && "start"[0] == 's';
    }
  }

  // ---- which parts of a text hold a marker ----

  lemma ClearBefore(kind: Kind, pre: string, rest: string)
    requires Clear(kind, pre, 0, |pre|) && rest != "" && rest[0] == '<'
    ensures Clear(kind, pre + rest, 0, |pre|)
  {
    hide Here;
    var t := pre + rest;
    MarkerIsSensible();
    forall k | 0 <= k < |pre| ensures Here(MARKER, kind, t, k).None? {
      if Here(MARKER, kind, t, k).Some? {
        var m := Here(MARKER, kind, t, k).value;
        StopsAtOpen(kind, t, k, |pre|);
        SameHere(MARKER, kind, t, pre, k, m);
      }
    }
  }

  /** The part before a marker is clear on its own. */
  lemma ClearPrefix(kind: Kind, t: string, p: nat)
    requires p <= |t| && Clear(kind, t, 0, p)
    ensures Clear(kind, t[..p], 0, p)
  {
    hide Here;
    MarkerIsSensible();
    forall k | 0 <= k < p ensures Here(MARKER, kind, t[..p], k).None? {
      if Here(MARKER, kind, t[..p], k).Some? {
        var m := Here(MARKER, kind, t[..p], k).value;
        assert m.end <= p by { var n := HereFacts(MARKER, kind, t[..p], k); }
        SameHere(MARKER, kind, t[..p], t, k, m);
      }
    }
  }

  lemma ClearInside(kind: Kind, t: string, i: nat, j: nat)
    requires i <= j <= |t| && NoOpen(t, i, j)
    ensures Clear(kind, t, i, j)
  {
    hide Here;
    forall k | i <= k < j ensures Here(MARKER, kind, t, k).None? {
      if Here(MARKER, kind, t, k).Some? {
        StartsOpen(kind, t, k);
      }
    }
  }

  ghost predicate NoName(t: string, i: nat, j: nat) {
    forall n: nat :: i <= n && n + 11 <= j ==> !At(t, n, MARKER.name)
  }

  lemma HasName(kind: Kind, t: string, k: nat) returns (n: nat)
    requires k <= |t| && Here(MARKER, kind, t, k).Some?
    ensures k < n && n + 11 <= Here(MARKER, kind, t, k).value.end && At(t, n, MARKER.name)
  {
    hide Here, AfterName;
    MarkerIsSensible();
    n := HereFacts(MARKER, kind, t, k);
  }

  lemma ClearBody(kind: Kind, t: string, i: nat, j: nat)
    requires i <= j < |t| && t[j] == '<' && NoName(t, i, j)
    ensures Clear(kind, t, i, j)
  {
    hide Here;
    forall k | i <= k < j ensures Here(MARKER, kind, t, k).None? {
      if Here(MARKER, kind, t, k).Some? {
        StopsAtOpen(kind, t, k, j);
        var n := HasName(kind, t, k);
      }
    }
  }

  lemma ClearMoved(kind: Kind, u: string, v: string, i: nat, j: nat)
    requires i <= j <= |v|
    ensures Clear(kind, v, i, j) <==> Clear(kind, u + v, |u| + i, |u| + j)
  {
    hide Here;
    var t := u + v;
    if Clear(kind, v, i, j) {
      forall k | |u| + i <= k < |u| + j ensures Here(MARKER, kind, t, k).None? {
        MovedHere(MARKER, kind, u, v, k - |u|);
      }
    }
    if Clear(kind, t, |u| + i, |u| + j) {
      forall k | i <= k < j ensures Here(MARKER, kind, v, k).None? {
        MovedHere(MARKER, kind, u, v, k);
        assert Here(MARKER, kind, t, |u| + k).None?;
      }
    }
  }

  lemma ClearJoin(kind: Kind, t: string, i: nat, m: nat, j: nat)
    requires i <= m <= j <= |t| && Clear(kind, t, i, m) && Clear(kind, t, m, j)
    ensures Clear(kind, t, i, j)
  {
  }

  // ---- a section between its markers ----

  /** A text around a managed section, `mid` reaching from one marker to the other. */
  function Spliced(pre: string, source: string, mid: string, post: string): string {
    pre + (OpenMarker(source) + (mid + (CLOSE_MARKER + post)))
  }

  ghost predicate Unmarked(t: string) { Clear(Opening, t, 0, |t|) && Clear(Closing, t, 0, |t|) }

  ghost predicate Nameless(mid: string) { NoName(mid, 0, |mid|) }

  /** A marker that a text starts with, wherever the text stands. */
  lemma HereMoved(kind: Kind, u: string, marker: string, rest: string, source: string)
    requires Here(MARKER, kind, marker, 0) == Some(Mark(|marker|, source))
    ensures Here(MARKER, kind, u + (marker + rest), |u|) == Some(Mark(|u| + |marker|, source))
  {
    hide Here;
    MarkerIsSensible();
    SameHere(MARKER, kind, marker, marker + rest, 0, Mark(|marker|, source));
    MovedHere(MARKER, kind, u, marker + rest, 0);
  }

  /** From the closing marker on. */
  lemma ClosePart(kind: Kind, u: string, post: string)
    requires Unmarked(post)
    ensures var t := u + (CLOSE_MARKER + post); var c := |u|;
            && Clear(kind, t, c + 1, |t|) && c + CLOSE_LEN <= |t|
            && Here(MARKER, Closing, t, c) == Some(Mark(c + CLOSE_LEN, "")) && Here(MARKER, Opening, t, c).None?
  {
    hide Here;
    var v := CLOSE_MARKER + post;
    var t := u + v;
    CloseMarkerHere();
    HereMoved(Closing, u, CLOSE_MARKER, post, "");
    MovedHere(MARKER, Opening, u, v, 0);
    assert NoOpen(v, 1, CLOSE_LEN) by { CloseIsOne(); }
    ClearInside(kind, v, 1, CLOSE_LEN);
    ClearMoved(kind, CLOSE_MARKER, post, 0, |post|);
    ClearJoin(kind, v, 1, CLOSE_LEN, |v|);
    ClearMoved(kind, u, v, 1, |v|);
  }

  lemma CloseIsOne()
    ensures |CLOSE_MARKER| == CLOSE_LEN && CLOSE_MARKER[0] == '<' && NoOpen(CLOSE_MARKER, 1, CLOSE_LEN)
  {
    hide Here;
    MarkerIsSensible();
    CloseMarkerHere();
    var n := HereFacts(MARKER, Closing, CLOSE_MARKER, 0);
  }

  lemma OpenIsOne(source: string)
    requires IsSource(source)
    ensures |OpenMarker(source)| == OPEN_LEN && OpenMarker(source)[0] == '<' && NoOpen(OpenMarker(source), 1, OPEN_LEN)
  {
    hide Here;
    MarkerIsSensible();
    OpenMarkerHere(source);
    var n := HereFacts(MARKER, Opening, OpenMarker(source), 0);
  }

  lemma AtFront(mid: string, rest: string, n: nat, w: string)
    requires n + |w| <= |mid|
    ensures At(mid + rest, n, w) <==> At(mid, n, w)
  {
    var v := mid + rest;
    assert forall p | n <= p < n + |w| :: v[p] == mid[p];
  }

  lemma BodyPart(kind: Kind, u: string, mid: string, rest: string)
    requires Nameless(mid) && rest != "" && rest[0] == '<'
    ensures Clear(kind, u + (mid + rest), |u|, |u| + |mid|)
  {
    hide Here;
    var v := mid + rest;
    assert NoName(v, 0, |mid|) by {
      forall n: nat | n + 11 <= |mid| ensures !At(v, n, MARKER.name) {
        assert !At(mid, n, MARKER.name);
        AtFront(mid, rest, n, MARKER.name);
      }
    }
    ClearBody(kind, v, 0, |mid|);
    ClearMoved(kind, u, v, 0, |mid|);
  }

  /** A spliced section is found again: one opening marker, one closing marker after it. */
  lemma SplicedParses(pre: string, source: string, mid: string, post: string)
    requires IsSource(source) && Unmarked(pre) && Unmarked(post) && Nameless(mid)
    ensures Parse(Spliced(pre, source, mid, post)) ==
            Fence(Span(|pre|, Mark(|pre| + OPEN_LEN, source)),
                  Span(|pre| + OPEN_LEN + |mid|, Mark(|pre| + OPEN_LEN + |mid| + CLOSE_LEN, "")))
  {
    hide Here;
    var t := Spliced(pre, source, mid, post);
    var o, c := |pre|, |pre| + OPEN_LEN + |mid|;
    OpenMarkerHere(source);
    OpenPart(pre, source, mid, post);
    MiddlePart(Opening, pre, source, mid, post);
    MiddlePart(Closing, pre, source, mid, post);
    ClearJoin(Closing, t, 0, o + OPEN_LEN, c);
    ClearJoin(Opening, t, o + OPEN_LEN, c, c + 1);
    ClearJoin(Opening, t, o + OPEN_LEN, c + 1, |t|);
    ScanOne(Opening, t, o, Mark(o + OPEN_LEN, source));
    ScanOne(Closing, t, c, Mark(c + CLOSE_LEN, ""));
  }

  /** Up to the end of the opening marker. */
  lemma OpenPart(pre: string, source: string, mid: string, post: string)
    requires IsSource(source) && Unmarked(pre)
    ensures var t := Spliced(pre, source, mid, post); var o := |pre|;
            && o + OPEN_LEN <= |t| && Clear(Opening, t, 0, o)
            && Here(MARKER, Opening, t, o) == Some(Mark(o + OPEN_LEN, source)) && Here(MARKER, Closing, t, o).None?
            && Clear(Closing, t, 0, o + OPEN_LEN)
  {
    hide Here;
    var rest := mid + (CLOSE_MARKER + post);
    var v := OpenMarker(source) + rest;
    OpenIsOne(source);
    OpenMarkerHere(source);
    ClearBefore(Opening, pre, v);
    ClearBefore(Closing, pre, v);
    HereMoved(Opening, pre, OpenMarker(source), rest, source);
    MovedHere(MARKER, Closing, pre, v, 0);
    ClearInside(Opening, v, 1, OPEN_LEN);
    ClearInside(Closing, v, 1, OPEN_LEN);
    ClearMoved(Opening, pre, v, 1, OPEN_LEN);
    ClearMoved(Closing, pre, v, 1, OPEN_LEN);
  }

  /** The body and the closing marker. */
  lemma MiddlePart(kind: Kind, pre: string, source: string, mid: string, post: string)
    requires IsSource(source) && Nameless(mid) && Unmarked(post)
    ensures var t := Spliced(pre, source, mid, post); var b, c := |pre| + OPEN_LEN, |pre| + OPEN_LEN + |mid|;
            && c + CLOSE_LEN <= |t| && Clear(kind, t, b, c) && Clear(kind, t, c + 1, |t|)
            && Here(MARKER, Closing, t, c) == Some(Mark(c + CLOSE_LEN, "")) && Here(MARKER, Opening, t, c).None?
  {
    hide Here;
    var front := pre + OpenMarker(source);
    OpenIsOne(source);
    CloseIsOne();
    BodyPart(kind, front, mid, CLOSE_MARKER + post);
    ClosePart(kind, front + mid, post);
    assert Spliced(pre, source, mid, post) == front + (mid + (CLOSE_MARKER + post));
    assert front + (mid + (CLOSE_MARKER + post)) == front + mid + (CLOSE_MARKER + post);
  }
}
