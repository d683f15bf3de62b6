/** The marker pair around the managed section of a rules file: how a marker is recognised,
    and which characters of the text that depends on. */
module RulesFence {
  import opened Basics
  import opened PyText

  datatype Kind = Opening | Closing

  /** Where a marker ends, and the fingerprint that an opening one names. */
  datatype Mark = Mark(end: nat, source: string)

  /** The literal parts of a marker. */
  datatype Words = Words(head: string, name: string, starts: string, ends: string, source: string, tail: string)

  const MARKER := Words("<!--", "ciao:rules:", "start", "end", "source=", "-->")

  /** The end of the white space from `i` on. */
  function Spaces(t: string, i: nat): (n: nat)
    requires i <= |t|
    ensures i <= n <= |t|
    decreases |t| - i
  {
    if i < |t| && IsSpace(t[i]) then Spaces(t, i + 1) else i
  }

  predicate IsHex(c: char) { '0' <= c <= '9' || 'a' <= c <= 'f' }

  const SOURCE_LEN := 16

  /** A fingerprint stands in `t` at `i`. */
  predicate SourceAt(t: string, i: nat) {
    i + SOURCE_LEN <= |t| && forall p | i <= p < i + SOURCE_LEN :: IsHex(t[p])
  }

  /** The end of a comment after optional space. */
  function Tail(x: Words, t: string, i: nat): (r: Option<nat>)
    requires i <= |t|
    ensures r.Some? ==> i <= r.value <= |t|
  {
    var n := Spaces(t, i);
    if At(t, n, x.tail) then Some(n + |x.tail|) else None
  }

  /** Where a fingerprint begins that is named after at least one space. */
  function Named(x: Words, t: string, i: nat): (r: Option<nat>)
    requires i <= |t|
    ensures r.Some? ==> i <= r.value && r.value + SOURCE_LEN <= |t|
  {
    var n := Spaces(t, i);
    if n > i && At(t, n, x.source) && SourceAt(t, n + |x.source|) then Some(n + |x.source|) else None
  }

  function OpeningRest(x: Words, t: string, i: nat): (r: Option<Mark>)
    requires i <= |t|
    ensures r.Some? ==> i <= r.value.end <= |t|
  {
    match Named(x, t, i)
    case Some(n) =>
      (match Tail(x, t, n + SOURCE_LEN)
       case Some(end) => Some(Mark(end, t[n..n + SOURCE_LEN]))
       case None => None)
    case None =>
      match Tail(x, t, i) case Some(end) => Some(Mark(end, "")) case None => None
  }

  /** What follows the name. */
  function AfterName(x: Words, kind: Kind, t: string, i: nat): (r: Option<Mark>)
    requires i <= |t|
    ensures r.Some? ==> i <= r.value.end <= |t|
  {
    match kind
    case Opening => if At(t, i, x.starts) then OpeningRest(x, t, i + |x.starts|) else None
    case Closing =>
      if !At(t, i, x.ends) then None
      else (match Tail(x, t, i + |x.ends|) case Some(end) => Some(Mark(end, "")) case None => None)
  }

  /** The marker that starts at `i`. */
  function Here(x: Words, kind: Kind, t: string, i: nat): (r: Option<Mark>)
    requires i <= |t|
    ensures r.Some? ==> i + |x.head| <= r.value.end <= |t|
  {
    if !At(t, i, x.head) then None
    else
      var n := Spaces(t, i + |x.head|);
      if At(t, n, x.name) then AfterName(x, kind, t, n + |x.name|) else None
  }

  // ---- the form of a marker ----

  predicate IsGap(t: string, i: nat, n: nat) { i <= n <= |t| && forall k | i <= k < n :: IsSpace(t[k]) }

  lemma {:induction false} SpacesFacts(t: string, i: nat)
    requires i <= |t|
    ensures var n := Spaces(t, i); IsGap(t, i, n) && (n == |t| || !IsSpace(t[n]))
    decreases |t| - i
  {
    if i < |t| && IsSpace(t[i]) {
      SpacesFacts(t, i + 1);
    }
  }

  lemma SpacesIs(t: string, i: nat, n: nat)
    requires i <= |t| && IsGap(t, i, n) && n < |t| && !IsSpace(t[n])
    ensures Spaces(t, i) == n
  {
    SpacesFacts(t, i);
  }

  /** Optional white space and the end of a comment. */
  predicate TailShape(t: string, i: nat, end: nat) { end >= i + 3 && IsGap(t, i, end - 3) && At(t, end - 3, "-->") }

  lemma TailIs(t: string, i: nat, end: nat)
    requires i <= |t|
    ensures Tail(MARKER, t, i) == Some(end) <==> TailShape(t, i, end)
  {
    SpacesFacts(t, i);
    if TailShape(t, i, end) {
      assert t[end - 3] == '-';
      SpacesIs(t, i, end - 3);
    }
  }

  /** White space, at least one, the word and a fingerprint from `n` on. */
  predicate NamedShape(t: string, i: nat, n: nat) {
    && n > i + 7 && IsGap(t, i, n - 7) && At(t, n - 7, "source=")
    && n + 16 <= |t| && forall p | n <= p < n + 16 :: IsHex(t[p])
  }

  lemma NamedIs(t: string, i: nat, n: nat)
    requires i <= |t|
    ensures Named(MARKER, t, i) == Some(n) <==> NamedShape(t, i, n)
  {
    SpacesFacts(t, i);
    if NamedShape(t, i, n) {
      assert t[n - 7] == 's';
      SpacesIs(t, i, n - 7);
    }
  }

  ghost predicate RestShape(t: string, i: nat, m: Mark) {
    || (m.source == "" && TailShape(t, i, m.end))
    || (exists n: nat :: NamedShape(t, i, n) && m.source == t[n..n + 16] && TailShape(t, n + 16, m.end))
  }

  lemma NoTailBesideName(t: string, i: nat, n: nat, end: nat)
    requires i <= |t| && NamedShape(t, i, n)
    ensures !TailShape(t, i, end)
  {
    if TailShape(t, i, end) {
      assert t[end - 3] == '-' && t[n - 7] == 's';
      SpacesIs(t, i, end - 3);
      SpacesIs(t, i, n - 7);
    }
  }

  lemma RestIs(t: string, i: nat, m: Mark)
    requires i <= |t|
    ensures OpeningRest(MARKER, t, i) == Some(m) <==> RestShape(t, i, m)
  {
    hide Tail, Named, TailShape, NamedShape;
    TailIs(t, i, m.end);
    if n :| Named(MARKER, t, i) == Some(n) {
      NamedIs(t, i, n);
      NoTailBesideName(t, i, n, m.end);
      NameIsOne(t, i, n);
      NameFits(t, i, n);
      TailIs(t, n + 16, m.end);
    } else {
      forall n: nat ensures !NamedShape(t, i, n) { NamedIs(t, i, n); }
    }
  }

  lemma NameFits(t: string, i: nat, n: nat)
    requires NamedShape(t, i, n)
    ensures n + 16 <= |t|
  {
  }

  lemma NameIsOne(t: string, i: nat, n: nat)
    requires i <= |t| && NamedShape(t, i, n)
    ensures forall k: nat | NamedShape(t, i, k) :: k == n
  {
    hide Named, NamedShape;
    NamedIs(t, i, n);
    forall k: nat | NamedShape(t, i, k) ensures k == n { NamedIs(t, i, k); }
  }

  /** The comment opener, optional white space and the name, up to `n`. */
  predicate LeadShape(t: string, i: nat, n: nat) {
    At(t, i, "<!--") && n >= i + 15 && IsGap(t, i + 4, n - 11) && At(t, n - 11, "ciao:rules:")
  }

  lemma LeadIs(kind: Kind, t: string, i: nat, n: nat)
    requires i <= |t| && LeadShape(t, i, n)
    ensures n <= |t| && Here(MARKER, kind, t, i) == AfterName(MARKER, kind, t, n)
  {
    hide AfterName;
    assert t[n - 11] == 'c';
    SpacesIs(t, i + 4, n - 11);
  }

  lemma NoLead(kind: Kind, t: string, i: nat)
    requires i <= |t| && Here(MARKER, kind, t, i).Some?
    ensures exists n: nat :: LeadShape(t, i, n)
  {
    hide AfterName;
    SpacesFacts(t, i + 4);
    var n := Spaces(t, i + 4);
    assert LeadShape(t, i, n + 11);
  }

  /** A marker is a comment with the name and its word, white space being free between the parts; an
      opening one may name a fingerprint of sixteen hex digits, behind white space; and it ends where
      the comment does. */
  lemma MarkerIs(t: string, i: nat, m: Mark)
    requires i <= |t|
    ensures Here(MARKER, Opening, t, i) == Some(m) <==>
            exists n: nat :: LeadShape(t, i, n) && At(t, n, "start") && RestShape(t, n + 5, m)
    ensures Here(MARKER, Closing, t, i) == Some(m) <==>
            exists n: nat :: LeadShape(t, i, n) && At(t, n, "end") && m.source == "" && TailShape(t, n + 3, m.end)
  {
    hide Here, LeadShape, RestShape, TailShape, OpeningRest, Tail;
    if n: nat :| LeadShape(t, i, n) {
      LeadIs(Opening, t, i, n);
      LeadIs(Closing, t, i, n);
      LeadIsOne(t, i, n);
      if At(t, n, "start") { RestIs(t, n + 5, m); }
      if At(t, n, "end") { TailIs(t, n + 3, m.end); }
    } else {
      if Here(MARKER, Opening, t, i).Some? { NoLead(Opening, t, i); }
      if Here(MARKER, Closing, t, i).Some? { NoLead(Closing, t, i); }
    }
  }

  lemma LeadIsOne(t: string, i: nat, n: nat)
    requires i <= |t| && LeadShape(t, i, n)
    ensures forall k: nat | LeadShape(t, i, k) :: k == n
  {
    forall k: nat | LeadShape(t, i, k) ensures k == n {
      assert t[n - 11] == 'c' && t[k - 11] == 'c';
      SpacesIs(t, i + 4, n - 11);
      SpacesIs(t, i + 4, k - 11);
    }
  }

  // ---- what a marker is made of ----

  /** A comment opener, words without one, and a closer that no fingerprint is mistaken for. */
  predicate Sensible(x: Words) {
    && x.head != "" && x.head[0] == '<' && '<' !in x.head[1..]
    && '<' !in x.name && '<' !in x.starts && '<' !in x.ends && '<' !in x.source && '<' !in x.tail
    && x.source != "" && x.tail != "" && x.tail[0] != x.source[0] && !IsSpace(x.tail[0])
    && x.tail[|x.tail| - 1] == '>'
  }

  lemma MarkerIsSensible()
    ensures Sensible(MARKER)
  {
    assert MARKER.head[1..] == "!--";
  }

  predicate NoOpen(t: string, i: nat, end: nat)
    requires i <= end <= |t|
  {
    forall k | i <= k < end :: t[k] != '<'
  }

  /** From `i` to `end` there is no `<`, and a `>` comes last. */
  predicate EndsWell(t: string, i: nat, end: nat) {
    i < end <= |t| && t[end - 1] == '>' && NoOpen(t, i, end)
  }

  lemma NoOpenJoin(t: string, i: nat, m: nat, end: nat)
    requires i <= m <= end <= |t| && NoOpen(t, i, m) && NoOpen(t, m, end)
    ensures NoOpen(t, i, end)
  {
  }

  lemma WordHasNoOpen(t: string, i: nat, w: string)
    requires At(t, i, w) && '<' !in w
    ensures NoOpen(t, i, i + |w|)
  {
    forall k | i <= k < i + |w| ensures t[k] != '<' {
      assert w[k - i] in w;
    }
  }

  lemma {:induction false} SpacesHaveNoOpen(t: string, i: nat)
    requires i <= |t|
    ensures NoOpen(t, i, Spaces(t, i))
    decreases |t| - i
  {
    if i < |t| && IsSpace(t[i]) {
      SpacesHaveNoOpen(t, i + 1);
    }
  }

  lemma TailFacts(x: Words, t: string, i: nat)
    requires Sensible(x) && i <= |t| && Tail(x, t, i).Some?
    ensures EndsWell(t, i, Tail(x, t, i).value)
  {
    var n := Spaces(t, i);
    SpacesHaveNoOpen(t, i);
    WordHasNoOpen(t, n, x.tail);
    assert t[n + |x.tail| - 1] == x.tail[|x.tail| - 1];
  }

  lemma OpeningRestFacts(x: Words, t: string, i: nat)
    requires Sensible(x) && i <= |t| && OpeningRest(x, t, i).Some?
    ensures EndsWell(t, i, OpeningRest(x, t, i).value.end)
  {
    if Named(x, t, i).Some? {
      SpacesHaveNoOpen(t, i);
      WordHasNoOpen(t, Spaces(t, i), x.source);
      TailFacts(x, t, Named(x, t, i).value + SOURCE_LEN);
    } else {
      TailFacts(x, t, i);
    }
  }

  lemma AfterNameFacts(x: Words, kind: Kind, t: string, i: nat)
    requires Sensible(x) && i <= |t| && AfterName(x, kind, t, i).Some?
    ensures EndsWell(t, i, AfterName(x, kind, t, i).value.end)
  {
    hide OpeningRest, Tail;
    match kind
    case Opening =>
      WordHasNoOpen(t, i, x.starts);
      OpeningRestFacts(x, t, i + |x.starts|);
    case Closing =>
      WordHasNoOpen(t, i, x.ends);
      TailFacts(x, t, i + |x.ends|);
  }

  lemma HeadFacts(x: Words, t: string, i: nat)
    requires Sensible(x) && At(t, i, x.head)
    ensures t[i] == '<' && NoOpen(t, i + 1, i + |x.head|)
  {
    forall k | i + 1 <= k < i + |x.head| ensures t[k] != '<' {
      assert x.head[k - i] == x.head[1..][k - i - 1];
    }
  }

  /** The head and the name of a marker; what follows ends it. */
  predicate Begins(x: Words, t: string, i: nat, n: nat) {
    At(t, i, x.head) && n == Spaces(t, i + |x.head|) && At(t, n, x.name)
  }

  lemma HereBegins(x: Words, kind: Kind, t: string, i: nat)
    requires i <= |t|
    ensures Here(x, kind, t, i).Some? <==>
            exists n: nat :: Begins(x, t, i, n) && AfterName(x, kind, t, n + |x.name|).Some?
    ensures forall n: nat | Begins(x, t, i, n) :: Here(x, kind, t, i) == AfterName(x, kind, t, n + |x.name|)
  {
    hide AfterName;
    if At(t, i, x.head) && At(t, Spaces(t, i + |x.head|), x.name) {
      assert Begins(x, t, i, Spaces(t, i + |x.head|));
    }
  }

  lemma BeginIsClear(x: Words, t: string, i: nat, n: nat)
    requires Sensible(x) && Begins(x, t, i, n)
    ensures i < n && t[i] == '<' && NoOpen(t, i + 1, n + |x.name|)
  {
    HeadFacts(x, t, i);
    SpacesHaveNoOpen(t, i + |x.head|);
    NoOpenJoin(t, i + 1, i + |x.head|, n);
    WordHasNoOpen(t, n, x.name);
    NoOpenJoin(t, i + 1, n, n + |x.name|);
  }

  /** A marker starts at its only `<`, ends at a `>`, and has the name inside. */
  lemma HereFacts(x: Words, kind: Kind, t: string, i: nat) returns (n: nat)
    requires Sensible(x) && i <= |t| && Here(x, kind, t, i).Some?
    ensures var end := Here(x, kind, t, i).value.end;
            && Begins(x, t, i, n) && AfterName(x, kind, t, n + |x.name|) == Here(x, kind, t, i)
            && i < n && n + |x.name| < end && t[i] == '<' && EndsWell(t, i + 1, end)
  {
    hide AfterName;
    HereBegins(x, kind, t, i);
    n :| Begins(x, t, i, n) && AfterName(x, kind, t, n + |x.name|).Some?;
    BeginIsClear(x, t, i, n);
    AfterNameFacts(x, kind, t, n + |x.name|);
    NoOpenJoin(t, i + 1, n + |x.name|, AfterName(x, kind, t, n + |x.name|).value.end);
  }

  // ---- a marker depends on its own characters only ----

  predicate Agree(a: string, b: string, n: nat) {
    n <= |a| && n <= |b| && forall p | 0 <= p < n :: a[p] == b[p]
  }

  lemma SameWord(a: string, b: string, i: nat, w: string)
    requires At(a, i, w) && Agree(a, b, i + |w|)
    ensures At(b, i, w)
  {
  }

  lemma {:induction false} SameSpaces(a: string, b: string, i: nat, n: nat)
    requires i <= |a| && Spaces(a, i) < n && Agree(a, b, n)
    ensures Spaces(b, i) == Spaces(a, i)
    decreases |a| - i
  {
    if IsSpace(a[i]) {
      SameSpaces(a, b, i + 1, n);
    }
  }

  lemma SameTail(x: Words, a: string, b: string, i: nat, end: nat)
    requires Sensible(x) && i <= |a| && Tail(x, a, i) == Some(end) && Agree(a, b, end)
    ensures Tail(x, b, i) == Some(end)
  {
    SameSpaces(a, b, i, end);
    SameWord(a, b, Spaces(a, i), x.tail);
  }

  lemma NoneNamedBeforeTail(x: Words, t: string, i: nat)
    requires Sensible(x) && i <= |t| && Tail(x, t, i).Some?
    ensures Named(x, t, i).None?
  {
    assert t[Spaces(t, i)] == x.tail[0] != x.source[0];
  }

  lemma SameNamed(x: Words, a: string, b: string, i: nat, n: nat)
    requires i <= |a| && Named(x, a, i) == Some(n) && Agree(a, b, n + SOURCE_LEN)
    ensures Named(x, b, i) == Some(n) && a[n..n + SOURCE_LEN] == b[n..n + SOURCE_LEN]
  {
    SameSpaces(a, b, i, n + SOURCE_LEN);
    SameWord(a, b, Spaces(a, i), x.source);
  }

  lemma SameOpeningRest(x: Words, a: string, b: string, i: nat, m: Mark)
    requires Sensible(x) && i <= |a| && OpeningRest(x, a, i) == Some(m) && Agree(a, b, m.end)
    ensures OpeningRest(x, b, i) == Some(m)
  {
    if Named(x, a, i).Some? {
      var n := Named(x, a, i).value;
      TailFacts(x, a, n + SOURCE_LEN);
      SameNamed(x, a, b, i, n);
      SameTail(x, a, b, n + SOURCE_LEN, m.end);
    } else {
      SameTail(x, a, b, i, m.end);
      NoneNamedBeforeTail(x, b, i);
    }
  }

  lemma SameAfterName(x: Words, kind: Kind, a: string, b: string, i: nat, m: Mark)
    requires Sensible(x) && i <= |a| && AfterName(x, kind, a, i) == Some(m) && Agree(a, b, m.end)
    ensures AfterName(x, kind, b, i) == Some(m)
  {
    hide OpeningRest, Tail;
    match kind
    case Opening =>
      OpeningRestFacts(x, a, i + |x.starts|);
      SameWord(a, b, i, x.starts);
      SameOpeningRest(x, a, b, i + |x.starts|, m);
    case Closing =>
      TailFacts(x, a, i + |x.ends|);
      SameWord(a, b, i, x.ends);
      SameTail(x, a, b, i + |x.ends|, m.end);
  }

  lemma SameBegin(x: Words, a: string, b: string, i: nat, n: nat, k: nat)
    requires Sensible(x) && Begins(x, a, i, n) && n + |x.name| < k && Agree(a, b, k)
    ensures Begins(x, b, i, n)
  {
    SameWord(a, b, i, x.head);
    SameSpaces(a, b, i + |x.head|, k);
    SameWord(a, b, n, x.name);
  }

  /** Texts that agree up to the end of a marker agree on the marker. */
  lemma SameHere(x: Words, kind: Kind, a: string, b: string, i: nat, m: Mark)
    requires Sensible(x) && i <= |a| && Here(x, kind, a, i) == Some(m) && Agree(a, b, m.end)
    ensures i <= |b| && Here(x, kind, b, i) == Some(m)
  {
    hide AfterName;
    var n := HereFacts(x, kind, a, i);
    SameBegin(x, a, b, i, n, m.end);
    SameAfterName(x, kind, a, b, n + |x.name|, m);
    HereBegins(x, kind, b, i);
  }

  // ---- a marker does not depend on where it stands ----

  function Moved(m: Option<Mark>, d: nat): Option<Mark> {
    match m case Some(mark) => Some(mark.(end := mark.end + d)) case None => None
  }

  function MovedEnd(end: Option<nat>, d: nat): Option<nat> {
    match end case Some(n) => Some(n + d) case None => None
  }

  lemma MovedAt(u: string, v: string, i: nat, w: string)
    ensures At(u + v, |u| + i, w) <==> At(v, i, w)
  {
    var t := u + v;
    if At(v, i, w) {
      forall p | |u| + i <= p < |u| + i + |w| ensures t[p] == w[p - (|u| + i)] {
        assert v[p - |u|] == t[p];
      }
    }
    if At(t, |u| + i, w) {
      forall p | i <= p < i + |w| ensures v[p] == w[p - i] {
        assert t[|u| + p] == v[p];
      }
    }
  }

  lemma MovedSource(u: string, v: string, i: nat)
    ensures SourceAt(u + v, |u| + i) <==> SourceAt(v, i)
    ensures i + SOURCE_LEN <= |v| ==> (u + v)[|u| + i..|u| + i + SOURCE_LEN] == v[i..i + SOURCE_LEN]
  {
    var t := u + v;
    if SourceAt(v, i) {
      forall p | |u| + i <= p < |u| + i + SOURCE_LEN ensures IsHex(t[p]) {
        assert v[p - |u|] == t[p];
      }
    }
    if SourceAt(t, |u| + i) {
      forall p | i <= p < i + SOURCE_LEN ensures IsHex(v[p]) {
        assert t[|u| + p] == v[p];
      }
    }
  }

  lemma {:induction false} MovedSpaces(u: string, v: string, i: nat)
    requires i <= |v|
    ensures Spaces(u + v, |u| + i) == |u| + Spaces(v, i)
    decreases |v| - i
  {
    if i < |v| && IsSpace(v[i]) {
      MovedSpaces(u, v, i + 1);
    }
  }

  lemma MovedTail(x: Words, u: string, v: string, i: nat)
    requires i <= |v|
    ensures Tail(x, u + v, |u| + i) == MovedEnd(Tail(x, v, i), |u|)
  {
    MovedSpaces(u, v, i);
    MovedAt(u, v, Spaces(v, i), x.tail);
  }

  lemma MovedNamed(x: Words, u: string, v: string, i: nat)
    requires i <= |v|
    ensures Named(x, u + v, |u| + i) == MovedEnd(Named(x, v, i), |u|)
  {
    MovedSpaces(u, v, i);
    MovedAt(u, v, Spaces(v, i), x.source);
    MovedSource(u, v, Spaces(v, i) + |x.source|);
  }

  lemma MovedOpeningRest(x: Words, u: string, v: string, i: nat)
    requires i <= |v|
    ensures OpeningRest(x, u + v, |u| + i) == Moved(OpeningRest(x, v, i), |u|)
  {
    hide Named, Tail;
    MovedNamed(x, u, v, i);
    match Named(x, v, i)
    case Some(n) =>
      MovedSource(u, v, n);
      MovedTail(x, u, v, n + SOURCE_LEN);
    case None => MovedTail(x, u, v, i);
  }

  lemma MovedAfterName(x: Words, kind: Kind, u: string, v: string, i: nat)
    requires i <= |v|
    ensures AfterName(x, kind, u + v, |u| + i) == Moved(AfterName(x, kind, v, i), |u|)
  {
    hide OpeningRest, Tail;
    match kind
    case Opening =>
      MovedAt(u, v, i, x.starts);
      if At(v, i, x.starts) { MovedOpeningRest(x, u, v, i + |x.starts|); }
    case Closing =>
      MovedAt(u, v, i, x.ends);
      if At(v, i, x.ends) { MovedTail(x, u, v, i + |x.ends|); }
  }

  lemma MovedHere(x: Words, kind: Kind, u: string, v: string, i: nat)
    requires i <= |v|
    ensures Here(x, kind, u + v, |u| + i) == Moved(Here(x, kind, v, i), |u|)
  {
    hide AfterName;
    MovedAt(u, v, i, x.head);
    if At(v, i, x.head) {
      var n := Spaces(v, i + |x.head|);
      MovedSpaces(u, v, i + |x.head|);
      MovedAt(u, v, n, x.name);
      if At(v, n, x.name) {
        MovedAfterName(x, kind, u, v, n + |x.name|);
      }
    }
  }
}
