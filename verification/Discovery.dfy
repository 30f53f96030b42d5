/** Proposals: every control, and the tokens and blanks that are plain text and clear of each other. */
module Discovery {
  import opened Common
  import opened DocumentModel
  import opened WorkingIndex
  import opened WorkingReview
  import opened FieldAnchors
  import opened ReviewDocument
  import opened ReviewTheorem
  import opened Blanks

  /** What discovery takes from elsewhere: the two patterns, which tokens have usable keys, which ranges have a label
      nearby and stand free of words, and which paragraphs are the empty cell of a labelled row. */
  datatype Patterns = Patterns(
    tokens: string -> seq<Interval>, blanks: string -> seq<Interval>,
    usable: (string, Interval) -> bool, labelled: (Known, Interval) -> bool, emptyCell: Known -> bool)

  /** Matches of a pattern: within the text, not empty, in order and apart. */
  ghost predicate Matched(ranges: seq<Interval>, n: nat) {
    && (forall i | 0 <= i < |ranges| :: ranges[i].0 < ranges[i].1 <= n)
    && (forall i, k | 0 <= i < k < |ranges| :: ranges[i].1 <= ranges[k].0)
  }

  ghost predicate Sensible(p: Patterns) {
    forall text: string :: Matched(p.tokens(text), |text|) && Matched(p.blanks(text), |text|)
  }

  function SpanOf(k: Known, r: Interval): Occurrence
    requires r.0 <= r.1 <= |k.text|
  {
    Occurrence(SpanAnchor(k.part, k.id, r.0, r.1), k.text[r.0..r.1])
  }

  function ControlOf(k: Known, c: (Id, string)): Occurrence {
    Occurrence(ControlAnchor(k.part, k.id, c.0), c.1)
  }

  /** A range that may be proposed in a paragraph beside those already taken. */
  ghost predicate Free(k: Known, taken: seq<Interval>, r: Interval) {
    && r.0 <= r.1 <= |k.text| && (r.0 == r.1 ==> k.text == [] && k.blocked == [] && taken == [])
    && Clear(r.0, r.1, k.blocked) && Clear(r.0, r.1, taken)
  }

  /** Ranges proposed so far in a paragraph: each anchored, no two overlapping. */
  ghost predicate Taken(k: Known, taken: seq<Interval>) {
    && (forall i | 0 <= i < |taken| ::
          && taken[i].0 <= taken[i].1 <= |k.text| && (taken[i].0 == taken[i].1 ==> k.text == [] && k.blocked == [])
          && Clear(taken[i].0, taken[i].1, k.blocked))
    && (forall i, j | 0 <= i < j < |taken| ::
          taken[i] != taken[j] && !(taken[i].0 < taken[j].1 && taken[i].1 > taken[j].0))
  }

  lemma {:induction false} TakeMore(k: Known, taken: seq<Interval>, r: Interval)
    requires Taken(k, taken) && Free(k, taken, r)
    ensures Taken(k, taken + [r])
  {
    forall i | 0 <= i < |taken|
      ensures taken[i] != r && !(taken[i].0 < r.1 && taken[i].1 > r.0)
    {
      assert !Hits(r.0, r.1, taken[i]);
    }
  }

  // ----- what should be proposed

  /** A token of the paragraph that has a usable key and touches nothing blocked. */
  ghost predicate TokenOf(k: Known, p: Patterns, r: Interval) {
    r in p.tokens(k.text) && p.usable(k.text, r) && Clear(r.0, r.1, k.blocked)
  }

  /** A row with a label and an empty cell beside it. */
  predicate EmptyCell(k: Known, p: Patterns) {
    p.emptyCell(k) && k.text == [] && k.controls == [] && k.blocked == []
  }

  /** A blank of the paragraph: matched, underlined, or all there is. */
  ghost predicate BlankIn(k: Known, n: Node, p: Patterns, r: Interval)
    requires n.Paragraph?
  {
    r in p.blanks(k.text) || BlankRun(n.content, r) || (r == (0, 0) && EmptyCell(k, p))
  }

  /** A blank with a label that touches nothing blocked. */
  ghost predicate BlankOf(k: Known, n: Node, p: Patterns, r: Interval)
    requires n.Paragraph?
  {
    BlankIn(k, n, p, r) && p.labelled(k, r) && Clear(r.0, r.1, k.blocked)
  }

  ghost predicate Touched(taken: seq<Interval>, r: Interval) {
    exists q :: q in taken && Hits(r.0, r.1, q)
  }

  /** Nothing but tokens and blanks, every token, and every blank that touches none of them. */
  ghost predicate Thorough(k: Known, n: Node, p: Patterns, taken: seq<Interval>)
    requires n.Paragraph?
  {
    && (forall r | r in taken :: TokenOf(k, p, r) || BlankOf(k, n, p, r))
    && (forall r :: TokenOf(k, p, r) ==> r in taken)
    && (forall r :: BlankOf(k, n, p, r) ==> r in taken || Touched(taken, r))
  }

  // ----- one paragraph

  /** The tokens among the first `i` matches. */
  ghost predicate TokensUpTo(k: Known, p: Patterns, i: nat, taken: seq<Interval>)
    requires i <= |p.tokens(k.text)|
  {
    && (forall r | r in taken :: r.0 < r.1 && (i < |p.tokens(k.text)| ==> r.1 <= p.tokens(k.text)[i].0))
    && (forall r :: r in taken <==> r in p.tokens(k.text)[..i] && TokenOf(k, p, r))
  }

  lemma TokensNext(k: Known, p: Patterns, i: nat, taken: seq<Interval>)
    requires Matched(p.tokens(k.text), |k.text|) && i < |p.tokens(k.text)| && TokensUpTo(k, p, i, taken)
    ensures var r := p.tokens(k.text)[i];
      TokensUpTo(k, p, i + 1, if p.usable(k.text, r) && Clear(r.0, r.1, k.blocked) then taken + [r] else taken)
  {
    hide Clear;
    var ranges := p.tokens(k.text);
    assert ranges[..i + 1] == ranges[..i] + [ranges[i]];
    assert ranges[i] in ranges;
  }

  lemma TokenFree(k: Known, p: Patterns, i: nat, taken: seq<Interval>)
    requires Matched(p.tokens(k.text), |k.text|) && i < |p.tokens(k.text)| && TokensUpTo(k, p, i, taken)
    requires var r := p.tokens(k.text)[i]; Clear(r.0, r.1, k.blocked)
    ensures Free(k, taken, p.tokens(k.text)[i])
  {
    var r := p.tokens(k.text)[i];
    forall j | 0 <= j < |taken| ensures !Hits(r.0, r.1, taken[j]) { assert taken[j] in taken; }
  }

  /** What `extract` proposes in a paragraph: its tokens, none touching another. */
  ghost predicate Tokens(k: Known, p: Patterns, taken: seq<Interval>) {
    Taken(k, taken) && (forall r | r in taken :: r.0 < r.1) && forall r :: r in taken <==> TokenOf(k, p, r)
  }

  /** The tokens of one paragraph that `extract` proposes. */
  method TokensIn(k: Known, p: Patterns) returns (taken: seq<Interval>)
    requires Sensible(p)
    ensures Tokens(k, p, taken)
  {
    hide Clear, TokensUpTo, TokenOf, Taken, Free, Sensible, Matched;
    var ranges := p.tokens(k.text);
    TokensMatched(k, p);
    taken := [];
    NoTokens(k, p);
    var i := 0;
    while i < |ranges|
      invariant 0 <= i <= |ranges| && Taken(k, taken) && TokensUpTo(k, p, i, taken)
    {
      var r := ranges[i];
      TokensNext(k, p, i, taken);
      if p.usable(k.text, r) && Clear(r.0, r.1, k.blocked) {
        TokenFree(k, p, i, taken);
        TakeMore(k, taken, r);
        taken := taken + [r];
      }
      i := i + 1;
    }
    AllTokens(k, p, taken);
  }

  lemma TokensMatched(k: Known, p: Patterns)
    requires Sensible(p)
    ensures Matched(p.tokens(k.text), |k.text|)
  {
  }

  lemma NoTokens(k: Known, p: Patterns)
    ensures TokensUpTo(k, p, 0, []) && Taken(k, [])
  {
  }

  lemma AllTokens(k: Known, p: Patterns, taken: seq<Interval>)
    requires TokensUpTo(k, p, |p.tokens(k.text)|, taken)
    ensures (forall r | r in taken :: r.0 < r.1) && forall r :: r in taken <==> TokenOf(k, p, r)
  {
    assert p.tokens(k.text)[..|p.tokens(k.text)|] == p.tokens(k.text);
  }

  /** Nonempty ranges within nothing are none. */
  lemma NoRanges(ranges: seq<Interval>, n: nat)
    requires forall r | r in ranges :: r.0 < r.1 <= n
    ensures n == 0 ==> ranges == []
  {
    if ranges != [] {
      var r := ranges[0];
      assert r in ranges && r.0 < r.1 <= n;
    }
  }

  lemma MatchedWithin(ranges: seq<Interval>, n: nat)
    requires Matched(ranges, n)
    ensures forall r | r in ranges :: r.0 < r.1 <= n
  {
  }

  lemma KnownText(part: string, n: Node)
    requires n.Paragraph?
    ensures KnownOf(part, n).text == TextOf(n.content)
  {
  }

  /** The ranges `discover` tries in one paragraph: blanks, underlined spaces, the empty cell. */
  method Candidates(k: Known, n: Node, p: Patterns) returns (ranges: seq<Interval>)
    requires Sensible(p) && n.Paragraph? && WellFormed(n) && k == KnownOf(k.part, n)
    ensures forall r | r in ranges ::
      r.0 <= r.1 <= |k.text| && (r.0 == r.1 ==> r == (0, 0) && k.text == [] && k.blocked == [])
    ensures k.text == [] ==> ranges == [] || ranges == [(0, 0)]
    ensures forall r :: r in ranges <==> BlankIn(k, n, p, r)
  {
    hide Matches, KnownOf, RunsOf, WellFormed, Matched, Events, BlankRun;
    KnownText(k.part, n);
    ParagraphKids(n);
    var underlined := UnderlinedRuns(n.content);
    RunsWithin(n.content);
    var blanks := p.blanks(k.text);
    MatchedWithin(blanks, |k.text|);
    ranges := blanks + underlined;
    NoRanges(ranges, |k.text|);
    if EmptyCell(k, p) {
      ranges := ranges + [(0, 0)];
    }
  }

  lemma RunsWithin(children: seq<Node>)
    ensures forall r: Interval | BlankRun(children, r) :: r.0 < r.1 <= |TextOf(children)|
  {
    hide BlankAt, EdgeAt, TextOf;
  }

  /** The proposals once the first `i` blanks were tried. */
  ghost predicate BlanksUpTo(k: Known, n: Node, p: Patterns, ranges: seq<Interval>, i: nat, taken: seq<Interval>)
    requires n.Paragraph? && i <= |ranges|
  {
    && (forall r | r in taken :: TokenOf(k, p, r) || BlankOf(k, n, p, r))
    && (forall r | TokenOf(k, p, r) :: r in taken)
    && (forall r | r in ranges[..i] && BlankOf(k, n, p, r) :: r in taken || Touched(taken, r))
  }

  lemma BlanksNext(k: Known, n: Node, p: Patterns, ranges: seq<Interval>, i: nat, taken: seq<Interval>)
    requires n.Paragraph? && i < |ranges| && BlanksUpTo(k, n, p, ranges, i, taken) && BlankIn(k, n, p, ranges[i])
    ensures var r := ranges[i];
      BlanksUpTo(k, n, p, ranges, i + 1,
                 if Clear(r.0, r.1, k.blocked + taken) && p.labelled(k, r) then taken + [r] else taken)
  {
    hide Clear, BlankIn, TokenOf, Hits;
    var r := ranges[i];
    assert ranges[..i + 1] == ranges[..i] + [r];
    if Clear(r.0, r.1, k.blocked + taken) && p.labelled(k, r) {
      ClearBoth(r, k.blocked, taken);
      forall q | Touched(taken, q) ensures Touched(taken + [r], q) {
        var t :| t in taken && Hits(q.0, q.1, t);
        assert t in taken + [r];
      }
    } else {
      TouchedOr(r, k.blocked, taken);
    }
  }

  lemma BlanksDone(k: Known, n: Node, p: Patterns, ranges: seq<Interval>, taken: seq<Interval>)
    requires n.Paragraph? && BlanksUpTo(k, n, p, ranges, |ranges|, taken) && forall r ::
      r in ranges <==> BlankIn(k, n, p, r)
    ensures Thorough(k, n, p, taken)
  {
    hide BlankIn, TokenOf, Clear, Touched;
    assert ranges[..|ranges|] == ranges;
  }

  lemma BlanksBegin(k: Known, n: Node, p: Patterns, ranges: seq<Interval>, tokens: seq<Interval>)
    requires n.Paragraph? && Tokens(k, p, tokens)
    ensures Taken(k, tokens) && BlanksUpTo(k, n, p, ranges, 0, tokens) && (k.text == [] ==> tokens == [])
  {
    hide BlankOf, TokenOf;
    TokensOfNothing(k, tokens);
  }

  lemma BlankFree(k: Known, taken: seq<Interval>, r: Interval)
    requires Clear(r.0, r.1, k.blocked + taken) && r.0 <= r.1 <= |k.text|
    requires r.0 == r.1 ==> k.text == [] && k.blocked == [] && taken == []
    ensures Free(k, taken, r)
  {
    hide Clear;
    ClearBoth(r, k.blocked, taken);
  }

  /** The blanks of one paragraph, after the tokens already proposed there. */
  method BlanksBeside(k: Known, n: Node, p: Patterns, tokens: seq<Interval>) returns (taken: seq<Interval>)
    requires Sensible(p) && n.Paragraph? && WellFormed(n) && k == KnownOf(k.part, n) && Tokens(k, p, tokens)
    ensures Taken(k, taken) && Thorough(k, n, p, taken) && tokens <= taken
  {
    hide Clear, KnownOf, Taken, BlankIn, TokenOf, BlanksUpTo, Thorough, Tokens, Free, WellFormed, Sensible, EmptyCell;
    taken := tokens;
    var ranges := Candidates(k, n, p);
    BlanksBegin(k, n, p, ranges, taken);
    var i := 0;
    while i < |ranges|
      invariant 0 <= i <= |ranges| && Taken(k, taken) && BlanksUpTo(k, n, p, ranges, i, taken) && tokens <= taken
      invariant i == 0 ==> taken == tokens
    {
      var r := ranges[i];
      assert r in ranges;
      BlanksNext(k, n, p, ranges, i, taken);
      if Clear(r.0, r.1, k.blocked + taken) && p.labelled(k, r) {
        BlankFree(k, taken, r);
        TakeMore(k, taken, r);
        taken := taken + [r];
      }
      i := i + 1;
    }
    BlanksDone(k, n, p, ranges, taken);
  }

  /** A range that is not clear of all touches one of them. */
  lemma TouchedOr(r: Interval, a: seq<Interval>, b: seq<Interval>)
    ensures Clear(r.0, r.1, a + b) || !Clear(r.0, r.1, a) || Touched(b, r)
  {
    hide Hits;
    if !Touched(b, r) && Clear(r.0, r.1, a) {
      forall i | 0 <= i < |a + b| ensures !Hits(r.0, r.1, (a + b)[i]) {
        assert i >= |a| ==> (a + b)[i] in b;
      }
    }
  }

  lemma TokensOfNothing(k: Known, taken: seq<Interval>)
    requires Taken(k, taken) && forall r | r in taken :: r.0 < r.1
    ensures k.text == [] ==> taken == []
  {
    assert forall i | 0 <= i < |taken| :: taken[i] in taken && taken[i].1 <= |k.text|;
    NoRanges(taken, |k.text|);
  }

  lemma ClearBoth(r: Interval, a: seq<Interval>, b: seq<Interval>)
    requires Clear(r.0, r.1, a + b)
    ensures Clear(r.0, r.1, a) && Clear(r.0, r.1, b)
  {
    forall i | 0 <= i < |a| ensures !Hits(r.0, r.1, a[i]) { assert (a + b)[i] == a[i]; }
    forall i | 0 <= i < |b| ensures !Hits(r.0, r.1, b[i]) { assert (a + b)[|a| + i] == b[i]; }
  }

  // ----- the whole document

  function ControlsIn(k: Known, controls: seq<(Id, string)>): seq<Occurrence> {
    if controls == [] then [] else [ControlOf(k, controls[0])] + ControlsIn(k, controls[1..])
  }

  function SpansIn(k: Known, taken: seq<Interval>): seq<Occurrence>
    requires forall r | r in taken :: r.0 <= r.1 <= |k.text|
  {
    if taken == [] then [] else [SpanOf(k, taken[0])] + SpansIn(k, taken[1..])
  }

  lemma {:induction false} ControlsAre(k: Known, controls: seq<(Id, string)>)
    ensures |ControlsIn(k, controls)| == |controls|
    ensures forall i | 0 <= i < |controls| :: ControlsIn(k, controls)[i] == ControlOf(k, controls[i])
  {
    if controls != [] {
      ControlsAre(k, controls[1..]);
    }
  }

  lemma {:induction false} SpansInAre(k: Known, taken: seq<Interval>)
    requires forall r | r in taken :: r.0 <= r.1 <= |k.text|
    ensures |SpansIn(k, taken)| == |taken|
    ensures forall i | 0 <= i < |taken| :: SpansIn(k, taken)[i] == SpanOf(k, taken[i])
  {
    if taken != [] {
      SpansInAre(k, taken[1..]);
    }
  }

  ghost predicate AllCompatible(a: seq<Occurrence>) {
    forall i, j | 0 <= i < j < |a| :: Compatible(a[i], a[j])
  }

  /** The proposals of one paragraph: anchored in it, and compatible with each other. */
  lemma ParagraphProposals(k: Known, taken: seq<Interval>) returns (all: seq<Occurrence>)
    requires Taken(k, taken) && DistinctValues(k.controls)
    ensures (forall r | r in taken :: r.0 <= r.1 <= |k.text|) && all == ControlsIn(k, k.controls) + SpansIn(k, taken)
    ensures forall o | o in all :: AtParagraph(o, k) && Anchored(o, k)
    ensures AllCompatible(all)
  {
    ControlsAre(k, k.controls);
    SpansInAre(k, taken);
    all := ControlsIn(k, k.controls) + SpansIn(k, taken);
    forall o | o in all
      ensures AtParagraph(o, k) && Anchored(o, k)
    {
      var i :| 0 <= i < |all| && all[i] == o;
      if i < |k.controls| {
        assert o == ControlOf(k, k.controls[i]) && k.controls[i] in k.controls;
      } else {
        assert o == SpanOf(k, taken[i - |k.controls|]);
      }
    }
    forall i, j | 0 <= i < j < |all|
      ensures Compatible(all[i], all[j])
    {
      if j < |k.controls| {
        assert all[i] == ControlOf(k, k.controls[i]) && all[j] == ControlOf(k, k.controls[j]);
      } else if i >= |k.controls| {
        assert all[i] == SpanOf(k, taken[i - |k.controls|]) && all[j] == SpanOf(k, taken[j - |k.controls|]);
      } else {
        assert all[i] == ControlOf(k, k.controls[i]) && all[j] == SpanOf(k, taken[j - |k.controls|]);
      }
    }
  }

  /** What has been proposed for the first `n` paragraphs. */
  ghost predicate Proposed(spots: seq<Spot>, n: nat, occurrences: seq<Occurrence>)
    requires Proper(spots) && n <= |spots|
  {
    && (forall o | o in occurrences :: exists m :: 0 <= m < n && AnchoredAt(o, spots[m]))
    && AllCompatible(occurrences)
    && (forall m | 0 <= m < n :: forall c | c in ValuesOf(spots[m].node.content) ::
          exists o :: o in occurrences && o.anchor.ControlAnchor? && o.anchor.control == c.0)
  }

  lemma {:induction false} ProposeNext(spots: seq<Spot>, n: nat, occurrences: seq<Occurrence>, all: seq<Occurrence>)
    requires Proper(spots) && DistinctSpots(spots) && n < |spots| && Proposed(spots, n, occurrences)
    requires var k := KnownOf(spots[n].part, spots[n].node);
      (forall o | o in all :: AtParagraph(o, k) && Anchored(o, k))
      && (forall i | 0 <= i < |k.controls| :: ControlOf(k, k.controls[i]) in all)
    requires AllCompatible(all)
    ensures Proposed(spots, n + 1, occurrences + all)
  {
    hide Anchored, WellFormed;
    var k, next := KnownOf(spots[n].part, spots[n].node), occurrences + all;
    forall o | o in next ensures exists m :: 0 <= m < n + 1 && AnchoredAt(o, spots[m]) {
      if o in all {
        assert AnchoredAt(o, spots[n]);
      } else {
        var m :| 0 <= m < n && AnchoredAt(o, spots[m]);
      }
    }
    forall i, j | 0 <= i < j < |next|
      ensures Compatible(next[i], next[j])
    {
      if j < |occurrences| {
        assert Compatible(occurrences[i], occurrences[j]);
      } else if i >= |occurrences| {
        assert Compatible(all[i - |occurrences|], all[j - |occurrences|]);
      } else {
        assert next[i] in occurrences && next[j] in all;
        var m :| 0 <= m < n && AnchoredAt(next[i], spots[m]);
        ElsewhereCompatible(next[i], next[j], spots[m], spots[n]);
      }
    }
    forall m | 0 <= m < n + 1
      ensures forall c | c in ValuesOf(spots[m].node.content) ::
        exists o :: o in next && o.anchor.ControlAnchor? && o.anchor.control == c.0
    {
      forall c | c in ValuesOf(spots[m].node.content)
        ensures exists o :: o in next && o.anchor.ControlAnchor? && o.anchor.control == c.0
      {
        if m == n {
          var i :| 0 <= i < |k.controls| && k.controls[i] == c;
          assert ControlOf(k, c) in next;
        } else {
          var o :| o in occurrences && o.anchor.ControlAnchor? && o.anchor.control == c.0;
          assert o in next;
        }
      }
    }
  }

  lemma ElsewhereCompatible(a: Occurrence, b: Occurrence, s: Spot, t: Spot)
    requires s.node.Paragraph? && t.node.Paragraph? && AnchoredAt(a, s) && AtParagraph(b, KnownOf(t.part, t.node))
    requires !(s.part == t.part && s.node.id == t.node.id)
    ensures Compatible(a, b)
  {
  }

  lemma NothingProposed(spots: seq<Spot>)
    requires Proper(spots)
    ensures Proposed(spots, 0, [])
  {
  }

  // ----- nothing is forgotten

  /** The range of this paragraph is proposed. */
  ghost predicate ProposedRange(occurrences: seq<Occurrence>, k: Known, r: Interval) {
    exists o :: o in occurrences && o.anchor == SpanAnchor(k.part, k.id, r.0, r.1)
  }

  /** The ranges proposed in a paragraph. */
  ghost predicate RangesAt(s: Spot, taken: seq<Interval>, occurrences: seq<Occurrence>)
    requires s.node.Paragraph?
  {
    forall r: Interval :: r in taken <==> ProposedRange(occurrences, KnownOf(s.part, s.node), r)
  }

  /** The ranges proposed in a paragraph are its tokens and blanks, and no token or free blank is missing. */
  ghost predicate CompleteAt(s: Spot, p: Patterns, occurrences: seq<Occurrence>)
    requires s.node.Paragraph?
  {
    exists taken :: Thorough(KnownOf(s.part, s.node), s.node, p, taken) && RangesAt(s, taken, occurrences)
  }

  ghost predicate Complete(spots: seq<Spot>, n: nat, p: Patterns, occurrences: seq<Occurrence>)
    requires Proper(spots) && n <= |spots|
  {
    forall m {:trigger CompleteAt(spots[m], p, occurrences)} | 0 <= m < n :: CompleteAt(spots[m], p, occurrences)
  }

  /** What is proposed in one paragraph changes nothing in another. */
  lemma RangesElsewhere(spots: seq<Spot>, n: nat, m: nat, taken: seq<Interval>, occurrences: seq<Occurrence>,
                        all: seq<Occurrence>)
    requires Proper(spots) && DistinctSpots(spots) && m < |spots| && n < |spots| && m != n
      && RangesAt(spots[m], taken, occurrences)
    requires forall o | o in all :: AtParagraph(o, KnownOf(spots[n].part, spots[n].node))
    ensures RangesAt(spots[m], taken, occurrences + all)
  {
    hide WellFormed;
    var k := KnownOf(spots[m].part, spots[m].node);
    SpotsApart(spots, m, n);
    forall r: Interval ensures r in taken <==> ProposedRange(occurrences + all, k, r) {
      if ProposedRange(occurrences, k, r) {
        var o :| o in occurrences && o.anchor == SpanAnchor(k.part, k.id, r.0, r.1);
        assert o in occurrences + all;
      }
    }
  }

  lemma SpotsApart(spots: seq<Spot>, m: nat, n: nat)
    requires Proper(spots) && DistinctSpots(spots) && m < |spots| && n < |spots| && m != n
    ensures !(spots[m].part == spots[n].part && spots[m].node.id == spots[n].node.id)
  {
    hide WellFormed;
  }

  lemma CompleteElsewhere(spots: seq<Spot>, n: nat, m: nat, p: Patterns, occurrences: seq<Occurrence>,
                          all: seq<Occurrence>)
    requires Proper(spots) && DistinctSpots(spots) && m < |spots| && n < |spots| && m != n
      && CompleteAt(spots[m], p, occurrences)
    requires forall o | o in all :: AtParagraph(o, KnownOf(spots[n].part, spots[n].node))
    ensures CompleteAt(spots[m], p, occurrences + all)
  {
    hide WellFormed, Thorough, RangesAt;
    var taken :| Thorough(KnownOf(spots[m].part, spots[m].node), spots[m].node, p, taken)
      && RangesAt(spots[m], taken, occurrences);
    RangesElsewhere(spots, n, m, taken, occurrences, all);
  }

  /** What was proposed for earlier paragraphs is not in this one. */
  lemma ProposedEarlier(spots: seq<Spot>, n: nat, occurrences: seq<Occurrence>)
    requires Proper(spots) && DistinctSpots(spots) && n < |spots| && Proposed(spots, n, occurrences)
    ensures forall o | o in occurrences :: !AtParagraph(o, KnownOf(spots[n].part, spots[n].node))
  {
    hide WellFormed, AllCompatible, Anchored;
    forall o | o in occurrences
      ensures !AtParagraph(o, KnownOf(spots[n].part, spots[n].node))
    {
      var m :| 0 <= m < n && AnchoredAt(o, spots[m]);
    }
  }

  /** The spans of a list of ranges are the ranges proposed by it. */
  lemma SpansOnly(k: Known, taken: seq<Interval>, r: Interval)
    requires forall q | q in taken :: q.0 <= q.1 <= |k.text|
    ensures r in taken <==> ProposedRange(SpansIn(k, taken), k, r)
  {
    SpansInAre(k, taken);
    var spans := SpansIn(k, taken);
    if r in taken {
      var i :| 0 <= i < |taken| && taken[i] == r;
      assert spans[i] == SpanOf(k, r) && spans[i] in spans;
    }
    if ProposedRange(spans, k, r) {
      var o :| o in spans && o.anchor == SpanAnchor(k.part, k.id, r.0, r.1);
      var i :| 0 <= i < |spans| && spans[i] == o;
      assert taken[i] == r;
    }
  }

  lemma ControlsNoRange(k: Known, controls: seq<(Id, string)>, r: Interval)
    ensures !ProposedRange(ControlsIn(k, controls), k, r)
  {
    ControlsAre(k, controls);
  }

  lemma RangesJoin(a: seq<Occurrence>, b: seq<Occurrence>, k: Known, r: Interval)
    ensures ProposedRange(a + b, k, r) <==> ProposedRange(a, k, r) || ProposedRange(b, k, r)
  {
    assert forall o :: o in a + b <==> o in a || o in b;
  }

  /** The tokens of the next paragraph. */
  lemma TokensHere(spots: seq<Spot>, n: nat, occurrences: seq<Occurrence>, taken: seq<Interval>)
    requires Proper(spots) && DistinctSpots(spots) && n < |spots| && Proposed(spots, n, occurrences)
    requires forall r | r in taken :: r.0 <= r.1 <= |KnownOf(spots[n].part, spots[n].node).text|
    ensures var k := KnownOf(spots[n].part, spots[n].node);
      RangesAt(spots[n], taken, occurrences + (ControlsIn(k, k.controls) + SpansIn(k, taken)))
  {
    hide WellFormed, Proposed, Anchored, KnownOf;
    var k := KnownOf(spots[n].part, spots[n].node);
    ProposedEarlier(spots, n, occurrences);
    KnownAtSpot(spots[n]);
    forall r: Interval
      ensures r in taken <==> ProposedRange(occurrences + (ControlsIn(k, k.controls) + SpansIn(k, taken)), k, r)
    {
      RangesJoin(occurrences, ControlsIn(k, k.controls) + SpansIn(k, taken), k, r);
      RangesJoin(ControlsIn(k, k.controls), SpansIn(k, taken), k, r);
      ControlsNoRange(k, k.controls, r);
      SpansOnly(k, taken, r);
    }
  }

  lemma KnownAtSpot(s: Spot)
    requires s.node.Paragraph?
    ensures KnownOf(s.part, s.node).part == s.part && KnownOf(s.part, s.node).id == s.node.id
  {
  }

  /** The controls and tokens of the next paragraph join what was proposed. */
  lemma ProposeHere(spots: seq<Spot>, n: nat, occurrences: seq<Occurrence>, taken: seq<Interval>)
    returns (all: seq<Occurrence>)
    requires Proper(spots) && DistinctSpots(spots) && n < |spots| && Proposed(spots, n, occurrences)
    requires DistinctValues(ValuesOf(spots[n].node.content)) && Taken(KnownOf(spots[n].part, spots[n].node), taken)
    ensures var k := KnownOf(spots[n].part, spots[n].node);
      && (forall r | r in taken :: r.0 <= r.1 <= |k.text|) && all == ControlsIn(k, k.controls) + SpansIn(k, taken)
      && forall o | o in all :: AtParagraph(o, k)
    ensures Proposed(spots, n + 1, occurrences + all)
  {
    hide Proposed, WellFormed, AllCompatible, Anchored, DistinctValues, DistinctSpots, Taken, ValuesOf;
    var k := KnownOf(spots[n].part, spots[n].node);
    all := ParagraphProposals(k, taken);
    ControlsAre(k, k.controls);
    forall i | 0 <= i < |k.controls| ensures ControlOf(k, k.controls[i]) in all {
      assert all[i] == ControlOf(k, k.controls[i]);
    }
    ProposeNext(spots, n, occurrences, all);
  }

  /** `extract`: every control, and the tokens, paragraph by paragraph. */
  method Extract(spots: seq<Spot>, p: Patterns) returns (occurrences: seq<Occurrence>, occupied: seq<seq<Interval>>)
    requires Proper(spots) && Sensible(p) && DistinctSpots(spots)
    requires forall m | 0 <= m < |spots| :: DistinctValues(ValuesOf(spots[m].node.content))
    ensures Proposed(spots, |spots|, occurrences) && |occupied| == |spots|
    ensures forall m | 0 <= m < |spots| ::
      Tokens(KnownOf(spots[m].part, spots[m].node), p, occupied[m]) && RangesAt(spots[m], occupied[m], occurrences)
  {
    hide Proposed, Tokens, RangesAt, WellFormed, Sensible, AllCompatible, Anchored, DistinctValues, DistinctSpots,
      Taken, ValuesOf;
    occurrences, occupied := [], [];
    NothingProposed(spots);
    var n := 0;
    while n < |spots|
      invariant 0 <= n <= |spots| && Proposed(spots, n, occurrences) && |occupied| == n
      invariant forall m | 0 <= m < n ::
        Tokens(KnownOf(spots[m].part, spots[m].node), p, occupied[m]) && RangesAt(spots[m], occupied[m], occurrences)
    {
      assert spots[n] in spots;
      var k := KnownOf(spots[n].part, spots[n].node);
      var taken := TokensIn(k, p);
      TokensTaken(k, p, taken);
      ghost var all := ProposeHere(spots, n, occurrences, taken);
      TokensHere(spots, n, occurrences, taken);
      forall m | 0 <= m < n ensures RangesAt(spots[m], occupied[m], occurrences + all) {
        RangesElsewhere(spots, n, m, occupied[m], occurrences, all);
      }
      occurrences := occurrences + (ControlsIn(k, k.controls) + SpansIn(k, taken));
      occupied := occupied + [taken];
      n := n + 1;
    }
  }

  lemma TokensTaken(k: Known, p: Patterns, taken: seq<Interval>)
    requires Tokens(k, p, taken)
    ensures Taken(k, taken) && (forall r | r in taken :: r.0 <= r.1 <= |k.text|)
  {
    hide TokenOf;
    forall r | r in taken ensures r.0 <= r.1 <= |k.text| { var i :| 0 <= i < |taken| && taken[i] == r; }
  }

  /** The blanks of one paragraph, as spans: anchored in it, and beside whatever was proposed. */
  lemma BlanksJoin(spots: seq<Spot>, n: nat, occurrences: seq<Occurrence>, tokens: seq<Interval>, taken: seq<Interval>)
    requires Proper(spots) && DistinctSpots(spots) && n < |spots| && Proposed(spots, |spots|, occurrences)
    requires RangesAt(spots[n], tokens, occurrences) && tokens <= taken
      && Taken(KnownOf(spots[n].part, spots[n].node), taken)
    ensures var k := KnownOf(spots[n].part, spots[n].node); var more := taken[|tokens|..];
      && (forall r | r in more :: r.0 <= r.1 <= |k.text|)
      && (forall o | o in SpansIn(k, more) :: AtParagraph(o, k))
      && Proposed(spots, |spots|, occurrences + SpansIn(k, more))
      && RangesAt(spots[n], taken, occurrences + SpansIn(k, more))
  {
    hide WellFormed, Anchored, Proposed, KnownOf, RangesAt, DistinctSpots;
    var k, more := KnownOf(spots[n].part, spots[n].node), taken[|tokens|..];
    forall r | r in more ensures r.0 <= r.1 <= |k.text| { assert r in taken; }
    BlanksAnchored(k, tokens, taken);
    BlanksApart(spots, n, occurrences, tokens, taken);
    BlanksProposed(spots, n, occurrences, SpansIn(k, more));
    BlanksHere(spots[n], occurrences, tokens, taken);
  }

  lemma BlanksAnchored(k: Known, tokens: seq<Interval>, taken: seq<Interval>)
    requires Taken(k, taken) && tokens <= taken && forall r | r in taken[|tokens|..] :: r.0 <= r.1 <= |k.text|
    ensures forall o | o in SpansIn(k, taken[|tokens|..]) :: AtParagraph(o, k) && Anchored(o, k) && o.anchor.SpanAnchor?
    ensures AllCompatible(SpansIn(k, taken[|tokens|..]))
  {
    var more := taken[|tokens|..];
    SpansInAre(k, more);
    var spans := SpansIn(k, more);
    forall o | o in spans ensures AtParagraph(o, k) && Anchored(o, k) && o.anchor.SpanAnchor? {
      var i :| 0 <= i < |spans| && spans[i] == o;
      assert o == SpanOf(k, more[i]) && more[i] == taken[|tokens| + i];
    }
    forall i, j | 0 <= i < j < |spans| ensures Compatible(spans[i], spans[j]) {
      assert more[i] == taken[|tokens| + i] && more[j] == taken[|tokens| + j];
    }
  }

  lemma BlanksApart(spots: seq<Spot>, n: nat, occurrences: seq<Occurrence>, tokens: seq<Interval>, taken: seq<Interval>)
    requires Proper(spots) && n < |spots| && RangesAt(spots[n], tokens, occurrences) && tokens <= taken
    requires Taken(KnownOf(spots[n].part, spots[n].node), taken)
    requires forall r | r in taken[|tokens|..] :: r.0 <= r.1 <= |KnownOf(spots[n].part, spots[n].node).text|
    ensures var k := KnownOf(spots[n].part, spots[n].node);
      forall o, q | o in occurrences && q in SpansIn(k, taken[|tokens|..]) :: Compatible(o, q)
  {
    hide WellFormed, Anchored, KnownOf, Taken, Compatible;
    var k, more := KnownOf(spots[n].part, spots[n].node), taken[|tokens|..];
    SpansInAre(k, more);
    KnownAtSpot(spots[n]);
    forall o, q | o in occurrences && q in SpansIn(k, more) ensures Compatible(o, q) {
      var j :| 0 <= j < |more| && SpansIn(k, more)[j] == q;
      assert more[j] == taken[|tokens| + j];
      if o.anchor.SpanAnchor? && AtParagraph(o, k) {
        assert ProposedRange(occurrences, k, (o.anchor.start, o.anchor.end));
        var i :| 0 <= i < |tokens| && tokens[i] == (o.anchor.start, o.anchor.end);
        TakenApart(k, taken, i, |tokens| + j, o);
      } else {
        OtherAnchor(k, o, more[j]);
      }
    }
  }

  lemma TakenApart(k: Known, taken: seq<Interval>, i: nat, j: nat, o: Occurrence)
    requires Taken(k, taken) && i < j < |taken| && o.anchor == SpanAnchor(k.part, k.id, taken[i].0, taken[i].1)
    ensures taken[j].0 <= taken[j].1 <= |k.text| && Compatible(o, SpanOf(k, taken[j]))
  {
    hide Clear;
  }

  lemma OtherAnchor(k: Known, o: Occurrence, r: Interval)
    requires !(o.anchor.SpanAnchor? && AtParagraph(o, k)) && r.0 <= r.1 <= |k.text|
    ensures Compatible(o, SpanOf(k, r))
  {
  }

  lemma BlanksProposed(spots: seq<Spot>, n: nat, occurrences: seq<Occurrence>, spans: seq<Occurrence>)
    requires Proper(spots) && n < |spots| && Proposed(spots, |spots|, occurrences) && AllCompatible(spans)
    requires var k := KnownOf(spots[n].part, spots[n].node);
      forall o | o in spans :: AtParagraph(o, k) && Anchored(o, k)
    requires forall o, q | o in occurrences && q in spans :: Compatible(o, q)
    ensures Proposed(spots, |spots|, occurrences + spans)
  {
    hide WellFormed, Anchored, Compatible;
    var next := occurrences + spans;
    forall o | o in next ensures exists m :: 0 <= m < |spots| && AnchoredAt(o, spots[m]) {
      if o in spans {
        assert AnchoredAt(o, spots[n]);
      }
    }
    forall i, j | 0 <= i < j < |next| ensures Compatible(next[i], next[j]) {
      if j < |occurrences| {
        assert Compatible(occurrences[i], occurrences[j]);
      } else if i >= |occurrences| {
        assert Compatible(spans[i - |occurrences|], spans[j - |occurrences|]);
      } else {
        assert next[i] in occurrences && next[j] in spans;
      }
    }
    forall m | 0 <= m < |spots|
      ensures forall c | c in ValuesOf(spots[m].node.content) ::
        exists o :: o in next && o.anchor.ControlAnchor? && o.anchor.control == c.0
    {
      forall c | c in ValuesOf(spots[m].node.content)
        ensures exists o :: o in next && o.anchor.ControlAnchor? && o.anchor.control == c.0
      {
        var o :| o in occurrences && o.anchor.ControlAnchor? && o.anchor.control == c.0;
        assert o in next;
      }
    }
  }

  lemma BlanksHere(s: Spot, occurrences: seq<Occurrence>, tokens: seq<Interval>, taken: seq<Interval>)
    requires s.node.Paragraph? && RangesAt(s, tokens, occurrences) && tokens <= taken
    requires forall r | r in taken[|tokens|..] :: r.0 <= r.1 <= |KnownOf(s.part, s.node).text|
    ensures RangesAt(s, taken, occurrences + SpansIn(KnownOf(s.part, s.node), taken[|tokens|..]))
  {
    hide KnownOf;
    var k, more := KnownOf(s.part, s.node), taken[|tokens|..];
    assert taken == tokens + more;
    forall r: Interval ensures r in taken <==> ProposedRange(occurrences + SpansIn(k, more), k, r) {
      RangesJoin(occurrences, SpansIn(k, more), k, r);
      SpansOnly(k, more, r);
    }
  }

  /** `discover`: what `extract` proposes, then the blanks, paragraph by paragraph. */
  method Discover(spots: seq<Spot>, p: Patterns) returns (occurrences: seq<Occurrence>)
    requires Proper(spots) && Sensible(p) && DistinctSpots(spots)
    requires forall m | 0 <= m < |spots| :: DistinctValues(ValuesOf(spots[m].node.content))
    ensures Proposed(spots, |spots|, occurrences) && Complete(spots, |spots|, p, occurrences)
  {
    hide Proposed, CompleteAt, Tokens, Taken, Thorough, RangesAt, WellFormed, Sensible, Anchored, DistinctValues,
      DistinctSpots;
    var occupied;
    occurrences, occupied := Extract(spots, p);
    var n := 0;
    while n < |spots|
      invariant 0 <= n <= |spots| && Proposed(spots, |spots|, occurrences) && Complete(spots, n, p, occurrences)
      invariant forall m | n <= m < |spots| :: RangesAt(spots[m], occupied[m], occurrences)
    {
      assert spots[n] in spots;
      var k := KnownOf(spots[n].part, spots[n].node);
      KnownAtSpot(spots[n]);
      var taken := BlanksBeside(k, spots[n].node, p, occupied[n]);
      BlanksJoin(spots, n, occurrences, occupied[n], taken);
      ghost var spans := SpansIn(k, taken[|occupied[n]|..]);
      ThoroughIs(spots[n], p, taken, occurrences + spans);
      forall m | 0 <= m < n ensures CompleteAt(spots[m], p, occurrences + spans) {
        CompleteElsewhere(spots, n, m, p, occurrences, spans);
      }
      forall m | n < m < |spots| ensures RangesAt(spots[m], occupied[m], occurrences + spans) {
        RangesElsewhere(spots, n, m, occupied[m], occurrences, spans);
      }
      occurrences := occurrences + SpansIn(k, taken[|occupied[n]|..]);
      n := n + 1;
    }
  }

  lemma ThoroughIs(s: Spot, p: Patterns, taken: seq<Interval>, occurrences: seq<Occurrence>)
    requires s.node.Paragraph? && Thorough(KnownOf(s.part, s.node), s.node, p, taken) && RangesAt(s, taken, occurrences)
    ensures CompleteAt(s, p, occurrences)
  {
    hide Thorough, RangesAt;
  }

  lemma AnchoredOk(spots: seq<Spot>, o: Occurrence, m: nat)
    requires Proper(spots) && m < |spots| && AnchoredAt(o, spots[m])
    ensures OccurrenceOk(o, Knowns(spots))
  {
    hide WellFormed, Anchored, Knowns, KnownOf;
    KnownsReverse(spots);
    var k := |spots| - 1 - m;
    assert Knowns(spots)[k] == KnownAt(spots, m);
    AtSpot(o, spots[m]);
  }

  lemma AtSpot(o: Occurrence, s: Spot)
    requires s.node.Paragraph? && AnchoredAt(o, s)
    ensures AtParagraph(o, KnownOf(s.part, s.node)) && Anchored(o, KnownOf(s.part, s.node))
  {
    hide Anchored;
  }

  lemma ProposedAnchored(spots: seq<Spot>, occurrences: seq<Occurrence>)
    requires Proper(spots) && Proposed(spots, |spots|, occurrences)
    ensures forall i | 0 <= i < |occurrences| :: OccurrenceOk(occurrences[i], Knowns(spots))
  {
    hide WellFormed, AnchoredAt, AllCompatible, Knowns, OccurrenceOk;
    forall i | 0 <= i < |occurrences|
      ensures OccurrenceOk(occurrences[i], Knowns(spots))
    {
      assert occurrences[i] in occurrences;
      var m :| 0 <= m < |spots| && AnchoredAt(occurrences[i], spots[m]);
      AnchoredOk(spots, occurrences[i], m);
    }
  }

  lemma {:induction false} ProposedCovers(spots: seq<Spot>, occurrences: seq<Occurrence>, c: Handle)
    requires Proper(spots) && Proposed(spots, |spots|, occurrences) && c in SpotHandles(spots)
    ensures exists i ::
      0 <= i < |occurrences| && occurrences[i].anchor.ControlAnchor? && occurrences[i].anchor.control == c.id
  {
    hide WellFormed, Anchored, AllCompatible, SpotHandles;
    var m := HandleHome(spots, c);
    var v :| v in ValuesOf(spots[m].node.content) && v.0 == c.id;
    var o :| o in occurrences && o.anchor.ControlAnchor? && o.anchor.control == v.0;
    var i :| 0 <= i < |occurrences| && occurrences[i] == o;
  }

  /** What discovery proposes is a valid snapshot that covers every control. */
  lemma {:induction false} ProposedIsValid(model: Node, occurrences: seq<Occurrence>)
    requires model.Doc? && WellFormed(model)
    requires Proper(SpotsIn([], model, 0)) && Proposed(SpotsIn([], model, 0), |SpotsIn([], model, 0)|, occurrences)
    ensures SnapshotOk(KnownIn([], model), occurrences) && AllControls(model, occurrences)
  {
    hide WellFormed, SpotsIn, KnownIn, ControlsOf, Compatible, Anchored, Knowns, SpotHandles, OccurrenceOk, EntriesOf,
      Entries;
    var spots := SpotsIn([], model, 0);
    SpotsAgree([], model, 0);
    ProposedAnchored(spots, occurrences);
    forall c | c in ControlsOf(model)
      ensures exists i ::
        0 <= i < |occurrences| && occurrences[i].anchor.ControlAnchor? && occurrences[i].anchor.control == c.id
    {
      ProposedCovers(spots, occurrences, c);
    }
  }

  lemma {:induction false} HandleHome(spots: seq<Spot>, c: Handle) returns (m: nat)
    requires Proper(spots) && c in SpotHandles(spots)
    ensures m < |spots| && exists v :: v in ValuesOf(spots[m].node.content) && v.0 == c.id
  {
    hide WellFormed;
    if c in FieldHandles(spots[0].node.content) {
      m := 0;
      HandleValue(spots[0].node.content, c);
    } else {
      m := HandleHome(spots[1..], c);
      m := m + 1;
    }
  }

  lemma {:induction false} HandleValue(children: seq<Node>, c: Handle)
    requires c in FieldHandles(children)
    ensures exists v :: v in ValuesOf(children) && v.0 == c.id
  {
    if children[0].Field? && children[0].id == c.id {
      assert (children[0].id, Value(children[0].content)) in ValuesOf(children);
    } else {
      HandleValue(children[1..], c);
      var v :| v in ValuesOf(children[1..]) && v.0 == c.id;
      assert v in ValuesOf(children);
    }
  }

  /** From processing to saving: a document is refused exactly if its index is refused or its paragraphs clash. On any
      other, whatever the patterns match, discovery forgets nothing, its snapshot passes the snapshot's check, every
      proposal attaches in the editor, and the resulting review passes the check on saving. */
  method DiscoverAttachSave(model: Node, p: Patterns)
    returns (sound: bool, occurrences: seq<Occurrence>, items: seq<Item>)
    requires model.Doc? && Sensible(p)
    ensures sound <==> WellFormed(model) && Distinct(ControlsOf(model)) && Sound(KnownIn([], model))
    ensures sound ==> Proper(SpotsIn([], model, 0))
    ensures sound ==> Complete(SpotsIn([], model, 0), |SpotsIn([], model, 0)|, p, occurrences)
    ensures sound ==> SnapshotOk(KnownIn([], model), occurrences) && AllControls(model, occurrences)
    ensures sound ==> |items| == |occurrences|
    ensures sound ==> forall i | 0 <= i < |items| ::
      Attachable(SpotsIn([], model, 0), occurrences[i]) && Becomes(SpotsIn([], model, 0), occurrences[i], items[i])
    ensures sound ==> ReviewOk(items, EntriesOf(model, 0), ByIdentity(ControlsOf(model)))
  {
    hide WellFormed, SpotsIn, KnownIn, ControlsOf, EntriesOf, ByIdentity, Distinct, Sensible, Proposed, Complete,
      SnapshotOk, ReviewOk, AllControls, AttachOne, Knowns, Sound, DistinctSpots, Attachable, Becomes;
    var indexed := Index(model);
    if indexed.None? {
      return false, [], [];
    }
    var spots := SpotsIn([], model, 0);
    SpotsAgree([], model, 0);
    var known := Paragraphs(model);
    if known.None? {
      return false, [], [];
    }
    SoundSpots(spots);
    SoundValues(spots);
    occurrences := Discover(spots, p);
    ProposedIsValid(model, occurrences);
    var valid := ValidateSnapshot(known.value, occurrences);
    ghost var expected := DiscoveryAttaches(model, occurrences);
    forall o | o in occurrences ensures Attachable(spots, o) {
      var i :| 0 <= i < |occurrences| && occurrences[i] == o;
    }
    var attached := AttachReview(model, occurrences);
    assert valid && attached.Some? && attached.value == expected;
    items := attached.value;
    var accepted := ValidateWorking(model, items);
    sound := accepted;
  }

  lemma SoundValues(spots: seq<Spot>)
    requires Proper(spots) && Sound(Knowns(spots))
    ensures forall m | 0 <= m < |spots| :: DistinctValues(ValuesOf(spots[m].node.content))
  {
    hide WellFormed, DistinctValues;
    KnownsReverse(spots);
    forall m | 0 <= m < |spots|
      ensures DistinctValues(ValuesOf(spots[m].node.content))
    {
      assert DistinctValues(KnownAt(spots, m).controls);
    }
  }
}
