/** Underlined blanks: the streaming merge of runs of spaces, and the runs it is meant to find. */
module Blanks {
  import opened Common
  import opened DocumentModel
  import opened FieldAnchors

  const SHORTEST: nat := 3

  /** A space or a no-break space. */
  predicate IsSpace(c: char) {
    c == ' ' || c == '\U{00A0}'
  }

  /** Only the source mark counts; formatting chosen in the editor does not. */
  predicate Underlined(n: Node) {
    n.Text? && n.source.Some? && n.source.value.style.underline
  }

  // ----- the runs that should be found

  /** One step along a paragraph: a character that is or is not an underlined space, or the edge of a child that is no
      text. */
  datatype Event = Letter(space: bool) | Edge

  function LettersOf(s: string, underlined: bool): seq<Event> {
    seq(|s|, i requires 0 <= i < |s| => Letter(underlined && IsSpace(s[i])))
  }

  function EventsOf(n: Node): seq<Event> {
    if n.Text? then LettersOf(n.text, Underlined(n)) else [Edge] + LettersOf(Chars(n), false)
  }

  function Events(children: seq<Node>): seq<Event> {
    if children == [] then [] else EventsOf(children[0]) + Events(children[1..])
  }

  /** Which characters are underlined spaces. */
  function Mask(events: seq<Event>): seq<bool> {
    if events == [] then [] else
    Mask(events[..|events| - 1]) + match events[|events| - 1] case Letter(space) => [space] case Edge => []
  }

  /** The offsets at which a child that is no text begins. */
  function Edges(events: seq<Event>): set<nat> {
    if events == [] then {} else
    Edges(events[..|events| - 1])
      + if events[|events| - 1].Edge? then {|Mask(events[..|events| - 1])|} else {}
  }

  /** A range of underlined spaces that no edge divides. */
  ghost predicate Unbroken(mask: seq<bool>, edges: set<nat>, r: Interval) {
    && r.0 < r.1 <= |mask|
    && (forall k | r.0 <= k < r.1 :: mask[k])
    && (forall k | r.0 < k < r.1 :: k !in edges)
  }

  ghost predicate LeftMaximal(mask: seq<bool>, edges: set<nat>, r: Interval)
    requires r.0 <= |mask|
  {
    r.0 == 0 || !mask[r.0 - 1] || r.0 in edges
  }

  /** The run cannot go on: something else follows, or an edge stands there. */
  ghost predicate Closed(mask: seq<bool>, edges: set<nat>, r: Interval)
    requires r.1 <= |mask|
  {
    (r.1 < |mask| && !mask[r.1]) || r.1 in edges
  }

  ghost predicate MaximalRun(mask: seq<bool>, edges: set<nat>, r: Interval) {
    && Unbroken(mask, edges, r) && LeftMaximal(mask, edges, r)
    && (r.1 == |mask| || Closed(mask, edges, r))
  }

  // ----- the same, told from the text

  /** The `k`th character of a paragraph is a space or no-break space of its `i`th child, a text whose source is
      underlined. */
  ghost predicate BlankOf(children: seq<Node>, i: int, k: int) {
    && 0 <= i < |children| && children[i].Text? && children[i].source.Some? && children[i].source.value.style.underline
    && |TextOf(children[..i])| <= k < |TextOf(children[..i])| + |children[i].text|
    && children[i].text[k - |TextOf(children[..i])|] in {' ', '\U{00A0}'}
  }

  ghost predicate BlankAt(children: seq<Node>, k: int) {
    exists i :: BlankOf(children, i, k)
  }

  /** A child that is no text begins behind `k` characters. */
  ghost predicate EdgeAt(children: seq<Node>, k: int) {
    exists i :: 0 <= i < |children| && !children[i].Text? && k == |TextOf(children[..i])|
  }

  /** At least three blank characters with nothing between them but the boundaries of texts, and no more of them on
      either side. */
  ghost predicate BlankRun(children: seq<Node>, r: Interval) {
    && r.0 + 3 <= r.1 <= |TextOf(children)|
    && (forall k | r.0 <= k < r.1 :: BlankAt(children, k))
    && (forall k | r.0 < k < r.1 :: !EdgeAt(children, k))
    && (r.0 == 0 || !BlankAt(children, r.0 - 1) || EdgeAt(children, r.0))
    && (r.1 == |TextOf(children)| || !BlankAt(children, r.1) || EdgeAt(children, r.1))
  }

  // ----- one pass over the characters

  /** The runs already given out, and where the current one began. */
  datatype Scan = Scan(found: seq<Interval>, open: Option<nat>)

  function Flush(s: Scan, offset: nat): seq<Interval> {
    if s.open.Some? && s.open.value + SHORTEST <= offset then s.found + [(s.open.value, offset)] else s.found
  }

  function ScanOf(events: seq<Event>): Scan {
    if events == [] then Scan([], None) else
    var before := ScanOf(events[..|events| - 1]);
    var offset := |Mask(events[..|events| - 1])|;
    if events[|events| - 1] == Letter(true) then
      Scan(before.found, Some(if before.open.Some? then before.open.value else offset))
    else Scan(Flush(before, offset), None)
  }

  /** The runs of a paragraph, by the simple pass. */
  function RunsOf(events: seq<Event>): seq<Interval> {
    Flush(ScanOf(events), |Mask(events)|)
  }

  /** What the pass has found are the closed maximal runs of at least three; the open one is the run up to here. */
  ghost predicate Scanned(mask: seq<bool>, edges: set<nat>, s: Scan) {
    && (forall r: Interval :: r in s.found <==>
          Unbroken(mask, edges, r) && LeftMaximal(mask, edges, r) && Closed(mask, edges, r) && r.0 + SHORTEST <= r.1)
    && (s.open.Some? ==>
         Unbroken(mask, edges, (s.open.value, |mask|)) && LeftMaximal(mask, edges, (s.open.value, |mask|))
                         && |mask| !in edges)
    && (s.open.None? ==> |mask| == 0 || !mask[|mask| - 1] || |mask| in edges)
    && (forall i, k | 0 <= i < k < |s.found| :: s.found[i].1 <= s.found[k].0)
    && (forall r | r in s.found :: r.0 < r.1 && r.1 <= if s.open.Some? then s.open.value else |mask|)
  }

  lemma {:induction false} EdgesWithin(events: seq<Event>)
    ensures forall k | k in Edges(events) :: k <= |Mask(events)|
  {
    if events != [] {
      EdgesWithin(events[..|events| - 1]);
    }
  }

  lemma SpaceStep(mask: seq<bool>, edges: set<nat>, s: Scan)
    requires Scanned(mask, edges, s) && forall k | k in edges :: k <= |mask|
    ensures Scanned(mask + [true], edges, Scan(s.found, Some(if s.open.Some? then s.open.value else |mask|)))
  {
    var next, t := mask + [true], Scan(s.found, Some(if s.open.Some? then s.open.value else |mask|));
    forall r: Interval
      ensures r in t.found <==>
        Unbroken(next, edges, r) && LeftMaximal(next, edges, r) && Closed(next, edges, r) && r.0 + SHORTEST <= r.1
    {
      if r.1 <= |mask| {
        assert forall k | 0 <= k < |mask| :: next[k] == mask[k];
        assert Unbroken(next, edges, r) <==> Unbroken(mask, edges, r);
      }
    }
  }

  /** What a stop adds: the open run, if it is long enough. */
  lemma OpenRun(mask: seq<bool>, edges: set<nat>, s: Scan, r: Interval)
    requires Scanned(mask, edges, s) && r.1 == |mask| && |mask| !in edges
    ensures Unbroken(mask, edges, r) && LeftMaximal(mask, edges, r) <==> s.open == Some(r.0)
  {
    if Unbroken(mask, edges, r) && LeftMaximal(mask, edges, r) {
      assert mask[|mask| - 1];
      var o := s.open.value;
      assert forall k | o <= k < |mask| :: mask[k] && (o < k ==> k !in edges);
      assert forall k | r.0 <= k < |mask| :: mask[k] && (r.0 < k ==> k !in edges);
    }
  }

  lemma OtherStep(mask: seq<bool>, edges: set<nat>, s: Scan)
    requires Scanned(mask, edges, s) && forall k | k in edges :: k <= |mask|
    ensures Scanned(mask + [false], edges, Scan(Flush(s, |mask|), None))
  {
    var next, t := mask + [false], Scan(Flush(s, |mask|), None);
    forall r: Interval
      ensures r in t.found <==>
        Unbroken(next, edges, r) && LeftMaximal(next, edges, r) && Closed(next, edges, r) && r.0 + SHORTEST <= r.1
    {
      if r.1 <= |mask| {
        assert forall k | 0 <= k < |mask| :: next[k] == mask[k];
        assert Unbroken(next, edges, r) <==> Unbroken(mask, edges, r);
      }
      if r.1 == |mask| && |mask| !in edges {
        OpenRun(mask, edges, s, r);
        assert r !in s.found;
      }
    }
  }

  lemma EdgeStep(mask: seq<bool>, edges: set<nat>, s: Scan)
    requires Scanned(mask, edges, s) && forall k | k in edges :: k <= |mask|
    ensures Scanned(mask, edges + {|mask|}, Scan(Flush(s, |mask|), None))
  {
    var next, t := edges + {|mask|}, Scan(Flush(s, |mask|), None);
    forall r: Interval
      ensures r in t.found <==>
        Unbroken(mask, next, r) && LeftMaximal(mask, next, r) && Closed(mask, next, r) && r.0 + SHORTEST <= r.1
    {
      assert Unbroken(mask, next, r) <==> Unbroken(mask, edges, r);
      if r.1 == |mask| && |mask| !in edges {
        OpenRun(mask, edges, s, r);
        assert r !in s.found;
      }
    }
  }

  lemma NothingScanned()
    ensures Scanned([], {}, Scan([], None))
  {
  }

  lemma {:induction false} ScanIsScanned(events: seq<Event>)
    ensures Scanned(Mask(events), Edges(events), ScanOf(events))
  {
    hide Scanned;
    if events == [] {
      NothingScanned();
    } else {
      var before := events[..|events| - 1];
      ScanIsScanned(before);
      EdgesWithin(before);
      match events[|events| - 1] {
        case Letter(space) =>
          assert Edges(events) == Edges(before);
          if space {
            SpaceStep(Mask(before), Edges(before), ScanOf(before));
          } else {
            OtherStep(Mask(before), Edges(before), ScanOf(before));
          }
        case Edge =>
          assert Mask(events) == Mask(before);
          EdgeStep(Mask(before), Edges(before), ScanOf(before));
      }
    }
  }

  /** The pass yields exactly the maximal runs of at least three underlined spaces, in order and apart. */
  lemma {:induction false} RunsAreMaximal(events: seq<Event>)
    ensures forall r: Interval :: r in RunsOf(events) <==>
      MaximalRun(Mask(events), Edges(events), r) && r.0 + SHORTEST <= r.1
    ensures forall i, k | 0 <= i < k < |RunsOf(events)| :: RunsOf(events)[i].1 <= RunsOf(events)[k].0
  {
    var mask, edges, s := Mask(events), Edges(events), ScanOf(events);
    ScanIsScanned(events);
    forall r: Interval
      ensures r in RunsOf(events) <==> MaximalRun(mask, edges, r) && r.0 + SHORTEST <= r.1
    {
      if r.1 == |mask| && |mask| !in edges {
        OpenRun(mask, edges, s, r);
        assert r !in s.found;
      }
    }
  }

  // ----- the streaming merge

  /** Where the run of spaces from `i` ends. */
  function RunEnd(s: string, i: nat): (end: nat)
    requires i <= |s|
    ensures i <= end <= |s| && (forall k | i <= k < end :: IsSpace(s[k])) && (end < |s| ==> !IsSpace(s[end]))
    decreases |s| - i
  {
    if i < |s| && IsSpace(s[i]) then RunEnd(s, i + 1) else i
  }

  /** The matches of the pattern for spaces, from `i` on. */
  function Matches(s: string, i: nat): seq<Interval>
    requires i <= |s|
    decreases |s| - i
  {
    if i == |s| then [] else
    if IsSpace(s[i]) then [(i, RunEnd(s, i))] + Matches(s, RunEnd(s, i)) else Matches(s, i + 1)
  }

  /** The first match from `i` on, and that nothing before it is a space. */
  lemma {:induction false} FirstMatch(s: string, i: nat)
    requires i <= |s|
    ensures Matches(s, i) == [] ==> forall k | i <= k < |s| :: !IsSpace(s[k])
    ensures Matches(s, i) != [] ==>
      var (start, end) := Matches(s, i)[0];
      && i <= start < end <= |s| && (forall k | i <= k < start :: !IsSpace(s[k]))
      && (forall k | start <= k < end :: IsSpace(s[k]))
      && Matches(s, i)[1..] == Matches(s, end)
      && (end < |s| ==> !IsSpace(s[end]))
    decreases |s| - i
  {
    if i < |s| && !IsSpace(s[i]) {
      FirstMatch(s, i + 1);
    }
  }

  lemma {:induction false} MaskConcat(a: seq<Event>, b: seq<Event>)
    ensures Mask(a + b) == Mask(a) + Mask(b)
  {
    if b == [] {
      assert a + b == a;
    } else {
      assert (a + b)[..|a + b| - 1] == a + b[..|b| - 1];
      MaskConcat(a, b[..|b| - 1]);
    }
  }

  lemma ScanNext(events: seq<Event>, e: Event)
    ensures ScanOf(events + [e]) ==
      if e == Letter(true) then
        Scan(ScanOf(events).found,
          Some(if ScanOf(events).open.Some? then ScanOf(events).open.value else |Mask(events)|))
      else Scan(Flush(ScanOf(events), |Mask(events)|), None)
    ensures |Mask(events + [e])| == |Mask(events)| + if e.Edge? then 0 else 1
  {
    assert (events + [e])[..|events|] == events;
  }

  /** A stretch of spaces opens a run or continues it. */
  lemma {:induction false} ScanSpaces(events: seq<Event>, n: nat)
    requires n > 0
    ensures var next := events + seq(n, i => Letter(true));
      && |Mask(next)| == |Mask(events)| + n
      && ScanOf(next) ==
         Scan(ScanOf(events).found,
           Some(if ScanOf(events).open.Some? then ScanOf(events).open.value else |Mask(events)|))
  {
    ScanNext(events, Letter(true));
    if n == 1 {
      assert seq(n, i => Letter(true)) == [Letter(true)];
    } else {
      ScanSpaces(events, n - 1);
      var before := events + seq(n - 1, i => Letter(true));
      ScanNext(before, Letter(true));
      assert events + seq(n, i => Letter(true)) == before + [Letter(true)];
    }
  }

  /** A stretch of other characters ends the run. */
  lemma {:induction false} ScanOthers(events: seq<Event>, n: nat)
    requires n > 0
    ensures var next := events + seq(n, i => Letter(false));
      |Mask(next)| == |Mask(events)| + n && ScanOf(next) == Scan(Flush(ScanOf(events), |Mask(events)|), None)
  {
    ScanNext(events, Letter(false));
    if n == 1 {
      assert seq(n, i => Letter(false)) == [Letter(false)];
    } else {
      ScanOthers(events, n - 1);
      var before := events + seq(n - 1, i => Letter(false));
      ScanNext(before, Letter(false));
      assert events + seq(n, i => Letter(false)) == before + [Letter(false)];
    }
  }

  /** The merge's variables and the simple pass agree: a pending range that has ended is given out later. */
  ghost predicate Merging(runs: seq<Interval>, pending: Option<Interval>, events: seq<Event>) {
    var s, offset := ScanOf(events), |Mask(events)|;
    && (pending.Some? ==> pending.value.0 < pending.value.1 <= offset)
    && s.open == (if pending.Some? && pending.value.1 == offset then Some(pending.value.0) else None)
    && s.found == (if pending.Some? && pending.value.1 < offset then Given(runs, pending) else runs)
  }

  /** The runs after the pending range is given out, if it is long enough. */
  function Given(runs: seq<Interval>, pending: Option<Interval>): seq<Interval> {
    if pending.Some? && pending.value.0 + SHORTEST <= pending.value.1 then runs + [pending.value] else runs
  }

  lemma MergeMatch(runs: seq<Interval>, pending: Option<Interval>, events: seq<Event>, gap: nat, n: nat)
    requires Merging(runs, pending, events) && n > 0
    ensures var next := events + seq(gap, i => Letter(false)) + seq(n, i => Letter(true));
      var start := |Mask(events)| + gap;
      if pending.Some? && pending.value.1 == start then Merging(runs, Some((pending.value.0, start + n)), next)
      else Merging(Given(runs, pending), Some((start, start + n)), next)
  {
    var middle := events + seq(gap, i => Letter(false));
    if gap > 0 {
      ScanOthers(events, gap);
    } else {
      assert middle == events;
    }
    ScanSpaces(middle, n);
  }

  lemma MergeOthers(runs: seq<Interval>, pending: Option<Interval>, events: seq<Event>, gap: nat)
    requires Merging(runs, pending, events)
    ensures Merging(runs, pending, events + seq(gap, i => Letter(false)))
  {
    if gap > 0 {
      ScanOthers(events, gap);
    } else {
      assert events + seq(gap, i => Letter(false)) == events;
    }
  }

  lemma MergeFlush(runs: seq<Interval>, pending: Option<Interval>, events: seq<Event>)
    requires Merging(runs, pending, events) && !(pending.Some? && pending.value.1 == |Mask(events)|)
    ensures Merging(Given(runs, pending), None, events)
  {
  }

  lemma MergeEdge(runs: seq<Interval>, pending: Option<Interval>, events: seq<Event>, n: nat)
    requires Merging(runs, pending, events)
    ensures Merging(Given(runs, pending), None, events + ([Edge] + seq(n, i => Letter(false))))
    ensures |Mask(events + ([Edge] + seq(n, i => Letter(false))))| == |Mask(events)| + n
  {
    ScanNext(events, Edge);
    var edged := events + [Edge];
    if n > 0 {
      ScanOthers(edged, n);
    } else {
      assert edged + seq(n, i => Letter(false)) == edged;
    }
    assert events + ([Edge] + seq(n, i => Letter(false))) == edged + seq(n, i => Letter(false));
  }

  lemma LettersSplit(s: string, i: nat, k: nat, m: nat)
    requires i <= k <= m <= |s| && (forall j | i <= j < k :: !IsSpace(s[j])) && (forall j | k <= j < m :: IsSpace(s[j]))
    ensures LettersOf(s[..m], true) == LettersOf(s[..i], true) + seq(k - i, j => Letter(false)) +
      seq(m - k, j => Letter(true))
  {
  }

  lemma PlainLetters(s: string)
    ensures LettersOf(s, false) == seq(|s|, i => Letter(false))
  {
  }

  lemma {:induction false} EventsConcat(a: seq<Node>, b: seq<Node>)
    ensures Events(a + b) == Events(a) + Events(b)
  {
    hide EventsOf;
    if a == [] {
      assert a + b == b;
    } else {
      assert (a + b)[1..] == a[1..] + b;
      EventsConcat(a[1..], b);
    }
  }

  lemma EventsNext(children: seq<Node>, i: nat)
    requires i < |children|
    ensures Events(children[..i + 1]) == Events(children[..i]) + EventsOf(children[i])
  {
    hide EventsOf;
    assert children[..i + 1] == children[..i] + [children[i]];
    EventsConcat(children[..i], [children[i]]);
    assert [children[i]][1..] == [];
  }

  /** The matches of one underlined text, merged into the pending range. */
  method MergeText(text: string, offset: nat, runs0: seq<Interval>, pending0: Option<Interval>,
                   ghost before: seq<Event>)
    returns (runs: seq<Interval>, pending: Option<Interval>)
    requires Merging(runs0, pending0, before) && offset == |Mask(before)|
    ensures Merging(runs, pending, before + LettersOf(text, true))
      && |Mask(before + LettersOf(text, true))| == offset + |text|
  {
    hide Merging, Mask, ScanOf, LettersOf, Matches;
    runs, pending := runs0, pending0;
    var matches := Matches(text, 0);
    ghost var cursor: nat := 0;
    assert before + LettersOf(text[..0], true) == before by { NoLetters(text, before); }
    var i := 0;
    while i < |matches|
      invariant 0 <= i <= |matches| && cursor <= |text| && matches[i..] == Matches(text, cursor)
      invariant Merging(runs, pending, before + LettersOf(text[..cursor], true))
    {
      FirstMatch(text, cursor);
      var start, end := offset + matches[i].0, offset + matches[i].1;
      ghost var events := before + LettersOf(text[..cursor], true);
      LettersMask(text[..cursor], before);
      MergeMatch(runs, pending, events, matches[i].0 - cursor, matches[i].1 - matches[i].0);
      LettersSplit(text, cursor, matches[i].0, matches[i].1);
      assert events + seq(matches[i].0 - cursor, j => Letter(false)) +
        seq(matches[i].1 - matches[i].0, j => Letter(true))
          == before + LettersOf(text[..matches[i].1], true);
      if pending.Some? && pending.value.1 == start {
        pending := Some((pending.value.0, end));
      } else {
        runs := Given(runs, pending);
        pending := Some((start, end));
      }
      cursor := matches[i].1;
      i := i + 1;
    }
    FirstMatch(text, cursor);
    MergeOthers(runs, pending, before + LettersOf(text[..cursor], true), |text| - cursor);
    LettersSplit(text, cursor, |text|, |text|);
    assert text[..|text|] == text;
    assert before + LettersOf(text[..cursor], true) + seq(|text| - cursor, j => Letter(false)) == before +
      LettersOf(text, true);
    LettersMask(text, before);
  }

  lemma NoLetters(s: string, before: seq<Event>)
    ensures before + LettersOf(s[..0], true) == before
  {
  }

  lemma {:induction false} LettersMask(s: string, before: seq<Event>)
    ensures |Mask(before + LettersOf(s, true))| == |Mask(before)| + |s|
  {
    if s == [] {
      assert before + LettersOf(s, true) == before;
    } else {
      var n := |s| - 1;
      LettersMask(s[..n], before);
      assert before + LettersOf(s, true) == (before + LettersOf(s[..n], true)) + [Letter(IsSpace(s[n]))];
      ScanNext(before + LettersOf(s[..n], true), Letter(IsSpace(s[n])));
    }
  }

  lemma PlainMask(before: seq<Event>, n: nat)
    ensures |Mask(before + seq(n, i => Letter(false)))| == |Mask(before)| + n
  {
    if n > 0 {
      ScanOthers(before, n);
    } else {
      assert before + seq(n, i => Letter(false)) == before;
    }
  }

  lemma NothingMerged()
    ensures Merging([], None, Events([])) && |Mask(Events([]))| == 0
  {
  }

  lemma MergeDone(runs: seq<Interval>, pending: Option<Interval>, events: seq<Event>)
    requires Merging(runs, pending, events) && (pending.Some? ==> pending.value.1 == |Mask(events)|)
    ensures Given(runs, pending) == RunsOf(events)
  {
  }

  // ----- the runs, told from the text

  lemma TextLast(children: seq<Node>)
    requires children != []
    ensures var n := |children| - 1; TextOf(children) == TextOf(children[..n]) + Chars(children[n])
  {
    hide Chars;
    var n := |children| - 1;
    assert children == children[..n] + [children[n]];
    TextConcat(children[..n], [children[n]]);
    assert [children[n]][1..] == [] && TextOf([children[n]]) == Chars(children[n]) + TextOf([]);
  }

  lemma {:induction false} TextConcat(a: seq<Node>, b: seq<Node>)
    ensures TextOf(a + b) == TextOf(a) + TextOf(b)
  {
    hide Chars;
    if a == [] {
      assert a + b == b;
    } else {
      assert (a + b)[1..] == a[1..] + b;
      TextConcat(a[1..], b);
    }
  }

  /** Which characters of a text are underlined spaces. */
  function SpacesOf(s: string, underlined: bool): seq<bool> {
    seq(|s|, j requires 0 <= j < |s| => underlined && IsSpace(s[j]))
  }

  /** What the last child adds. */
  lemma LastEvents(children: seq<Node>)
    requires children != []
    ensures var n := |children| - 1; var a := Events(children[..n]);
      && Mask(Events(children)) == Mask(a) + SpacesOf(Chars(children[n]), Underlined(children[n]))
      && Edges(Events(children)) == Edges(a) + if children[n].Text? then {} else {|Mask(a)|}
  {
    hide Mask, Edges, Events, LettersOf, TextOf, SpacesOf, EventsOf, Chars, Underlined;
    var n := |children| - 1;
    var a, c := Events(children[..n]), children[n];
    EventsNext(children, n);
    OwnEvents(c);
    assert children[..n + 1] == children;
    var letters := LettersOf(Chars(c), Underlined(c));
    if c.Text? {
      assert a + ([] + letters) == a + letters;
      LettersRead(a, Chars(c), Underlined(c));
    } else {
      assert a + ([Edge] + letters) == (a + [Edge]) + letters;
      EdgeRead(a);
      LettersRead(a + [Edge], Chars(c), Underlined(c));
    }
  }

  lemma OwnEvents(c: Node)
    ensures EventsOf(c) == (if c.Text? then [] else [Edge]) + LettersOf(Chars(c), Underlined(c))
    ensures c.Text? ==> Chars(c) == c.text
    ensures !c.Text? ==> !Underlined(c)
  {
    hide LettersOf, Value;
    if c.Text? {
      assert [] + LettersOf(c.text, Underlined(c)) == LettersOf(c.text, Underlined(c));
    }
  }

  lemma EdgeRead(a: seq<Event>)
    ensures Mask(a + [Edge]) == Mask(a) && Edges(a + [Edge]) == Edges(a) + {|Mask(a)|}
  {
    assert (a + [Edge])[..|a|] == a;
  }

  lemma LetterRead(a: seq<Event>, space: bool)
    ensures Mask(a + [Letter(space)]) == Mask(a) + [space] && Edges(a + [Letter(space)]) == Edges(a)
  {
    assert (a + [Letter(space)])[..|a|] == a;
  }

  lemma {:induction false} LettersRead(before: seq<Event>, s: string, underlined: bool)
    ensures Mask(before + LettersOf(s, underlined)) == Mask(before) + SpacesOf(s, underlined)
    ensures Edges(before + LettersOf(s, underlined)) == Edges(before)
  {
    hide Mask, Edges, IsSpace;
    if s == [] {
      assert before + LettersOf(s, underlined) == before && Mask(before) + SpacesOf(s, underlined) == Mask(before);
    } else {
      var n := |s| - 1;
      LettersRead(before, s[..n], underlined);
      var events, space := before + LettersOf(s[..n], underlined), underlined && IsSpace(s[n]);
      assert before + LettersOf(s, underlined) == events + [Letter(space)];
      LetterRead(events, space);
      assert SpacesOf(s, underlined) == SpacesOf(s[..n], underlined) + [space];
    }
  }

  lemma {:induction false} MaskMeans(children: seq<Node>)
    ensures |Mask(Events(children))| == |TextOf(children)|
    ensures forall k | 0 <= k < |TextOf(children)| :: Mask(Events(children))[k] <==> BlankAt(children, k)
    ensures forall k: nat :: k in Edges(Events(children)) <==> EdgeAt(children, k)
    decreases |children|
  {
    hide Mask, Edges, Events, Chars;
    if children == [] {
      NothingBlank();
    } else {
      var n := |children| - 1;
      MaskMeans(children[..n]);
      LastEvents(children);
      TextLast(children);
      forall k ensures EdgeAt(children, k) <==>
        EdgeAt(children[..n], k) || (!children[n].Text? && k == |TextOf(children[..n])|)
      {
        EdgeLast(children, k);
      }
      forall k | 0 <= k < |TextOf(children)|
        ensures Mask(Events(children))[k] <==> BlankAt(children, k)
      {
        BlankLast(children, k);
        var offset := |TextOf(children[..n])|;
        if k >= offset {
          assert Mask(Events(children))[k] == SpacesOf(Chars(children[n]), Underlined(children[n]))[k - offset];
        }
      }
    }
  }

  lemma NothingBlank()
    ensures Mask(Events([])) == [] && TextOf([]) == [] && Edges(Events([])) == {}
  {
  }

  lemma EdgeLast(children: seq<Node>, k: int)
    requires children != []
    ensures var n := |children| - 1;
      EdgeAt(children, k) <==> EdgeAt(children[..n], k) || (!children[n].Text? && k == |TextOf(children[..n])|)
  {
    var n := |children| - 1;
    assert forall i | 0 <= i < n :: children[..n][..i] == children[..i];
    if EdgeAt(children[..n], k) {
      var i :| 0 <= i < n && !children[..n][i].Text? && k == |TextOf(children[..n][..i])|;
      assert !children[i].Text? && k == |TextOf(children[..i])|;
    }
    if EdgeAt(children, k) {
      var i :| 0 <= i <= n && !children[i].Text? && k == |TextOf(children[..i])|;
      assert i < n ==> !children[..n][i].Text? && k == |TextOf(children[..n][..i])|;
    }
  }

  lemma BlankLast(children: seq<Node>, k: int)
    requires children != [] && 0 <= k < |TextOf(children)|
    ensures var n := |children| - 1; var offset := |TextOf(children[..n])|;
      BlankAt(children, k) <==>
        if k < offset then BlankAt(children[..n], k)
        else k - offset < |Chars(children[n])| && Underlined(children[n]) && IsSpace(Chars(children[n])[k - offset])
  {
    hide TextOf, Chars, BlankOf, BlankAt, Underlined, IsSpace;
    TextLast(children);
    LastBlank(children, k);
    FrontBlank(children, k);
  }

  /** A blank of the front is one of the whole, and the other way round unless it is one of the last child. */
  lemma FrontBlank(children: seq<Node>, k: int)
    requires children != []
    ensures var n := |children| - 1;
      && (BlankAt(children, k) <==> BlankAt(children[..n], k) || BlankOf(children, n, k))
      && (BlankAt(children[..n], k) ==> k < |TextOf(children[..n])|)
      && (BlankOf(children, n, k) ==> |TextOf(children[..n])| <= k)
  {
    hide TextOf, Chars, BlankOf, Underlined, IsSpace;
    var n := |children| - 1;
    var front := children[..n];
    if i :| BlankOf(children, i, k) {
      BlankInside(children, i, k);
      if i < n {
        EarlierBlank(children, i, k);
      }
    }
    if i :| BlankOf(front, i, k) {
      BlankInside(front, i, k);
      EarlierBlank(children, i, k);
    }
    if BlankOf(children, n, k) {
      BlankInside(children, n, k);
    }
  }

  lemma BlankInside(children: seq<Node>, i: int, k: int)
    requires BlankOf(children, i, k)
    ensures 0 <= i < |children| && |TextOf(children[..i])| <= k
  {
  }

  lemma EarlierBlank(children: seq<Node>, i: nat, k: int)
    requires i < |children| - 1
    ensures var front := children[..|children| - 1];
      (BlankOf(children, i, k) <==> BlankOf(front, i, k)) && (BlankOf(front, i, k) ==> k < |TextOf(front)|)
  {
    hide TextOf;
    var n := |children| - 1;
    assert children[..n][..i] == children[..i];
    if children[i].Text? {
      TextUpTo(children, i, n);
    }
  }

  lemma TextUpTo(children: seq<Node>, i: nat, n: nat)
    requires i < n <= |children| && children[i].Text?
    ensures |TextOf(children[..i])| + |children[i].text| <= |TextOf(children[..n])|
  {
    hide TextOf;
    TextLast(children[..i + 1]);
    assert children[..i + 1][..i] == children[..i];
    assert children[..n] == children[..i + 1] + children[i + 1..n];
    TextConcat(children[..i + 1], children[i + 1..n]);
  }

  lemma LastBlank(children: seq<Node>, k: int)
    requires children != []
    ensures var n := |children| - 1; var j, c := k - |TextOf(children[..n])|, children[n];
      BlankOf(children, n, k) <==> 0 <= j < |Chars(c)| && Underlined(c) && IsSpace(Chars(c)[j])
  {
    hide TextOf, Value;
    var c := children[|children| - 1];
    if c.Text? {
      assert Chars(c) == c.text;
    }
  }

  /** The runs found are the blank runs of the text. */
  lemma RunsAreBlank(children: seq<Node>)
    ensures forall r: Interval :: r in RunsOf(Events(children)) <==> BlankRun(children, r)
  {
    hide BlankAt, EdgeAt, RunsOf, Mask, Edges, Events;
    MaskMeans(children);
    RunsAreMaximal(Events(children));
    forall r: Interval
      ensures r in RunsOf(Events(children)) <==> BlankRun(children, r)
    {
    }
  }

  /** `underlined`: one pass over the children, merging matches that meet across text nodes. It finds each blank run of
      the text, in order. */
  method UnderlinedRuns(children: seq<Node>) returns (runs: seq<Interval>)
    requires forall c | c in children && c.Text? :: c.text != []
    ensures runs == RunsOf(Events(children))
    ensures forall r: Interval :: r in runs <==> BlankRun(children, r)
    ensures forall i, k | 0 <= i < k < |runs| :: runs[i].1 <= runs[k].0
  {
    hide Merging, Mask, ScanOf, LettersOf, Events, Chars, BlankRun, RunsOf;
    RunsAreBlank(children);
    RunsAreMaximal(Events(children));
    runs := [];
    var offset: nat, pending: Option<Interval> := 0, None;
    NothingMerged();
    var i := 0;
    assert children[..0] == [];
    while i < |children|
      invariant 0 <= i <= |children| && offset == |Mask(Events(children[..i]))|
      invariant Merging(runs, pending, Events(children[..i]))
      invariant pending.Some? ==> pending.value.1 == offset
    {
      var child := children[i];
      ghost var before := Events(children[..i]);
      EventsNext(children, i);
      var keep := false;
      if child.Text? {
        if Underlined(child) {
          runs, pending := MergeText(child.text, offset, runs, pending, before);
        } else {
          PlainLetters(child.text);
          MergeOthers(runs, pending, before, |child.text|);
          PlainMask(before, |child.text|);
        }
        offset := offset + |child.text|;
        keep := Underlined(child) && pending.Some? && pending.value.1 == offset;
        if !keep {
          MergeFlush(runs, pending, before + EventsOf(child));
        }
      } else {
        PlainLetters(Chars(child));
        MergeEdge(runs, pending, before, |Chars(child)|);
        offset := offset + |Chars(child)|;
      }
      if !keep {
        runs, pending := Given(runs, pending), None;
      }
      i := i + 1;
    }
    assert children[..i] == children;
    MergeDone(runs, pending, Events(children));
    runs := Given(runs, pending);
  }
}
