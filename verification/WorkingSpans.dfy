/** What the save validator accepts: spans of one paragraph's text, pairwise disjoint, and every control accounted
    for. */
module WorkingSpans {
  import opened Common
  import opened Utf16
  import opened DocumentModel
  import opened WorkingIndex

  // ----- the simple specification

  /** A paragraph's positions one by one: the unit there, or nothing where a child is no text. */
  function Tape(children: seq<Node>): seq<Option<Unit>> {
    if children == [] then [] else Cells(children[0]) + Tape(children[1..])
  }

  function Cells(n: Node): seq<Option<Unit>> {
    if n.Text? then Somes(Encode(n.text)) else seq(Size(n), i => None)
  }

  function Somes(u: seq<Unit>): seq<Option<Unit>> {
    seq(|u|, i requires 0 <= i < |u| => Some(u[i]))
  }

  /** Paragraph `n` at `position` holds the range, the range meets only text, and its text is `text`. An empty range is
      allowed only in an empty paragraph. */
  ghost predicate Spans(n: Node, position: nat, from: nat, to: nat, text: string)
    requires n.Paragraph?
  {
    var start := position + 1;
    && start <= from <= to <= start + |Tape(n.content)|
    && if from == to then n.content == [] && text == []
       else Tape(n.content)[from - start..to - start] == Somes(Encode(text))
  }

  /** The range of the tape holds exactly the units of the text. */
  ghost predicate Spelled(children: seq<Node>, from: nat, to: nat, text: string)
    requires from <= to <= |Tape(children)|
  {
    Tape(children)[from..to] == Somes(Encode(text))
  }

  lemma SomesConcat(a: seq<Unit>, b: seq<Unit>)
    ensures Somes(a + b) == Somes(a) + Somes(b)
  {
  }

  lemma SomesInjective(a: seq<Unit>, b: seq<Unit>)
    requires Somes(a) == Somes(b)
    ensures a == b
  {
    assert |Somes(a)| == |Somes(b)|;
    forall i | 0 <= i < |a| ensures a[i] == b[i] { assert Somes(a)[i] == Somes(b)[i]; }
  }

  lemma {:induction false} TapeSize(children: seq<Node>)
    ensures |Tape(children)| == SizeAll(children)
  {
    if children != [] {
      TapeSize(children[1..]);
    }
  }

  lemma {:induction false} TapeConcat(a: seq<Node>, b: seq<Node>)
    ensures Tape(a + b) == Tape(a) + Tape(b)
  {
    hide Tape, Cells;
    if a == [] {
      assert a + b == b && [] + Tape(b) == Tape(b);
      NoTape();
    } else {
      assert (a + b)[1..] == a[1..] + b;
      TapeFront(a + b);
      TapeFront(a);
      TapeConcat(a[1..], b);
      Associate(Cells(a[0]), Tape(a[1..]), Tape(b));
    }
  }

  lemma TapeFront(a: seq<Node>)
    requires a != []
    ensures Tape(a) == Cells(a[0]) + Tape(a[1..])
  {
    hide Cells;
  }

  lemma NoTape()
    ensures Tape([]) == []
  {
  }

  // ----- order of the paragraphs

  /** Entries lie apart, in order, within the bounds. */
  ghost predicate Apart(entries: seq<Entry>, low: nat, high: nat) {
    && (forall i | 0 <= i < |entries| :: low < entries[i].start <= entries[i].end < high)
    && (forall i, k | 0 <= i < k < |entries| :: entries[i].end < entries[k].start)
  }

  lemma {:induction false} InlineEntries(ns: seq<Node>, position: nat)
    requires forall n | n in ns :: n.Text? || n.LockedInline? || n.Checkbox? || (n.Field? && WellFormed(n))
    ensures EntriesAll(ns, position) == []
  {
    if ns != [] {
      InlineEntries(ns[1..], position + Size(ns[0]));
      if ns[0].Field? {
        forall c | c in ns[0].content ensures c.Text? {
          var i :| 0 <= i < |ns[0].content| && ns[0].content[i] == c;
          assert MayHold(ns[0], Content(ns[0])[i]);
        }
        InlineEntries(ns[0].content, Inside(ns[0], position));
      }
    }
  }

  lemma ParagraphInlines(n: Node)
    requires WellFormed(n) && n.Paragraph?
    ensures forall c | c in n.content :: c.Text? || c.LockedInline? || c.Checkbox? || (c.Field? && WellFormed(c))
  {
    forall c | c in n.content ensures c.Text? || c.LockedInline? || c.Checkbox? || (c.Field? && WellFormed(c)) {
      var i :| 0 <= i < |n.content| && n.content[i] == c;
      assert MayHold(n, Content(n)[i]) && WellFormed(Content(n)[i]);
    }
  }

  lemma {:induction false} EntriesApart(n: Node, position: nat)
    requires WellFormed(n) && !n.Doc?
    ensures Apart(EntriesOf(n, position), position, position + Size(n))
    decreases n, 1
  {
    if n.Paragraph? {
      ParagraphInlines(n);
      InlineEntries(n.content, Inside(n, position));
    } else if IsContainer(n) {
      forall c | c in n.content ensures WellFormed(c) && !c.Doc? {
        var i :| 0 <= i < |n.content| && n.content[i] == c;
        assert MayHold(n, Content(n)[i]) && WellFormed(Content(n)[i]);
      }
      EntriesAllApart(n.content, Inside(n, position));
    }
  }

  lemma {:induction false} EntriesAllApart(ns: seq<Node>, position: nat)
    requires forall n | n in ns :: WellFormed(n) && !n.Doc?
    ensures Apart(EntriesAll(ns, position), position, position + SizeAll(ns))
    decreases ns, 0
  {
    if ns != [] {
      EntriesApart(ns[0], position);
      EntriesAllApart(ns[1..], position + Size(ns[0]));
      ApartConcat(EntriesOf(ns[0], position), EntriesAll(ns[1..], position + Size(ns[0])), position,
        position + Size(ns[0]),
                  position + SizeAll(ns));
    }
  }

  lemma ApartConcat(a: seq<Entry>, b: seq<Entry>, low: nat, middle: nat, high: nat)
    requires Apart(a, low, middle) && Apart(b, middle, high) && low <= middle <= high
    ensures Apart(a + b, low, high)
  {
  }

  ghost predicate InOrder(entries: seq<Entry>) {
    && (forall i | 0 <= i < |entries| :: entries[i].start <= entries[i].end)
    && (forall i, k | 0 <= i < k < |entries| :: entries[i].end < entries[k].start)
  }

  /** The paragraph starts of a document strictly increase, and no two paragraphs overlap. */
  lemma DocumentApart(model: Node)
    requires WellFormed(model) && model.Doc?
    ensures InOrder(EntriesOf(model, 0))
  {
    hide WellFormed, EntriesAll;
    SectionsFit(model);
    EntriesAllApart(model.content, 0);
    assert EntriesOf(model, 0) == EntriesAll(model.content, 0);
  }

  lemma SectionsFit(model: Node)
    requires WellFormed(model) && model.Doc?
    ensures forall c | c in model.content :: WellFormed(c) && !c.Doc?
  {
    forall c | c in model.content ensures WellFormed(c) && !c.Doc? {
      var i :| 0 <= i < |model.content| && model.content[i] == c;
      assert MayHold(model, Content(model)[i]) && WellFormed(Content(model)[i]);
    }
  }

  // ----- binary search

  /** `bisect_right`: how many of the ascending numbers are at most `x`. */
  method BisectRight(a: seq<nat>, x: nat) returns (low: nat)
    requires forall i, k | 0 <= i < k < |a| :: a[i] <= a[k]
    ensures low <= |a|
    ensures forall i | 0 <= i < low :: a[i] <= x
    ensures forall i | low <= i < |a| :: x < a[i]
  {
    low := 0;
    var high := |a|;
    while low < high
      invariant 0 <= low <= high <= |a|
      invariant forall i | 0 <= i < low :: a[i] <= x
      invariant forall i | high <= i < |a| :: x < a[i]
    {
      var middle := (low + high) / 2;
      if x < a[middle] {
        high := middle;
      } else {
        low := middle + 1;
      }
    }
  }

  // ----- one paragraph

  function Points(segments: seq<Segment>): seq<nat> {
    seq(|segments|, i requires 0 <= i < |segments| => segments[i].begin)
  }

  /** Segment `i` of a paragraph's children stands for child `i`. */
  lemma {:induction false} SegmentAt(children: seq<Node>, begin: nat, i: nat)
    requires i < |children|
    ensures |SegmentsOf(children, begin)| == |children|
    ensures SegmentsOf(children, begin)[i] == SegmentOf(children[i], begin + SizeAll(children[..i]))
    decreases i
  {
    hide SegmentsOf, SegmentOf, Size, SizeAll;
    SegmentsCount(children, begin);
    SegmentsFront(children, begin);
    SizeFront(children, i);
    if i > 0 {
      SegmentAt(children[1..], begin + Size(children[0]), i - 1);
    }
  }

  lemma SegmentsFront(children: seq<Node>, begin: nat)
    requires children != []
    ensures SegmentsOf(children, begin) == [SegmentOf(children[0], begin)] +
      SegmentsOf(children[1..], begin + Size(children[0]))
  {
    hide SegmentOf, Size;
  }

  lemma SizeFront(children: seq<Node>, i: nat)
    requires i < |children|
    ensures SizeAll(children[..0]) == 0
    ensures i > 0 ==> SizeAll(children[..i]) == Size(children[0]) + SizeAll(children[1..][..i - 1])
  {
    hide Size;
    if i > 0 {
      assert children[..i][1..] == children[1..][..i - 1];
    }
  }

  lemma {:induction false} SegmentsCount(children: seq<Node>, begin: nat)
    ensures |SegmentsOf(children, begin)| == |children|
  {
    if children != [] {
      SegmentsCount(children[1..], begin + Size(children[0]));
    }
  }

  lemma SizeOne(n: Node)
    ensures SizeAll([n]) == Size(n)
  {
    hide Size;
    assert [n][1..] == [];
  }

  lemma SizePrefix(children: seq<Node>, i: nat)
    requires i < |children|
    ensures SizeAll(children[..i + 1]) == SizeAll(children[..i]) + Size(children[i])
    ensures SizeAll(children[..i + 1]) <= SizeAll(children)
  {
    hide SizeAll, Size;
    SizeOne(children[i]);
    assert children[..i + 1] == children[..i] + [children[i]];
    SizeAllConcat(children[..i], [children[i]]);
    assert children == children[..i + 1] + children[i + 1..];
    SizeAllConcat(children[..i + 1], children[i + 1..]);
  }

  /** The tape up to and over one child. */
  lemma TapePrefix(children: seq<Node>, i: nat)
    requires i < |children|
    ensures Tape(children[..i + 1]) == Tape(children[..i]) + Cells(children[i])
    ensures Tape(children) == Tape(children[..i + 1]) + Tape(children[i + 1..])
    ensures |Tape(children[..i])| == SizeAll(children[..i])
  {
    hide Cells, Size;
    assert children[..i + 1] == children[..i] + [children[i]];
    OneTape(children[i]);
    TapeConcat(children[..i], [children[i]]);
    assert children == children[..i + 1] + children[i + 1..];
    TapeConcat(children[..i + 1], children[i + 1..]);
    TapeSize(children[..i]);
  }

  lemma OneTape(n: Node)
    ensures Tape([n]) == Cells(n)
  {
    assert [n][1..] == [];
  }

  lemma PointsAscend(children: seq<Node>, begin: nat)
    ensures var p := Points(SegmentsOf(children, begin));
      |p| == |children| && forall i, k | 0 <= i < k < |p| :: p[i] <= p[k]
  {
    SegmentsCount(children, begin);
    var p := Points(SegmentsOf(children, begin));
    forall i, k | 0 <= i < k < |p|
      ensures p[i] <= p[k]
    {
      SegmentAt(children, begin, i);
      SegmentAt(children, begin, k);
      assert children[..k] == children[..i] + children[i..k];
      SizeAllConcat(children[..i], children[i..k]);
    }
  }

  /** The part of the range `[from, to)` on the tape so far is text, with the units `value`. */
  ghost predicate Read(tape: seq<Option<Unit>>, from: nat, to: nat, value: seq<Unit>) {
    var done := Min(|tape|, to);
    if from < done then tape[from..done] == Somes(value) else value == []
  }

  function Low0(from: nat, begin: nat): nat { Max(0, from - begin) }

  lemma SomesPart(u: seq<Unit>, low: nat, high: nat)
    requires low <= high <= |u|
    ensures |Somes(u)| == |u| && Somes(u)[low..high] == Somes(u[low..high])
  {
  }

  /** Reading one more text child. */
  lemma ReadMore(tape: seq<Option<Unit>>, u: seq<Unit>, from: nat, to: nat, value: seq<Unit>)
    requires Read(tape, from, to, value) && |tape| < to && from < |tape| + |u| && from < to
    ensures var low, high := Low0(from, |tape|), Min(|u|, to - |tape|);
      0 <= low <= high <= |u| && Read(tape + Somes(u), from, to, value + u[low..high])
  {
    hide Somes;
    var low, high := Low0(from, |tape|), Min(|u|, to - |tape|);
    var next := tape + Somes(u);
    var done := Min(|next|, to);
    SomesPart(u, low, high);
    assert next[|tape| + low..done] == Somes(u)[low..high];
    if from < |tape| {
      assert low == 0;
      assert next[from..done] == tape[from..] + next[|tape|..done];
      SomesConcat(value, u[low..high]);
    } else {
      assert value + u[low..high] == u[low..high];
    }
  }

  /** What a range spells, seen from the cells in its middle. */
  lemma CellsSpell(before: seq<Option<Unit>>, cells: seq<Option<Unit>>, after: seq<Option<Unit>>, from: nat, to: nat,
                   u: seq<Unit>)
    requires from < to <= |before + cells + after| && from < |before| + |cells| && |before| < to
    requires (before + cells + after)[from..to] == Somes(u)
    ensures |u| == to - from
    ensures forall k | Low0(from, |before|) <= k < Min(|cells|, to - |before|) ::
      cells[k] == Some(u[|before| + k - from])
  {
    var all := before + cells + after;
    assert |all[from..to]| == |Somes(u)|;
    forall k | Low0(from, |before|) <= k < Min(|cells|, to - |before|)
      ensures cells[k] == Some(u[|before| + k - from])
    {
      assert all[from..to][|before| + k - from] == Somes(u)[|before| + k - from];
    }
  }

  /** If the range spells a text, every child it meets is text, and what it takes of that child decodes. */
  lemma PartOfSpan(before: seq<Option<Unit>>, n: Node, after: seq<Option<Unit>>, from: nat, to: nat, text: string)
    requires from < to <= |before + Cells(n) + after| && from < |before| + Size(n) && |before| < to && Size(n) > 0
    requires (before + Cells(n) + after)[from..to] == Somes(Encode(text))
    ensures n.Text?
    ensures var low, high := Low0(from, |before|), Min(Size(n), to - |before|);
      0 <= low < high <= |Encode(n.text)| && Decode(Encode(n.text)[low..high]).Some?
  {
    hide Encode, Decode, Somes;
    var low, high := Low0(from, |before|), Min(Size(n), to - |before|);
    var u := Encode(text);
    CellsSize(n);
    CellsSpell(before, Cells(n), after, from, to, u);
    assert Cells(n)[low].Some?;
    TextCells(n, low);
    var v := Encode(n.text);
    forall k | low <= k < high ensures v[k] == u[|before| + k - from] { assert Cells(n)[k] == Some(v[k]); }
    PartClean(n.text, low, high, text, |before| - from);
  }

  lemma CellsSize(n: Node)
    ensures |Cells(n)| == Size(n)
  {
  }

  lemma TextCells(n: Node, k: nat)
    requires k < |Cells(n)| && Cells(n)[k].Some?
    ensures n.Text? && |Encode(n.text)| == |Cells(n)|
    ensures forall i | 0 <= i < |Cells(n)| :: Cells(n)[i] == Some(Encode(n.text)[i])
  {
  }

  /** A part of one text that coincides with a stretch of another one, up to the end of either, decodes. */
  lemma PartClean(s: string, low: nat, high: nat, text: string, shift: int)
    requires low < high <= |Encode(s)|
    requires 0 <= low + shift && high + shift <= |Encode(text)|
    requires forall k | low <= k < high :: Encode(s)[k] == Encode(text)[k + shift]
    requires low == 0 || low + shift == 0
    requires high == |Encode(s)| || high + shift == |Encode(text)|
    ensures Decode(Encode(s)[low..high]).Some?
  {
    assert s != [] && text != [];
    EncodeEnds(s);
    EncodeEnds(text);
    assert Encode(s)[high - 1] == Encode(text)[high - 1 + shift];
    if high < |Encode(s)| {
      AfterUnit(s, high);
    }
    PartDecodes(s, low, high);
  }

  // ----- the span check

  /** The `k`th entry of a document, with the paragraph it indexes. */
  ghost predicate Indexes(e: Entry, n: Node, position: nat) {
    n.Paragraph? && WellFormed(n) && e == EntryOf(n, position)
  }

  ghost predicate IsEntry(e: Entry) {
    exists n: Node, position: nat :: Indexes(e, n, position)
  }

  ghost predicate EntrySpans(e: Entry, from: nat, to: nat, text: string) {
    exists n: Node, position: nat :: Indexes(e, n, position) && Spans(n, position, from, to, text)
  }

  /** Some paragraph of the list accepts the span. */
  ghost predicate SpanOk(entries: seq<Entry>, from: nat, to: nat, text: string) {
    exists k :: 0 <= k < |entries| && EntrySpans(entries[k], from, to, text)
  }

  /** Every entry indexes a paragraph, and the entries are in order and apart. */
  ghost predicate Indexed(entries: seq<Entry>) {
    && (forall e | e in entries :: IsEntry(e))
    && InOrder(entries)
  }

  lemma {:induction false} EntriesIndexed(n: Node, position: nat)
    requires WellFormed(n)
    ensures forall e | e in EntriesOf(n, position) :: IsEntry(e)
    decreases n, 1
  {
    if IsContainer(n) {
      forall c | c in n.content ensures WellFormed(c) {
        var i :| 0 <= i < |n.content| && n.content[i] == c;
        assert WellFormed(Content(n)[i]);
      }
      AllIndexed(n.content, Inside(n, position));
    }
    if n.Paragraph? {
      assert Indexes(EntryOf(n, position), n, position);
    }
  }

  lemma {:induction false} AllIndexed(ns: seq<Node>, position: nat)
    requires forall n | n in ns :: WellFormed(n)
    ensures forall e | e in EntriesAll(ns, position) :: IsEntry(e)
    decreases ns, 0
  {
    if ns != [] {
      EntriesIndexed(ns[0], position);
      AllIndexed(ns[1..], position + Size(ns[0]));
    }
  }

  /** What `index` returns for a document is indexed. */
  lemma IndexIsIndexed(model: Node)
    requires WellFormed(model) && model.Doc?
    ensures Indexed(EntriesOf(model, 0))
  {
    EntriesIndexed(model, 0);
    DocumentApart(model);
  }

  /** A paragraph's entry determines where it is and what it spans. */
  lemma SameSpan(e: Entry, n: Node, position: nat, from: nat, to: nat, text: string)
    requires Indexes(e, n, position)
    ensures e.start == position + 1 && e.end == e.start + |Tape(n.content)| && |e.segments| == |n.content|
    ensures EntrySpans(e, from, to, text) <==> Spans(n, position, from, to, text)
  {
    hide WellFormed, SegmentsOf, SizeAll, Tape, Somes;
    TapeSize(n.content);
    SegmentsCount(n.content, position + 1);
    EntryPlace(e, n, position);
    if EntrySpans(e, from, to, text) {
      var m: Node, p: nat :| Indexes(e, m, p) && Spans(m, p, from, to, text);
      EntryPlace(e, m, p);
      SegmentsSpell(n.content, m.content, position + 1);
      SegmentsCount(m.content, p + 1);
    }
  }

  /** Equal segments have equal tapes. */
  lemma {:induction false} SegmentsSpell(a: seq<Node>, b: seq<Node>, begin: nat)
    requires SegmentsOf(a, begin) == SegmentsOf(b, begin)
    ensures Tape(a) == Tape(b)
  {
    SegmentsCount(a, begin);
    SegmentsCount(b, begin);
    if a != [] {
      assert SegmentsOf(a, begin)[0] == SegmentOf(a[0], begin) && SegmentsOf(b, begin)[0] == SegmentOf(b[0], begin);
      assert SegmentsOf(a, begin)[1..] == SegmentsOf(a[1..], begin + Size(a[0]));
      assert SegmentsOf(b, begin)[1..] == SegmentsOf(b[1..], begin + Size(b[0]));
      SegmentsSpell(a[1..], b[1..], begin + Size(a[0]));
      assert Cells(a[0]) == Cells(b[0]);
    }
  }

  lemma SpanBounds(e: Entry, from: nat, to: nat, text: string)
    requires EntrySpans(e, from, to, text)
    ensures e.start <= from <= to <= e.end
  {
    hide WellFormed;
    var n: Node, position: nat :| Indexes(e, n, position) && Spans(n, position, from, to, text);
    SameSpan(e, n, position, from, to, text);
  }

  lemma OnlyEntry(entries: seq<Entry>, k: nat, from: nat, to: nat, text: string)
    requires InOrder(entries) && k < |entries|
    requires forall i | 0 <= i <= k :: entries[i].start <= from
    requires forall i | k < i < |entries| :: from < entries[i].start
    ensures SpanOk(entries, from, to, text) <==> EntrySpans(entries[k], from, to, text)
  {
    hide EntrySpans;
    assert forall m | 0 <= m < k :: entries[m].end < entries[k].start;
    if SpanOk(entries, from, to, text) {
      var i :| 0 <= i < |entries| && EntrySpans(entries[i], from, to, text);
      SpanBounds(entries[i], from, to, text);
    }
  }

  lemma NoEntry(entries: seq<Entry>, from: nat, to: nat, text: string)
    requires forall i | 0 <= i < |entries| :: from < entries[i].start
    ensures !SpanOk(entries, from, to, text)
  {
    hide EntrySpans;
    if SpanOk(entries, from, to, text) {
      var i :| 0 <= i < |entries| && EntrySpans(entries[i], from, to, text);
      SpanBounds(entries[i], from, to, text);
    }
  }

  /** `validate_span`: two binary searches and one walk decide exactly what the specification says. */
  method ValidateSpan(from: nat, to: nat, text: string, paragraphs: seq<Entry>, starts: seq<nat>) returns (ok: bool)
    requires Indexed(paragraphs)
    requires |starts| == |paragraphs| && forall i | 0 <= i < |starts| :: starts[i] == paragraphs[i].start
    ensures ok <==> SpanOk(paragraphs, from, to, text)
  {
    hide EntrySpans;
    var count := BisectRight(starts, from);
    if count == 0 {
      NoEntry(paragraphs, from, to, text);
      return false;
    }
    var selected := count - 1;
    OnlyEntry(paragraphs, selected, from, to, text);
    var entry := paragraphs[selected];
    assert entry in paragraphs && IsEntry(entry);
    ghost var n: Node, position: nat :| Indexes(entry, n, position);
    SameSpan(entry, n, position, from, to, text);
    ok := ValidateIn(from, to, text, entry, n, position);
  }

  lemma EntryPlace(e: Entry, n: Node, position: nat)
    requires Indexes(e, n, position)
    ensures e.start == position + 1 && e.end == e.start + SizeAll(n.content)
      && e.segments == SegmentsOf(n.content, e.start)
    ensures n.Paragraph? && WellFormed(n)
  {
    hide SegmentsOf, SizeAll, WellFormed;
  }

  /** The specification, case by case. */
  lemma SpanOutside(n: Node, position: nat, from: nat, to: nat, text: string)
    requires n.Paragraph? && !(position + 1 <= from <= to <= position + 1 + |Tape(n.content)|)
    ensures !Spans(n, position, from, to, text)
  {
    hide Encode, Tape, Somes;
  }

  lemma SpanEmpty(n: Node, position: nat, from: nat, text: string)
    requires n.Paragraph? && position + 1 <= from <= position + 1 + |Tape(n.content)|
    ensures Spans(n, position, from, from, text) <==> n.content == [] && text == []
  {
    hide Encode, Tape, Somes;
  }

  lemma EmptySpan(n: Node, position: nat, from: nat, text: string)
    requires n.Paragraph? && WellFormed(n) && position + 1 <= from <= position + 1 + SizeAll(n.content)
    ensures Spans(n, position, from, from, text) <==> SizeAll(n.content) == 0 && text == []
  {
    hide WellFormed, SizeAll, Spans;
    TapeSize(n.content);
    SpanEmpty(n, position, from, text);
    EmptyParagraph(n);
  }

  lemma SpanTape(n: Node, position: nat, from: nat, to: nat, text: string)
    requires n.Paragraph? && position + 1 <= from < to <= position + 1 + |Tape(n.content)|
    ensures Spans(n, position, from, to, text) <==> Spelled(n.content, from - (position + 1), to - (position + 1), text)
    ensures |Encode(text)| != to - from ==> !Spans(n, position, from, to, text)
  {
    hide Encode, Tape;
  }

  lemma InlineSizes(n: Node)
    requires n.Paragraph? && WellFormed(n)
    ensures forall i | 0 <= i < |n.content| :: Size(n.content[i]) > 0
  {
    hide WellFormed, Size;
    forall i | 0 <= i < |n.content| ensures Size(n.content[i]) > 0 { InlineSize(n, i); }
  }

  /** The check inside the paragraph the first search selected. */
  method ValidateIn(from: nat, to: nat, text: string, entry: Entry, ghost n: Node, ghost position: nat)
    returns (ok: bool)
    requires Indexes(entry, n, position) && entry.start <= from
    ensures ok <==> Spans(n, position, from, to, text)
  {
    hide Encode, WellFormed, Size, SizeAll, SegmentsOf, Spans, Tape, Somes, Indexes, Spelled;
    EntryPlace(entry, n, position);
    TapeSize(n.content);
    if from > to || to > entry.end {
      SpanOutside(n, position, from, to, text);
      return false;
    }
    if from == to {
      EmptySpan(n, position, from, text);
      return entry.start == entry.end && text == [];
    }
    SpanTape(n, position, from, to, text);
    if to - from != |Encode(text)| {
      return false;
    }
    InlineSizes(n);
    ok := Walk(from, to, text, entry, n.content);
  }

  lemma EmptyParagraph(n: Node)
    requires WellFormed(n) && n.Paragraph?
    ensures SizeAll(n.content) == 0 <==> n.content == []
  {
    if n.content != [] {
      assert MayHold(n, Content(n)[0]) && WellFormed(Content(n)[0]);
      SizePositive(n.content[0]);
    }
  }

  /** Every inline takes room. */
  lemma InlineSize(n: Node, i: nat)
    requires WellFormed(n) && n.Paragraph? && i < |n.content|
    ensures Size(n.content[i]) > 0
  {
    assert MayHold(n, Content(n)[i]) && WellFormed(Content(n)[i]);
    SizePositive(n.content[i]);
  }

  /** What the walk has established when it reaches child `i`. */
  ghost predicate Walked(children: seq<Node>, i: nat, from: nat, to: nat, value: string)
    requires i <= |children|
  {
    Read(Tape(children[..i]), from, to, Encode(value))
  }

  lemma WalkStart(children: seq<Node>, i: nat, from: nat, to: nat)
    requires i <= |children| && SizeAll(children[..i]) <= from < to
    ensures Walked(children, i, from, to, [])
  {
    TapeSize(children[..i]);
  }

  lemma WalkOn(children: seq<Node>, i: nat, from: nat, to: nat, value: string, part: string)
    requires i < |children| && children[i].Text? && Walked(children, i, from, to, value) && from < to
    requires SizeAll(children[..i]) < to && from < SizeAll(children[..i]) + Size(children[i])
    requires var begin := SizeAll(children[..i]);
      var low, high := Low0(from, begin), Min(Size(children[i]), to - begin);
      low <= high <= |Encode(children[i].text)| && Decode(Encode(children[i].text)[low..high]) == Some(part)
    ensures Walked(children, i + 1, from, to, value + part)
  {
    hide Decode, Encode, Read;
    var begin := SizeAll(children[..i]);
    var u := Encode(children[i].text);
    TapePrefix(children, i);
    assert |u| == Size(children[i]);
    ReadMore(Tape(children[..i]), u, from, to, Encode(value));
    EncodeDecode(u[Low0(from, begin)..Min(|u|, to - begin)]);
    EncodeConcat(value, part);
  }

  /** A child that is no text, or a part that does not decode, rules the span out. */
  lemma WalkFails(children: seq<Node>, i: nat, from: nat, to: nat, text: string)
    requires i < |children| && from < to <= SizeAll(children) && Size(children[i]) > 0
    requires SizeAll(children[..i]) < to && from < SizeAll(children[..i]) + Size(children[i])
    requires |Tape(children)| == SizeAll(children)
    requires children[i].Text? ==>
      var begin := SizeAll(children[..i]);
      var low, high := Low0(from, begin), Min(Size(children[i]), to - begin);
      low <= high <= |Encode(children[i].text)| ==> Decode(Encode(children[i].text)[low..high]).None?
    ensures Tape(children)[from..to] != Somes(Encode(text))
  {
    hide Decode, Encode, Somes, Tape, SizeAll, Cells, Size;
    TapePrefix(children, i);
    if Tape(children)[from..to] == Somes(Encode(text)) {
      PartOfSpan(Tape(children[..i]), children[i], Tape(children[i + 1..]), from, to, text);
    }
  }

  lemma WalkEnd(children: seq<Node>, i: nat, from: nat, to: nat, value: string, text: string)
    requires i <= |children| && from < to <= SizeAll(children[..i]) && Walked(children, i, from, to, value)
    requires to <= |Tape(children)|
    ensures Tape(children)[from..to] == Somes(Encode(text)) <==> value == text
  {
    hide Tape, Encode, Somes, SizeAll;
    TapeSize(children[..i]);
    assert children == children[..i] + children[i..];
    TapeConcat(children[..i], children[i..]);
    assert Tape(children)[from..to] == Tape(children[..i])[from..to];
    if Somes(Encode(value)) == Somes(Encode(text)) {
      SomesInjective(Encode(value), Encode(text));
      EncodeInjective(value, text);
    }
  }

  /** What segment `i` says about child `i`. */
  lemma SegmentFacts(children: seq<Node>, begin: nat, i: nat)
    requires i < |children|
    ensures |SegmentsOf(children, begin)| == |children|
      && SizeAll(children[..i + 1]) == SizeAll(children[..i]) + Size(children[i])
    ensures var segment := SegmentsOf(children, begin)[i];
      && segment.begin == begin + SizeAll(children[..i]) && segment.stop == segment.begin + Size(children[i])
      && segment.text == (if children[i].Text? then Some(Encode(children[i].text)) else None)
      && (children[i].Text? ==> |Encode(children[i].text)| == Size(children[i]))
  {
    SegmentAt(children, begin, i);
    SizePrefix(children, i);
  }

  /** The second search finds the first child of the range; the walk reads on until the range ends. */
  method Walk(from: nat, to: nat, text: string, entry: Entry, ghost children: seq<Node>) returns (ok: bool)
    requires entry.start <= from < to <= entry.end && entry.end == entry.start + SizeAll(children)
    requires entry.segments == SegmentsOf(children, entry.start) && |Tape(children)| == SizeAll(children)
    requires forall i | 0 <= i < |children| :: Size(children[i]) > 0
    ensures ok <==> Spelled(children, from - entry.start, to - entry.start, text)
  {
    hide Encode, Decode, Somes, Walked, Size, SizeAll, SegmentsOf, Tape;
    ghost var f, t := from - entry.start, to - entry.start;
    var i := FirstChild(from, entry, children);
    var value := [];
    WalkStart(children, i, f, t);
    while i < |entry.segments| && entry.segments[i].begin < to
      invariant 0 <= i <= |entry.segments| == |children|
      invariant i < |children| ==> f < SizeAll(children[..i + 1])
      invariant i == |children| ==> f < SizeAll(children)
      invariant Walked(children, i, f, t, value)
    {
      SegmentFacts(children, entry.start, i);
      var segment := entry.segments[i];
      if segment.text.None? {
        WalkFails(children, i, f, t, text);
        return false;
      }
      var part := Decode(segment.text.value[Low0(from, segment.begin)..Min(segment.stop, to) - segment.begin]);
      if part.None? {
        WalkFails(children, i, f, t, text);
        return false;
      }
      WalkOn(children, i, f, t, value, part.value);
      value := value + part.value;
      NextChild(children, i);
      i := i + 1;
    }
    if i < |children| {
      SegmentFacts(children, entry.start, i);
    } else {
      assert children[..i] == children;
    }
    WalkEnd(children, i, f, t, value, text);
    ok := value == text;
  }

  lemma NextChild(children: seq<Node>, i: nat)
    requires i < |children|
    ensures SizeAll(children[..i + 1]) <= SizeAll(children)
    ensures i + 1 < |children| ==> SizeAll(children[..i + 1]) <= SizeAll(children[..i + 2])
  {
    SizePrefix(children, i);
    if i + 1 < |children| {
      SizePrefix(children, i + 1);
    }
  }

  /** The binary search for the child that holds position `from`. */
  method FirstChild(from: nat, entry: Entry, ghost children: seq<Node>) returns (i: nat)
    requires entry.start <= from < entry.start + SizeAll(children)
      && entry.segments == SegmentsOf(children, entry.start)
    ensures i < |entry.segments| == |children|
    ensures SizeAll(children[..i]) <= from - entry.start < SizeAll(children[..i + 1])
  {
    hide Encode, SegmentsOf, Size;
    PointsAscend(children, entry.start);
    SegmentsCount(children, entry.start);
    var count := BisectRight(Points(entry.segments), from);
    SegmentAt(children, entry.start, 0);
    assert children[..0] == [] && Points(entry.segments)[0] == entry.start;
    i := count - 1;
    SegmentAt(children, entry.start, i);
    assert Points(entry.segments)[i] == entry.start + SizeAll(children[..i]);
    SearchFound(children, entry, from, count);
    SizePrefix(children, i);
  }

  /** The child found by the search reaches beyond the start of the range. */
  lemma SearchFound(children: seq<Node>, entry: Entry, from: nat, count: nat)
    requires entry.start <= from < entry.start + SizeAll(children)
      && entry.segments == SegmentsOf(children, entry.start)
    requires 0 < count <= |children| && |Points(entry.segments)| == |children|
    requires forall i | count <= i < |children| :: from < Points(entry.segments)[i]
    ensures from - entry.start < SizeAll(children[..count - 1]) + Size(children[count - 1])
  {
    hide SizeAll, Size, SegmentsOf;
    SizePrefix(children, count - 1);
    if count < |children| {
      SegmentAt(children, entry.start, count);
      assert Points(entry.segments)[count] == entry.start + SizeAll(children[..count]);
    } else {
      assert children[..count] == children;
    }
  }
}
