/** The editor's side of a review over a whole document, and its agreement with discovery and with saving. */
module ReviewDocument {
  import opened Common
  import opened Utf16
  import opened DocumentModel
  import opened WorkingIndex
  import opened WorkingSpans
  import opened FieldAnchors
  import opened ReviewAttach

  /** A paragraph with its part and its document position. */
  datatype Spot = Spot(part: string, position: nat, node: Node)

  function SpotsIn(part: string, n: Node, position: nat): seq<Spot>
    decreases n, 1
  {
    if n.Paragraph? then [Spot(part, position, n)]
    else if IsBlock(n) then SpotsAll(PartOf(part, n), n.content, Inside(n, position))
    else []
  }

  function SpotsAll(part: string, ns: seq<Node>, position: nat): seq<Spot>
    decreases ns, 0
  {
    if ns == [] then [] else SpotsIn(part, ns[0], position) + SpotsAll(part, ns[1..], position + Size(ns[0]))
  }

  // ----- the three views of the paragraphs agree

  function Entries(spots: seq<Spot>): seq<Entry> {
    if spots == [] then [] else [EntryOf(spots[0].node, spots[0].position)] + Entries(spots[1..])
  }

  /** The backend's traversal meets the paragraphs last first. */
  function Knowns(spots: seq<Spot>): seq<Known>
    requires forall s | s in spots :: s.node.Paragraph?
  {
    if spots == [] then [] else Knowns(spots[1..]) + [KnownOf(spots[0].part, spots[0].node)]
  }

  function FieldHandles(children: seq<Node>): seq<Handle> {
    if children == [] then [] else
    (if children[0].Field? then [Handle(children[0].id, children[0].key, children[0].alias)] else [])
      + FieldHandles(children[1..])
  }

  function SpotHandles(spots: seq<Spot>): seq<Handle> {
    if spots == [] then [] else FieldHandles(Content(spots[0].node)) + SpotHandles(spots[1..])
  }

  ghost predicate Proper(spots: seq<Spot>) {
    forall s | s in spots :: s.node.Paragraph? && WellFormed(s.node)
  }

  lemma {:induction false} EntriesConcat(a: seq<Spot>, b: seq<Spot>)
    ensures Entries(a + b) == Entries(a) + Entries(b) && SpotHandles(a + b) == SpotHandles(a) + SpotHandles(b)
  {
    hide EntryOf, FieldHandles, Content;
    if a == [] {
      assert a + b == b;
    } else {
      assert (a + b)[1..] == a[1..] + b;
      EntriesConcat(a[1..], b);
      Associate(FieldHandles(Content(a[0].node)), SpotHandles(a[1..]), SpotHandles(b));
    }
  }

  lemma {:induction false} KnownsConcat(a: seq<Spot>, b: seq<Spot>)
    requires (forall s | s in a :: s.node.Paragraph?) && forall s | s in b :: s.node.Paragraph?
    ensures Knowns(a + b) == Knowns(b) + Knowns(a)
  {
    hide KnownOf;
    if a == [] {
      assert a + b == b;
    } else {
      assert (a + b)[1..] == a[1..] + b;
      KnownsConcat(a[1..], b);
      Associate(Knowns(b), Knowns(a[1..]), [KnownOf(a[0].part, a[0].node)]);
    }
  }

  lemma {:induction false} Concats(a: seq<Spot>, b: seq<Spot>)
    requires Proper(a) && Proper(b)
    ensures Proper(a + b)
    ensures Entries(a + b) == Entries(a) + Entries(b)
    ensures Knowns(a + b) == Knowns(b) + Knowns(a)
    ensures SpotHandles(a + b) == SpotHandles(a) + SpotHandles(b)
  {
    hide Entries, Knowns, SpotHandles, WellFormed;
    EntriesConcat(a, b);
    KnownsConcat(a, b);
  }

  lemma {:induction false} InlineHandles(children: seq<Node>)
    requires forall c | c in children :: c.Text? || IsLeaf(c) || (c.Field? && forall d | d in c.content :: d.Text?)
    ensures ControlsAll(children) == FieldHandles(children)
  {
    hide ControlsOf;
    if children != [] {
      InlineHandles(children[1..]);
      InlineHandle(children[0]);
    }
  }

  lemma InlineHandle(c: Node)
    requires c.Text? || IsLeaf(c) || (c.Field? && forall d | d in c.content :: d.Text?)
    ensures ControlsOf(c) == if c.Field? then [Handle(c.id, c.key, c.alias)] else []
  {
    if c.Field? {
      TextHandles(c.content);
    }
  }

  lemma {:induction false} TextHandles(content: seq<Node>)
    requires forall d | d in content :: d.Text?
    ensures ControlsAll(content) == []
  {
    if content != [] {
      TextHandles(content[1..]);
    }
  }

  lemma Kids(n: Node)
    requires WellFormed(n) && IsContainer(n)
    ensures forall c | c in n.content :: WellFormed(c) && MayHold(n, c)
  {
    forall c | c in n.content ensures WellFormed(c) && MayHold(n, c) {
      var i :| 0 <= i < |n.content| && n.content[i] == c;
      assert MayHold(n, Content(n)[i]) && WellFormed(Content(n)[i]);
    }
  }

  lemma ParagraphKids(n: Node)
    requires WellFormed(n) && n.Paragraph?
    ensures Inlines(n.content) && FieldsHoldText(n.content)
    ensures forall c | c in n.content ::
      Size(c) > 0 && (c.Text? || IsLeaf(c) || (c.Field? && forall d | d in c.content :: d.Text?))
  {
    Kids(n);
    forall c | c in n.content
      ensures Size(c) > 0 && (c.Text? || IsLeaf(c) || (c.Field? && forall d | d in c.content :: d.Text?))
    {
      SizePositive(c);
      if c.Field? {
        Kids(c);
      }
    }
  }

  /** One traversal underlies them all: positions, code points and controls. */
  lemma {:induction false} SpotsAgree(part: string, n: Node, position: nat)
    requires WellFormed(n) && (IsBlock(n) || n.Paragraph? || n.LockedBlock?)
    ensures var spots := SpotsIn(part, n, position);
      Proper(spots) && EntriesOf(n, position) == Entries(spots) && KnownIn(part, n) == Knowns(spots)
      && ControlsOf(n) == SpotHandles(spots)
    decreases n, 1
  {
    if n.Paragraph? {
      ParagraphKids(n);
      ParagraphInlines(n);
      InlineEntries(n.content, Inside(n, position));
      InlineHandles(n.content);
      assert SpotHandles([Spot(part, position, n)]) == FieldHandles(n.content) + [];
    } else if IsBlock(n) {
      hide EntryOf, KnownOf;
      Kids(n);
      SpotsAllAgree(PartOf(part, n), n.content, Inside(n, position));
    }
  }

  lemma {:induction false} SpotsAllAgree(part: string, ns: seq<Node>, position: nat)
    requires forall n | n in ns :: WellFormed(n) && (IsBlock(n) || n.Paragraph? || n.LockedBlock?)
    ensures var spots := SpotsAll(part, ns, position);
      Proper(spots) && EntriesAll(ns, position) == Entries(spots) && KnownAll(part, ns) == Knowns(spots)
      && ControlsAll(ns) == SpotHandles(spots)
    decreases ns, 0
  {
    hide EntryOf, KnownOf, FieldHandles, WellFormed, EntriesOf, KnownIn, ControlsOf, SpotsIn;
    if ns != [] {
      SpotsAgree(part, ns[0], position);
      SpotsAllAgree(part, ns[1..], position + Size(ns[0]));
      Concats(SpotsIn(part, ns[0], position), SpotsAll(part, ns[1..], position + Size(ns[0])));
    }
  }

  // ----- what the editor allows

  /** A child that is no text lies in the range. */
  predicate MeetsAtom(children: seq<Node>, begin: nat, from: nat, to: nat) {
    children != []
    && ((!children[0].Text? && begin < to && from < begin + Size(children[0]))
        || MeetsAtom(children[1..], begin + Size(children[0]), from, to))
  }

  /** The position is between the tokens of a field, so its parent is not the paragraph. */
  predicate InsideField(children: seq<Node>, begin: nat, x: nat) {
    children != []
    && ((children[0].Field? && begin < x < begin + Size(children[0]))
        || InsideField(children[1..], begin + Size(children[0]), x))
  }

  /** The text nodes' units within the range. */
  function TextBetween(children: seq<Node>, begin: nat, from: nat, to: nat): seq<Unit>
    requires from <= to
  {
    if children == [] then [] else
    (if children[0].Text? && begin < to && from < begin + Size(children[0])
     then Encode(children[0].text)[Low0(from, begin)..Low0(Min(begin + Size(children[0]), to), begin)] else [])
      + TextBetween(children[1..], begin + Size(children[0]), from, to)
  }

  predicate AllSome(tape: seq<Option<Unit>>) {
    forall i | 0 <= i < |tape| :: tape[i].Some?
  }

  /** The part of a tape placed at `begin` that lies in the range. */
  function Part(tape: seq<Option<Unit>>, begin: nat, from: nat, to: nat): seq<Option<Unit>> {
    var low, high := Low0(from, begin), Min(|tape|, to - begin);
    if low < high then tape[low..high] else []
  }

  lemma PartSplit(a: seq<Option<Unit>>, b: seq<Option<Unit>>, begin: nat, from: nat, to: nat)
    requires from < to
    ensures Part(a + b, begin, from, to) == Part(a, begin, from, to) + Part(b, begin + |a|, from, to)
  {
  }

  lemma CellsPart(c: Node, begin: nat, from: nat, to: nat)
    requires from < to && Size(c) > 0
    ensures var meets := begin < to && from < begin + Size(c); var part := Part(Cells(c), begin, from, to);
      && (AllSome(part) <==> !(!c.Text? && meets))
      && (c.Text? ==> |Encode(c.text)| == Size(c))
      && (c.Text? ==>
           part == Somes(if meets then Encode(c.text)[Low0(from, begin)..Low0(Min(begin + Size(c), to), begin)]
             else []))
  {
    hide Encode;
    CellsSize(c);
    var part := Part(Cells(c), begin, from, to);
    if !c.Text? && begin < to && from < begin + Size(c) {
      assert part[0].None?;
    }
  }

  lemma NoPart(begin: nat, from: nat, to: nat)
    ensures Part([], begin, from, to) == [] && AllSome([]) && Somes([]) == []
  {
  }

  lemma NoInside(begin: nat, x: nat)
    ensures !InsideField([], begin, x)
  {
  }

  /** What the editor reads between two positions is what the tape holds there. */
  lemma {:induction false} BetweenTape(children: seq<Node>, begin: nat, from: nat, to: nat)
    requires from < to && forall c | c in children :: Size(c) > 0
    ensures AllSome(Part(Tape(children), begin, from, to)) <==> !MeetsAtom(children, begin, from, to)
    ensures !MeetsAtom(children, begin, from, to) ==>
      Part(Tape(children), begin, from, to) == Somes(TextBetween(children, begin, from, to))
  {
    hide Encode, Size, Cells, Part, AllSome, Somes;
    if children == [] {
      NoPart(begin, from, to);
    } else {
      var c, rest, next := children[0], children[1..], begin + Size(children[0]);
      CellsSize(c);
      CellsPart(c, begin, from, to);
      BetweenTape(rest, next, from, to);
      PartSplit(Cells(c), Tape(rest), begin, from, to);
      SomeConcat(Part(Cells(c), begin, from, to), Part(Tape(rest), next, from, to));
      if !MeetsAtom(children, begin, from, to) {
        var own := if c.Text? && begin < to && from < next
                   then Encode(c.text)[Low0(from, begin)..Low0(Min(next, to), begin)] else [];
        assert Part(Cells(c), begin, from, to) == Somes(own) by { if !c.Text? { AtomPart(c, begin, from, to); } }
        SomesConcat(own, TextBetween(rest, next, from, to));
      }
    }
  }

  lemma AtomPart(c: Node, begin: nat, from: nat, to: nat)
    requires !c.Text? && !(begin < to && from < begin + Size(c))
    ensures Part(Cells(c), begin, from, to) == Somes([])
  {
    CellsSize(c);
  }

  lemma SomeConcat(a: seq<Option<Unit>>, b: seq<Option<Unit>>)
    ensures AllSome(a + b) <==> AllSome(a) && AllSome(b)
  {
    if AllSome(a + b) {
      forall i | 0 <= i < |a| ensures a[i].Some? { assert (a + b)[i].Some?; }
      forall i | 0 <= i < |b| ensures b[i].Some? { assert (a + b)[|a| + i].Some?; }
    }
  }

  lemma {:induction false} OutsideFields(children: seq<Node>, begin: nat, from: nat, to: nat)
    requires from < to && !MeetsAtom(children, begin, from, to)
    ensures !InsideField(children, begin, from) && !InsideField(children, begin, to)
  {
    if children != [] {
      OutsideFields(children[1..], begin + Size(children[0]), from, to);
    }
  }

  /** `allowedSpan` for one paragraph: both ends have it as parent, nothing but text lies between, and the text is
      this. */
  predicate AllowedIn(n: Node, position: nat, from: nat, to: nat, text: string)
    requires n.Paragraph?
  {
    var start := position + 1;
    && start <= from <= to <= start + SizeAll(n.content)
    && !InsideField(n.content, start, from) && !InsideField(n.content, start, to)
    && if from == to then SizeAll(n.content) == 0 && text == []
       else !MeetsAtom(n.content, start, from, to) && TextBetween(n.content, start, from, to) == Encode(text)
  }

  /** Inside a paragraph, what the editor reads between two positions is the text exactly when the tape says so. */
  lemma AllowedInside(n: Node, position: nat, from: nat, to: nat, text: string)
    requires WellFormed(n) && n.Paragraph? && position + 1 <= from < to <= position + 1 + |Tape(n.content)|
    ensures var start := position + 1;
      (!MeetsAtom(n.content, start, from, to) && TextBetween(n.content, start, from, to) == Encode(text)) <==>
        Tape(n.content)[from - start..to - start] == Somes(Encode(text))
  {
    hide Encode, MeetsAtom, InsideField, TextBetween, WellFormed, Tape, SizeAll, Size, Inlines, FieldsHoldText;
    var start := position + 1;
    ParagraphKids(n);
    BetweenTape(n.content, start, from, to);
    var tape := Tape(n.content)[from - start..to - start];
    assert Part(Tape(n.content), start, from, to) == tape;
    if tape == Somes(Encode(text)) {
      assert AllSome(tape);
      SomesInjective(TextBetween(n.content, start, from, to), Encode(text));
    }
  }

  /** The editor's check and the save validator's specification accept the same spans. */
  lemma AllowedIsSpan(n: Node, position: nat, from: nat, to: nat, text: string)
    requires WellFormed(n) && n.Paragraph?
    ensures AllowedIn(n, position, from, to, text) <==> Spans(n, position, from, to, text)
  {
    hide Encode, MeetsAtom, InsideField, TextBetween, WellFormed, Tape, SizeAll, Size, Somes, Spans, Inlines,
      FieldsHoldText;
    var start := position + 1;
    NoInside(start, from);
    TapeSize(n.content);
    EmptyParagraph(n);
    if !(start <= from <= to <= start + SizeAll(n.content)) {
      SpanOutside(n, position, from, to, text);
    } else if from == to {
      SpanEmpty(n, position, from, text);
    } else {
      SpanTape(n, position, from, to, text);
      AllowedInside(n, position, from, to, text);
      ParagraphKids(n);
      if !MeetsAtom(n.content, start, from, to) {
        OutsideFields(n.content, start, from, to);
      }
    }
  }
}
