/** Which packages the editor can work on: importing one keeps the editor's schema exactly if its tables are regular. */
module ImportSchema {
  import opened Common
  import opened DocumentModel
  import opened WorkingIndex
  import opened Rebase
  import opened Correspondence
  import opened Transport
  import opened Ooxml
  import opened BlockExport
  import opened Identities
  import opened DocxPackage
  import opened DocxExport

  // ----- regular packages

  /** Where blocks stand: in a part or a cell, in a table, in a row. */
  datatype Place = AmongBlocks | InTable | InRow

  predicate Fits(place: Place, tag: Tag) {
    match place
    case AmongBlocks => !tag.Tr? && !tag.Tc?
    case InTable => tag.Tr?
    case InRow => tag.Tc?
  }

  /** Properties aside, a table holds nothing but rows, a row nothing but cells, and a cell neither. */
  predicate Regular(x: Xml)
    decreases x, 1
  {
    if x.tag.Tbl? then RegularAll(InTable, x.children)
    else if x.tag.Tr? then RegularAll(InRow, x.children)
    else x.tag.Tc? ==> RegularAll(AmongBlocks, x.children)
  }

  predicate RegularAll(place: Place, xs: seq<Xml>)
    decreases xs, 0
  {
    xs == []
    || (RegularAll(place, xs[..|xs| - 1])
        && (IsProperties(xs[|xs| - 1].tag) || (Fits(place, xs[|xs| - 1].tag) && Regular(xs[|xs| - 1]))))
  }

  predicate RegularPart(part: Part) {
    Parent(part).Some? && RegularAll(AmongBlocks, Parent(part).value.children)
  }

  // ----- what the nodes hold

  predicate HoldsIn(place: Place, n: Node) {
    match place
    case AmongBlocks => n.Paragraph? || n.Table? || n.LockedBlock?
    case InTable => n.TableRow?
    case InRow => n.TableCell?
  }

  predicate InlineKind(n: Node) {
    n.Text? || n.Field? || n.LockedInline? || n.Checkbox?
  }

  /** No text is empty. */
  predicate FilledTexts(n: Node) {
    (n.Text? ==> n.text != []) && forall i | 0 <= i < |Content(n)| :: FilledTexts(Content(n)[i])
  }

  lemma {:induction false} FitHasText(n: Node)
    requires WellFormed(n)
    ensures FilledTexts(n)
  {
    forall i | 0 <= i < |Content(n)| ensures FilledTexts(Content(n)[i]) { FitHasText(Content(n)[i]); }
  }

  /** A container fits exactly if all it holds does. */
  lemma ContainerFits(n: Node)
    requires IsContainer(n)
    ensures WellFormed(n) <==> forall c | c in n.content :: MayHold(n, c) && WellFormed(c)
    ensures FilledTexts(n) <==> forall c | c in n.content :: FilledTexts(c)
  {
    hide WellFormed, FilledTexts, MayHold;
    ContainerHolds(n);
    ContainerSpells(n);
    assert forall i | 0 <= i < |n.content| :: n.content[i] in n.content;
  }

  lemma ContainerHolds(n: Node)
    requires IsContainer(n)
    ensures WellFormed(n) <==> forall i | 0 <= i < |n.content| :: MayHold(n, n.content[i]) && WellFormed(n.content[i])
  {
    hide MayHold;
    assert Content(n) == n.content;
  }

  lemma ContainerSpells(n: Node)
    requires IsContainer(n)
    ensures FilledTexts(n) <==> forall i | 0 <= i < |n.content| :: FilledTexts(n.content[i])
  {
    assert Content(n) == n.content;
  }

  // ----- inlines

  /** Whatever stands in a paragraph or control is imported as something that may stand there. */
  lemma {:induction false} InlineFits(part: string, x: Xml, p: nat)
    ensures forall n | n in InlineOf(part, x, p) :: InlineKind(n) && WellFormed(n)
    decreases x, 1
  {
    hide Under, Held, Caption, RunText, PlainRun, RunStyle, KeyOf, WellFormed;
    HeldFits(part, x, p);
    forall n | n in InlineOf(part, x, p) ensures InlineKind(n) && WellFormed(n) {
      assert n == InlineOf(part, x, p)[0];
      if n.Field? {
        assert n.content == Held(part, x, p);
        ContainerFits(n);
      } else {
        LeafFits(n);
      }
    }
  }

  lemma LeafFits(n: Node)
    requires IsLeaf(n) || (n.Text? && n.text != [])
    ensures WellFormed(n) && FilledTexts(n)
  {
  }

  lemma {:induction false} HeldFits(part: string, x: Xml, p: nat)
    ensures forall n | n in Held(part, x, p) :: InlineKind(n) && WellFormed(n)
    decreases x, 0
  {
    hide InlinesOf, WellFormed;
    if Holder(x).Some? {
      InlinesFit(part, Holder(x).value.children, p + Ahead(x.children, SdtContent) + 2);
    }
  }

  lemma {:induction false} InlinesFit(part: string, xs: seq<Xml>, p: nat)
    ensures forall n | n in InlinesOf(part, xs, p) :: InlineKind(n) && WellFormed(n)
    decreases xs, 0
  {
    hide InlineOf, WellFormed, ElementsAll;
    if xs != [] {
      var n := |xs| - 1;
      InlinesFit(part, xs[..n], p);
      InlineFits(part, xs[n], p + ElementsAll(xs[..n]));
    }
  }

  // ----- blocks

  function PlaceOf(tag: Tag): Place {
    if tag.Tbl? then InTable else if tag.Tr? then InRow else AmongBlocks
  }

  /** A block is imported as a node that fits exactly if the block is regular; its kind is told by its tag. */
  lemma {:induction false} BlockFits(part: string, x: Xml, p: nat)
    requires !IsProperties(x.tag)
    ensures |BlockOf(part, x, p)| == 1
    ensures var n := BlockOf(part, x, p)[0];
      && (WellFormed(n) <==> Regular(x)) && FilledTexts(n)
      && forall place: Place :: HoldsIn(place, n) <==> Fits(place, x.tag)
    decreases x, 1
  {
    hide InlinesOf, BlocksOf, Under, Spanned, AlignOf, Caption, WellFormed, FilledTexts, RegularAll;
    var n := BlockOf(part, x, p)[0];
    if x.tag.P? {
      InlinesFit(part, x.children, p + 1);
      ContainerFits(n);
      forall c | c in n.content ensures FilledTexts(c) { FitHasText(c); }
    } else if IsTabular(x.tag) {
      BlocksFit(part, PlaceOf(x.tag), x.children, p + 1);
      ContainerFits(n);
    } else {
      LeafFits(n);
    }
  }

  lemma {:induction false} BlocksFit(part: string, place: Place, xs: seq<Xml>, p: nat)
    ensures (forall c | c in BlocksOf(part, xs, p) :: HoldsIn(place, c) && WellFormed(c)) <==> RegularAll(place, xs)
    ensures forall c | c in BlocksOf(part, xs, p) :: FilledTexts(c)
    decreases xs, 0
  {
    hide BlockOf, WellFormed, FilledTexts, Regular, ElementsAll, HoldsIn, Fits, Elements, BlockNatives, SpansTold;
    if xs != [] {
      var n := |xs| - 1;
      var q := p + ElementsAll(xs[..n]);
      BlocksFit(part, place, xs[..n], p);
      if IsProperties(xs[n].tag) {
        PropertiesRead(part, xs[n], q);
        assert BlocksOf(part, xs, p) == BlocksOf(part, xs[..n], p);
      } else {
        BlockFits(part, xs[n], q);
        OneMoreNode(BlocksOf(part, xs[..n], p), BlockOf(part, xs[n], q)[0]);
        assert BlocksOf(part, xs, p) == BlocksOf(part, xs[..n], p) + [BlockOf(part, xs[n], q)[0]];
      }
    }
  }

  lemma OneMoreNode(ns: seq<Node>, n: Node)
    ensures forall c :: c in ns + [n] <==> c in ns || c == n
  {
  }

  // ----- packages

  lemma SectionFits(part: Part)
    requires Parent(part).Some?
    ensures WellFormed(SectionOf(part)) <==> RegularPart(part)
    ensures FilledTexts(SectionOf(part)) && SectionOf(part).Section?
  {
    hide Parent, BlocksOf, WellFormed, FilledTexts, RegularAll, ParentAt;
    BlocksFit(part.name, AmongBlocks, Parent(part).value.children, ParentAt(part) + 1);
    ContainerFits(SectionOf(part));
  }

  /** The import of a package keeps the editor's schema exactly if every part is regular. */
  lemma ImportFits(parts: seq<Part>)
    requires forall k | 0 <= k < |parts| :: Parent(parts[k]).Some?
    ensures WellFormed(ModelOf(parts)) <==> forall k | 0 <= k < |parts| :: RegularPart(parts[k])
    ensures FilledTexts(ModelOf(parts))
  {
    hide Parent, SectionOf, WellFormed, FilledTexts, RegularPart;
    var model := ModelOf(parts);
    ContainerFits(model);
    forall k | 0 <= k < |parts|
      ensures WellFormed(SectionOf(parts[k])) <==> RegularPart(parts[k])
      ensures FilledTexts(SectionOf(parts[k])) && SectionOf(parts[k]).Section? && model.content[k] in model.content
    {
      SectionFits(parts[k]);
    }
    forall c | c in model.content ensures MayHold(model, c) && FilledTexts(c) {
      var k :| 0 <= k < |parts| && model.content[k] == c;
    }
  }

  // ----- documents that correspond

  /** A child that is no text is a piece of its own; texts are pieces of runs. */
  lemma {:induction false} ChildrenArePieces(ns: seq<Node>)
    ensures forall c | c in ns && !c.Text? :: Child(c) in PiecesOf(ns)
    ensures (exists c :: c in ns && c.Text?) <==> exists p :: p in PiecesOf(ns) && p.Run?
  {
    hide PiecesOf, Joined;
    if ns == [] {
      PiecesNone();
    } else {
      var n := |ns| - 1;
      ChildrenArePieces(ns[..n]);
      PiecesNext(ns, n);
      assert ns[..n + 1] == ns && ns == ns[..n] + [ns[n]];
      JoinedHas(PiecesOf(ns[..n]), ns[n]);
    }
  }

  lemma JoinedHas(pieces: seq<Piece>, n: Node)
    ensures forall m :: Child(m) in Joined(pieces, n) <==> Child(m) in pieces || (!n.Text? && m == n)
    ensures (exists p :: p in Joined(pieces, n) && p.Run?) <==> (exists p :: p in pieces && p.Run?) || n.Text?
  {
    hide StyleOf;
    var k := |pieces| - 1;
    if n.Text? && pieces != [] && pieces[k].Run? && pieces[k].style == StyleOf(n) {
      assert pieces == pieces[..k] + [pieces[k]];
      assert pieces[k] in pieces && Joined(pieces, n)[k] in Joined(pieces, n);
    } else {
      assert Joined(pieces, n)[|pieces|] in Joined(pieces, n);
    }
  }

  /** What corresponds to a document that fits does so too: a copy can be indexed whenever its source could. */
  lemma {:induction false} SameFits(s: Node, t: Node)
    requires Same(s, t) && WellFormed(s) && FilledTexts(t)
    ensures WellFormed(t)
    decreases t
  {
    hide Same, WellFormed, FilledTexts, Pieces, PiecesOf;
    SamePiecesAll(s, t);
    if IsContainer(t) {
      ContainerFits(s);
      ContainerFits(t);
      PiecesAre(s);
      PiecesAre(t);
      ChildrenArePieces(s.content);
      ChildrenArePieces(t.content);
      forall c | c in t.content ensures MayHold(t, c) && WellFormed(c) {
        if c.Text? {
          assert exists p :: p in Pieces(t) && p.Run?;
          RunsOnBoth(Pieces(s), Pieces(t));
          LeafHasText(c);
          LeafFits(c);
        } else {
          var d := ChildOnBoth(s, t, c);
          SamePiecesAll(d, c);
          SameFits(d, c);
        }
      }
    } else {
      LeafHasText(t);
      LeafFits(t);
    }
  }

  lemma LeafHasText(n: Node)
    requires FilledTexts(n)
    ensures n.Text? ==> n.text != []
  {
  }

  lemma RunsOnBoth(a: seq<Piece>, b: seq<Piece>)
    requires SameAll(a, b) && exists p :: p in b && p.Run?
    ensures exists p :: p in a && p.Run?
  {
    hide Same;
    var p :| p in b && p.Run?;
    var i :| 0 <= i < |b| && b[i] == p;
    assert SamePiece(a[i], b[i]) && a[i] in a;
  }

  lemma ChildOnBoth(s: Node, t: Node, c: Node) returns (d: Node)
    requires SameAll(Pieces(s), Pieces(t)) && Child(c) in Pieces(t)
    ensures Same(d, c) && d in Content(s)
  {
    hide Same, Pieces;
    var i :| 0 <= i < |Pieces(t)| && Pieces(t)[i] == Child(c);
    assert SamePiece(Pieces(s)[i], Pieces(t)[i]) && Pieces(s)[i] in Pieces(s);
    d := Pieces(s)[i].node;
  }

  // ----- controls

  /** Without repeated identities no control is repeated. */
  lemma {:induction false} ControlsDistinct(n: Node)
    ensures forall h | h in ControlsOf(n) :: h.id in IdsOf(n)
    ensures NoRepeats(IdsOf(n)) ==> Distinct(ControlsOf(n))
    decreases n, 1
  {
    hide NoRepeats, ControlsAll, IdsAll, Distinct;
    var own := if n.Field? then [Handle(n.id, n.key, n.alias)] else [];
    var inner := if IsContainer(n) then IdsAll(n.content) else [];
    if IsContainer(n) {
      AllControlsDistinct(n.content);
      NoRepeatsConcat(OwnId(n), inner);
    }
    AtMostOne(own);
    if IsContainer(n) && NoRepeats(IdsOf(n)) {
      DistinctConcat(own, ControlsAll(n.content));
    }
  }

  lemma AtMostOne(controls: seq<Handle>)
    requires |controls| <= 1
    ensures Distinct(controls) && controls + [] == controls
  {
  }

  lemma DistinctConcat(a: seq<Handle>, b: seq<Handle>)
    requires Distinct(a) && Distinct(b) && forall h, g | h in a && g in b :: h.id != g.id
    ensures Distinct(a + b)
  {
    var all := a + b;
    forall i, k | 0 <= i < k < |all| ensures all[i].id != all[k].id {
      assert i < |a| ==> all[i] in a;
      assert k >= |a| ==> all[k] in b;
    }
  }

  lemma {:induction false} AllControlsDistinct(ns: seq<Node>)
    ensures forall h | h in ControlsAll(ns) :: h.id in IdsAll(ns)
    ensures NoRepeats(IdsAll(ns)) ==> Distinct(ControlsAll(ns))
    decreases ns, 0
  {
    hide NoRepeats, ControlsOf, IdsOf, IdsAll, Distinct;
    if ns == [] {
      AtMostOne([]);
    } else {
      ControlsDistinct(ns[0]);
      AllControlsDistinct(ns[1..]);
      assert ns == [ns[0]] + ns[1..];
      IdsConcat([ns[0]], ns[1..]);
      OneIds(ns[0]);
      NoRepeatsConcat(IdsOf(ns[0]), IdsAll(ns[1..]));
      if NoRepeats(IdsAll(ns)) {
        DistinctConcat(ControlsOf(ns[0]), ControlsAll(ns[1..]));
      }
    }
  }

  // ----- edits

  /** An accepted inline may stand in a paragraph. */
  lemma InlineStays(w: DocxExport, part: string, n: Node)
    requires w.Valid() && w.InlineAccepted(n, part)
    ensures InlineKind(n) && WellFormed(n)
  {
    hide InlineOf, BlockOf, RunStyle, Harmless, Told, WellFormed, TextFits;
    if n.Field? {
      ContainerFits(n);
      if n.id in w.known && n.content == Content(w.known[n.id]) {
        var p: nat :| InlineOf(part, w.elements[n.id], p) == [w.known[n.id]];
        InlineFits(part, w.elements[n.id], p);
        assert w.known[n.id] in [w.known[n.id]];
        ContainerFits(w.known[n.id]);
      } else {
        forall c | c in n.content ensures WellFormed(c) { LeafFits(c); }
      }
    } else {
      LeafFits(n);
    }
  }

  /** An accepted block may stand where its originals do, if these fit. */
  lemma {:induction false} BlockStays(w: DocxExport, allowed: set<Id>, part: string, place: Place, n: Node)
    requires w.Valid() && w.BlockAccepted(n, allowed, part)
    requires forall id | id in allowed :: id in w.known && IsBlockNode(w.known[id]) && Indexed(w.known, w.known[id])
    requires forall id | id in allowed :: HoldsIn(place, w.known[id]) && WellFormed(w.known[id])
    ensures HoldsIn(place, n) && WellFormed(n)
    decreases n
  {
    hide Filed, Harmless, Indexed, BlockOf, DocxExport.InlineAccepted, DocxExport.BlocksAccepted, WellFormed;
    if n.Paragraph? {
      forall c | c in n.content ensures MayHold(n, c) && WellFormed(c) { InlineStays(w, part, c); }
      ContainerFits(n);
    } else if IsGrid(n) {
      var id := IdOf(n).value;
      var original := w.known[id];
      KnownBlock(w.elements, w.known, w.marks, id, part);
      var p: nat :| BlockOf(part, w.elements[id], p) == [original];
      GridContent(w.known, part, original, w.elements[id], p);
      ContainerFits(original);
      BlocksStay(w, original.content, part, PlaceInside(n), n.content);
      ContainerFits(n);
    }
  }

  function PlaceInside(n: Node): Place {
    if n.Table? then InTable else if n.TableRow? then InRow else AmongBlocks
  }

  lemma {:induction false} BlocksStay(w: DocxExport, originals: seq<Node>, part: string, place: Place, ns: seq<Node>)
    requires w.Valid() && w.BlocksAccepted(ns, originals, part) && IndexedAll(w.known, originals)
    requires forall o | o in originals :: IsBlockNode(o) && HoldsIn(place, o) && WellFormed(o)
    ensures forall n | n in ns :: HoldsIn(place, n) && WellFormed(n)
    decreases ns
  {
    hide Filed, Harmless, Indexed, DocxExport.BlockAccepted, FixedIds, KeepsBoundaries, WellFormed;
    AllowedKnown(w.known, originals);
    AllowedAre(w.known, originals);
    forall i | 0 <= i < |ns| ensures HoldsIn(place, ns[i]) && WellFormed(ns[i]) {
      BlockStays(w, IdSet(originals), part, place, ns[i]);
    }
  }

  lemma AllowedAre(known: map<Id, Node>, originals: seq<Node>)
    requires IndexedAll(known, originals)
    ensures forall id | id in IdSet(originals) :: id in known && known[id] in originals
  {
    forall id | id in IdSet(originals) ensures id in known && known[id] in originals {
      var o :| o in originals && IdOf(o) == Some(id);
      assert Indexed(known, o);
    }
  }
}
