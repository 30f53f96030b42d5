/** What was written can be read again: no native identifier occurs twice in it. */
module Reread {
  import opened Common
  import opened DocumentModel
  import opened Correspondence
  import opened Ooxml
  import opened ImportReads
  import opened BlockExport
  import opened Identities
  import opened NativeIds
  import opened DocxPackage
  import opened DocxExport

  // ----- identifiers already in use

  function Values(x: Xml, tag: Tag, name: Attribute): set<string>
    decreases x, 1
  {
    (if x.tag == tag then {ValueOr(x, name, "")} else {}) + ValuesAll(x.children, tag, name)
  }

  function ValuesAll(xs: seq<Xml>, tag: Tag, name: Attribute): set<string>
    decreases xs, 0
  {
    if xs == [] then {} else Values(xs[0], tag, name) + ValuesAll(xs[1..], tag, name)
  }

  /** An element among these has the tag and this value. */
  ghost predicate HasValue(all: seq<Xml>, tag: Tag, name: Attribute, s: string) {
    exists y :: y in all && Gives(y, tag, name, s)
  }

  predicate Gives(y: Xml, tag: Tag, name: Attribute, s: string) {
    y.tag == tag && s == if name in y.attrs then y.attrs[name] else ""
  }

  /** The values collected are those of the elements that stand in the tree. */
  lemma {:induction false} ValuesMean(x: Xml, tag: Tag, name: Attribute, s: string)
    ensures s in Values(x, tag, name) <==> HasValue(Listing(x), tag, name, s)
    decreases x, 1
  {
    hide HasValue, ValuesAll, ListingAll, Gives;
    ValuesInMean(x.children, tag, name, s);
    EitherValue([x], ListingAll(x.children), tag, name, s);
    OneValue(x, tag, name, s);
    OwnGives(x, tag, name, s);
  }

  lemma {:induction false} OneValue(x: Xml, tag: Tag, name: Attribute, s: string)
    ensures HasValue([x], tag, name, s) <==> Gives(x, tag, name, s)
  {
    hide Gives;
    assert x in [x];
  }

  lemma NoValue(tag: Tag, name: Attribute, s: string)
    ensures !HasValue([], tag, name, s)
  {
  }

  lemma OwnGives(x: Xml, tag: Tag, name: Attribute, s: string)
    ensures Gives(x, tag, name, s) <==> x.tag == tag && s == ValueOr(x, name, "")
  {
  }

  lemma {:induction false} EitherValue(a: seq<Xml>, b: seq<Xml>, tag: Tag, name: Attribute, s: string)
    ensures HasValue(a + b, tag, name, s) <==> HasValue(a, tag, name, s) || HasValue(b, tag, name, s)
  {
  }

  lemma {:induction false} ValuesInMean(xs: seq<Xml>, tag: Tag, name: Attribute, s: string)
    ensures s in ValuesAll(xs, tag, name) <==> HasValue(ListingAll(xs), tag, name, s)
    decreases xs, 0
  {
    hide HasValue, Values, Listing;
    if xs == [] {
      NoValue(tag, name, s);
    } else {
      FrontListing(xs);
      ValuesMean(xs[0], tag, name, s);
      ValuesInMean(xs[1..], tag, name, s);
      EitherValue(Listing(xs[0]), ListingAll(xs[1..]), tag, name, s);
    }
  }

  function PartValues(parts: seq<Part>, tag: Tag, name: Attribute): set<string> {
    if parts == [] then {} else Values(parts[0].root, tag, name) + PartValues(parts[1..], tag, name)
  }

  function Upper(s: string): string {
    seq(|s|, i requires 0 <= i < |s| => if 'a' <= s[i] <= 'z' then (s[i] as int - 32) as char else s[i])
  }

  function UpperValues(parts: seq<Part>): set<string> {
    set s | s in PartValues(parts, P, ParaId) :: Upper(s)
  }

  lemma {:induction false} ValuesWithin(xs: seq<Xml>, tag: Tag, name: Attribute, x: Xml)
    requires x in xs
    ensures Values(x, tag, name) <= ValuesAll(xs, tag, name)
  {
    hide Values;
    if x != xs[0] {
      ValuesWithin(xs[1..], tag, name, x);
    }
    InUnion(Values(x, tag, name), Values(xs[0], tag, name), ValuesAll(xs[1..], tag, name));
  }

  lemma InUnion(a: set<string>, b: set<string>, c: set<string>)
    requires a <= b || a <= c
    ensures a <= b + c
  {
  }

  lemma {:induction false} PartWithin(parts: seq<Part>, tag: Tag, name: Attribute, part: Part)
    requires part in parts
    ensures Values(part.root, tag, name) <= PartValues(parts, tag, name)
  {
    hide Values;
    if part != parts[0] {
      PartWithin(parts[1..], tag, name, part);
    }
    InUnion(Values(part.root, tag, name), Values(parts[0].root, tag, name), PartValues(parts[1..], tag, name));
  }

  lemma OfChild(x: Xml, tag: Tag, name: Attribute, y: Xml)
    requires y in x.children
    ensures Values(y, tag, name) <= Values(x, tag, name)
  {
    hide ValuesAll;
    ValuesWithin(x.children, tag, name, y);
  }

  lemma OwnValue(x: Xml, name: Attribute)
    ensures ValueOr(x, name, "") in Values(x, x.tag, name)
  {
    hide ValuesAll;
  }

  lemma {:induction false} UnderHolder(xs: seq<Xml>, a: Tag, b: Tag) returns (x: Xml, y: Xml)
    requires Under(xs, a, b).Some?
    ensures x in xs && y in x.children && Under(xs, a, b) == Some(y) && y.tag == b
  {
    hide First;
    if xs[0].tag == a && First(xs[0].children, b).Some? {
      x, y := xs[0], First(xs[0].children, b).value;
    } else {
      x, y := UnderHolder(xs[1..], a, b);
    }
  }

  /** Every native identifier the importer registers is the value of some identifier element. */
  lemma {:induction false} NativesAreValues(x: Xml)
    ensures forall s | s in Natives(x) :: s in Values(x, NativeId, Val)
    decreases x, 1
  {
    hide Under, Values, Restricted;
    if IsControl(x) && Under(x.children, SdtPr, NativeId).Some? {
      var properties, native := UnderHolder(x.children, SdtPr, NativeId);
      OwnValue(native, Val);
      OfChild(properties, NativeId, Val, native);
      OfChild(x, NativeId, Val, properties);
    }
    if Holder(x).Some? {
      var holder := Holder(x).value;
      OfChild(x, NativeId, Val, holder);
      forall y | y in holder.children ensures Values(y, NativeId, Val) <= Values(x, NativeId, Val) {
        OfChild(holder, NativeId, Val, y);
      }
      AllAreValues(holder.children, Values(x, NativeId, Val));
    }
  }

  lemma {:induction false} AllAreValues(xs: seq<Xml>, all: set<string>)
    requires forall x | x in xs :: Values(x, NativeId, Val) <= all
    ensures forall s | s in NativesAll(xs) :: s in all
    decreases xs, 0
  {
    hide Values, Natives;
    if xs != [] {
      var n := |xs| - 1;
      assert xs[n] in xs && forall x | x in xs[..n] :: x in xs;
      AllAreValues(xs[..n], all);
      NativesAreValues(xs[n]);
    }
  }

  lemma {:induction false} BlockNativesAreValues(x: Xml)
    ensures forall s | s in BlockNatives(x) :: s in Values(x, NativeId, Val)
    decreases x, 1
  {
    hide Values, NativesAll, BlocksNatives;
    forall y | y in x.children
      ensures Values(y, NativeId, Val) <= Values(x, NativeId, Val)
    {
      OfChild(x, NativeId, Val, y);
    }
    AllAreValues(x.children, Values(x, NativeId, Val));
    BlocksAreValues(x.children, Values(x, NativeId, Val));
  }

  lemma {:induction false} BlocksAreValues(xs: seq<Xml>, all: set<string>)
    requires forall x | x in xs :: Values(x, NativeId, Val) <= all
    ensures forall s | s in BlocksNatives(xs) :: s in all
    decreases xs, 0
  {
    hide Values, BlockNatives;
    if xs != [] {
      var n := |xs| - 1;
      assert xs[n] in xs && forall x | x in xs[..n] :: x in xs;
      BlocksAreValues(xs[..n], all);
      BlockNativesAreValues(xs[n]);
    }
  }

  lemma PartAreValues(roots: seq<Part>, part: Part)
    requires part in roots && Parent(part).Some?
    ensures forall s | s in BlocksNatives(Parent(part).value.children) :: s in PartValues(roots, NativeId, Val)
  {
    hide Values, BlocksNatives, First, PartValues;
    var root, parent := part.root, Parent(part).value;
    PartWithin(roots, NativeId, Val, part);
    if part.name == MAIN {
      OfChild(root, NativeId, Val, parent);
    }
    forall y | y in parent.children ensures Values(y, NativeId, Val) <= PartValues(roots, NativeId, Val) {
      OfChild(parent, NativeId, Val, y);
    }
    BlocksAreValues(parent.children, PartValues(roots, NativeId, Val));
  }

  // ----- by identity

  /** What a node with this identity brings along. */
  function OwnBy(elements: map<Id, Xml>, known: map<Id, Node>, names: map<Id, string>): Id -> seq<string> {
    id => if id in known then OwnNatives(elements, map[], known[id]) else if id in names then [names[id]] else []
  }

  /** An identity of this part of the source, or one made in the editor. */
  predicate Ours(known: map<Id, Node>, part: string, id: Id) {
    (id in known && HomeOf(id) == Some(part)) || id.Made? || id.Split?
  }

  function OursIn(known: map<Id, Node>, part: string): Id -> bool {
    id => Ours(known, part, id)
  }

  ghost predicate MadeNames(names: map<Id, string>) {
    forall id | id in names :: id.Made?
  }

  /** A node like the one known under its identity brings along the same. */
  lemma KnownOwn(elements: map<Id, Xml>, known: map<Id, Node>, marks: map<Id, Source>, names: map<Id, string>, n: Node)
    requires Filed(elements, known, marks) && IdOf(n).Some? && IdOf(n).value in known
    requires Bare(known[IdOf(n).value]) == Bare(n) || (n.Field? && known[IdOf(n).value].Field?)
      || (n.LockedInline? && known[IdOf(n).value].LockedInline?) || (n.Checkbox? && known[IdOf(n).value].Checkbox?)
    ensures OwnNatives(elements, names, n) == OwnBy(elements, known, names)(IdOf(n).value)
  {
    hide From, Told, Natives;
  }

  lemma MadeOwn(elements: map<Id, Xml>, known: map<Id, Node>, marks: map<Id, Source>, names: map<Id, string>, n: Node)
    requires Filed(elements, known, marks) && MadeNames(names) && IdOf(n).Some?
    requires (n.Field? && n.id.Made?) || (n.Paragraph? && n.id.Split?)
    ensures OwnNatives(elements, names, n) == OwnBy(elements, known, names)(IdOf(n).value)
  {
    hide From, Told, Natives;
  }

  /** A leaf, or a node around owned ones. */
  lemma OwnedNode(elements: map<Id, Xml>, names: map<Id, string>, own: Id -> seq<string>, ours: Id -> bool, n: Node)
    requires OwnNatives(elements, names, n) == if IdOf(n).Some? then own(IdOf(n).value) else []
    requires (IdOf(n).Some? ==> ours(IdOf(n).value)) && OwnedAll(elements, names, own, ours, Content(n))
    ensures Owned(elements, names, own, ours, n)
  {
    hide OwnNatives;
  }

  lemma OwnedTexts(elements: map<Id, Xml>, names: map<Id, string>, own: Id -> seq<string>, ours: Id -> bool,
                   ns: seq<Node>)
    requires AllText(ns)
    ensures OwnedAll(elements, names, own, ours, ns)
  {
    forall i | 0 <= i < |ns| ensures Owned(elements, names, own, ours, ns[i]) { assert ns[i] in ns; }
  }

  lemma InlineOwned(w: DocxExport, names: map<Id, string>, part: string, n: Node)
    requires w.Valid() && MadeNames(names) && w.InlineAccepted(n, part)
    ensures Owned(w.elements, names, OwnBy(w.elements, w.known, names), OursIn(w.known, part), n)
  {
    hide Filed, Harmless, OwnNatives, Owned, AllText;
    var own, ours := OwnBy(w.elements, w.known, names), OursIn(w.known, part);
    if n.Text? {
      OwnedTexts(w.elements, names, own, ours, [n]) by { TextOnly(n); }
      assert Owned(w.elements, names, own, ours, [n][0]);
    } else {
      if n.Field? {
        OwnedTexts(w.elements, names, own, ours, n.content);
      }
      if IdOf(n).value in w.known {
        KnownOwn(w.elements, w.known, w.marks, names, n);
      } else {
        MadeOwn(w.elements, w.known, w.marks, names, n);
      }
      OwnedNode(w.elements, names, own, ours, n);
    }
  }

  lemma TextOnly(n: Node)
    requires n.Text?
    ensures AllText([n])
  {
  }

  /** Blocks that are accepted have identities of ours, and bring along what these say. */
  lemma {:induction false} BlockOwned(w: DocxExport, names: map<Id, string>, allowed: set<Id>, part: string, n: Node)
    requires w.Valid() && MadeNames(names) && w.BlockAccepted(n, allowed, part)
    requires forall id | id in allowed :: id in w.known && IsBlockNode(w.known[id]) && Indexed(w.known, w.known[id])
    ensures Owned(w.elements, names, OwnBy(w.elements, w.known, names), OursIn(w.known, part), n)
    decreases n
  {
    hide Filed, Harmless, OwnNatives, Owned, Indexed, BlockOf, DocxExport.InlineAccepted, DocxExport.BlocksAccepted;
    var own, ours := OwnBy(w.elements, w.known, names), OursIn(w.known, part);
    if n.Paragraph? {
      forall i | 0 <= i < |n.content| ensures Owned(w.elements, names, own, ours, n.content[i]) {
        assert n.content[i] in n.content;
        InlineOwned(w, names, part, n.content[i]);
      }
    } else if IsGrid(n) {
      var id := IdOf(n).value;
      KnownBlock(w.elements, w.known, w.marks, id, part);
      var p: nat :| BlockOf(part, w.elements[id], p) == [w.known[id]];
      GridContent(w.known, part, w.known[id], w.elements[id], p);
      BlocksOwned(w, names, w.known[id].content, part, n.content);
    }
    if n.Paragraph? && n.id.Split? {
      MadeOwn(w.elements, w.known, w.marks, names, n);
    } else {
      KnownOwn(w.elements, w.known, w.marks, names, n);
    }
    OwnedNode(w.elements, names, own, ours, n);
  }

  lemma {:induction false} BlocksOwned(w: DocxExport, names: map<Id, string>, originals: seq<Node>, part: string,
                                       ns: seq<Node>)
    requires w.Valid() && MadeNames(names) && w.BlocksAccepted(ns, originals, part) && IndexedAll(w.known, originals)
    requires forall o | o in originals :: IsBlockNode(o)
    ensures OwnedAll(w.elements, names, OwnBy(w.elements, w.known, names), OursIn(w.known, part), ns)
    decreases ns
  {
    hide Filed, Harmless, Owned, Indexed, DocxExport.BlockAccepted, FixedIds, KeepsBoundaries;
    AllowedKnown(w.known, originals);
    forall i | 0 <= i < |ns|
      ensures Owned(w.elements, names, OwnBy(w.elements, w.known, names), OursIn(w.known, part), ns[i])
    {
      BlockOwned(w, names, IdSet(originals), part, ns[i]);
    }
  }

  /** The source's nodes bring along what their identities say, whatever names are given out. */
  lemma {:induction false} SourceOwned(elements: map<Id, Xml>, known: map<Id, Node>, marks: map<Id, Source>,
                                       names: map<Id, string>, n: Node)
    requires Filed(elements, known, marks) && Indexed(known, n)
    ensures Owned(elements, map[], OwnBy(elements, known, names), _ => true, n)
    decreases n
  {
    hide Filed, OwnNatives, Indexed;
    IndexedParts(known, n);
    var own, ours := OwnBy(elements, known, names), _ => true;
    forall i | 0 <= i < |Content(n)| ensures Owned(elements, map[], own, ours, Content(n)[i]) {
      SourceOwned(elements, known, marks, names, Content(n)[i]);
    }
    NoOwn(elements, n);
  }

  lemma IndexedParts(known: map<Id, Node>, n: Node)
    requires Indexed(known, n)
    ensures IdOf(n).Some? ==> IdOf(n).value in known && known[IdOf(n).value] == n
    ensures forall i | 0 <= i < |Content(n)| :: Indexed(known, Content(n)[i])
  {
  }

  lemma NoOwn(elements: map<Id, Xml>, n: Node)
    ensures IdOf(n).None? ==> OwnNatives(elements, map[], n) == []
  {
  }

  // ----- no identifier twice

  /** The index holds no more of a part than its section does. */
  ghost predicate KnownHere(known: map<Id, Node>, part: Part)
    requires Parent(part).Some?
  {
    forall id | id in known && HomeOf(id) == Some(part.name) :: id in IdsAll(SectionOf(part).content)
  }

  /** The identifiers given out: one for each control made, none alike, none of the source's. */
  ghost predicate NewIdentifiers(names: map<Id, string>, roots: seq<Part>) {
    && MadeNames(names) && (forall id | id in names :: names[id] !in PartValues(roots, NativeId, Val))
    && forall i, k | i in names && k in names && i != k :: names[i] != names[k]
  }

  lemma SourceApart(elements: map<Id, Xml>, known: map<Id, Node>, marks: map<Id, Source>, names: map<Id, string>,
                    ns: seq<Node>)
    requires Filed(elements, known, marks) && IndexedAll(known, ns)
    requires NoRepeats(IdsAll(ns)) && NoRepeats(NodesNatives(elements, map[], ns))
    ensures Apart(OwnBy(elements, known, names), IdsAll(ns))
    ensures NodesNatives(elements, map[], ns) == FlatMap(OwnBy(elements, known, names), IdsAll(ns))
  {
    hide Filed, NoRepeats, Indexed, Owned, IdsAll, FlatMap, NodesNatives, Apart, OwnBy;
    var own, ours := OwnBy(elements, known, names), _ => true;
    forall i | 0 <= i < |ns| ensures Owned(elements, map[], own, ours, ns[i]) {
      assert ns[i] in ns;
      SourceOwned(elements, known, marks, names, ns[i]);
    }
    AllByIdentity(elements, map[], own, ours, ns);
    FlatApart(own, IdsAll(ns));
  }

  /** Identities of the part and new ones bring along different identifiers. */
  lemma OursApart(elements: map<Id, Xml>, known: map<Id, Node>, names: map<Id, string>, roots: seq<Part>, part: Part,
                  ids: seq<Id>)
    requires Parent(part).Some? && KnownHere(known, part) && NewIdentifiers(names, roots)
    requires forall id | id in ids :: Ours(known, part.name, id)
    requires forall id | id in known :: HomeOf(id).Some?
    requires Apart(OwnBy(elements, known, names), IdsAll(SectionOf(part).content))
    requires forall s | s in FlatMap(OwnBy(elements, known, names), IdsAll(SectionOf(part).content)) ::
      s in PartValues(roots, NativeId, Val)
    ensures Apart(OwnBy(elements, known, names), ids)
  {
    hide NoRepeats, IdsAll, FlatMap, PartValues, OwnNatives, BlocksOf;
    var own, source := OwnBy(elements, known, names), IdsAll(SectionOf(part).content);
    NoneRepeat<string>();
    forall id | id in ids ensures NoRepeats(own(id)) {
      if id !in known && id in names {
        SingleNoRepeats(names[id]);
      }
    }
    forall i, s | i in ids && i in known && s in own(i)
      ensures s in PartValues(roots, NativeId, Val)
    {
      FlatHas(own, source, s);
    }
  }

  /** Accepted blocks hold no native identifier twice. */
  lemma AcceptedApart(w: DocxExport, names: map<Id, string>, roots: seq<Part>, part: Part, ns: seq<Node>)
    requires w.Valid() && part in roots && Importable(part) && Parent(part).Some?
    requires KnownHere(w.known, part) && NewIdentifiers(names, roots) && NoRepeats(IdsAll(ns))
    requires var source := SectionOf(part).content;
      && IndexedAll(w.known, source) && (forall o | o in source :: IsBlockNode(o)) && NoRepeats(IdsAll(source))
      && NodesNatives(w.elements, map[], source) == BlocksNatives(Parent(part).value.children)
      && w.BlocksAccepted(ns, source, part.name)
    ensures NoRepeats(NodesNatives(w.elements, names, ns))
  {
    hide NoRepeats, IdsAll, FlatMap, PartValues, OwnNatives, BlocksOf, Harmless, Parent, AllTold, BlocksNatives,
      NodesNatives, Apart, OwnBy, DocxExport.BlocksAccepted, Indexed, From, Told, KnownHere, Owned;
    var source, own, ours := SectionOf(part).content, OwnBy(w.elements, w.known, names), OursIn(w.known, part.name);
    PartAreValues(roots, part);
    SourceApart(w.elements, w.known, w.marks, names, source);
    BlocksOwned(w, names, source, part.name, ns);
    AllByIdentity(w.elements, names, own, ours, ns);
    OursApart(w.elements, w.known, names, roots, part, IdsAll(ns));
    ApartFlat(own, IdsAll(ns));
  }
}
