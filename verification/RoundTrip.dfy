/** Export and import again: whatever the exporter accepts comes back as the same document. */
module RoundTrip {
  import opened Common
  import opened DocumentModel
  import opened WorkingIndex
  import opened Correspondence
  import opened Ooxml
  import opened Reimport
  import opened XmlEdits
  import opened Identities
  import opened NativeIds
  import opened DocxPackage
  import opened NativeExport
  import opened KeptSource
  import opened DocxExport
  import opened Reread
  import opened ImportSchema
  import opened FreshIds

  // ----- indexing the source

  ghost predicate Extends(a: map<Id, Node>, b: map<Id, Node>, ids: seq<Id>) {
    && (forall id | id in a :: id in b && b[id] == a[id])
    && (forall id | id in b && id !in a :: id in ids)
  }

  ghost predicate Indexable(elements: map<Id, Xml>, part: string, ns: seq<Node>, known: map<Id, Node>) {
    TracedAll(elements, part, ns) && NoRepeats(IdsAll(ns)) && forall id | id in IdsAll(ns) :: id !in known
  }

  lemma {:induction false} StillIndexed(a: map<Id, Node>, b: map<Id, Node>, n: Node)
    requires Indexed(a, n) && forall id | id in a :: id in b && b[id] == a[id]
    ensures Indexed(b, n)
    decreases n
  {
    forall i | 0 <= i < |Content(n)| ensures Indexed(b, Content(n)[i]) { StillIndexed(a, b, Content(n)[i]); }
  }

  lemma AllIndexedStill(a: map<Id, Node>, b: map<Id, Node>, ns: seq<Node>)
    requires IndexedAll(a, ns) && forall id | id in a :: id in b && b[id] == a[id]
    ensures IndexedAll(b, ns)
  {
    hide Indexed;
    forall n | n in ns ensures Indexed(b, n) { StillIndexed(a, b, n); }
  }

  /** The next node's identities are new, whatever the nodes before it have added. */
  lemma NextIndexable(elements: map<Id, Xml>, part: string, ns: seq<Node>, i: nat, a: map<Id, Node>, b: map<Id, Node>)
    requires i < |ns| && Indexable(elements, part, ns, a) && Extends(a, b, IdsAll(ns[..i]))
    ensures Traced(elements, part, ns[i]) && NoRepeats(IdsOf(ns[i])) && forall id | id in IdsOf(ns[i]) :: id !in b
  {
    hide NoRepeats, Traced, IdsOf;
    assert ns[i] in ns;
    NextDistinct(ns, i);
  }

  lemma TracedParts(elements: map<Id, Xml>, part: string, n: Node)
    requires Traced(elements, part, n)
    ensures From(elements, part, n) && Told(elements, n) && TracedAll(elements, part, Content(n))
  {
    hide From, Told;
  }

  lemma ContentApart(n: Node, known: map<Id, Node>)
    requires NoRepeats(IdsOf(n)) && (forall id | id in IdsOf(n) :: id !in known) && !n.Text? && IdOf(n).Some?
    ensures NoRepeats(IdsAll(Content(n))) && forall id | id in IdsAll(Content(n)) :: id !in known[IdOf(n).value := n]
    ensures IdsOf(n) == [IdOf(n).value] + IdsAll(Content(n))
  {
    hide NoRepeats, IdsAll;
    if !IsContainer(n) {
      NoIds();
    }
    NoRepeatsConcat([IdOf(n).value], IdsAll(Content(n)));
  }

  lemma FiledMark(elements: map<Id, Xml>, part: string, known: map<Id, Node>, marks: map<Id, Source>, n: Node)
    requires Filed(elements, known, marks) && n.Text? && From(elements, part, n)
    ensures Filed(elements, known, marks[n.source.value.id := n.source.value])
  {
    hide InlineOf, BlockOf, RunStyle, Told;
  }

  lemma FiledNode(elements: map<Id, Xml>, part: string, known: map<Id, Node>, marks: map<Id, Source>, n: Node)
    requires Filed(elements, known, marks) && !n.Text? && From(elements, part, n) && Told(elements, n)
    ensures Filed(elements, known[IdOf(n).value := n], marks)
  {
    hide InlineOf, BlockOf, RunStyle, Told;
  }

  lemma ExtendsOn(a: map<Id, Node>, b: map<Id, Node>, c: map<Id, Node>, x: seq<Id>, y: seq<Id>)
    requires Extends(a, b, x) && Extends(b, c, y)
    ensures Extends(a, c, x + y)
  {
  }

  lemma IndexedNode(known: map<Id, Node>, n: Node)
    requires !n.Text? && IdOf(n).Some? && IdOf(n).value in known && known[IdOf(n).value] == n
      && IndexedAll(known, Content(n))
    ensures Indexed(known, n)
  {
  }

  lemma IndexedText(known: map<Id, Node>, n: Node)
    requires n.Text?
    ensures Indexed(known, n) && IdsOf(n) == []
  {
  }

  /** Every text's mark is filed. */
  ghost predicate Marked(marks: map<Id, Source>, n: Node)
    decreases n
  {
    && (n.Text? ==> n.source.Some? && n.source.value.id in marks)
    && forall i | 0 <= i < |Content(n)| :: Marked(marks, Content(n)[i])
  }

  ghost predicate MarkedAll(marks: map<Id, Source>, ns: seq<Node>) {
    forall n | n in ns :: Marked(marks, n)
  }

  lemma {:induction false} StillMarked(a: map<Id, Source>, b: map<Id, Source>, n: Node)
    requires Marked(a, n) && forall id | id in a :: id in b
    ensures Marked(b, n)
    decreases n
  {
    forall i | 0 <= i < |Content(n)| ensures Marked(b, Content(n)[i]) { StillMarked(a, b, Content(n)[i]); }
  }

  lemma AllMarkedStill(a: map<Id, Source>, b: map<Id, Source>, ns: seq<Node>)
    requires MarkedAll(a, ns) && forall id | id in a :: id in b
    ensures MarkedAll(b, ns)
  {
    hide Marked;
    forall n | n in ns ensures Marked(b, n) { StillMarked(a, b, n); }
  }

  lemma MarkedNode(marks: map<Id, Source>, n: Node)
    requires (n.Text? ==> n.source.Some? && n.source.value.id in marks) && MarkedAll(marks, Content(n))
    ensures Marked(marks, n)
  {
  }

  /** A traced tree whose nodes and marks are filed is native. */
  lemma {:induction false} MakesNative(elements: map<Id, Xml>, known: map<Id, Node>, marks: map<Id, Source>,
                                       part: string, n: Node)
    requires Filed(elements, known, marks) && Traced(elements, part, n) && Indexed(known, n) && Marked(marks, n)
    ensures Native(known, marks, part, n)
    decreases n
  {
    hide InlineOf, BlockOf, RunStyle, Filed, From, Told;
    FileFacts(elements, known, marks, part, n);
    forall i | 0 <= i < |Content(n)|
      ensures (n.Paragraph? ==> IsInlineNode(Content(n)[i])) && Native(known, marks, part, Content(n)[i])
    {
      assert Content(n)[i] in Content(n);
      MakesNative(elements, known, marks, part, Content(n)[i]);
    }
  }

  lemma FileFacts(elements: map<Id, Xml>, known: map<Id, Node>, marks: map<Id, Source>, part: string, n: Node)
    requires Filed(elements, known, marks) && From(elements, part, n)
    requires n.Text? ==> n.source.Some? && n.source.value.id in marks
    ensures n.Text? ==>
      n.text != [] && marks[n.source.value.id] == n.source.value && HomeOf(n.source.value.id) == Some(part)
    ensures !n.Text? ==> IdOf(n).Some? && HomeOf(IdOf(n).value) == Some(part)
    ensures (n.LockedInline? ==> n.shapes == map[]) && (n.Paragraph? ==> forall c | c in n.content :: IsInlineNode(c))
  {
    hide RunStyle, InlineOf, BlockOf, Told;
    if n.LockedInline? {
      var p: nat :| InlineOf(part, elements[n.id], p) == [n];
      NoFills(part, elements[n.id], p);
    } else if n.Paragraph? {
      var p: nat :| BlockOf(part, elements[n.id], p) == [n];
      ParagraphContent(part, elements[n.id], p);
      InlinesAreInline(part, elements[n.id].children, p + 1);
    }
  }

  lemma NoFills(part: string, x: Xml, p: nat)
    requires |InlineOf(part, x, p)| == 1 && InlineOf(part, x, p)[0].LockedInline?
    ensures InlineOf(part, x, p)[0].shapes == map[]
  {
    hide Under, Held, Caption, RunText, PlainRun;
  }

  lemma ParagraphContent(part: string, x: Xml, p: nat)
    requires |BlockOf(part, x, p)| == 1 && BlockOf(part, x, p)[0].Paragraph?
    ensures BlockOf(part, x, p)[0].content == InlinesOf(part, x.children, p + 1)
  {
    hide Under, InlinesOf, BlocksOf, Caption, Spanned;
  }

  /** `index`: every node of the source filed under its identity. */
  method IndexNodes(ghost elements: map<Id, Xml>, ghost part: string, ns: seq<Node>, known: map<Id, Node>,
                    marks: map<Id, Source>)
    returns (k: map<Id, Node>, m: map<Id, Source>)
    requires Filed(elements, known, marks) && Indexable(elements, part, ns, known)
    ensures Filed(elements, k, m) && IndexedAll(k, ns) && Extends(known, k, IdsAll(ns))
    ensures MarkedAll(m, ns) && forall id | id in marks :: id in m
    decreases ns
  {
    hide Filed, From, Told, Traced, Indexed, NoRepeats, IdsOf, IdsAll, Extends, Marked;
    k, m := known, marks;
    NoneExtends(known, ns);
    var i := 0;
    while i < |ns|
      invariant 0 <= i <= |ns| && Filed(elements, k, m) && IndexedAll(k, ns[..i]) && Extends(known, k, IdsAll(ns[..i]))
      invariant MarkedAll(m, ns[..i]) && forall id | id in marks :: id in m
    {
      var node := ns[i];
      ghost var before, marked := k, m;
      NextIndexable(elements, part, ns, i, known, k);
      TracedParts(elements, part, node);
      IdsNext(ns, i);
      if node.Text? {
        TextMarked(elements, part, node);
        FiledMark(elements, part, k, m, node);
        m := m[node.source.value.id := node.source.value];
        IndexedText(k, node);
        NoneExtends(k, []);
        NoIds();
      } else {
        NodeIdentified(elements, part, node);
        ContentApart(node, k);
        FiledNode(elements, part, k, m, node);
        k := k[IdOf(node).value := node];
        OneExtends(before, node);
        ghost var own := k;
        k, m := IndexNodes(elements, part, Content(node), k, m);
        ExtendsOn(before, own, k, [IdOf(node).value], IdsAll(Content(node)));
        ExtendsKeeps(own, k, IdsAll(Content(node)));
        IndexedNode(k, node);
      }
      ExtendsOn(known, before, k, IdsAll(ns[..i]), IdsOf(node));
      ExtendsKeeps(before, k, IdsOf(node));
      AllIndexedStill(before, k, ns[..i]);
      AllMarkedStill(marked, m, ns[..i]);
      MarkedNode(m, node);
      assert ns[..i + 1] == ns[..i] + [node];
      i := i + 1;
    }
    assert ns[..i] == ns;
  }

  lemma IdsNext(ns: seq<Node>, i: nat)
    requires i < |ns|
    ensures IdsAll(ns[..i + 1]) == IdsAll(ns[..i]) + IdsOf(ns[i])
  {
    hide IdsOf;
    assert ns[..i + 1][..i] == ns[..i];
  }

  lemma NoneExtends(a: map<Id, Node>, ns: seq<Node>)
    ensures Extends(a, a, IdsAll(ns[..0])) && Extends(a, a, [])
  {
  }

  lemma OneExtends(a: map<Id, Node>, n: Node)
    requires IdOf(n).Some? && IdOf(n).value !in a
    ensures Extends(a, a[IdOf(n).value := n], [IdOf(n).value])
  {
  }

  lemma ExtendsKeeps(a: map<Id, Node>, b: map<Id, Node>, ids: seq<Id>)
    requires Extends(a, b, ids)
    ensures forall id | id in a :: id in b && b[id] == a[id]
  {
  }

  lemma TextMarked(elements: map<Id, Xml>, part: string, n: Node)
    requires From(elements, part, n) && n.Text?
    ensures n.source.Some?
  {
  }

  lemma NodeIdentified(elements: map<Id, Xml>, part: string, n: Node)
    requires From(elements, part, n) && !n.Text?
    ensures IdOf(n).Some?
  {
    hide InlineOf, BlockOf;
  }

  // ----- parts

  /** The part with other blocks. */
  function Rebuilt(part: Part, blocks: seq<Xml>): Part
    requires Parent(part).Some?
  {
    if part.name == MAIN
    then part.(root := part.root.(children := Put(part.root.children, Parent(part).value.(children := blocks))))
    else part.(root := part.root.(children := blocks))
  }

  lemma RebuiltParent(part: Part, blocks: seq<Xml>)
    requires Parent(part).Some?
    ensures Rebuilt(part, blocks).name == part.name && Parent(Rebuilt(part, blocks)).Some?
    ensures Parent(Rebuilt(part, blocks)).value.children == blocks
  {
    hide First, Put;
    if part.name == MAIN {
      PutFirst(part.root.children, Parent(part).value.(children := blocks), Body);
    }
  }

  /** Importing the part gives the section back. */
  ghost predicate RendersPart(section: Node, part: Part) {
    && section.Section? && section.part == part.name && Parent(part).Some?
    && forall p: nat :: AlikeAll(section.content, BlocksOf(part.name, Parent(part).value.children, p))
  }

  lemma PartCorresponds(section: Node, part: Part)
    requires RendersPart(section, part)
    ensures Alike(section, SectionOf(part))
  {
    hide AlikeAll, BlocksOf, Parent, Alike, ParentAt;
    assert AlikeAll(section.content, BlocksOf(part.name, Parent(part).value.children, ParentAt(part) + 1));
    AlikeSame(section, SectionOf(part));
  }

  lemma UnchangedPart(part: Part)
    requires Parent(part).Some?
    ensures RendersPart(SectionOf(part), part)
  {
    hide AlikeAll, BlocksOf, Parent, ParentAt;
    forall p: nat ensures AlikeAll(SectionOf(part).content, BlocksOf(part.name, Parent(part).value.children, p)) {
      BlocksMoved(part.name, Parent(part).value.children, ParentAt(part) + 1, p);
    }
  }

  ghost predicate RendersParts(sections: seq<Node>, parts: seq<Part>) {
    |sections| == |parts| && forall k | 0 <= k < |parts| :: RendersPart(sections[k], parts[k])
  }

  lemma DocumentCorresponds(sections: seq<Node>, parts: seq<Part>)
    requires RendersParts(sections, parts)
    ensures (forall k | 0 <= k < |parts| :: Parent(parts[k]).Some?) && Same(Doc(sections), ModelOf(parts))
  {
    hide AlikeAll, BlocksOf, Parent, Alike, SectionOf, RendersPart, Same;
    forall k | 0 <= k < |parts| ensures Parent(parts[k]).Some? && Alike(sections[k], SectionOf(parts[k])) {
      PartHas(sections[k], parts[k]);
      PartCorresponds(sections[k], parts[k]);
    }
    AlikeLists(sections, ModelOf(parts).content);
    AlikeSame(Doc(sections), ModelOf(parts));
  }

  lemma PartHas(section: Node, part: Part)
    requires RendersPart(section, part)
    ensures Parent(part).Some?
  {
    hide AlikeAll, BlocksOf;
  }

  lemma AlikeLists(ns: seq<Node>, ms: seq<Node>)
    requires |ns| == |ms| && forall k | 0 <= k < |ns| :: Alike(ns[k], ms[k])
    ensures AlikeAll(ns, ms)
  {
    hide Alike;
  }

  // ----- an import never repeats an identity

  lemma SectionIssues(part: Part)
    requires Importable(part)
    ensures NoRepeats(IdsOf(SectionOf(part)))
      && forall id | id in IdsOf(SectionOf(part)) :: HomeOf(id) == Some(part.name)
  {
    hide BlocksOf, BlocksNatives, AllTold, NoRepeats, IdsAll, ElementsAll, Parent;
    var children := Parent(part).value.children;
    BlocksIssue(part.name, children, ParentAt(part) + 1);
    var ids := IdsAll(SectionOf(part).content);
    assert IdsOf(SectionOf(part)) == [] + ids;
    assert [] + ids == ids;
    forall id | id in ids ensures HomeOf(id) == Some(part.name) {
      assert Issued(id, part.name, ParentAt(part) + 1, ParentAt(part) + 1 + ElementsAll(children),
        BlocksNatives(children));
    }
  }

  lemma {:induction false} SectionsIssue(parts: seq<Part>, sections: seq<Node>, k: nat)
    requires |sections| == |parts| && NoRepeats(Names(parts)) && k <= |parts|
    requires forall m | 0 <= m < |parts| :: Importable(parts[m]) && sections[m] == SectionOf(parts[m])
    ensures NoRepeats(IdsAll(sections[..k]))
    ensures forall id | id in IdsAll(sections[..k]) :: HomeOf(id).Some? && HomeOf(id).value in Names(parts)[..k]
  {
    hide Importable, SectionOf, IdsOf, NoRepeats;
    if k == 0 {
      NoIds();
      NoneRepeat<Id>();
    } else {
      var ids, more := IdsAll(sections[..k - 1]), IdsOf(sections[k - 1]);
      SectionsIssue(parts, sections, k - 1);
      SectionIssues(parts[k - 1]);
      IdsNext(sections, k - 1);
      NoRepeatsConcat(ids, more);
      var names := Names(parts);
      NameApart(names, k - 1);
      assert names[..k] == names[..k - 1] + [names[k - 1]];
      forall id | id in ids ensures id !in more { assert HomeOf(id).value in names[..k - 1]; }
    }
  }

  lemma NameApart(names: seq<string>, k: nat)
    requires NoRepeats(names) && k < |names|
    ensures names[k] !in names[..k]
  {
  }

  /** No identity occurs twice in what is imported from a package. */
  lemma ImportIsDistinct(parts: seq<Part>)
    requires NoRepeats(Names(parts)) && forall k | 0 <= k < |parts| :: Importable(parts[k])
    ensures (forall k | 0 <= k < |parts| :: Parent(parts[k]).Some?) && NoRepeats(IdsOf(ModelOf(parts)))
  {
    hide NoRepeats, SectionOf, IdsAll, Importable;
    assert forall k | 0 <= k < |parts| :: Parent(parts[k]).Some? by {
      forall k | 0 <= k < |parts| ensures Parent(parts[k]).Some? { ImportableHas(parts[k]); }
    }
    var sections := ModelOf(parts).content;
    SectionsIssue(parts, sections, |parts|);
    assert sections[..|parts|] == sections;
    assert IdsOf(ModelOf(parts)) == [] + IdsAll(sections);
    assert [] + IdsAll(sections) == IdsAll(sections);
  }

  lemma ImportableHas(part: Part)
    requires Importable(part)
    ensures Parent(part).Some?
  {
    hide AllTold, NoRepeats, BlocksNatives;
  }

  /** The whole result of an writer. */
  ghost predicate Returns(model: Node, parts: seq<Part>, result: seq<Part>) {
    && model.Doc? && |result| == |parts| && Names(result) == Names(parts)
    && (forall k | 0 <= k < |result| :: Importable(result[k]) && Parent(result[k]).Some?)
    && Same(model, ModelOf(result)) && OneToOne(Pairs(model, ModelOf(result)))
  }

  lemma ReturnsAll(model: Node, parts: seq<Part>, result: seq<Part>)
    requires model.Doc? && NoRepeats(Names(parts)) && Names(result) == Names(parts) && |result| == |parts|
    requires RendersParts(model.content, result) && NoRepeats(IdsAll(model.content))
    requires forall k | 0 <= k < |result| :: Importable(result[k])
    ensures Returns(model, parts, result)
  {
    hide NoRepeats, RendersPart, Importable, Same, Pairs, SectionOf, IdsAll;
    forall k | 0 <= k < |result| ensures Parent(result[k]).Some? { ImportableHas(result[k]); }
    DocumentCorresponds(model.content, result);
    ImportIsDistinct(result);
    assert IdsOf(model) == [] + IdsAll(model.content);
    assert [] + IdsAll(model.content) == IdsAll(model.content);
    DistinctIsOneToOne(model, ModelOf(result));
  }

  // ----- the theorem

  /** A section whose blocks can be written into its part. */
  ghost predicate SectionAccepted(writer: DocxExport, section: Node, part: Part) {
    && Parent(part).Some? && section.Section? && section.part == part.name
    && writer.BlocksAccepted(section.content, SectionOf(part).content, part.name)
  }

  /** A document that can be written: its parts are the source's, every edit is one the exporter can make, no identity
      is used twice, and no locked element is lost. */
  ghost predicate Acceptable(writer: DocxExport, model: Node, parts: seq<Part>, unsupported: seq<Id>) {
    && model.Doc? && |model.content| == |parts|
    && (forall k | 0 <= k < |parts| :: SectionAccepted(writer, model.content[k], parts[k]))
    && NoRepeats(IdsAll(model.content))
    && (forall id :: id in LockedAll(model.content) <==> id in unsupported)
  }

  /** The column spans of the part can be told, it holds the native identifiers its section brings along, and its new
      paragraphs stand under the identifiers they were given. */
  ghost predicate Holds(elements: map<Id, Xml>, given: Register, section: Node, part: Part) {
    && section.Section? && Parent(part).Some?
    && CarriesBlocks(elements, given.controlNames, section.content, Parent(part).value.children)
    && LabelsAll(given.paragraphNames, section.content, BlocksIn(Parent(part).value.children))
  }

  lemma HoldsLater(elements: map<Id, Xml>, a: Register, b: Register, section: Node, part: Part)
    requires Holds(elements, a, section, part) && Later(a, b)
    ensures Holds(elements, b, section, part)
  {
    hide Brings, Parent, AllTold, BlocksNatives, LabelsAll, BlocksIn;
    LaterNames(a, b);
    AllLabelsLater(a.paragraphNames, b.paragraphNames, section.content, BlocksIn(Parent(part).value.children));
    BringsLater(elements, a.controlNames, b.controlNames, section.content, BlocksNatives(Parent(part).value.children));
  }

  /** What has been written for a section: its part itself if nothing changed. */
  ghost predicate Rendered(elements: map<Id, Xml>, given: Register, section: Node, part: Part, written: Part) {
    && Parent(part).Some? && written.name == part.name
    && if section == SectionOf(part) then written == part else Holds(elements, given, section, written)
  }

  /** Nothing of a part changes but what was edited. */
  ghost predicate Preserves(elements: map<Id, Xml>, known: map<Id, Node>, section: Node, part: Part, written: Part) {
    && Parent(part).Some? && section.Section?
    && if section == SectionOf(part) then written == part else KeepsPart(elements, known, section, part, written)
  }

  lemma RebuiltKeeps(elements: map<Id, Xml>, known: map<Id, Node>, section: Node, part: Part, blocks: seq<Xml>)
    requires section.Section? && Parent(part).Some? && LaidOut(Parent(part).value.children, blocks)
    requires KeepsBlocks(elements, known, section.content, Beside(blocks, CONTAINER))
    ensures KeepsPart(elements, known, section, part, Rebuilt(part, blocks))
  {
    hide LaidOut, KeepsBlocks, Beside, First, Put;
    RebuiltParent(part, blocks);
    if part.name == MAIN {
      var after := Parent(part).value.(children := blocks);
      PutFirst(part.root.children, after, Body);
      var i := PutReplaces(part.root.children, after);
    }
  }

  /** One part written back: rebuilt if its section changed, otherwise as it was. */
  method RenderSection(writer: DocxExport, section: Node, part: Part) returns (r: Option<Part>)
    requires writer.Valid() && writer.Issuing() && Parent(part).Some? && writer.Room(Count(section))
    requires IndexedAll(writer.known, SectionOf(part).content)
      && forall o | o in SectionOf(part).content :: IsBlockNode(o)
    modifies writer`seen, writer`locked, writer`controlIds, writer`controlNames, writer`paragraphIds,
      writer`paragraphNames
    ensures r.Some? <==> SectionAccepted(writer, section, part) && Unused(old(writer.seen), IdsOf(section))
    ensures r.Some? ==>
      && RendersPart(section, r.value) && Rendered(writer.elements, writer.Given(), section, part, r.value)
      && Preserves(writer.elements, writer.known, section, part, r.value)
      && Tracked(old(writer.seen), writer.seen, IdsOf(section))
      && Listed(old(writer.locked), writer.locked, LockedOf(section))
      && writer.IssuedSince(old(writer.Given()))
    ensures |writer.controlIds| <= |old(writer.controlIds)| + Count(section)
    ensures |writer.paragraphIds| <= |old(writer.paragraphIds)| + Count(section)
  {
    hide Unused, Filed, Harmless, RendersPart, SectionOf, Tracked, Listed, IdsAll, IdsOf, LockedAll, LockedOf,
      CountAll, Count, AlikeAll, BlocksOf, Rebuilt, IndexedAll, Parent, FreshNames, DocxExport.BlocksAccepted,
      CarriesBlocks, LabelsAll, BlocksIn, KeepsPart, KeepsBlocks, LaidOut, Beside;
    SectionNamed(part);
    if !section.Section? || section.part != part.name {
      return None;
    }
    SectionUses(section);
    var original := SectionOf(part);
    var blocks := writer.Blocks(Parent(part).value.children, section.content, original.content, part.name);
    if blocks.None? {
      return None;
    }
    if section != original {
      RebuiltRenders(section, part, blocks.value);
      RebuiltParent(part, blocks.value);
      RebuiltKeeps(writer.elements, writer.known, section, part, blocks.value);
      r := Some(Rebuilt(part, blocks.value));
    } else {
      UnchangedPart(part);
      r := Some(part);
    }
  }

  /** The names given to the controls and paragraphs of a document that were made in the editor: one for each, no two
      alike, none that the package uses in any part, imported or not. */
  ghost predicate NewNames(writer: DocxExport, model: Node, roots: seq<Part>)
    reads writer`controlNames, writer`paragraphNames
  {
    && writer.controlNames.Keys == MadeIn(set id | id in IdsOf(model))
    && writer.paragraphNames.Keys == SplitIn(set id | id in IdsOf(model))
    && (forall id | id in writer.controlNames :: writer.controlNames[id] !in PartValues(roots, NativeId, Val))
    && (forall id | id in writer.paragraphNames :: writer.paragraphNames[id] !in UpperValues(roots))
    && (forall i, k | i in writer.controlNames && k in writer.controlNames && i != k ::
          writer.controlNames[i] != writer.controlNames[k])
    && (forall i, k | i in writer.paragraphNames && k in writer.paragraphNames && i != k ::
          writer.paragraphNames[i] != writer.paragraphNames[k])
  }

  lemma NamesAreNew(writer: DocxExport, model: Node, roots: seq<Part>)
    requires model.Doc? && writer.Issuing() && Tracked({}, writer.seen, IdsAll(model.content))
    requires writer.sourceControls == PartValues(roots, NativeId, Val) && writer.sourceParagraphs == UpperValues(roots)
    ensures NewNames(writer, model, roots)
  {
    hide IdsAll, PartValues, UpperValues, NoRepeats;
    assert [] + IdsAll(model.content) == IdsAll(model.content);
    assert IdsOf(model) == [] + IdsAll(model.content);
    assert writer.seen == set id | id in IdsOf(model);
  }

  lemma RenderedLater(elements: map<Id, Xml>, a: Register, b: Register, section: Node, part: Part, written: Part)
    requires Rendered(elements, a, section, part, written) && Later(a, b)
    ensures Rendered(elements, b, section, part, written)
  {
    hide Holds, Parent, SectionOf, Later;
    if section != SectionOf(part) {
      HoldsLater(elements, a, b, section, written);
    }
  }

  /** The rendering itself: every part written back, or the first refusal. */
  method WriteParts(writer: DocxExport, model: Node, parts: seq<Part>) returns (r: Option<seq<Part>>)
    requires writer.Valid() && forall k | 0 <= k < |parts| :: Parent(parts[k]).Some?
    requires Sourced(writer.elements, writer.known, writer.marks, parts) && model.Doc? && |model.content| == |parts|
    requires writer.Issuing() && writer.seen == {} && writer.locked == {} && writer.Room(Count(model))
    modifies writer`seen, writer`locked, writer`controlIds, writer`controlNames, writer`paragraphIds,
      writer`paragraphNames
    ensures r.Some? <==>
      && (forall k | 0 <= k < |parts| :: SectionAccepted(writer, model.content[k], parts[k]))
      && NoRepeats(IdsAll(model.content))
    ensures r.Some? ==>
      && RendersParts(model.content, r.value) && |r.value| == |parts|
      && (forall m | 0 <= m < |parts| ::
           Rendered(writer.elements, writer.Given(), model.content[m], parts[m], r.value[m])
             && Preserves(writer.elements, writer.known, model.content[m], parts[m], r.value[m]))
      && Tracked({}, writer.seen, IdsAll(model.content)) && Listed({}, writer.locked, LockedAll(model.content))
      && writer.IssuedSince(old(writer.Given()))
  {
    hide Unused, Filed, Harmless, RendersPart, SectionOf, NoRepeats, Tracked, Listed, IdsAll, IdsOf, LockedAll,
      LockedOf, CountAll, Count, Sourced, IndexedAll, Parent, FreshNames, SectionAccepted, DocxExport.Issuing, Later,
      Rendered, Preserves;
    DocumentCount(model);
    StartUses(model.content, writer.seen, writer.locked);
    LaterSelf(writer.Given());
    EmptyUnused(IdsAll(model.content));
    var result: seq<Part> := [];
    var k := 0;
    while k < |parts|
      invariant 0 <= k <= |parts| && writer.Valid() && |result| == k
      invariant RendersParts(model.content[..k], result)
      invariant forall m | 0 <= m < k ::
        Rendered(writer.elements, writer.Given(), model.content[m], parts[m], result[m])
          && Preserves(writer.elements, writer.known, model.content[m], parts[m], result[m])
      invariant forall m | 0 <= m < k :: SectionAccepted(writer, model.content[m], parts[m])
      invariant Tracked({}, writer.seen, IdsAll(model.content[..k]))
        && Listed({}, writer.locked, LockedAll(model.content[..k]))
      invariant writer.IssuedSince(old(writer.Given()))
      invariant CountAll(model.content[..k]) <= CountAll(model.content) < Count(model)
      invariant writer.Room(Count(model) - CountAll(model.content[..k]))
    {
      var section, part := model.content[k], parts[k];
      ghost var sofar, listed, given := writer.seen, writer.locked, writer.Given();
      OneMore(model.content, k);
      SourcedPart(writer.elements, writer.known, writer.marks, parts, k);
      if Unused({}, IdsAll(model.content)) {
        NextUnused({}, writer.seen, model.content, k);
      }
      var rendered := RenderSection(writer, section, part);
      if rendered.None? {
        return None;
      }
      LaterOn(old(writer.Given()), given, writer.Given());
      forall m | 0 <= m < k ensures Rendered(writer.elements, writer.Given(), model.content[m], parts[m], result[m]) {
        RenderedLater(writer.elements, given, writer.Given(), model.content[m], parts[m], result[m]);
      }
      TrackedOn({}, sofar, writer.seen, IdsAll(model.content[..k]), IdsOf(section));
      ListedOn({}, listed, writer.locked, LockedAll(model.content[..k]), LockedOf(section));
      result := result + [rendered.value];
      RendersMore(model.content, k, result);
      k := k + 1;
    }
    assert model.content[..k] == model.content;
    TrackedDistinct({}, writer.seen, IdsAll(model.content));
    r := Some(result);
  }

  lemma EmptyUnused(ids: seq<Id>)
    ensures Unused({}, ids) <==> NoRepeats(ids)
  {
    hide NoRepeats;
  }

  lemma RenderedNames(elements: map<Id, Xml>, given: Register, sections: seq<Node>, parts: seq<Part>,
                      written: seq<Part>)
    requires |sections| == |parts| == |written|
    requires forall m | 0 <= m < |parts| :: Rendered(elements, given, sections[m], parts[m], written[m])
    ensures Names(written) == Names(parts)
    ensures forall m | 0 <= m < |parts| ::
      Parent(parts[m]).Some? && (sections[m] == SectionOf(parts[m]) ==> written[m] == parts[m])
  {
    hide Holds, Parent, SectionOf;
  }

  lemma NewControls(writer: DocxExport, model: Node, roots: seq<Part>)
    requires NewNames(writer, model, roots)
    ensures NewIdentifiers(writer.controlNames, roots)
  {
    hide IdsOf, PartValues, UpperValues;
  }

  /** A written part can be imported. */
  lemma WrittenImportable(writer: DocxExport, given: Register, section: Node, parts: seq<Part>, k: nat,
                          roots: seq<Part>, written: Part)
    requires writer.Valid() && Sourced(writer.elements, writer.known, writer.marks, parts)
    requires k < |parts| && Importable(parts[k]) && Rendered(writer.elements, given, section, parts[k], written)
    requires parts[k] in roots && NewIdentifiers(given.controlNames, roots)
      && SectionAccepted(writer, section, parts[k]) && NoRepeats(IdsOf(section))
    ensures Importable(written)
  {
    hide Filed, Harmless, NoRepeats, Parent, BlocksOf, BlocksNatives, AllTold, IndexedAll, NativeAll, KnownHere,
      NewIdentifiers, DocxExport.BlocksAccepted, IdsAll, NodesNatives, Brings;
    if section != SectionOf(parts[k]) {
      SourcedPart(writer.elements, writer.known, writer.marks, parts, k);
      SectionIssues(parts[k]);
      SectionUses(SectionOf(parts[k]));
      SectionUses(section);
      AcceptedApart(writer, given.controlNames, roots, parts[k], section.content);
      BringsNow(writer.elements, given.controlNames, section.content, BlocksNatives(Parent(written).value.children));
    }
  }

  lemma AllImportable(writer: DocxExport, given: Register, sections: seq<Node>, parts: seq<Part>, roots: seq<Part>,
                      written: seq<Part>)
    requires writer.Valid() && Sourced(writer.elements, writer.known, writer.marks, parts)
    requires |sections| == |parts| == |written| && NewIdentifiers(given.controlNames, roots)
      && NoRepeats(IdsAll(sections))
    requires forall m | 0 <= m < |parts| :: Importable(parts[m]) && SectionAccepted(writer, sections[m], parts[m])
    requires forall m | 0 <= m < |parts| ::
      parts[m] in roots && Rendered(writer.elements, given, sections[m], parts[m], written[m])
    ensures forall m | 0 <= m < |parts| :: Importable(written[m])
  {
    hide Filed, Harmless, NoRepeats, Importable, Sourced, SectionAccepted, Rendered, NewIdentifiers, IdsAll, IdsOf;
    forall m | 0 <= m < |parts| ensures Importable(written[m]) {
      NextDistinct(sections, m);
      WrittenImportable(writer, given, sections[m], parts, m, roots, written[m]);
    }
  }

  /** The native identifiers of a written part are those its section brings along, the new controls' names among them,
      and its new paragraphs have theirs. */
  ghost predicate Identified(elements: map<Id, Xml>, given: Register, section: Node, part: Part) {
    && section.Section? && Parent(part).Some?
    && BlocksNatives(Parent(part).value.children) == NodesNatives(elements, given.controlNames, section.content)
    && LabelsAll(given.paragraphNames, section.content, BlocksIn(Parent(part).value.children))
  }

  lemma WrittenIdentified(writer: DocxExport, given: Register, section: Node, parts: seq<Part>, k: nat, written: Part)
    requires writer.Valid() && Sourced(writer.elements, writer.known, writer.marks, parts)
    requires k < |parts| && Rendered(writer.elements, given, section, parts[k], written)
    ensures Identified(writer.elements, given, section, written)
  {
    hide Filed, Harmless, Parent, BlocksOf, BlocksNatives, AllTold, Indexed, NativeAll, KnownHere, NodesNatives,
      Brings, LabelsAll, BlocksIn;
    if section != SectionOf(parts[k]) {
      BringsNow(writer.elements, given.controlNames, section.content, BlocksNatives(Parent(written).value.children));
    } else {
      SourcedPart(writer.elements, writer.known, writer.marks, parts, k);
      forall i | 0 <= i < |section.content| ensures Indexed(writer.known, section.content[i]) {
        assert section.content[i] in section.content;
      }
      AllKnownNatives(writer.elements, writer.known, writer.marks, given.controlNames, section.content);
      AllSourceLabels(given.paragraphNames, parts[k].name, Parent(parts[k]).value.children, ParentAt(parts[k]) + 1);
    }
  }

  lemma AllIdentified(writer: DocxExport, given: Register, sections: seq<Node>, parts: seq<Part>, written: seq<Part>)
    requires writer.Valid() && Sourced(writer.elements, writer.known, writer.marks, parts)
    requires |sections| == |parts| == |written|
    requires forall m | 0 <= m < |parts| :: Rendered(writer.elements, given, sections[m], parts[m], written[m])
    ensures forall m | 0 <= m < |parts| :: Identified(writer.elements, given, sections[m], written[m])
  {
    hide Filed, Harmless, Sourced, Rendered, Identified;
    forall m | 0 <= m < |parts| ensures Identified(writer.elements, given, sections[m], written[m]) {
      WrittenIdentified(writer, given, sections[m], parts, m, written[m]);
    }
  }

  /** `render`, with the import it ends in. A document is accepted exactly if it is acceptable: the final import never
      refuses. What comes back is the document, up to identities, fills and run boundaries, and the identities
      correspond one to one. Whatever was made in the editor stands in the written parts under a native identifier of
      its own that no part of the package had; `roots` are all its parts, `parts` those that are imported. */
  method Render(writer: DocxExport, model: Node, parts: seq<Part>, roots: seq<Part>, unsupported: seq<Id>)
    returns (r: Option<seq<Part>>)
    requires writer.Valid() && NoRepeats(Names(parts))
      && forall k | 0 <= k < |parts| :: Importable(parts[k]) && parts[k] in roots
    requires Sourced(writer.elements, writer.known, writer.marks, parts)
    requires |PartValues(roots, NativeId, Val)| + Count(model) < MODULUS
      && |UpperValues(roots)| + Count(model) < MODULUS
    modifies writer
    ensures r.Some? <==> Acceptable(writer, model, parts, unsupported)
    ensures r.Some? ==>
      && Returns(model, parts, r.value) && NewNames(writer, model, roots)
      && (forall m | 0 <= m < |parts| :: Identified(writer.elements, writer.Given(), model.content[m], r.value[m]))
      && forall m | 0 <= m < |parts| ::
           Preserves(writer.elements, writer.known, model.content[m], parts[m], r.value[m])
    ensures Unchanged(model, parts, unsupported) ==>
      (r.Some? <==> FittingTexts(model)) && (r.Some? ==> r.value == parts)
  {
    hide Filed, Harmless, RendersPart, Importable, SectionOf, FittingTexts, NoRepeats, Tracked, Listed, IdsAll,
      LockedAll, Count, Sourced, PartValues, UpperValues, Returns, Parent, FreshNames, DocxExport.Issuing, Later,
      NewNames, SectionAccepted, Rendered, NewIdentifiers, Identified, KeepsPart;
    writer.seen, writer.locked := {}, {};
    writer.controlIds, writer.paragraphIds := PartValues(roots, NativeId, Val), UpperValues(roots);
    writer.sourceControls, writer.sourceParagraphs := writer.controlIds, writer.paragraphIds;
    writer.controlNames, writer.paragraphNames := map[], map[];
    StartsIssuing(writer);
    if !model.Doc? || |model.content| != |parts| {
      return None;
    }
    forall k | 0 <= k < |parts| ensures Parent(parts[k]).Some? { ImportableHas(parts[k]); }
    if Unchanged(model, parts, unsupported) {
      UnchangedAcceptable(writer, model, parts, unsupported);
    }
    ghost var given := writer.Given();
    var result := WriteParts(writer, model, parts);
    if result.None? {
      return None;
    }
    GivenSources(given, writer.Given());
    NamesAreNew(writer, model, roots);
    NewControls(writer, model, roots);
    ListedLocks(writer.locked, LockedAll(model.content));
    RenderedNames(writer.elements, writer.Given(), model.content, parts, result.value);
    if writer.locked != set id | id in unsupported {
      return None;
    }
    AllImportable(writer, writer.Given(), model.content, parts, roots, result.value);
    AllIdentified(writer, writer.Given(), model.content, parts, result.value);
    ReturnsAll(model, parts, result.value);
    r := if forall m | 0 <= m < |result.value| :: Importable(result.value[m]) then Some(result.value) else None;
  }

  lemma GivenSources(a: Register, b: Register)
    requires Later(a, b)
    ensures b.controls == a.controls && b.paragraphs == a.paragraphs
  {
  }

  lemma StartsIssuing(writer: DocxExport)
    requires writer.seen == {} && writer.controlNames == map[] && writer.paragraphNames == map[]
    requires writer.sourceControls == writer.controlIds && writer.sourceParagraphs == writer.paragraphIds
    ensures writer.Issuing()
  {
  }

  /** The document as imported, with what the import listed as locked. */
  ghost predicate Unchanged(model: Node, parts: seq<Part>, unsupported: seq<Id>) {
    && (forall k | 0 <= k < |parts| :: Parent(parts[k]).Some?) && model == ModelOf(parts)
    && unsupported == LockedAll(model.content)
  }

  lemma ImportedDistinct(parts: seq<Part>, sections: seq<Node>)
    requires NoRepeats(Names(parts)) && forall k | 0 <= k < |parts| :: Importable(parts[k]) && Parent(parts[k]).Some?
    requires Doc(sections) == ModelOf(parts)
    ensures NoRepeats(IdsAll(sections))
  {
    hide NoRepeats, SectionOf, IdsAll, Importable, Parent;
    ImportIsDistinct(parts);
    assert IdsOf(Doc(sections)) == [] + IdsAll(sections);
    assert [] + IdsAll(sections) == IdsAll(sections);
  }

  lemma SectionUnchanged(writer: DocxExport, parts: seq<Part>, k: nat)
    requires writer.Valid() && Sourced(writer.elements, writer.known, writer.marks, parts) && k < |parts|
      && Parent(parts[k]).Some?
    ensures SectionAccepted(writer, SectionOf(parts[k]), parts[k]) <==> FittingTexts(SectionOf(parts[k]))
  {
    hide Filed, Harmless, Parent, NativeAll, IndexedAll, BlocksOf, DocxExport.BlocksAccepted, Sourced;
    SourcedPart(writer.elements, writer.known, writer.marks, parts, k);
    var section := SectionOf(parts[k]);
    NativeBlocks(writer, parts[k].name, section.content);
    assert Content(section) == section.content;
  }

  /** A document nobody edited is acceptable exactly if the texts in its paragraphs can be written. */
  lemma UnchangedAcceptable(writer: DocxExport, model: Node, parts: seq<Part>, unsupported: seq<Id>)
    requires writer.Valid() && Sourced(writer.elements, writer.known, writer.marks, parts) && NoRepeats(Names(parts))
    requires (forall k | 0 <= k < |parts| :: Importable(parts[k])) && Unchanged(model, parts, unsupported)
    ensures Acceptable(writer, model, parts, unsupported) <==> FittingTexts(model)
  {
    hide Filed, Harmless, NoRepeats, IdsAll, Importable, Parent, SectionOf, SectionAccepted, LockedAll, Sourced;
    ImportedDistinct(parts, model.content);
    assert Content(model) == model.content;
    forall k | 0 <= k < |parts|
      ensures model.content[k] == SectionOf(parts[k])
      ensures SectionAccepted(writer, model.content[k], parts[k]) <==> FittingTexts(model.content[k])
    {
      SectionUnchanged(writer, parts, k);
    }
  }

  lemma OneBlock(part: string, x: Xml, p: nat)
    ensures BlocksOf(part, [x], p) == BlockOf(part, x, p) && BlocksNatives([x]) == BlockNatives(x)
      && (AllTold([x]) <==> SpansTold(x))
  {
    hide BlockOf, BlockNatives, SpansTold, Elements;
    assert [x][..0] == [];
    assert ElementsAll([]) == 0 && BlocksOf(part, [], p) == [] && BlocksNatives([]) == [] && AllTold([]);
  }

  lemma OneInline(part: string, x: Xml, p: nat)
    requires !x.tag.PPr?
    ensures InlinesOf(part, [x], p) == InlineOf(part, x, p) && NativesAll([x]) == Natives(x)
  {
    hide InlineOf, Natives, Elements;
    assert [x][..0] == [];
    assert ElementsAll([]) == 0 && InlinesOf(part, [], p) == [] && NativesAll([]) == [];
  }

  /** A run of one text element. */
  lemma OneText(part: string, text: Xml, p: nat)
    requires text.tag.T? && text.text != []
    ensures var run := Element(R, map[], [], [text]);
      var ns := InlineOf(part, run, p); |ns| == 1 && ns[0].Text? && ns[0].text == text.text && Natives(run) == []
  {
    hide RunStyle;
    assert [text][..0] == [];
    assert RunText([]) == [] && RunText([text]) == [] + text.text;
    assert [] + text.text == text.text;
    assert PlainPart(text) && forall x | x in [text] :: x == text;
  }

  /** A document the importer reads although its export would be refused: one run with one character too many. */
  lemma LongRun() returns (part: Part)
    ensures Importable(part) && Parent(part).Some? && !FittingTexts(ModelOf([part]))
  {
    hide AlignOf, Under, BlocksOf, BlocksNatives, AllTold, InlinesOf, NativesAll, InlineOf, Natives, Ahead;
    var text := Element(T, map[], seq(TEXT_LIMIT + 1, i => 'a'), []);
    var run := Element(R, map[], [], [text]);
    var paragraph := Element(P, map[], [], [run]);
    var body := Element(Body, map[], [], [paragraph]);
    part := Part(MAIN, Element(Foreign("document"), map[], [], [body]));
    var at := ParentAt(part) + 1;
    OneBlock(MAIN, paragraph, at);
    OneInline(MAIN, run, at + 1);
    OneText(MAIN, text, at + 1);
    var block := BlockOf(MAIN, paragraph, at)[0];
    assert block.content[0] in block.content && !FittingTexts(block);
    assert Content(SectionOf(part))[0] == block && !FittingTexts(SectionOf(part));
    assert Content(ModelOf([part]))[0] == SectionOf(part);
  }

  /** A document the importer reads and the exporter accepts although the editor's schema has no place for it: a
      bookmark between the rows of a table. */
  lemma StrayBlock() returns (part: Part)
    ensures Importable(part) && Parent(part).Some?
    ensures FittingTexts(ModelOf([part])) && !WellFormed(ModelOf([part]))
  {
    hide BlocksOf, BlocksNatives, AllTold, Ahead, FittingTexts, WellFormed, RegularAll, Spanned;
    var bookmark := Element(Foreign("bookmarkStart"), map[], [], []);
    var table := Element(Tbl, map[], [], [bookmark]);
    var body := Element(Body, map[], [], [table]);
    part := Part(MAIN, Element(Foreign("document"), map[], [], [body]));
    var at := ParentAt(part) + 1;
    OneBlock(MAIN, table, at);
    OneBlock(MAIN, bookmark, at + 1);
    assert Spanned([bookmark]).Some? by { NoSpan(bookmark); }
    assert SpansTold(table) && BlockNatives(table) == [];
    OnePlace(AmongBlocks, table);
    OnePlace(InTable, bookmark);
    ImportFits([part]);
    assert !RegularPart([part][0]);
    var block := BlockOf(MAIN, table, at)[0];
    NoText(block.content[0]);
    NoText(block);
    NoText(SectionOf(part));
    NoText(ModelOf([part]));
  }

  lemma NoSpan(x: Xml)
    requires !IsProperties(x.tag)
    ensures Spanned([x]).Some?
  {
    assert [x][1..] == [] && Under([], TcPr, GridSpan).None?;
    assert Under([x], TcPr, GridSpan).None?;
  }

  lemma OnePlace(place: Place, x: Xml)
    ensures RegularAll(place, [x]) <==> IsProperties(x.tag) || (Fits(place, x.tag) && Regular(x))
  {
    hide Regular, Fits;
    assert [x][..0] == [];
    assert RegularAll(place, []);
  }

  lemma NoText(n: Node)
    requires !n.Paragraph? && forall i | 0 <= i < |Content(n)| :: FittingTexts(Content(n)[i])
    ensures FittingTexts(n)
  {
  }

  /** The index covers every block of the source, and nothing else. */
  ghost predicate Sourced(elements: map<Id, Xml>, known: map<Id, Node>, marks: map<Id, Source>, parts: seq<Part>) {
    forall k | 0 <= k < |parts| && Parent(parts[k]).Some? ::
      && IndexedAll(known, SectionOf(parts[k]).content)
      && NativeAll(known, marks, parts[k].name, SectionOf(parts[k]).content)
      && KnownHere(known, parts[k]) && BringsItsOwn(elements, parts[k], SectionOf(parts[k]))
      && Standing(elements, parts[k].name, Listing(parts[k].root))
  }

  lemma SourcedPart(elements: map<Id, Xml>, known: map<Id, Node>, marks: map<Id, Source>, parts: seq<Part>, k: nat)
    requires Sourced(elements, known, marks, parts) && k < |parts| && Parent(parts[k]).Some?
    ensures NativeAll(known, marks, parts[k].name, SectionOf(parts[k]).content)
    ensures KnownHere(known, parts[k]) && BringsItsOwn(elements, parts[k], SectionOf(parts[k]))
    ensures IndexedAll(known, SectionOf(parts[k]).content)
      && forall o | o in SectionOf(parts[k]).content :: IsBlockNode(o)
  {
    hide IndexedAll, NativeAll, BlocksOf, Parent, KnownHere, BringsItsOwn;
    BlocksAreBlocks(parts[k].name, Parent(parts[k]).value.children, ParentAt(parts[k]) + 1);
  }

  lemma SectionNamed(part: Part)
    requires Parent(part).Some?
    ensures SectionOf(part).Section? && SectionOf(part).part == part.name
  {
    hide Parent, BlocksOf;
  }

  lemma DocumentCount(n: Node)
    requires n.Doc?
    ensures Count(n) == 1 + CountAll(n.content) && CountAll(n.content[..0]) == 0
  {
    hide CountAll;
    assert n.content[..0] == [];
    EmptyCount();
  }

  lemma SectionUses(n: Node)
    requires n.Section?
    ensures IdsOf(n) == IdsAll(n.content) && LockedOf(n) == LockedAll(n.content) && Count(n) == 1 + CountAll(n.content)
  {
    hide IdsAll, LockedAll, CountAll;
    assert [] + IdsAll(n.content) == IdsAll(n.content) && [] + LockedAll(n.content) == LockedAll(n.content);
  }

  lemma RebuiltRenders(section: Node, part: Part, blocks: seq<Xml>)
    requires section.Section? && section.part == part.name && Parent(part).Some?
    requires forall p: nat :: AlikeAll(section.content, BlocksOf(part.name, blocks, p))
    ensures RendersPart(section, Rebuilt(part, blocks)) && Rebuilt(part, blocks).name == part.name
  {
    hide AlikeAll, BlocksOf, Rebuilt, Parent;
    RebuiltParent(part, blocks);
  }

  lemma RendersMore(sections: seq<Node>, k: nat, result: seq<Part>)
    requires k < |sections| && |result| == k + 1 && RendersParts(sections[..k], result[..k])
      && RendersPart(sections[k], result[k])
    ensures RendersParts(sections[..k + 1], result)
  {
    hide RendersPart;
    forall m | 0 <= m <= k ensures RendersPart(sections[..k + 1][m], result[m]) {
      assert m < k ==> RendersPart(sections[..k][m], result[..k][m]);
    }
  }

  lemma TrackedDistinct(a: set<Id>, b: set<Id>, ids: seq<Id>)
    requires Tracked(a, b, ids)
    ensures NoRepeats(ids)
  {
  }

  lemma ListedLocks(b: set<Id>, ids: seq<Id>)
    requires Listed({}, b, ids)
    ensures forall id :: id in b <==> id in ids
  {
  }

  // ----- a saved document and its own package

  lemma SectionStays(writer: DocxExport, section: Node, parts: seq<Part>, k: nat)
    requires writer.Valid() && Sourced(writer.elements, writer.known, writer.marks, parts) && k < |parts|
    requires SectionAccepted(writer, section, parts[k]) && RegularPart(parts[k])
    ensures WellFormed(section)
  {
    hide Filed, Harmless, Parent, BlocksOf, IndexedAll, NativeAll, KnownHere, BringsItsOwn, DocxExport.BlocksAccepted,
      WellFormed, RegularAll;
    SourcedPart(writer.elements, writer.known, writer.marks, parts, k);
    SectionFits(parts[k]);
    ContainerFits(SectionOf(parts[k]));
    BlocksStay(writer, SectionOf(parts[k]).content, parts[k].name, AmongBlocks, section.content);
    ContainerFits(section);
  }

  /** What can be written keeps the editor's schema if the package does. */
  lemma AcceptableFits(writer: DocxExport, model: Node, parts: seq<Part>, unsupported: seq<Id>)
    requires writer.Valid() && Sourced(writer.elements, writer.known, writer.marks, parts)
    requires Acceptable(writer, model, parts, unsupported) && forall k | 0 <= k < |parts| :: RegularPart(parts[k])
    ensures WellFormed(model)
  {
    hide Filed, Harmless, Sourced, SectionAccepted, RegularPart, WellFormed, NoRepeats, IdsAll, LockedAll;
    forall c | c in model.content ensures MayHold(model, c) && WellFormed(c) {
      var k :| 0 <= k < |model.content| && model.content[k] == c;
      SectionStays(writer, c, parts, k);
      assert c.Section? by { AcceptedSection(writer, c, parts[k]); }
    }
    ContainerFits(model);
  }

  lemma AcceptedSection(writer: DocxExport, section: Node, part: Part)
    requires SectionAccepted(writer, section, part)
    ensures section.Section?
  {
  }

  lemma AcceptableDistinct(writer: DocxExport, model: Node, parts: seq<Part>, unsupported: seq<Id>)
    requires Acceptable(writer, model, parts, unsupported)
    ensures Distinct(ControlsOf(model))
  {
    hide SectionAccepted, NoRepeats, IdsAll, LockedAll, Distinct, ControlsAll;
    ControlsDistinct(model);
    assert IdsOf(model) == [] + IdsAll(model.content);
    assert [] + IdsAll(model.content) == IdsAll(model.content);
  }

  /** The package saved with a document that keeps the schema keeps it too, and no control is repeated in it. */
  lemma ReturnsFits(model: Node, parts: seq<Part>, result: seq<Part>)
    requires Returns(model, parts, result) && NoRepeats(Names(parts)) && WellFormed(model)
    ensures WellFormed(ModelOf(result)) && Distinct(ControlsOf(ModelOf(result)))
  {
    hide Importable, Same, Pairs, WellFormed, FilledTexts, Distinct, ControlsOf, NoRepeats, SectionOf, Parent,
      RegularPart, IdsOf;
    ImportFits(result);
    SameFits(model, ModelOf(result));
    ImportIsDistinct(result);
    ControlsDistinct(ModelOf(result));
  }

  /** A saved document and the package saved with it, matched whenever the document is processed, copied or restored. A
      document whose export was accepted is matched exactly if it keeps the editor's schema, as it always does if the
      package has regular tables; an unedited one does so in no other case. The package can then be indexed in its
      turn. */
  method RenderAndMatch(writer: DocxExport, model: Node, parts: seq<Part>, roots: seq<Part>, unsupported: seq<Id>)
    returns (rendered: Option<seq<Part>>, identities: Option<map<Id, Id>>)
    requires writer.Valid() && NoRepeats(Names(parts))
      && forall k | 0 <= k < |parts| :: Importable(parts[k]) && parts[k] in roots
    requires Sourced(writer.elements, writer.known, writer.marks, parts)
    requires |PartValues(roots, NativeId, Val)| + Count(model) < MODULUS
      && |UpperValues(roots)| + Count(model) < MODULUS
    modifies writer
    ensures identities.Some? <==> rendered.Some? && WellFormed(model)
    ensures (forall k | 0 <= k < |parts| :: RegularPart(parts[k])) ==> (identities.Some? <==> rendered.Some?)
    ensures rendered.Some? <==> Acceptable(writer, model, parts, unsupported)
    ensures rendered.Some? ==> Returns(model, parts, rendered.value)
    ensures identities.Some? ==>
      && identities.value == MapOf(Pairs(model, ModelOf(rendered.value)))
      && WellFormed(ModelOf(rendered.value)) && Distinct(ControlsOf(ModelOf(rendered.value)))
    ensures Unchanged(model, parts, unsupported) ==>
      && (rendered.Some? <==> FittingTexts(model)) && (rendered.Some? ==> rendered.value == parts)
      && (WellFormed(model) <==> forall k | 0 <= k < |parts| :: RegularPart(parts[k]))
  {
    hide Filed, Harmless, Importable, Same, Pairs, MapOf, WellFormed, ControlsOf, Distinct, NoRepeats, Sourced,
      PartValues, Count, SectionOf, FittingTexts, Acceptable, UpperValues, NewNames, Parent, Identified, RegularPart;
    identities := None;
    if Unchanged(model, parts, unsupported) {
      ImportFits(parts);
    }
    rendered := Render(writer, model, parts, roots, unsupported);
    if rendered.Some? {
      AcceptableDistinct(writer, model, parts, unsupported);
      if forall k | 0 <= k < |parts| :: RegularPart(parts[k]) {
        AcceptableFits(writer, model, parts, unsupported);
      }
      if WellFormed(model) {
        ReturnsFits(model, parts, rendered.value);
      }
      identities := Correspond(model, ModelOf(rendered.value));
    }
  }

  /** A package opened for editing: read, indexed, and ready to be written back. */
  method Open(parts: seq<Part>, recolor: Recolor, hash: Id -> nat)
    returns (r: Option<(DocxExport, Node, seq<Id>)>)
    requires NoRepeats(Names(parts)) && Harmless(recolor)
    ensures r.Some? <==> forall k | 0 <= k < |parts| :: Importable(parts[k])
    ensures r.Some? ==>
      && r.value.0.Valid() && fresh(r.value.0) && Sourced(r.value.0.elements, r.value.0.known, r.value.0.marks, parts)
      && (forall k | 0 <= k < |parts| :: Parent(parts[k]).Some?) && r.value.1 == ModelOf(parts)
      && r.value.2 == LockedAll(r.value.1.content)
  {
    hide Importable, SectionOf, NoRepeats, TracedAll, Filed, Harmless, LockedAll, IndexedAll, MarkedAll, NativeAll,
      IdsAll, IdsOf, Extends, Indexable, KnownHere, BringsItsOwn;
    var package := new DocxPackage();
    var model := package.Load(parts);
    if model.None? {
      return None;
    }
    var sections, elements, unsupported := model.value.content, package.elements, package.unsupported;
    forall k | 0 <= k < |parts| ensures Parent(parts[k]).Some? && sections[k].Section? {
      ImportableHas(parts[k]);
      SectionNamed(parts[k]);
    }
    var known: map<Id, Node>, marks: map<Id, Source> := map[], map[];
    NothingFiled(elements);
    NoneExtends(known, sections);
    var k := 0;
    while k < |parts|
      invariant 0 <= k <= |parts| && Filed(elements, known, marks)
      invariant Extends(map[], known, IdsAll(sections[..k]))
      invariant forall m | 0 <= m < k :: IndexedAll(known, sections[m].content) && MarkedAll(marks, sections[m].content)
    {
      ghost var before, marked := known, marks;
      assert sections[k] == SectionOf(parts[k]);
      SectionIndexable(elements, parts, sections, k, known);
      known, marks := IndexNodes(elements, parts[k].name, sections[k].content, known, marks);
      SectionNamed(parts[k]);
      SectionUses(sections[k]);
      IdsNext(sections, k);
      ExtendsOn(map[], before, known, IdsAll(sections[..k]), IdsOf(sections[k]));
      ExtendsKeeps(before, known, IdsOf(sections[k]));
      forall m | 0 <= m < k ensures IndexedAll(known, sections[m].content) && MarkedAll(marks, sections[m].content) {
        AllIndexedStill(before, known, sections[m].content);
        AllMarkedStill(marked, marks, sections[m].content);
      }
      k := k + 1;
    }
    assert sections[..k] == sections;
    forall m | 0 <= m < |parts|
      ensures NativeAll(known, marks, parts[m].name, sections[m].content) && KnownHere(known, parts[m])
    {
      AllNative(elements, known, marks, parts[m].name, sections[m].content);
      KnownAtHome(parts, sections, known, m);
    }
    var writer := new DocxExport(elements, known, marks, recolor, hash, {}, {});
    r := Some((writer, model.value, unsupported));
  }

  lemma AllNative(elements: map<Id, Xml>, known: map<Id, Node>, marks: map<Id, Source>, part: string, ns: seq<Node>)
    requires Filed(elements, known, marks) && TracedAll(elements, part, ns) && IndexedAll(known, ns)
      && MarkedAll(marks, ns)
    ensures NativeAll(known, marks, part, ns)
  {
    hide Filed, Traced, Indexed, Marked, Native;
    forall n | n in ns ensures Native(known, marks, part, n) { MakesNative(elements, known, marks, part, n); }
  }

  /** An identity of a part is one of its section's. */
  lemma {:induction false} HomeSection(parts: seq<Part>, sections: seq<Node>, k: nat, m: nat, id: Id)
    requires k <= |parts| == |sections| && m < |parts| && NoRepeats(Names(parts))
    requires forall m | 0 <= m < |parts| :: Importable(parts[m]) && sections[m] == SectionOf(parts[m])
    requires id in IdsAll(sections[..k]) && HomeOf(id) == Some(parts[m].name)
    ensures m < k && id in IdsOf(sections[m])
  {
    hide Importable, SectionOf, IdsOf;
    if k > 0 {
      IdsNext(sections, k - 1);
      if id in IdsAll(sections[..k - 1]) {
        HomeSection(parts, sections, k - 1, m, id);
      } else {
        SectionIssues(parts[k - 1]);
        assert Names(parts)[m] == Names(parts)[k - 1];
      }
    }
  }

  lemma KnownAtHome(parts: seq<Part>, sections: seq<Node>, known: map<Id, Node>, m: nat)
    requires m < |parts| == |sections| && NoRepeats(Names(parts)) && Extends(map[], known, IdsAll(sections))
    requires forall m | 0 <= m < |parts| :: Importable(parts[m]) && sections[m] == SectionOf(parts[m])
    requires Parent(parts[m]).Some?
    ensures KnownHere(known, parts[m])
  {
    hide Importable, NoRepeats, IdsAll, IdsOf, BlocksOf, Parent;
    assert sections[..|parts|] == sections;
    SectionUses(sections[m]);
    forall id | id in known && HomeOf(id) == Some(parts[m].name) ensures id in IdsAll(SectionOf(parts[m]).content) {
      HomeSection(parts, sections, |parts|, m, id);
    }
  }

  lemma NothingFiled(elements: map<Id, Xml>)
    ensures Filed(elements, map[], map[])
  {
  }

  lemma SectionIndexable(elements: map<Id, Xml>, parts: seq<Part>, sections: seq<Node>, k: nat, known: map<Id, Node>)
    requires k < |parts| == |sections| && NoRepeats(Names(parts)) && Extends(map[], known, IdsAll(sections[..k]))
    requires forall m | 0 <= m < |parts| :: Importable(parts[m]) && sections[m] == SectionOf(parts[m])
    requires sections[k].Section? && TracedAll(elements, parts[k].name, sections[k].content)
    ensures Indexable(elements, parts[k].name, sections[k].content, known)
  {
    hide Importable, SectionOf, NoRepeats, TracedAll, IdsAll, IdsOf;
    SectionsIssue(parts, sections, k + 1);
    IdsNext(sections, k);
    SectionUses(sections[k]);
    NoRepeatsConcat(IdsAll(sections[..k]), IdsAll(sections[k].content));
  }
}
