/** The exporter: a working document written back into the elements it was imported from. Whatever it accepts, importing
    the result gives back. */
module DocxExport {
  import opened Common
  import opened DocumentModel
  import opened Correspondence
  import opened FreshIds
  import opened Ooxml
  import opened Reimport
  import opened XmlEdits
  import opened RunExport
  import opened ControlExport
  import opened BlockExport
  import opened GlyphExport
  import opened KeptSource
  import opened Identities
  import opened NativeIds
  import opened DocxPackage
  import opened NativeExport
  import opened ImportReads

  // ----- what is known of the source

  ghost predicate Filed(elements: map<Id, Xml>, known: map<Id, Node>, marks: map<Id, Source>) {
    && (forall id | id in known ::
          && !known[id].Text? && IdOf(known[id]) == Some(id) && HomeOf(id).Some?
          && From(elements, HomeOf(id).value, known[id])
          && Told(elements, known[id]))
    && (forall id | id in marks ::
          && marks[id].id == id && id in elements && elements[id].tag.R?
          && RunStyle(elements[id].children) == marks[id].style)
  }

  /** Every node of a tree is known under its identity. */
  ghost predicate Indexed(known: map<Id, Node>, n: Node)
    decreases n
  {
    && (IdOf(n).Some? ==> IdOf(n).value in known && known[IdOf(n).value] == n)
    && forall i | 0 <= i < |Content(n)| :: Indexed(known, Content(n)[i])
  }

  ghost predicate IndexedAll(known: map<Id, Node>, ns: seq<Node>) {
    forall n | n in ns :: Indexed(known, n)
  }

  /** A tree exactly as it was imported: every node known under its identity, every mark known. */
  ghost predicate Native(known: map<Id, Node>, marks: map<Id, Source>, part: string, n: Node)
    decreases n
  {
    && (if n.Text? then
          && n.text != [] && n.source.Some? && n.source.value.id in marks && marks[n.source.value.id] == n.source.value
          && HomeOf(n.source.value.id) == Some(part)
        else
          && IdOf(n).Some? && IdOf(n).value in known && known[IdOf(n).value] == n
          && HomeOf(IdOf(n).value) == Some(part))
    && (n.LockedInline? ==> n.shapes == map[])
    && forall i | 0 <= i < |Content(n)| ::
         (n.Paragraph? ==> IsInlineNode(Content(n)[i])) && Native(known, marks, part, Content(n)[i])
  }

  ghost predicate NativeAll(known: map<Id, Node>, marks: map<Id, Source>, part: string, ns: seq<Node>) {
    forall n | n in ns :: Native(known, marks, part, n)
  }

  predicate IsInlineNode(n: Node) {
    n.Text? || IsInline(n)
  }

  /** Identities that have not been used up yet, and none twice. */
  ghost predicate Unused(used: set<Id>, ids: seq<Id>) {
    NoRepeats(ids) && forall id | id in ids :: id !in used
  }

  lemma NextUnused(a: set<Id>, b: set<Id>, ns: seq<Node>, i: nat)
    requires i < |ns| && Unused(a, IdsAll(ns)) && Tracked(a, b, IdsAll(ns[..i]))
    ensures Unused(b, IdsOf(ns[i]))
  {
    hide NoRepeats, IdsOf;
    NextDistinct(ns, i);
  }

  lemma NativeContent(known: map<Id, Node>, marks: map<Id, Source>, part: string, n: Node)
    requires Native(known, marks, part, n)
    ensures NativeAll(known, marks, part, Content(n)) && (n.Paragraph? ==> forall c | c in n.content :: IsInlineNode(c))
  {
  }

  lemma NativeNode(known: map<Id, Node>, marks: map<Id, Source>, part: string, n: Node)
    requires Native(known, marks, part, n) && !n.Text?
    ensures IdOf(n).Some? && IdOf(n).value in known && known[IdOf(n).value] == n && HomeOf(IdOf(n).value) == Some(part)
    ensures n.LockedInline? ==> n.shapes == map[]
  {
  }

  /** Recolouring the shapes of a locked run keeps it locked and keeps its text and native identifiers. */
  type Recolor = (Xml, map<nat, string>) -> Option<Xml>

  ghost predicate Harmless(recolor: Recolor) {
    forall x, fills, part, p: nat | recolor(x, fills).Some? && !x.tag.PPr?
      && InlineOf(part, x, p) == [Locked(part, x, p)] ::
      && !recolor(x, fills).value.tag.PPr? && InlineOf(part, recolor(x, fills).value, p) == [Locked(part, x, p)]
      && Natives(recolor(x, fills).value) == Natives(x)
  }

  // ----- what one rendering has used up

  ghost predicate Tracked(before: set<Id>, after: set<Id>, ids: seq<Id>) {
    && NoRepeats(ids) && (forall id | id in ids :: id !in before)
    && (forall id :: id in after <==> id in before || id in ids)
  }

  ghost predicate Listed(before: set<Id>, after: set<Id>, ids: seq<Id>) {
    forall id :: id in after <==> id in before || id in ids
  }

  lemma TrackedOn(a: set<Id>, b: set<Id>, c: set<Id>, x: seq<Id>, y: seq<Id>)
    requires Tracked(a, b, x) && Tracked(b, c, y)
    ensures Tracked(a, c, x + y)
  {
    hide NoRepeats;
    NoRepeatsConcat(x, y);
  }

  lemma TrackedOne(a: set<Id>, id: Id)
    requires id !in a
    ensures Tracked(a, a + {id}, [id])
  {
  }

  lemma TrackedNone(a: set<Id>)
    ensures Tracked(a, a, []) && Listed(a, a, [])
  {
  }

  /** Identities, locks and sizes after one more node. */
  lemma OneMore(ns: seq<Node>, i: nat)
    requires i < |ns|
    ensures IdsAll(ns[..i + 1]) == IdsAll(ns[..i]) + IdsOf(ns[i])
      && LockedAll(ns[..i + 1]) == LockedAll(ns[..i]) + LockedOf(ns[i])
    ensures CountAll(ns[..i + 1]) == CountAll(ns[..i]) + Count(ns[i]) <= CountAll(ns)
  {
    hide IdsOf, LockedOf, Count;
    assert ns[..i + 1][..i] == ns[..i];
    CountLast(ns[..i + 1]);
    CountPrefix(ns, i + 1);
  }

  lemma {:induction false} CountPrefix(ns: seq<Node>, i: nat)
    requires i <= |ns|
    ensures CountAll(ns[..i]) <= CountAll(ns)
    decreases |ns| - i
  {
    hide Count;
    if i == |ns| {
      assert ns[..i] == ns;
    } else {
      CountPrefix(ns, i + 1);
      CountLast(ns[..i + 1]);
      assert ns[..i + 1][..i] == ns[..i];
    }
  }

  /** The element tree takes no other text. */
  predicate XmlText(s: string) {
    forall c | c in s :: Scalar(c as nat)
  }

  /** A property value an author may give a control. */
  predicate FieldProperty(value: string, limit: nat) {
    !Blank(value) && |value| <= limit && XmlText(value)
      && forall c | c in value :: !(c < ' ' || '\U{7f}' <= c <= '\U{9f}')
  }

  const KEY_LIMIT: nat := 512

  const LABEL_LIMIT: nat := 256

  /** A key an author may choose. */
  predicate Writable(key: Key) {
    key.Tagged? && FieldProperty(key.value, KEY_LIMIT)
  }

  /** The longest text the exporter writes in one run. */
  const TEXT_LIMIT: nat := 1_000_000

  predicate TextFits(s: string) {
    |s| <= TEXT_LIMIT && XmlText(s)
  }

  predicate Hexadecimal(s: string) {
    |s| == 32 && forall c | c in s :: '0' <= c <= '9' || 'a' <= c <= 'f'
  }

  predicate NeedsLines(ns: seq<Node>) {
    exists n :: n in ns && n.Text? && ('\n' in n.text || '\t' in n.text)
  }

  // ----- identifiers issued by one rendering

  /** The controls and paragraphs that were made in the editor. */
  function MadeIn(ids: set<Id>): set<Id> {
    set id | id in ids && id.Made?
  }

  function SplitIn(ids: set<Id>): set<Id> {
    set id | id in ids && id.Split?
  }

  /** Each of `made` has a name of its own that the source does not use, and nothing else is in use. */
  ghost predicate FreshNames(source: set<string>, used: set<string>, names: map<Id, string>, made: set<Id>) {
    && names.Keys == made && source <= used
    && (forall id | id in names :: names[id] in used && names[id] !in source)
    && (forall s | s in used :: s in source || exists id :: id in names && names[id] == s)
    && (forall i, k | i in names && k in names && i != k :: names[i] != names[k])
  }

  lemma NamedOneMore(source: set<string>, used: set<string>, names: map<Id, string>, made: set<Id>, id: Id,
                     name: string)
    requires FreshNames(source, used, names, made) && id !in made && name !in used
    ensures FreshNames(source, used + {name}, names[id := name], made + {id})
  {
    var next := names[id := name];
    forall s | s in used + {name} ensures s in source || exists i :: i in next && next[i] == s {
      if s == name {
        assert next[id] == s;
      } else if s !in source {
        var i :| i in names && names[i] == s;
        assert next[i] == s;
      }
    }
  }

  /** What the source uses, and the names given out so far. */
  datatype Register = Register(
    controls: set<string>, paragraphs: set<string>, controlNames: map<Id, string>, paragraphNames: map<Id, string>)

  ghost predicate Later(a: Register, b: Register) {
    && b.controls == a.controls && b.paragraphs == a.paragraphs
    && (forall id | id in a.controlNames :: id in b.controlNames && b.controlNames[id] == a.controlNames[id])
    && (forall id | id in a.paragraphNames :: id in b.paragraphNames && b.paragraphNames[id] == a.paragraphNames[id])
  }

  lemma LaterOn(a: Register, b: Register, c: Register)
    requires Later(a, b) && Later(b, c)
    ensures Later(a, c)
  {
  }

  lemma LaterKeeps(a: Register, b: Register, id: Id)
    requires Later(a, b)
    ensures id in a.controlNames ==> id in b.controlNames && b.controlNames[id] == a.controlNames[id]
  {
  }

  lemma LaterNames(a: Register, b: Register)
    requires Later(a, b)
    ensures Extending(a.controlNames, b.controlNames) && Extending(a.paragraphNames, b.paragraphNames)
  {
  }

  lemma LaterSelf(a: Register)
    ensures Later(a, a)
  {
  }

  /** Using up an identity of the source makes nothing. */
  lemma NothingMade(seen: set<Id>, id: Id)
    ensures !id.Made? ==> MadeIn(seen + {id}) == MadeIn(seen)
    ensures !id.Split? ==> SplitIn(seen + {id}) == SplitIn(seen)
    ensures id.Made? ==> MadeIn(seen + {id}) == MadeIn(seen) + {id}
    ensures id.Split? ==> SplitIn(seen + {id}) == SplitIn(seen) + {id}
    ensures id !in seen ==> id !in MadeIn(seen) && id !in SplitIn(seen)
  {
  }

  // ----- which edits are accepted

  /** The key or label of a control can be rewritten: it has at most one such property. */
  predicate Single(x: Xml, tag: Tag) {
    First(x.children, SdtPr).Some? && |Only(First(x.children, SdtPr).value.children, tag)| <= 1
  }

  /** A control made in the editor. */
  predicate NewFieldAccepted(node: Node)
    requires node.Field?
  {
    node.id.Made? && Hexadecimal(node.id.hex) && Writable(node.key) && FieldProperty(node.alias, LABEL_LIMIT)
  }

  predicate IsBlockNode(n: Node) {
    n.Paragraph? || IsGrid(n) || n.LockedBlock?
  }

  function IdSet(ns: seq<Node>): set<Id> {
    set n | n in ns && IdOf(n).Some? :: IdOf(n).value
  }

  /** No paragraph that ends a section is removed. */
  predicate KeepsBoundaries(elements: map<Id, Xml>, originals: seq<Node>, nodes: seq<Node>) {
    forall missing | missing in IdSet(originals) - IdSet(nodes) ::
      missing in elements ==> Under(elements[missing].children, PPr, SectPr).None?
  }

  /** The blocks an author can neither add, remove nor move. */
  function FixedIds(ns: seq<Node>): seq<Option<Id>> {
    if ns == [] then [] else FixedIds(ns[..|ns| - 1]) + if ns[|ns| - 1].Paragraph? then [] else [IdOf(ns[|ns| - 1])]
  }

  class DocxExport {
    const elements: map<Id, Xml>
    const known: map<Id, Node>
    const marks: map<Id, Source>
    const recolor: Recolor
    const hash: Id -> nat
    var seen: set<Id>
    var locked: set<Id>
    var controlIds: set<string>
    var paragraphIds: set<string>
    /** What the source uses, and the name each control and paragraph made in the editor got. */
    ghost var sourceControls: set<string>
    ghost var sourceParagraphs: set<string>
    ghost var controlNames: map<Id, string>
    ghost var paragraphNames: map<Id, string>

    ghost predicate Valid() {
      Filed(elements, known, marks) && Harmless(recolor)
    }

    /** Native identifiers for this many nodes can still be found. */
    ghost predicate Room(n: nat)
      reads this`controlIds, this`paragraphIds
    {
      |controlIds| + n < MODULUS && |paragraphIds| + n < MODULUS
    }

    ghost function Given(): Register
      reads this`sourceControls, this`sourceParagraphs, this`controlNames, this`paragraphNames
    {
      Register(sourceControls, sourceParagraphs, controlNames, paragraphNames)
    }

    /** Every control and paragraph made so far has its own new name, and no other names were given out. */
    ghost predicate Issuing()
      reads this`seen, this`controlIds, this`paragraphIds, this`sourceControls, this`sourceParagraphs,
        this`controlNames, this`paragraphNames
    {
      && FreshNames(sourceControls, controlIds, controlNames, MadeIn(seen))
      && FreshNames(sourceParagraphs, paragraphIds, paragraphNames, SplitIn(seen))
    }

    /** The same, and names given out before `r` stay. */
    ghost predicate IssuedSince(r: Register)
      reads this`seen, this`controlIds, this`paragraphIds, this`sourceControls, this`sourceParagraphs,
        this`controlNames, this`paragraphNames
    {
      Issuing() && Later(r, Given())
    }

    // ----- which nodes are accepted

    predicate TextAccepted(node: Node, part: string)
      requires node.Text?
    {
      node.text != [] && TextFits(node.text) && (node.source.Some? ==> MarkKnown(node.source.value, part))
    }

    /** A control of this part; a new key or label can be written. */
    predicate FieldKept(node: Node, part: string)
      requires node.Field?
    {
      && node.id in known && known[node.id].Field? && HomeOf(node.id) == Some(part) && node.id in elements
      && (node.key != known[node.id].key ==> Writable(node.key) && Single(elements[node.id], TagName))
      && (node.alias != known[node.id].alias ==>
           FieldProperty(node.alias, LABEL_LIMIT) && Single(elements[node.id], Alias))
    }

    predicate FieldRewritten(node: Node)
      requires node.Field?
    {
      node.id !in known || node.content != Content(known[node.id])
    }

    /** Only text in it, and what is written anew can be written. */
    predicate FieldAccepted(node: Node, part: string)
      requires node.Field?
    {
      && AllText(node.content) && (if node.id in known then FieldKept(node, part) else NewFieldAccepted(node))
      && (FieldRewritten(node) ==> forall n | n in node.content && n.Text? :: TextAccepted(n, part))
    }

    /** A locked run of this part, with fills that can be applied. */
    predicate ShapesAccepted(node: Node, part: string)
      requires node.LockedInline?
    {
      && node.id in known && known[node.id].LockedInline? && known[node.id].caption == node.caption
      && HomeOf(node.id) == Some(part)
      && node.id in elements && |node.shapes| <= 16
      && (node.shapes != map[] ==> recolor(elements[node.id], node.shapes).Some?)
    }

    /** A checkbox of this part; if its state changes, its glyphs can be told and written. */
    ghost predicate BoxAccepted(node: Node, part: string)
      requires node.Checkbox?
    {
      && node.id in known && known[node.id].Checkbox? && HomeOf(node.id) == Some(part) && node.id in elements
      && (node.checked != known[node.id].checked ==> Drawable(elements[node.id], node.checked))
    }

    ghost predicate InlineAccepted(node: Node, part: string) {
      match node
      case Text(_, _, _) => TextAccepted(node, part)
      case Field(_, _, _, _) => FieldAccepted(node, part)
      case LockedInline(_, _, _) => ShapesAccepted(node, part)
      case Checkbox(_, _) => BoxAccepted(node, part)
      case _ => false
    }

    ghost predicate InlinesAccepted(nodes: seq<Node>, part: string) {
      forall n | n in nodes :: InlineAccepted(n, part)
    }

    /** A paragraph split off one that may stand here, with that one's attributes. */
    predicate SplitAccepted(node: Node, allowed: set<Id>)
      requires node.Paragraph? && node.id.Split?
    {
      var source := node.id.source;
      && source in allowed && source in known && known[source].Paragraph? && Hexadecimal(node.id.suffix)
      && node.align == known[source].align && node.numbered == known[source].numbered
    }

    /** A block of this part that may stand here, as the source has it but for its content. */
    predicate Anchored(node: Node, part: string) {
      && IdOf(node).Some? && IdOf(node).value in known && Bare(known[IdOf(node).value]) == Bare(node)
      && HomeOf(IdOf(node).value) == Some(part)
    }

    ghost predicate SourceAccepted(node: Node, allowed: set<Id>, part: string)
      decreases node, 1
    {
      && Anchored(node, part) && IdOf(node).value in allowed
      && if node.Paragraph? then InlinesAccepted(node.content, part)
         else if IsGrid(node) then BlocksAccepted(node.content, Content(known[IdOf(node).value]), part)
         else node == known[IdOf(node).value]
    }

    ghost predicate BlockAccepted(node: Node, allowed: set<Id>, part: string)
      decreases node, 2
    {
      if node.Paragraph? && node.id.Split? then SplitAccepted(node, allowed) && InlinesAccepted(node.content, part)
      else SourceAccepted(node, allowed, part)
    }

    /** Nothing but paragraphs comes or goes, and no section boundary goes. */
    ghost predicate BlocksAccepted(nodes: seq<Node>, originals: seq<Node>, part: string)
      decreases nodes, 0
    {
      && (forall n | n in nodes :: IdOf(n).Some?) && FixedIds(nodes) == FixedIds(originals)
      && KeepsBoundaries(elements, originals, nodes)
      && forall i | 0 <= i < |nodes| :: BlockAccepted(nodes[i], IdSet(originals), part)
    }

    constructor (elements: map<Id, Xml>, known: map<Id, Node>, marks: map<Id, Source>, recolor: Recolor,
                 hash: Id -> nat, controlIds: set<string>, paragraphIds: set<string>)
      requires Filed(elements, known, marks) && Harmless(recolor)
      ensures Valid() && this.elements == elements && this.known == known && this.marks == marks && seen == {}
        && locked == {}
      ensures this.controlIds == controlIds && this.paragraphIds == paragraphIds && Issuing()
    {
      this.elements, this.known, this.marks, this.recolor, this.hash := elements, known, marks, recolor, hash;
      this.controlIds, this.paragraphIds, seen, locked := controlIds, paragraphIds, {}, {};
      sourceControls, sourceParagraphs, controlNames, paragraphNames := controlIds, paragraphIds, map[], map[];
    }

    /** The source element of an unchanged node: known, of this part, and not used before. */
    method Anchor(node: Node, part: string) returns (r: Option<Xml>)
      requires Valid() && Issuing()
      modifies this`seen
      ensures r.Some? <==> Anchored(node, part) && IdOf(node).value !in old(seen)
      ensures r.Some? ==>
        IdOf(node).value in elements && r.value == elements[IdOf(node).value] && seen == old(seen) + {IdOf(node).value}
      ensures r.None? ==> seen == old(seen)
      ensures Issuing()
    {
      hide InlineOf, BlockOf, RunStyle, Harmless, FreshNames;
      if IdOf(node).None? {
        return None;
      }
      var identity := IdOf(node).value;
      if identity !in known || Bare(known[identity]) != Bare(node) || HomeOf(identity) != Some(part)
        || identity in seen {
        return None;
      }
      NothingMade(seen, identity);
      seen := seen + {identity};
      r := Some(elements[identity]);
    }

    /** The mark is one the source has, in this part. */
    predicate MarkKnown(mark: Source, part: string) {
      mark.id in marks && marks[mark.id] == mark && HomeOf(mark.id) == Some(part)
    }

    /** `text`: the run of a text node; refused for a mark the source does not have, or a text that cannot be
        written. */
    method Text(node: Node, part: string) returns (r: Option<Xml>)
      requires Valid() && node.Text?
      ensures r.Some? <==> TextAccepted(node, part)
      ensures r.Some? ==>
        && Renders(part, node, r.value) && Carries(elements, controlNames, node, r.value)
        && KeepsRun(elements, node, r.value)
    {
      hide From, Harmless, RunStyle, Renders, RunText, First, Under, Brings, Natives, Told, KeepsRun;
      if node.text == [] || !TextFits(node.text) {
        return None;
      }
      var run, kept := Element(R, map[], [], []), [];
      if node.source.Some? {
        var identity := node.source.value.id;
        if identity !in marks || marks[identity] != node.source.value || HomeOf(identity) != Some(part) {
          return None;
        }
        run := elements[identity];
        kept := Only(run.children, RPr);
        KeptStyle(run.children);
      } else {
        PlainStyle();
      }
      if node.format.Some? {
        FormattedStyle(kept, node.format.value);
        kept := Formatted(kept, node.format.value);
      }
      var chars := WriteText(node.text);
      run := run.(children := kept + chars);
      RunRenders(part, node, run, kept, chars);
      RunBrings(elements, controlNames, node, run);
      RunKept(elements, node, run, kept, chars);
      r := Some(run);
    }

    /** One property of a control set to a new value. */
    method ReviewedProperty(element: Xml, tag: Tag, value: string, limit: nat) returns (r: Option<Xml>)
      requires First(element.children, SdtPr).Some?
      ensures r.Some? <==> FieldProperty(value, limit) && Single(element, tag)
      ensures r.Some? ==> r.value == Reviewed(element, tag, value)
    {
      if !FieldProperty(value, limit) {
        return None;
      }
      if |Only(First(element.children, SdtPr).value.children, tag)| > 1 {
        return None;
      }
      r := Some(Reviewed(element, tag, value));
    }

    /** `reviewed_field`: only the key and the label may differ from the source's. */
    method ReviewedField(node: Node, part: string) returns (r: Option<Xml>)
      requires Valid() && Issuing() && node.Field?
      modifies this`seen
      ensures r.Some? <==> FieldKept(node, part) && node.id !in old(seen)
      ensures r.Some? ==>
        && known[node.id].Field? && known[node.id].id == node.id && node.id in elements
        && Tracked(old(seen), seen, [node.id]) && Issuing()
        && Shell(r.value, node.key, node.alias) && ContentOf(r.value) == ContentOf(elements[node.id])
        && NativeOf(r.value) == NativeOf(elements[node.id])
        && Renamed(elements[node.id], r.value, known[node.id], node)
        && exists p: nat :: InlineOf(part, elements[node.id], p) == [known[node.id]]
    {
      hide InlineOf, BlockOf, RunStyle, Harmless, Shell, ContentOf, Reviewed, First, Tracked, Blank, FreshNames,
        FieldProperty, Single, Told, NativeOf, Renamed;
      if node.id !in known || !known[node.id].Field? {
        return None;
      }
      var original := known[node.id];
      var anchor := Anchor(node.(key := original.key, alias := original.alias), part);
      if anchor.None? {
        return None;
      }
      TrackedOne(old(seen), node.id);
      var element := anchor.value;
      ghost var p: nat :| InlineOf(part, element, p) == [original];
      ImportedShell(part, original, element, p);
      ShellProperties(element, original.key, original.alias);
      if node.key != original.key {
        if !node.key.Tagged? {
          return None;
        }
        ShellProperties(element, original.key, original.alias);
        var keyed := ReviewedProperty(element, TagName, node.key.value, KEY_LIMIT);
        if keyed.None? {
          return None;
        }
        PropertyShows(node.key.value, KEY_LIMIT);
        RekeyedShell(element, original.key, original.alias, node.key.value);
        SingleStill(element, TagName, node.key.value, Alias);
        ReviewedNative(element, TagName, node.key.value);
        element := keyed.value;
      }
      ghost var rekeyed := element;
      ShellProperties(element, node.key, original.alias);
      if node.alias != original.alias {
        ShellProperties(element, node.key, original.alias);
        var labelled := ReviewedProperty(element, Alias, node.alias, LABEL_LIMIT);
        if labelled.None? {
          return None;
        }
        RelabelledShell(element, node.key, original.alias, node.alias);
        ReviewedNative(element, Alias, node.alias);
        element := labelled.value;
      }
      RenamedControl(anchor.value, rekeyed, element, original, node);
      r := Some(element);
    }

    /** `new_field`: a control made in the editor, under a native identifier nobody has. */
    method NewField(node: Node) returns (r: Option<Xml>)
      requires Valid() && Issuing() && node.Field? && Room(1)
      modifies this`seen, this`controlIds, this`controlNames
      ensures r.Some? <==> NewFieldAccepted(node) && node.id !in old(seen)
      ensures r.Some? ==>
        && Tracked(old(seen), seen, [node.id]) && IssuedSince(old(Given()))
        && Shell(r.value, node.key, node.alias) && ContentOf(r.value) == []
        && node.id.Made? && node.id in controlNames && NativeOf(r.value) == Some(controlNames[node.id])
        && MadeFor(node, r.value, controlNames[node.id])
      ensures |controlIds| <= |old(controlIds)| + 1
    {
      hide Shell, ContentOf, Tracked, Name, Blank, FreshNames, Under, MadeIn, SplitIn, Hexadecimal;
      if !node.id.Made? || !Hexadecimal(node.id.hex) || node.id in seen {
        return None;
      }
      if !Writable(node.key) || !FieldProperty(node.alias, LABEL_LIMIT) {
        return None;
      }
      TrackedOne(seen, node.id);
      NothingMade(seen, node.id);
      seen := seen + {node.id};
      var native := Probe(ControlId, hash(node.id), controlIds);
      NamedOneMore(sourceControls, controlIds, controlNames, MadeIn(old(seen)), node.id, Name(ControlId, native));
      controlIds := controlIds + {Name(ControlId, native)};
      controlNames := controlNames[node.id := Name(ControlId, native)];
      NamedSays(sourceControls, old(controlIds), old(controlNames), MadeIn(old(seen)), node.id);
      FreshShell(Name(ControlId, native), node.key.value, node.alias);
      FreshFinds(Name(ControlId, native), node.key.value, node.alias, NativeId);
      r := Some(Fresh(Name(ControlId, native), node.key.value, node.alias));
    }

    /** A locked run: only the fills of its shapes may differ. */
    method ShapeRun(node: Node, part: string) returns (r: Option<Xml>)
      requires Valid() && Issuing() && node.LockedInline?
      modifies this`seen, this`locked
      ensures r.Some? <==> ShapesAccepted(node, part) && node.id !in old(seen)
      ensures r.Some? ==>
        && Renders(part, node, r.value) && Tracked(old(seen), seen, [node.id]) && locked == old(locked) + {node.id}
        && Issuing()
        && Carries(elements, controlNames, node, r.value)
        && KeepsLocked(elements, node, r.value)
        && Some(r.value) == if node.shapes == map[] then Some(elements[node.id])
             else recolor(elements[node.id], node.shapes)
    {
      hide InlineOf, BlockOf, RunStyle, Tracked, Renders, Harmless, FreshNames, Brings, Natives, Told;
      if node.id !in known || !known[node.id].LockedInline? || known[node.id].caption != node.caption
         || HomeOf(node.id) != Some(part) || node.id in seen || |node.shapes| > 16 {
        return None;
      }
      var element := elements[node.id];
      ghost var p: nat :| InlineOf(part, element, p) == [known[node.id]];
      LockedRenders(part, known[node.id], node, element, p);
      if node.shapes != map[] {
        var changed := recolor(element, node.shapes);
        if changed.None? {
          return None;
        }
        RecolorRenders(recolor, part, known[node.id], node, element, p);
        element := changed.value;
      }
      LockedBrings(elements, controlNames, node, element);
      TrackedOne(seen, node.id);
      NothingMade(seen, node.id);
      seen, locked := seen + {node.id}, locked + {node.id};
      r := Some(element);
    }

    /** `checkbox`: only its state may differ; the glyph follows it. */
    method CheckBoxRun(node: Node, part: string) returns (r: Option<Xml>)
      requires Valid() && Issuing() && node.Checkbox?
      modifies this`seen
      ensures r.Some? <==> BoxAccepted(node, part) && node.id !in old(seen)
      ensures r.Some? ==>
        && Renders(part, node, r.value) && Tracked(old(seen), seen, [node.id]) && Issuing()
        && Carries(elements, controlNames, node, r.value)
        && KeepsBox(elements, known, node, r.value)
    {
      hide InlineOf, BlockOf, RunStyle, Tracked, Renders, Harmless, Switched, IsChecked, Box, FreshNames,
        Brings, Natives, Told, Drawable, Follows, Shaped;
      if node.id !in known || !known[node.id].Checkbox? || HomeOf(node.id) != Some(part) || node.id in seen {
        return None;
      }
      TrackedOne(old(seen), node.id);
      NothingMade(seen, node.id);
      seen := seen + {node.id};
      var original, element := known[node.id], elements[node.id];
      ghost var p: nat :| InlineOf(part, element, p) == [original];
      ImportedBox(part, original, element, p);
      if node.checked != original.checked {
        SwitchedWhen(element, node.checked);
        var switched := Switched(element, node.checked);
        if switched.None? {
          return None;
        }
        SwitchedBox(element, node.checked);
        TickedShape(element, node.checked);
        BoxTag(element);
        element := switched.value;
      }
      BoxRenders(part, node, element);
      BoxBrings(elements, controlNames, node, element);
      r := Some(element);
    }

    /** The content of a control written anew, and its flags with it. */
    method FieldContent(control: Xml, node: Node, part: string) returns (r: Option<Xml>)
      requires Valid() && Issuing() && node.Field? && AllText(node.content) && Room(CountAll(node.content))
      requires Shell(control, node.key, node.alias)
      modifies this`seen, this`locked, this`controlIds, this`controlNames
      ensures r.Some? <==> forall n | n in node.content && n.Text? :: TextAccepted(n, part)
      ensures r.Some? ==>
        && Shell(r.value, node.key, node.alias) && (forall p: nat :: AlikeAll(node.content, Held(part, r.value, p)))
        && NativeOf(r.value) == NativeOf(control) && seen == old(seen) && locked == old(locked)
        && IssuedSince(old(Given())) && Rewrites(elements, control, r.value, node.content)
      ensures |controlIds| <= |old(controlIds)| + CountAll(node.content)
      decreases node, 0
    {
      hide Shell, ContentOf, Tracked, RendersAll, Filed, Harmless, Filled, Multiline, WithoutPlaceholder, NativeOf,
        AlikeAll, Held, First, CountAll, AllText, FreshNames, Issuing, Later, TextAccepted, Unused, Listed,
        InlinesAccepted, Rewrites, KeepsInlines, KeepsRuns, Several, NeedsLines, IsControl, Only, Under, Put;
      FieldInlines(node.content, part);
      TextUnused(node.content, seen);
      var element := control;
      var holder := if Holder(element).Some? then Holder(element).value else Element(SdtContent, map[], [], []);
      var content, xs := ReplaceInlines(holder.children, node.content, part);
      if content.None? {
        return None;
      }
      TextUses(node.content, old(seen), seen, old(locked), locked);
      var filled := holder.(children := content.value);
      FilledShell(element, filled, node.key, node.alias);
      NativeKept(element, filled);
      element := Filled(element, filled);
      if NeedsLines(node.content) {
        MultilineShell(element, node.key, node.alias);
        ShellIsControl(element, node.key, node.alias);
        NativeKept(element, filled);
        element := Multiline(element);
      }
      PlaceholderShell(element, node.key, node.alias);
      NativeKept(element, filled);
      element := WithoutPlaceholder(element);
      FilledHeld(part, element, filled, Only(holder.children, PPr), node.content, xs);
      SeveralLines(node.content);
      RenderedTags(part, node.content, xs);
      KeepsText(elements, known, node.content, xs);
      ShellIsControl(control, node.key, node.alias);
      RewrittenControl(elements, control, filled, node.content, xs);
      r := Some(element);
    }

    /** A control of the document: edited in place or new, its content rewritten if it changed. */
    method FieldElement(node: Node, part: string) returns (r: Option<Xml>)
      requires Valid() && Issuing() && node.Field? && Room(Count(node))
      modifies this`seen, this`locked, this`controlIds, this`controlNames
      ensures r.Some? <==> FieldAccepted(node, part) && node.id !in old(seen)
      ensures r.Some? ==>
        && Renders(part, node, r.value) && Tracked(old(seen), seen, IdsOf(node))
        && Listed(old(locked), locked, LockedOf(node))
        && IssuedSince(old(Given()))
        && Carries(elements, controlNames, node, r.value)
        && (node.id !in known ==> node.id in controlNames && NativeOf(r.value) == Some(controlNames[node.id]))
        && KeepsField(elements, known, node, r.value)
      ensures |controlIds| <= |old(controlIds)| + Count(node)
      decreases node, 1
    {
      hide Carries, Shell, ContentOf, Tracked, Renders, Filed, Harmless, NativeOf, InlineOf, CountAll, AllText,
        FreshNames, Issuing, Later, FieldKept, NewFieldAccepted, TextAccepted, Listed, AlikeAll, Held, MadeIn, SplitIn,
        Renamed, Rewrites, MadeFor;
      LaterSelf(Given());
      var element: Xml;
      if node.id in known {
        var reviewed := ReviewedField(node, part);
        if reviewed.None? {
          return None;
        }
        element := reviewed.value;
        KnownText(part, elements[node.id], known[node.id]);
      } else {
        var made := NewField(node);
        if made.None? {
          return None;
        }
        element := made.value;
      }
      if !AllText(node.content) {
        return None;
      }
      FieldUses(node);
      TrackedNone(locked);
      if node.id !in known || node.content != known[node.id].content {
        ghost var given := Given();
        var content := FieldContent(element, node, part);
        if content.None? {
          return None;
        }
        LaterOn(old(Given()), given, Given());
        LaterKeeps(given, Given(), node.id);
        element := content.value;
      } else {
        ghost var p: nat :| InlineOf(part, elements[node.id], p) == [known[node.id]];
        UnchangedHeld(part, known[node.id], elements[node.id], element, p);
      }
      ControlRenders(part, node, element);
      if node.id in known {
        KnownCarries(elements, controlNames, part, known[node.id], node, elements[node.id], element);
      } else {
        MadeCarries(elements, controlNames, part, node, element);
      }
      r := Some(element);
    }

    /** Inlines that are all text are accepted text by text. */
    lemma FieldInlines(nodes: seq<Node>, part: string)
      ensures AllText(nodes) ==>
        (InlinesAccepted(nodes, part) <==> forall n | n in nodes && n.Text? :: TextAccepted(n, part))
    {
      hide TextAccepted, FieldAccepted, ShapesAccepted, BoxAccepted;
    }

    /** One inline of a paragraph or control. */
    method InlineElement(node: Node, part: string) returns (r: Option<Xml>)
      requires Valid() && Issuing() && Room(Count(node))
      modifies this`seen, this`locked, this`controlIds, this`controlNames
      ensures r.Some? <==> InlineAccepted(node, part) && Unused(old(seen), IdsOf(node))
      ensures r.Some? ==>
        && Renders(part, node, r.value) && Carries(elements, controlNames, node, r.value)
        && KeepsInline(elements, known, node, r.value) && IssuedSince(old(Given()))
        && Tracked(old(seen), seen, IdsOf(node)) && Listed(old(locked), locked, LockedOf(node))
      ensures |controlIds| <= |old(controlIds)| + Count(node)
      decreases node, 2
    {
      hide Tracked, Listed, Renders, Filed, Harmless, IdsOf, LockedOf, Count, Unused, FreshNames, Issuing, Later,
        TextAccepted, FieldAccepted, ShapesAccepted, BoxAccepted, Carries, KeepsInline, KeepsRun, KeepsField, KeepsBox,
        KeepsLocked;
      LaterSelf(Given());
      InlineUses(node, part, seen);
      r := None;
      if node.Text? {
        TextNodeUses(node, seen, locked);
        r := Text(node, part);
      } else if node.Field? {
        r := FieldElement(node, part);
      } else if node.LockedInline? {
        LockedUses(node, locked);
        r := ShapeRun(node, part);
      } else if node.Checkbox? {
        BoxUses(node, locked);
        r := CheckBoxRun(node, part);
      }
      if r.Some? {
        KeepsOne(elements, known, node, r.value);
      }
    }

    /** `replace_inlines`: the properties stay, everything else is written anew. */
    method ReplaceInlines(children: seq<Xml>, nodes: seq<Node>, part: string)
      returns (r: Option<seq<Xml>>, ghost xs: seq<Xml>)
      requires Valid() && Issuing() && Room(CountAll(nodes))
      modifies this`seen, this`locked, this`controlIds, this`controlNames
      ensures r.Some? <==> InlinesAccepted(nodes, part) && Unused(old(seen), IdsAll(nodes))
      ensures r.Some? ==>
        && r.value == Only(children, PPr) + xs && RendersAll(part, nodes, xs) && IssuedSince(old(Given()))
        && CarriesAll(elements, controlNames, nodes, r.value) && KeepsInlines(elements, known, nodes, xs)
        && Tracked(old(seen), seen, IdsAll(nodes)) && Listed(old(locked), locked, LockedAll(nodes))
      ensures |controlIds| <= |old(controlIds)| + CountAll(nodes)
      decreases nodes
    {
      hide Tracked, Listed, Renders, Filed, Harmless, IdsAll, IdsOf, LockedAll, LockedOf, CountAll, Count, Only,
        Unused, FreshNames, Issuing, Later, InlineAccepted, Carries, CarriesAll, KeepsInlines, KeepsInline;
      r, xs := None, [];
      var result := Only(children, PPr);
      StartUses(nodes, seen, locked);
      LaterSelf(Given());
      CarriesNothing(elements, controlNames, nodes);
      KeepsNone(elements, known, nodes);
      var i := 0;
      while i < |nodes|
        invariant 0 <= i <= |nodes| && result == Only(children, PPr) + xs && RendersAll(part, nodes[..i], xs)
        invariant CarriesAll(elements, controlNames, nodes[..i], xs) && KeepsInlines(elements, known, nodes[..i], xs)
        invariant Tracked(old(seen), seen, IdsAll(nodes[..i])) && Listed(old(locked), locked, LockedAll(nodes[..i]))
        invariant IssuedSince(old(Given())) && forall k | 0 <= k < i :: InlineAccepted(nodes[k], part)
        invariant |controlIds| <= |old(controlIds)| + CountAll(nodes[..i]) <= |old(controlIds)| + CountAll(nodes)
        invariant paragraphIds == old(paragraphIds)
      {
        var node := nodes[i];
        ghost var sofar, listed, given := seen, locked, Given();
        OneMore(nodes, i);
        if Unused(old(seen), IdsAll(nodes)) {
          NextUnused(old(seen), seen, nodes, i);
        }
        CountLimit(nodes, i);
        var element := InlineElement(node, part);
        if element.None? {
          assert node in nodes;
          return None, xs;
        }
        LaterOn(old(Given()), given, Given());
        TrackedOn(old(seen), sofar, seen, IdsAll(nodes[..i]), IdsOf(node));
        ListedOn(old(locked), listed, locked, LockedAll(nodes[..i]), LockedOf(node));
        RendersNext(part, nodes, i, xs, element.value);
        LaterNames(given, Given());
        CarriesNext(elements, given.controlNames, controlNames, part, nodes, i, xs, element.value);
        KeepsNext(elements, known, nodes, i, xs, element.value);
        result := result + [element.value];
        xs := xs + [element.value];
        i := i + 1;
      }
      assert nodes[..i] == nodes;
      TrackedUnused(old(seen), seen, IdsAll(nodes));
      CarriesKept(elements, controlNames, nodes, Only(children, PPr), xs);
      r := Some(result);
    }

    /** Which identity an accepted inline uses. */
    lemma InlineUses(node: Node, part: string, used: set<Id>)
      ensures node.Text? ==> Unused(used, IdsOf(node))
      ensures !node.Text? && InlineAccepted(node, part) ==>
        IdOf(node).Some? && (Unused(used, IdsOf(node)) <==> IdOf(node).value !in used)
    {
      hide IdsAll, AllText, FieldKept, NewFieldAccepted, TextAccepted, ShapesAccepted, BoxAccepted;
      if node.Field? && AllText(node.content) {
        FieldUses(node);
      }
    }

    /** The element of a paragraph split off another one: its source's, without section boundary, under an identifier
        nobody has. */
    method SplitElement(node: Node, allowed: set<Id>) returns (r: Option<Xml>)
      requires Valid() && Issuing() && node.Paragraph? && node.id.Split? && Room(1)
      modifies this`seen, this`paragraphIds, this`paragraphNames
      ensures r.Some? <==> SplitAccepted(node, allowed) && node.id !in old(seen)
      ensures r.Some? ==>
        && seen == old(seen) + {node.id} && IssuedSince(old(Given()))
        && r.value.tag.P? && node.align == AlignOf(r.value.children)
        && node.numbered == Under(r.value.children, PPr, NumPr).Some?
        && node.id in paragraphNames && ParaId in r.value.attrs && r.value.attrs[ParaId] == paragraphNames[node.id]
        && node.id.source in elements && SplitFrom(elements[node.id.source], r.value)
      ensures |paragraphIds| <= |old(paragraphIds)| + 1
    {
      hide Harmless, Name, AlignOf, Under, InlineOf, BlockOf, FreshNames, Unsectioned, RunStyle, MadeIn, SplitIn,
        Hexadecimal, Filed, SplitFrom;
      var source := node.id.source;
      if source !in known || !known[source].Paragraph? || source !in allowed || !Hexadecimal(node.id.suffix)
        || node.id in seen
         || node.align != known[source].align || node.numbered != known[source].numbered {
        return None;
      }
      NothingMade(seen, node.id);
      seen := seen + {node.id};
      KnownParagraph(elements, known, marks, source);
      var native := Probe(ParagraphId, hash(node.id), paragraphIds);
      NamedOneMore(sourceParagraphs, paragraphIds, paragraphNames, SplitIn(old(seen)), node.id,
        Name(ParagraphId, native));
      NamedSays(sourceParagraphs, paragraphIds, paragraphNames, SplitIn(old(seen)), node.id);
      paragraphIds := paragraphIds + {Name(ParagraphId, native)};
      paragraphNames := paragraphNames[node.id := Name(ParagraphId, native)];
      SplitProperties(elements[source], Name(ParagraphId, native));
      SplitKeeps(elements[source], Name(ParagraphId, native));
      r := Some(BlockExport.Split(elements[source], Name(ParagraphId, native)));
    }

    /** A paragraph split off another one, around its own inlines. */
    method NewParagraph(node: Node, allowed: set<Id>, part: string) returns (r: Option<Xml>)
      requires Valid() && Issuing() && node.Paragraph? && node.id.Split? && Room(Count(node))
      modifies this`seen, this`locked, this`controlIds, this`controlNames, this`paragraphIds, this`paragraphNames
      ensures r.Some? <==> BlockAccepted(node, allowed, part) && Unused(old(seen), IdsOf(node))
      ensures r.Some? ==>
        && RendersBlock(part, node, r.value) && CarriesBlock(elements, controlNames, node, r.value)
        && Labels(paragraphNames, node, r.value) && Tracked(old(seen), seen, IdsOf(node))
        && Listed(old(locked), locked, LockedOf(node))
        && IssuedSince(old(Given()))
        && node.id in paragraphNames && ParaId in r.value.attrs && r.value.attrs[ParaId] == paragraphNames[node.id]
        && KeepsParagraph(elements, known, node, r.value)
      ensures |controlIds| <= |old(controlIds)| + Count(node) && |paragraphIds| <= |old(paragraphIds)| + Count(node)
      decreases node
    {
      hide Tracked, Listed, RendersBlock, RendersAll, Filed, Harmless, Rewritten, AlignOf, Under, IdsAll, LockedAll,
        CountAll, FreshNames, Issuing, Unused, InlinesAccepted, SplitAccepted, CarriesAll, CarriesBlock,
        KeepsParagraph, KeepsInlines, SplitFrom;
      ParagraphUses(node);
      OwnUsed(seen, node);
      var element := SplitElement(node, allowed);
      if element.None? {
        return None;
      }
      TrackedOne(old(seen), node.id);
      ghost var own, given := seen, Given();
      ContentUnused(old(seen), own, node);
      var inlines, xs := ReplaceInlines(element.value.children, node.content, part);
      if inlines.None? {
        return None;
      }
      LaterOn(old(Given()), given, Given());
      TrackedOn(old(seen), own, seen, [node.id], IdsAll(node.content));
      ParagraphRenders(part, node, element.value, xs);
      RewrittenIs(element.value, inlines.value, xs);
      r := Some(element.value.(children := inlines.value));
      RenderedTags(part, node.content, xs);
      ParagraphKept(elements, known, node, element.value, xs);
      ParagraphCarries(elements, controlNames, node, r.value);
    }

    /** A source paragraph around the inlines it now holds. */
    method ParagraphElement(node: Node, original: Node, element: Xml, part: string) returns (r: Option<Xml>)
      requires Valid() && Issuing() && node.Paragraph? && Bare(node) == Bare(original) && Room(CountAll(node.content))
      requires exists p: nat :: BlockOf(part, element, p) == [original]
      requires !node.id.Split? && node.id in elements && element == elements[node.id]
      modifies this`seen, this`locked, this`controlIds, this`controlNames
      ensures r.Some? <==> InlinesAccepted(node.content, part) && Unused(old(seen), IdsAll(node.content))
      ensures r.Some? ==>
        && RendersBlock(part, node, r.value) && CarriesBlock(elements, controlNames, node, r.value)
        && Labels(paragraphNames, node, r.value) && Tracked(old(seen), seen, IdsAll(node.content))
        && Listed(old(locked), locked, LockedAll(node.content)) && IssuedSince(old(Given()))
        && KeepsParagraph(elements, known, node, r.value)
      ensures |controlIds| <= |old(controlIds)| + CountAll(node.content)
      decreases node, 0
    {
      hide Tracked, Listed, RendersBlock, RendersAll, Filed, Harmless, Rewritten, AlignOf, Under, IdsAll, LockedAll,
        CountAll, InlineOf, BlockOf, Unused, FreshNames, Issuing, InlinesAccepted, CarriesAll, CarriesBlock,
        KeepsParagraph, KeepsInlines;
      ghost var p: nat :| BlockOf(part, element, p) == [original];
      ImportedParagraph(part, original, element, p);
      SourceId(part, original, element, p);
      var inlines, xs := ReplaceInlines(element.children, node.content, part);
      if inlines.None? {
        return None;
      }
      ParagraphRenders(part, node, element, xs);
      RewrittenIs(element, inlines.value, xs);
      r := Some(element.(children := inlines.value));
      RenderedTags(part, node.content, xs);
      ParagraphKept(elements, known, node, element, xs);
      ParagraphCarries(elements, controlNames, node, r.value);
    }

    /** A source table, row or cell around the blocks it now holds. */
    method GridElement(node: Node, original: Node, element: Xml, part: string) returns (r: Option<Xml>)
      requires Valid() && Issuing() && IsGrid(node) && Bare(node) == Bare(original) && Indexed(known, original)
      requires Room(CountAll(node.content)) && SpansTold(element) && node.id in elements && element == elements[node.id]
        && exists p: nat :: BlockOf(part, element, p) == [original]
      modifies this`seen, this`locked, this`controlIds, this`controlNames, this`paragraphIds, this`paragraphNames
      ensures r.Some? <==>
        BlocksAccepted(node.content, Content(original), part) && Unused(old(seen), IdsAll(node.content))
      ensures r.Some? ==>
        && RendersBlock(part, node, r.value) && CarriesBlock(elements, controlNames, node, r.value)
        && Labels(paragraphNames, node, r.value) && Tracked(old(seen), seen, IdsAll(node.content))
        && Listed(old(locked), locked, LockedAll(node.content)) && IssuedSince(old(Given()))
        && Shaped(r.value, element) && LaidOut(element.children, r.value.children)
        && KeepsBlocks(elements, known, node.content, Beside(r.value.children, CONTAINER))
      ensures |controlIds| <= |old(controlIds)| + CountAll(node.content)
      ensures |paragraphIds| <= |old(paragraphIds)| + CountAll(node.content)
      decreases node, 0
    {
      hide Tracked, Listed, RendersBlock, Filed, Harmless, IdsAll, LockedAll, CountAll, Indexed, BlockOf, Spanned,
        AlikeAll, BlocksOf, Unused, FreshNames, Issuing, BlocksAccepted, CarriesBlocks, CarriesBlock, SpansTold,
        LabelsAll, BlocksIn, LaidOut, KeepsBlocks, Beside;
      ghost var p: nat :| BlockOf(part, element, p) == [original];
      GridContent(known, part, original, element, p);
      var blocks := Blocks(element.children, node.content, original.content, part);
      if blocks.None? {
        return None;
      }
      GridRenders(part, node, original, element, p, blocks.value);
      GridTag(part, original, element, p);
      GridCarries(elements, controlNames, node, element, blocks.value);
      r := Some(element.(children := blocks.value));
    }

    /** A source block around what it now holds; a locked one must hold what it held. */
    method InnerElement(node: Node, original: Node, element: Xml, part: string) returns (r: Option<Xml>)
      requires Valid() && Issuing() && IsBlockNode(node) && Bare(node) == Bare(original) && Indexed(known, original)
      requires Room(CountAll(Content(node))) && exists p: nat :: BlockOf(part, element, p) == [original]
      requires SpansTold(element) && BlockNatives(element) == NodeNatives(elements, map[], original)
      requires IdOf(node).Some? && !IdOf(node).value.Split? && IdOf(node).value in elements
        && element == elements[IdOf(node).value] && IdOf(node).value in known && known[IdOf(node).value] == original
      modifies this`seen, this`locked, this`controlIds, this`controlNames, this`paragraphIds, this`paragraphNames
      ensures r.Some? <==>
        && (if node.Paragraph? then InlinesAccepted(node.content, part)
            else if IsGrid(node) then BlocksAccepted(node.content, Content(original), part) else node == original)
        && Unused(old(seen), IdsAll(Content(node)))
      ensures r.Some? ==>
        && RendersBlock(part, node, r.value) && CarriesBlock(elements, controlNames, node, r.value)
        && Labels(paragraphNames, node, r.value) && Tracked(old(seen), seen, IdsAll(Content(node)))
        && Listed(old(locked), locked, LockedOf(node)) && IssuedSince(old(Given()))
        && (node == original || KeepsBlock(elements, known, node, r.value))
      ensures |controlIds| <= |old(controlIds)| + CountAll(Content(node))
      ensures |paragraphIds| <= |old(paragraphIds)| + CountAll(Content(node))
      decreases node, 1
    {
      hide Unused, Tracked, Listed, RendersBlock, Filed, Harmless, IdsAll, LockedAll, CountAll, Indexed, BlockOf,
        FreshNames, Issuing, Later, InlinesAccepted, BlocksAccepted, LockedOf, CarriesBlock, SpansTold, BlockNatives,
        NodeNatives, LabelsAll, KeepsParagraph, KeepsBlocks, LaidOut, Beside, KeepsBlock;
      if node.Paragraph? {
        ParagraphUses(node);
        r := ParagraphElement(node, original, element, part);
        if r.Some? && node != original {
          KeepsChanged(elements, known, node, r.value);
        }
      } else if IsGrid(node) {
        GridUses(node);
        r := GridElement(node, original, element, part);
        if r.Some? && node != original {
          KeepsChanged(elements, known, node, r.value);
        }
      } else {
        if node != original {
          return None;
        }
        LaterSelf(Given());
        TextUnused([], seen);
        TrackedNone(seen);
        NoIds();
        LockedBlockUses(node, locked);
        locked := locked + {node.id};
        ghost var p: nat :| BlockOf(part, element, p) == [original];
        CopyRendersBlock(part, node, element, p);
        OriginalCarries(elements, known, marks, controlNames, node, element);
        r := Some(element);
      }
    }

    /** A source block whose content may have changed. */
    method SourceBlock(node: Node, allowed: set<Id>, part: string) returns (r: Option<Xml>)
      requires Valid() && Issuing() && Room(Count(node))
      requires forall id | id in allowed :: id in known && IsBlockNode(known[id]) && Indexed(known, known[id])
      modifies this`seen, this`locked, this`controlIds, this`controlNames, this`paragraphIds, this`paragraphNames
      ensures r.Some? <==> SourceAccepted(node, allowed, part) && Unused(old(seen), IdsOf(node))
      ensures r.Some? ==>
        && RendersBlock(part, node, r.value) && CarriesBlock(elements, controlNames, node, r.value)
        && Labels(paragraphNames, node, r.value) && Tracked(old(seen), seen, IdsOf(node))
        && Listed(old(locked), locked, LockedOf(node))
        && IssuedSince(old(Given())) && KeepsBlock(elements, known, node, r.value)
      ensures |controlIds| <= |old(controlIds)| + Count(node) && |paragraphIds| <= |old(paragraphIds)| + Count(node)
      decreases node, 2
    {
      hide Unused, Tracked, Listed, RendersBlock, Harmless, IdsAll, LockedAll, CountAll, Indexed, InlineOf, BlockOf,
        Filed, IdsOf, LockedOf, Count, FreshNames, Issuing, Later, InlinesAccepted, BlocksAccepted, CarriesBlock,
        SpansTold, BlockNatives, NodeNatives, Labels, KeepsBlock;
      LaterSelf(Given());
      if IdOf(node).None? || IdOf(node).value !in allowed {
        return None;
      }
      var identity := IdOf(node).value;
      OwnUsed(seen, node);
      var anchor := Anchor(node, part);
      if anchor.None? {
        return None;
      }
      TrackedOne(old(seen), identity);
      var original, element := known[identity], anchor.value;
      KnownBlock(elements, known, marks, identity, part);
      ghost var own := seen;
      ContentUnused(old(seen), own, node);
      BlockUses(node);
      var inner := InnerElement(node, original, element, part);
      if inner.None? {
        return None;
      }
      TrackedOn(old(seen), own, seen, [identity], IdsAll(Content(node)));
      if node == original {
        ghost var p: nat :| BlockOf(part, element, p) == [original];
        CopyRendersBlock(part, node, element, p);
        OriginalCarries(elements, known, marks, controlNames, node, element);
        SourceId(part, original, element, p);
        SourceLabels(paragraphNames, part, element, p);
        KeepsUnchanged(elements, known, node);
        r := Some(elements[identity]);
      } else {
        r := inner;
      }
    }

    /** One block: a new paragraph, or one of the source's. */
    method BlockElement(node: Node, allowed: set<Id>, part: string) returns (r: Option<Xml>)
      requires Valid() && Issuing() && Room(Count(node))
      requires forall id | id in allowed :: id in known && IsBlockNode(known[id]) && Indexed(known, known[id])
      modifies this`seen, this`locked, this`controlIds, this`controlNames, this`paragraphIds, this`paragraphNames
      ensures r.Some? <==> BlockAccepted(node, allowed, part) && Unused(old(seen), IdsOf(node))
      ensures r.Some? ==>
        && RendersBlock(part, node, r.value) && CarriesBlock(elements, controlNames, node, r.value)
        && Labels(paragraphNames, node, r.value) && Tracked(old(seen), seen, IdsOf(node))
        && Listed(old(locked), locked, LockedOf(node))
        && IssuedSince(old(Given())) && KeepsBlock(elements, known, node, r.value)
      ensures |controlIds| <= |old(controlIds)| + Count(node) && |paragraphIds| <= |old(paragraphIds)| + Count(node)
      decreases node, 3
    {
      hide Unused, Tracked, Listed, RendersBlock, Harmless, IdsAll, LockedAll, CountAll, Indexed, Filed, IdsOf,
        LockedOf, Count, FreshNames, Issuing, Later, SourceAccepted, SplitAccepted, InlinesAccepted, CarriesBlock,
        Labels, KeepsBlock, KeepsParagraph;
      if node.Paragraph? && node.id.Split? {
        r := NewParagraph(node, allowed, part);
        if r.Some? {
          KeepsSplit(elements, known, marks, node, r.value);
        }
      } else {
        r := SourceBlock(node, allowed, part);
      }
    }

    /** `blocks`: nothing but paragraphs comes or goes; container properties stay where they are. */
    method Blocks(children: seq<Xml>, nodes: seq<Node>, originals: seq<Node>, part: string)
      returns (r: Option<seq<Xml>>)
      requires Valid() && Issuing() && Room(CountAll(nodes)) && IndexedAll(known, originals)
      requires forall o | o in originals :: IsBlockNode(o)
      modifies this`seen, this`locked, this`controlIds, this`controlNames, this`paragraphIds, this`paragraphNames
      ensures r.Some? <==> BlocksAccepted(nodes, originals, part) && Unused(old(seen), IdsAll(nodes))
      ensures r.Some? ==>
        && (forall p: nat :: AlikeAll(nodes, BlocksOf(part, r.value, p))) && Spanned(r.value) == Spanned(children)
        && CarriesBlocks(elements, controlNames, nodes, r.value) && LabelsAll(paragraphNames, nodes, BlocksIn(r.value))
        && LaidOut(children, r.value) && KeepsBlocks(elements, known, nodes, Beside(r.value, CONTAINER))
        && Tracked(old(seen), seen, IdsAll(nodes)) && Listed(old(locked), locked, LockedAll(nodes))
        && IssuedSince(old(Given()))
      ensures |controlIds| <= |old(controlIds)| + CountAll(nodes)
        && |paragraphIds| <= |old(paragraphIds)| + CountAll(nodes)
      decreases nodes, 0
    {
      hide Unused, Tracked, Listed, RendersBlock, Filed, Harmless, IdsAll, IdsOf, LockedAll, LockedOf, CountAll, Count,
        BlocksOf, AlikeAll, Spanned, Refilled, FixedIds, Indexed, KeepsBoundaries, FreshNames, Issuing, Later,
        BlockAccepted, CarriesBlock, CarriesBlocks, Labels, LabelsAll, BlocksIn, KeepsBlock, KeepsBlocks, LaidOut,
        Beside;
      StartUses(nodes, seen, locked);
      LaterSelf(Given());
      CarriesNothing(elements, controlNames, nodes);
      LabelsNothing(paragraphNames, nodes);
      KeepsNone(elements, known, nodes);
      if (exists n :: n in nodes && IdOf(n).None?) || FixedIds(nodes) != FixedIds(originals) {
        return None;
      }
      var allowed := IdSet(originals);
      AllowedKnown(known, originals);
      if !KeepsBoundaries(elements, originals, nodes) {
        return None;
      }
      var rendered: seq<Xml> := [];
      var i := 0;
      while i < |nodes|
        invariant 0 <= i <= |nodes| && RendersBlocks(part, nodes[..i], rendered)
        invariant CarriesBlocks(elements, controlNames, nodes[..i], rendered)
          && LabelsAll(paragraphNames, nodes[..i], rendered) && KeepsBlocks(elements, known, nodes[..i], rendered)
        invariant Tracked(old(seen), seen, IdsAll(nodes[..i])) && Listed(old(locked), locked, LockedAll(nodes[..i]))
        invariant IssuedSince(old(Given())) && forall k | 0 <= k < i :: BlockAccepted(nodes[k], allowed, part)
        invariant |controlIds| <= |old(controlIds)| + CountAll(nodes[..i]) <= |old(controlIds)| + CountAll(nodes)
        invariant |paragraphIds| <= |old(paragraphIds)| + CountAll(nodes[..i]) <= |old(paragraphIds)| + CountAll(nodes)
      {
        ghost var sofar, listed, given := seen, locked, Given();
        OneMore(nodes, i);
        CountLimit(nodes, i);
        if Unused(old(seen), IdsAll(nodes)) {
          NextUnused(old(seen), seen, nodes, i);
        }
        var element := BlockElement(nodes[i], allowed, part);
        if element.None? {
          return None;
        }
        LaterOn(old(Given()), given, Given());
        TrackedOn(old(seen), sofar, seen, IdsAll(nodes[..i]), IdsOf(nodes[i]));
        ListedOn(old(locked), listed, locked, LockedAll(nodes[..i]), LockedOf(nodes[i]));
        BlocksNext(part, nodes, i, rendered, element.value);
        LaterNames(given, Given());
        CarriesNextBlock(elements, given.controlNames, controlNames, nodes, i, rendered, element.value);
        LabelsNext(given.paragraphNames, paragraphNames, nodes, i, rendered, element.value);
        KeepsNext(elements, known, nodes, i, rendered, element.value);
        rendered := rendered + [element.value];
        i := i + 1;
      }
      assert nodes[..i] == nodes;
      TrackedUnused(old(seen), seen, IdsAll(nodes));
      RefilledRenders(part, children, nodes, rendered);
      CarriesRefilled(elements, controlNames, nodes, children, rendered);
      LabelsRefilled(paragraphNames, part, nodes, children, rendered);
      RenderedBlockTags(part, nodes, rendered);
      RefilledLaysOut(children, rendered);
      r := Some(Refilled(children, rendered));
    }
  }

  // ----- what an accepted edit leaves in place

  /** A paragraph element that ends a section. */
  predicate EndsSection(x: Xml) {
    exists p, q :: p in x.children && p.tag.PPr? && q in p.children && q.tag.SectPr?
  }

  /** The section boundaries of a container are conserved: each paragraph that ends a section is still there, and what
      is written for it still ends one; nothing else that is written for a paragraph does. */
  lemma BoundariesStay(elements: map<Id, Xml>, known: map<Id, Node>, originals: seq<Node>, nodes: seq<Node>,
                       xs: seq<Xml>)
    requires KeepsBoundaries(elements, originals, nodes) && KeepsBlocks(elements, known, nodes, xs)
    requires forall o | o in originals && o.Paragraph? :: !o.id.Split?
    ensures forall o | o in originals && o.Paragraph? && o.id in elements && EndsSection(elements[o.id]) :: exists i ::
      0 <= i < |nodes| && IdOf(nodes[i]) == Some(o.id) && (nodes[i].Paragraph? ==> EndsSection(xs[i]))
    ensures forall i | 0 <= i < |nodes| && nodes[i].Paragraph? && EndsSection(xs[i]) ::
      nodes[i].id in elements && EndsSection(elements[nodes[i].id])
  {
    hide KeepsBoundaries, KeepsBlock, EndsSection, KeepsInlines;
    forall i | 0 <= i < |nodes| && nodes[i].Paragraph?
      ensures EndsSection(xs[i]) ==> nodes[i].id in elements && EndsSection(elements[nodes[i].id])
      ensures !nodes[i].id.Split? && nodes[i].id in elements && EndsSection(elements[nodes[i].id]) ==>
        EndsSection(xs[i])
    {
      OneBlockKept(elements, known, nodes, xs, i);
      BoundaryKept(elements, known, nodes[i], xs[i]);
    }
    forall o | o in originals && o.Paragraph? && o.id in elements && EndsSection(elements[o.id])
      ensures exists i ::
        0 <= i < |nodes| && IdOf(nodes[i]) == Some(o.id) && (nodes[i].Paragraph? ==> EndsSection(xs[i]))
    {
      EndsUnder(elements[o.id]);
      BoundaryThere(elements, originals, nodes, o);
      var n :| n in nodes && IdOf(n) == Some(o.id);
      var i :| 0 <= i < |nodes| && nodes[i] == n;
    }
  }

  lemma OneBlockKept(elements: map<Id, Xml>, known: map<Id, Node>, ns: seq<Node>, xs: seq<Xml>, i: nat)
    requires KeepsBlocks(elements, known, ns, xs) && i < |ns|
    ensures |xs| == |ns| && KeepsBlock(elements, known, ns[i], xs[i])
  {
    hide KeepsBlock;
  }

  lemma BoundaryThere(elements: map<Id, Xml>, originals: seq<Node>, nodes: seq<Node>, o: Node)
    requires KeepsBoundaries(elements, originals, nodes) && o in originals && o.Paragraph? && o.id in elements
    requires Under(elements[o.id].children, PPr, SectPr).Some?
    ensures exists n :: n in nodes && IdOf(n) == Some(o.id)
  {
    hide Under;
    assert o.id in IdSet(originals);
    assert o.id in IdSet(nodes);
  }

  lemma EndsUnder(x: Xml)
    ensures EndsSection(x) <==> Under(x.children, PPr, SectPr).Some?
  {
    UnderNone(x.children, PPr, SectPr);
  }

  lemma BoundaryKept(elements: map<Id, Xml>, known: map<Id, Node>, n: Node, x: Xml)
    requires n.Paragraph? && KeepsBlock(elements, known, n, x)
    ensures EndsSection(x) ==> n.id in elements && EndsSection(elements[n.id])
    ensures !n.id.Split? && n.id in elements && EndsSection(elements[n.id]) ==> EndsSection(x)
  {
    hide Under, Among, Beside, EndsSection, KeepsInlines, NoBoundary;
    EndsUnder(x);
    if n.id in elements {
      EndsUnder(elements[n.id]);
    }
    if !(n.id in known && known[n.id] == n) && !n.id.Split? {
      var e := elements[n.id];
      AmongUnder(x.children, PPr, SectPr);
      AmongUnder(e.children, PPr, SectPr);
    }
  }

  lemma AmongUnder(xs: seq<Xml>, a: Tag, b: Tag)
    ensures Under(Among(xs, {a}), a, b) == Under(xs, a, b)
  {
    hide Under, Among;
    OnlyAmong(xs, a);
    OnlyUnder(xs, a, b);
  }

  /** Blocks other than paragraphs stay, each once, in their order. */
  ghost predicate FixedAt(ns: seq<Node>, i: int, k: int) {
    0 <= i < |ns| && !ns[i].Paragraph? && k == |FixedIds(ns[..i])|
  }

  ghost predicate HasFixed(ns: seq<Node>, k: int) {
    exists i :: FixedAt(ns, i, k)
  }

  lemma {:induction false} FixedPrefix(ns: seq<Node>, i: nat)
    requires i <= |ns|
    ensures |FixedIds(ns[..i])| <= |FixedIds(ns)| && FixedIds(ns)[..|FixedIds(ns[..i])|] == FixedIds(ns[..i])
  {
    hide IdOf;
    if i == |ns| {
      assert ns[..i] == ns;
    } else {
      FixedPrefix(ns[..|ns| - 1], i);
      assert ns[..|ns| - 1][..i] == ns[..i];
    }
  }

  /** A fixed block is listed behind those before it. */
  lemma FixedListed(ns: seq<Node>, i: nat, k: nat)
    requires FixedAt(ns, i, k)
    ensures k < |FixedIds(ns)| && FixedIds(ns)[k] == IdOf(ns[i])
    ensures forall j, m | i < j && FixedAt(ns, j, m) :: k < m
  {
    hide IdOf;
    FixedPrefix(ns, i + 1);
    assert ns[..i + 1][..i] == ns[..i];
    forall j, m | i < j && FixedAt(ns, j, m) ensures k < m {
      FixedPrefix(ns[..j], i + 1);
      assert ns[..j][..i + 1] == ns[..i + 1];
    }
  }

  lemma {:induction false} ListedFixed(ns: seq<Node>, k: nat)
    requires k < |FixedIds(ns)|
    ensures HasFixed(ns, k)
  {
    hide IdOf;
    var n := |ns| - 1;
    if k < |FixedIds(ns[..n])| {
      ListedFixed(ns[..n], k);
      var i :| FixedAt(ns[..n], i, k);
      assert ns[..n][..i] == ns[..i];
      assert FixedAt(ns, i, k);
    } else {
      assert FixedAt(ns, n, k);
    }
  }

  /** Whatever is no paragraph stays, in its order: an accepted edit adds, removes and moves paragraphs only. */
  lemma FixedStay(a: seq<Node>, b: seq<Node>)
    requires FixedIds(a) == FixedIds(b)
    ensures forall i, k | FixedAt(a, i, k) :: exists j :: FixedAt(b, j, k) && IdOf(b[j]) == IdOf(a[i])
    ensures forall i, j, k, m | FixedAt(a, i, k) && FixedAt(a, j, m) && i < j :: k < m
  {
    hide FixedIds, IdOf;
    forall i, k | FixedAt(a, i, k)
      ensures exists j :: FixedAt(b, j, k) && IdOf(b[j]) == IdOf(a[i])
      ensures forall j, m | FixedAt(a, j, m) && i < j :: k < m
    {
      FixedListed(a, i, k);
      ListedFixed(b, k);
      var j :| FixedAt(b, j, k);
      FixedListed(b, j, k);
    }
  }

  lemma NamedSays(source: set<string>, used: set<string>, names: map<Id, string>, made: set<Id>, id: Id)
    requires FreshNames(source, used, names, made)
    ensures id !in made ==> id !in names
  {
  }

  lemma ShellProperties(x: Xml, key: Key, alias: string)
    requires Shell(x, key, alias)
    ensures First(x.children, SdtPr).Some?
  {
    hide First, Under;
    FirstOfUnder(x.children, SdtPr, PlainText);
  }

  lemma PropertyShows(value: string, limit: nat)
    requires FieldProperty(value, limit)
    ensures !Blank(value)
  {
  }

  lemma SingleStill(x: Xml, tag: Tag, value: string, other: Tag)
    requires First(x.children, SdtPr).Some? && tag != other
    ensures Single(Reviewed(x, tag, value), other) <==> Single(x, other)
  {
    hide First, Reviewed, Only;
    ReviewedOnly(x, tag, value, other);
  }

  lemma TrackedUnused(a: set<Id>, b: set<Id>, ids: seq<Id>)
    requires Tracked(a, b, ids)
    ensures Unused(a, ids)
  {
  }

  lemma TextUnused(ns: seq<Node>, used: set<Id>)
    requires AllText(ns)
    ensures Unused(used, IdsAll(ns))
  {
    TextIds(ns);
  }

  lemma OwnUsed(used: set<Id>, n: Node)
    ensures IdOf(n).Some? && Unused(used, IdsOf(n)) ==> IdOf(n).value !in used
  {
    hide NoRepeats, IdsAll;
    if IdOf(n).Some? {
      assert IdsOf(n)[0] == IdOf(n).value && IdsOf(n)[0] in IdsOf(n);
    }
  }

  /** After a node's own identity is used, the rest is unused exactly if all was. */
  lemma ContentUnused(a: set<Id>, b: set<Id>, n: Node)
    requires IdOf(n).Some? && b == a + {IdOf(n).value} && IdOf(n).value !in a
    ensures Unused(a, IdsOf(n)) <==> Unused(b, IdsAll(Content(n)))
  {
    hide NoRepeats, IdsAll;
    if !IsContainer(n) {
      NoIds();
    }
    assert IdsOf(n) == [IdOf(n).value] + IdsAll(Content(n));
    assert IdsOf(n)[0] in IdsOf(n);
    NoRepeatsConcat([IdOf(n).value], IdsAll(Content(n)));
    SingleNoRepeats(IdOf(n).value);
  }

  lemma SingleNoRepeats<T>(x: T)
    ensures NoRepeats([x])
  {
  }

  // ----- the document as it was imported

  /** Every text that an export would write again can be written: those in controls stay as they are. */
  ghost predicate FittingTexts(n: Node)
    decreases n
  {
    if n.Paragraph? then forall c | c in n.content && c.Text? :: TextFits(c.text)
    else forall i | 0 <= i < |Content(n)| :: FittingTexts(Content(n)[i])
  }

  lemma NativeInline(w: DocxExport, part: string, n: Node)
    requires w.Valid() && Native(w.known, w.marks, part, n) && IsInlineNode(n)
    ensures w.InlineAccepted(n, part) <==> (n.Text? ==> TextFits(n.text))
  {
    hide InlineOf, BlockOf, RunStyle, Harmless, AllText;
    if n.Field? {
      NativeNode(w.known, w.marks, part, n);
      assert From(w.elements, part, n);
      KnownText(part, w.elements[n.id], n);
    } else if !n.Text? {
      NativeNode(w.known, w.marks, part, n);
      assert From(w.elements, part, n);
    }
  }

  /** A block as it was imported is accepted exactly if its texts can be written. */
  lemma {:induction false} NativeBlock(w: DocxExport, allowed: set<Id>, part: string, n: Node)
    requires w.Valid() && Native(w.known, w.marks, part, n) && Indexed(w.known, n) && IsBlockNode(n)
    requires IdOf(n).Some? && IdOf(n).value in allowed
    ensures w.BlockAccepted(n, allowed, part) <==> FittingTexts(n)
    decreases n
  {
    hide Filed, Harmless, Native, Indexed, DocxExport.InlineAccepted, BlockOf, InlineOf, DocxExport.BlocksAccepted,
      From;
    NativeNode(w.known, w.marks, part, n);
    NativeContent(w.known, w.marks, part, n);
    if n.Paragraph? {
      forall c | c in n.content ensures w.InlineAccepted(c, part) <==> (c.Text? ==> TextFits(c.text)) {
        NativeInline(w, part, c);
      }
    } else if IsGrid(n) {
      KnownBlock(w.elements, w.known, w.marks, IdOf(n).value, part);
      var p: nat :| BlockOf(part, w.elements[IdOf(n).value], p) == [n];
      GridContent(w.known, part, n, w.elements[IdOf(n).value], p);
      NativeBlocks(w, part, n.content);
    }
  }

  lemma {:induction false} NativeBlocks(w: DocxExport, part: string, ns: seq<Node>)
    requires w.Valid() && NativeAll(w.known, w.marks, part, ns) && IndexedAll(w.known, ns)
      && forall n | n in ns :: IsBlockNode(n)
    ensures w.BlocksAccepted(ns, ns, part) <==> forall i | 0 <= i < |ns| :: FittingTexts(ns[i])
    decreases ns
  {
    hide Filed, Harmless, Native, Indexed, DocxExport.BlockAccepted, FittingTexts, KeepsBoundaries, FixedIds;
    NoneMissing(w.elements, ns);
    forall i | 0 <= i < |ns|
      ensures IdOf(ns[i]).Some? && (w.BlockAccepted(ns[i], IdSet(ns), part) <==> FittingTexts(ns[i]))
    {
      assert ns[i] in ns;
      NativeNode(w.known, w.marks, part, ns[i]);
      assert IdOf(ns[i]).value in IdSet(ns);
      NativeBlock(w, IdSet(ns), part, ns[i]);
    }
  }

  lemma KnownBlock(elements: map<Id, Xml>, known: map<Id, Node>, marks: map<Id, Source>, id: Id, part: string)
    requires Filed(elements, known, marks) && id in known && IsBlockNode(known[id]) && HomeOf(id) == Some(part)
    ensures id in elements && exists p: nat :: BlockOf(part, elements[id], p) == [known[id]]
    ensures SpansTold(elements[id]) && BlockNatives(elements[id]) == NodeNatives(elements, map[], known[id])
  {
    hide InlineOf, BlockOf, RunStyle, SpansTold, BlockNatives, NodeNatives;
  }

  lemma KnownParagraph(elements: map<Id, Xml>, known: map<Id, Node>, marks: map<Id, Source>, id: Id)
    requires Filed(elements, known, marks) && id in known && known[id].Paragraph?
    ensures id in elements && elements[id].tag.P?
    ensures known[id].align == AlignOf(elements[id].children)
    ensures known[id].numbered == Under(elements[id].children, PPr, NumPr).Some?
  {
    hide InlineOf, BlockOf, RunStyle, Told, AlignOf, Under;
    var part := HomeOf(id).value;
    var p: nat :| BlockOf(part, elements[id], p) == [known[id]];
    ImportedParagraph(part, known[id], elements[id], p);
  }

  /** A source block brings along what its element holds: it has no control made in the editor. */
  lemma OriginalCarries(elements: map<Id, Xml>, known: map<Id, Node>, marks: map<Id, Source>, names: map<Id, string>,
                        n: Node, x: Xml)
    requires Filed(elements, known, marks) && Indexed(known, n)
    requires SpansTold(x) && BlockNatives(x) == NodeNatives(elements, map[], n)
    ensures CarriesBlock(elements, names, n, x)
  {
    hide Filed, Indexed, SpansTold, BlockNatives, NodeNatives, NodesNatives;
    forall more ensures NodesNatives(elements, more, [n]) == BlockNatives(x) {
      OneNatives(elements, more, n);
      KnownNatives(elements, known, marks, more, n);
    }
  }

  lemma {:induction false} KnownNatives(elements: map<Id, Xml>, known: map<Id, Node>, marks: map<Id, Source>,
                                        names: map<Id, string>, n: Node)
    requires Filed(elements, known, marks) && Indexed(known, n)
    ensures NodeNatives(elements, names, n) == NodeNatives(elements, map[], n)
    decreases n, 1
  {
    hide From, Told, NodesNatives, RunStyle;
    if IsContainer(n) {
      forall i | 0 <= i < |n.content| ensures Indexed(known, n.content[i]) { assert Content(n)[i] == n.content[i]; }
      AllKnownNatives(elements, known, marks, names, n.content);
    }
  }

  lemma {:induction false} AllKnownNatives(elements: map<Id, Xml>, known: map<Id, Node>, marks: map<Id, Source>,
                                           names: map<Id, string>, ns: seq<Node>)
    requires Filed(elements, known, marks) && forall i | 0 <= i < |ns| :: Indexed(known, ns[i])
    ensures NodesNatives(elements, names, ns) == NodesNatives(elements, map[], ns)
    decreases ns, 0
  {
    hide Filed, Indexed, NodeNatives;
    if ns != [] {
      AllKnownNatives(elements, known, marks, names, ns[..|ns| - 1]);
      KnownNatives(elements, known, marks, names, ns[|ns| - 1]);
    }
  }

  lemma NoneMissing(elements: map<Id, Xml>, ns: seq<Node>)
    ensures KeepsBoundaries(elements, ns, ns)
  {
  }

  lemma AllowedKnown(known: map<Id, Node>, originals: seq<Node>)
    requires IndexedAll(known, originals) && forall o | o in originals :: IsBlockNode(o)
    ensures forall id | id in IdSet(originals) :: id in known && IsBlockNode(known[id]) && Indexed(known, known[id])
  {
    forall id | id in IdSet(originals) ensures id in known && IsBlockNode(known[id]) && Indexed(known, known[id]) {
      var o :| o in originals && IdOf(o) == Some(id);
      assert Indexed(known, o);
    }
  }

  lemma RewrittenIs(x: Xml, children: seq<Xml>, inlines: seq<Xml>)
    requires children == Only(x.children, PPr) + inlines
    ensures Rewritten(x, inlines) == x.(children := children)
  {
  }

  lemma ParagraphUses(n: Node)
    requires n.Paragraph?
    ensures IdsOf(n) == [n.id] + IdsAll(n.content) && LockedOf(n) == LockedAll(n.content)
      && Count(n) == 1 + CountAll(n.content)
  {
    hide IdsAll, LockedAll, CountAll;
  }

  lemma BlockUses(n: Node)
    requires IsBlockNode(n)
    ensures IdsOf(n) == [IdOf(n).value] + IdsAll(Content(n)) && Count(n) == 1 + CountAll(Content(n))
  {
    hide IdsAll, LockedAll, CountAll;
    if n.LockedBlock? {
      NoIds();
      assert CountAll([]) == 0 by { EmptyCount(); }
    }
  }

  lemma EmptyCount()
    ensures CountAll([]) == 0
  {
  }

  lemma GridUses(n: Node)
    requires IsGrid(n)
    ensures IdsOf(n) == [IdOf(n).value] + IdsAll(n.content) && LockedOf(n) == LockedAll(n.content)
    ensures Count(n) == 1 + CountAll(n.content)
  {
    hide IdsAll, LockedAll, CountAll;
  }

  lemma LockedBlockUses(n: Node, b: set<Id>)
    requires n.LockedBlock?
    ensures IdsOf(n) == [n.id] && Listed(b, b + {n.id}, LockedOf(n))
  {
  }

  lemma SourceId(part: string, n: Node, x: Xml, p: nat)
    requires BlockOf(part, x, p) == [n]
    ensures IdOf(n) == Some(At(part, p)) && !IsProperties(x.tag)
  {
    hide InlinesOf, BlocksOf, Under, Spanned, Caption;
  }

  lemma GridTag(part: string, n: Node, x: Xml, p: nat)
    requires IsGrid(n) && BlockOf(part, x, p) == [n]
    ensures IsTabular(x.tag)
  {
    hide InlinesOf, BlocksOf, Under, Spanned, Caption;
  }

  /** The content of a source table element is blocks, each known. */
  lemma GridContent(known: map<Id, Node>, part: string, n: Node, x: Xml, p: nat)
    requires IsGrid(n) && BlockOf(part, x, p) == [n] && Indexed(known, n)
    ensures IndexedAll(known, n.content) && forall o | o in n.content :: IsBlockNode(o)
  {
    hide InlinesOf, BlocksOf, Under, Spanned, Caption;
    assert n.content == BlocksOf(part, x.children, p + 1);
    BlocksAreBlocks(part, x.children, p + 1);
    assert Content(n) == n.content;
  }

  lemma {:induction false} BlocksAreBlocks(part: string, xs: seq<Xml>, p: nat)
    ensures forall o | o in BlocksOf(part, xs, p) :: IsBlockNode(o)
  {
    hide InlinesOf, Under, Spanned, Caption, ElementsAll, AlignOf;
    if xs != [] {
      BlocksAreBlocks(part, xs[..|xs| - 1], p);
    }
  }

  lemma {:induction false} InlinesAreInline(part: string, xs: seq<Xml>, p: nat)
    ensures forall o | o in InlinesOf(part, xs, p) :: IsInlineNode(o)
  {
    hide Under, Caption, ElementsAll, RunText, PlainRun, Held;
    if xs != [] {
      InlinesAreInline(part, xs[..|xs| - 1], p);
    }
  }

  lemma BlocksNext(part: string, ns: seq<Node>, i: nat, xs: seq<Xml>, x: Xml)
    requires i < |ns| && RendersBlocks(part, ns[..i], xs) && RendersBlock(part, ns[i], x)
    ensures RendersBlocks(part, ns[..i + 1], xs + [x])
  {
    hide RendersBlock;
  }

  lemma KeptStyle(xs: seq<Xml>)
    ensures RunStyle(Only(xs, RPr)) == RunStyle(xs)
  {
    hide Under, Only;
    OnlyUnder(xs, RPr, B);
    OnlyUnder(xs, RPr, I);
    OnlyUnder(xs, RPr, U);
  }

  lemma PlainStyle()
    ensures RunStyle([]) == Style(false, false, false)
  {
  }

  lemma LockedRenders(part: string, original: Node, n: Node, x: Xml, p: nat)
    requires original.LockedInline? && n.LockedInline? && n.caption == original.caption && !x.tag.PPr?
    requires InlineOf(part, x, p) == [original]
    ensures Renders(part, n, x) && InlineOf(part, x, p) == [Locked(part, x, p)]
  {
    hide Alike, AlikeAll, Held, Under, RunText, Caption;
    LockedAnywhere(part, x, p, p);
    NothingAlike();
    forall q: nat ensures AlikeAll([n], InlineOf(part, x, q)) {
      assert InlineOf(part, x, q) == [Locked(part, x, q)] by { LockedAnywhere(part, x, p, q); }
      AlikeSame(n, Locked(part, x, q));
      OneAlike(n, Locked(part, x, q));
    }
  }

  lemma LockedAnywhere(part: string, x: Xml, p: nat, q: nat)
    requires |InlineOf(part, x, p)| == 1 && InlineOf(part, x, p)[0].LockedInline?
    ensures InlineOf(part, x, q) == [Locked(part, x, q)]
  {
    hide Alike, Held, Under, RunText, Caption, PlainRun, Same;
    Reimport.Moved(part, x, p, q);
    AlikeLocked(InlineOf(part, x, p)[0], InlineOf(part, x, q)[0]);
  }

  lemma AlikeLocked(n: Node, m: Node)
    requires Alike(n, m)
    ensures n.LockedInline? ==> m.LockedInline?
  {
  }

  lemma RecolorRenders(recolor: Recolor, part: string, original: Node, n: Node, x: Xml, p: nat)
    requires original.LockedInline? && n.LockedInline? && n.caption == original.caption && !x.tag.PPr?
    requires Harmless(recolor) && recolor(x, n.shapes).Some?
    requires InlineOf(part, x, p) == [original] && InlineOf(part, x, p) == [Locked(part, x, p)]
    ensures Renders(part, n, recolor(x, n.shapes).value) && Natives(recolor(x, n.shapes).value) == Natives(x)
  {
    hide InlineOf, Caption, Renders, Natives;
    LockedRenders(part, original, n, recolor(x, n.shapes).value, p);
  }

  /** A changed block keeps what a paragraph or container keeps. */
  lemma KeepsChanged(elements: map<Id, Xml>, known: map<Id, Node>, n: Node, x: Xml)
    requires IdOf(n).Some? && IdOf(n).value in known && known[IdOf(n).value] != n
    requires n.Paragraph? || IsGrid(n)
    requires n.Paragraph? ==> KeepsParagraph(elements, known, n, x)
    requires IsGrid(n) ==>
      && n.id in elements && Shaped(x, elements[n.id]) && LaidOut(elements[n.id].children, x.children)
      && KeepsBlocks(elements, known, n.content, Beside(x.children, CONTAINER))
    ensures KeepsBlock(elements, known, n, x)
  {
    hide KeepsParagraph, KeepsBlocks, LaidOut, Beside;
  }

  lemma KeepsUnchanged(elements: map<Id, Xml>, known: map<Id, Node>, n: Node)
    requires IdOf(n).Some? && IdOf(n).value in known && known[IdOf(n).value] == n && IdOf(n).value in elements
    ensures KeepsBlock(elements, known, n, elements[IdOf(n).value])
  {
  }

  /** The source has no paragraph made in the editor. */
  lemma KeepsSplit(elements: map<Id, Xml>, known: map<Id, Node>, marks: map<Id, Source>, n: Node, x: Xml)
    requires Filed(elements, known, marks) && n.Paragraph? && n.id.Split? && KeepsParagraph(elements, known, n, x)
    ensures KeepsBlock(elements, known, n, x)
  {
    hide KeepsParagraph, KeepsBlocks, LaidOut, Beside, From, Told, RunStyle;
  }

  lemma RenderedBlockTags(part: string, ns: seq<Node>, xs: seq<Xml>)
    requires RendersBlocks(part, ns, xs)
    ensures forall x | x in xs :: !IsProperties(x.tag)
  {
    hide AlikeAll, BlockOf;
    forall x | x in xs ensures !IsProperties(x.tag) {
      var i :| 0 <= i < |xs| && xs[i] == x;
      assert RendersBlock(part, ns[i], xs[i]);
    }
  }

  lemma KeepsOne(elements: map<Id, Xml>, known: map<Id, Node>, n: Node, x: Xml)
    ensures n.Text? && KeepsRun(elements, n, x) ==> KeepsInline(elements, known, n, x)
    ensures n.Field? && KeepsField(elements, known, n, x) ==> KeepsInline(elements, known, n, x)
    ensures n.LockedInline? && KeepsLocked(elements, n, x) ==> KeepsInline(elements, known, n, x)
    ensures n.Checkbox? && KeepsBox(elements, known, n, x) ==> KeepsInline(elements, known, n, x)
  {
    hide KeepsRun, KeepsField, KeepsBox, KeepsLocked;
  }

  lemma SeveralLines(ns: seq<Node>)
    ensures NeedsLines(ns) <==> Several(ns)
  {
  }

  lemma BoxTag(x: Xml)
    requires Box(x)
    ensures x.tag.Sdt?
  {
  }

  lemma ShellIsControl(x: Xml, key: Key, alias: string)
    requires Shell(x, key, alias)
    ensures IsControl(x)
  {
  }

  /** A control with text uses one identity and locks nothing. */
  lemma FieldUses(n: Node)
    requires n.Field? && AllText(n.content)
    ensures IdsOf(n) == [n.id] && LockedOf(n) == [] && Count(n) == 1 + CountAll(n.content)
  {
    hide IdsAll, LockedAll, CountAll;
    TextIds(n.content);
    TextUnlocked(n.content);
  }

  lemma TextUses(ns: seq<Node>, a: set<Id>, b: set<Id>, c: set<Id>, d: set<Id>)
    requires AllText(ns) && Tracked(a, b, IdsAll(ns)) && Listed(c, d, LockedAll(ns))
    ensures a == b && c == d
  {
    TextIds(ns);
    TextUnlocked(ns);
  }

  lemma KnownText(part: string, x: Xml, n: Node)
    requires n.Field? && exists p: nat :: InlineOf(part, x, p) == [n]
    ensures AllText(n.content)
  {
    hide InlineOf, Shell, Held;
    var p: nat :| InlineOf(part, x, p) == [n];
    ImportedShell(part, n, x, p);
  }

  lemma UnchangedHeld(part: string, original: Node, x: Xml, y: Xml, p: nat)
    requires original.Field? && InlineOf(part, x, p) == [original] && ContentOf(y) == ContentOf(x)
    ensures forall q: nat :: AlikeAll(original.content, Held(part, y, q))
  {
    hide AlikeAll, Held, InlineOf, ContentOf, Shell;
    ImportedShell(part, original, x, p);
    forall q: nat ensures AlikeAll(original.content, Held(part, y, q)) { SameHeld(part, x, y, p, q); }
  }

  lemma StartUses(ns: seq<Node>, a: set<Id>, b: set<Id>)
    ensures Tracked(a, a, IdsAll(ns[..0])) && Listed(b, b, LockedAll(ns[..0])) && CountAll(ns[..0]) == 0
  {
  }

  lemma TextNodeUses(n: Node, a: set<Id>, b: set<Id>)
    requires n.Text?
    ensures Tracked(a, a, IdsOf(n)) && Listed(b, b, LockedOf(n))
  {
  }

  lemma LockedUses(n: Node, b: set<Id>)
    requires n.LockedInline?
    ensures IdsOf(n) == [n.id] && Listed(b, b + {n.id}, LockedOf(n))
  {
  }

  lemma BoxUses(n: Node, b: set<Id>)
    requires n.Checkbox?
    ensures IdsOf(n) == [n.id] && Listed(b, b, LockedOf(n))
  {
  }

  lemma CountLimit(ns: seq<Node>, i: nat)
    requires i < |ns|
    ensures CountAll(ns[..i]) + Count(ns[i]) <= CountAll(ns)
  {
    hide Count;
    OneMore(ns, i);
  }

  lemma ListedOn(a: set<Id>, b: set<Id>, c: set<Id>, x: seq<Id>, y: seq<Id>)
    requires Listed(a, b, x) && Listed(b, c, y)
    ensures Listed(a, c, x + y)
  {
  }

  lemma RendersNext(part: string, ns: seq<Node>, i: nat, xs: seq<Xml>, x: Xml)
    requires i < |ns| && RendersAll(part, ns[..i], xs) && Renders(part, ns[i], x)
    ensures RendersAll(part, ns[..i + 1], xs + [x])
  {
    hide Renders;
  }
}
