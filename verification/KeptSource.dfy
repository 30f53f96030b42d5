/** What an export leaves alone: whatever the editor does not show stays in the element it was imported from. */
module KeptSource {
  import opened Common
  import opened DocumentModel
  import opened Correspondence
  import opened Ooxml
  import opened XmlEdits
  import opened RunExport
  import opened ControlExport
  import opened BlockExport
  import opened GlyphExport

  /** Properties of tables, rows, cells and sections. */
  const CONTAINER: set<Tag> := {SectPr, TblPr, TblGrid, TrPr, TcPr}

  /** Elements that differ at most in what is inside them. */
  predicate Shaped(x: Xml, e: Xml) {
    x.tag == e.tag && x.attrs == e.attrs && x.text == e.text
  }

  /** The children with one of the tags. */
  function Among(xs: seq<Xml>, tags: set<Tag>): seq<Xml> {
    if xs == [] then [] else (if xs[0].tag in tags then [xs[0]] else []) + Among(xs[1..], tags)
  }

  /** The children with none of the tags. */
  function Beside(xs: seq<Xml>, tags: set<Tag>): seq<Xml> {
    if xs == [] then [] else (if xs[0].tag in tags then [] else [xs[0]]) + Beside(xs[1..], tags)
  }

  // ----- runs

  function ChosenTags(format: Format): set<Tag> {
    (if format.bold.Some? then {B} else {}) + (if format.italic.Some? then {I} else {})
      + if format.underline.Some? then {U} else {}
  }

  /** The first properties carry the formatting chosen in the editor; everything else in them stays. */
  ghost predicate Reformatted(before: seq<Xml>, after: seq<Xml>, format: Format) {
    var first := if before == [] then Element(RPr, map[], [], []) else before[0];
    && after != [] && Shaped(after[0], first) && after[1..] == (if before == [] then [] else before[1..])
    && Beside(after[0].children, ChosenTags(format)) == Beside(first.children, ChosenTags(format))
  }

  /** A run with all properties its source has, and behind them nothing but the characters of its text. */
  ghost predicate KeepsRun(elements: map<Id, Xml>, n: Node, x: Xml)
    requires n.Text?
  {
    var e := if n.source.Some? && n.source.value.id in elements then elements[n.source.value.id]
             else Element(R, map[], [], []);
    var before, after := Among(e.children, {RPr}), Among(x.children, {RPr});
    && (n.source.Some? ==> n.source.value.id in elements) && Shaped(x, e)
    && x.children == after + Beside(x.children, {RPr}) && Characters(Beside(x.children, {RPr}))
    && if n.format.None? then after == before else Reformatted(before, after, n.format.value)
  }

  ghost predicate KeepsRuns(elements: map<Id, Xml>, ns: seq<Node>, xs: seq<Xml>) {
    |ns| == |xs| && forall i | 0 <= i < |ns| :: ns[i].Text? && KeepsRun(elements, ns[i], xs[i])
  }

  // ----- controls

  /** The children of a control without those of the tags, which are left out of its properties as well. */
  function Beyond(xs: seq<Xml>, tags: set<Tag>): seq<Xml> {
    if xs == [] then []
    else if xs[0].tag in tags then Beyond(xs[1..], tags)
    else [if xs[0].tag.SdtPr? then xs[0].(children := Beside(xs[0].children, tags)) else xs[0]] + Beyond(xs[1..], tags)
  }

  /** Nothing in the control has changed but what the tags name. */
  ghost predicate Steady(x: Xml, e: Xml, tags: set<Tag>) {
    Shaped(x, e) && Beyond(x.children, tags) == Beyond(e.children, tags)
  }

  /** A property has got a value, and keeps its other attributes. */
  ghost predicate ValueSet(e: Xml, x: Xml, tag: Tag, value: string) {
    && First(e.children, SdtPr).Some? && First(x.children, SdtPr).Some?
    && var prior := First(First(e.children, SdtPr).value.children, tag);
       var was := if prior.Some? then prior.value else Element(tag, map[], [], []);
       First(First(x.children, SdtPr).value.children, tag) == Some(was.(attrs := was.attrs[Val := value]))
  }

  /** A control under a new key or label; nothing else in it has changed. */
  ghost predicate Renamed(e: Xml, x: Xml, original: Node, n: Node)
    requires original.Field? && n.Field?
  {
    var tags := (if n.key != original.key then {TagName} else {}) + if n.alias != original.alias then {Alias} else {};
    && Steady(x, e, tags)
    && (n.key != original.key ==> n.key.Tagged? && ValueSet(e, x, TagName, n.key.value))
    && (n.alias != original.alias ==> ValueSet(e, x, Alias, n.alias))
    && (n.key == original.key && n.alias == original.alias ==> x == e)
  }

  /** How many flags say that a control shows its placeholder. */
  function Placeholders(xs: seq<Xml>): nat {
    if xs == [] then 0
    else (if xs[0].tag.SdtPr? then |Among(xs[0].children, {ShowingPlaceholder})| else 0) + Placeholders(xs[1..])
  }

  predicate Several(ns: seq<Node>) {
    exists n :: n in ns && n.Text? && ('\n' in n.text || '\t' in n.text)
  }

  /** A control with its content written anew: it says that there are several lines if there are, one placeholder flag
      is gone, and nothing else in it has changed. */
  ghost predicate Rewrites(elements: map<Id, Xml>, e: Xml, x: Xml, ns: seq<Node>) {
    var tags := {SdtContent, PlainText, ShowingPlaceholder};
    var text := Under(e.children, SdtPr, PlainText);
    var holder := if Holder(e).Some? then Holder(e).value else Element(SdtContent, map[], [], []);
    && Steady(x, e, tags) && Holder(x).Some? && Shaped(Holder(x).value, holder)
    && ContentOf(x) == Among(holder.children, {PPr}) + Beside(ContentOf(x), {PPr})
    && KeepsRuns(elements, ns, Beside(ContentOf(x), {PPr}))
    && Placeholders(x.children) == (if Placeholders(e.children) == 0 then 0 else Placeholders(e.children) - 1)
    && text.Some?
    && Under(x.children, SdtPr, PlainText) ==
         Some(if Several(ns) then text.value.(attrs := text.value.attrs[MultiLine := "1"]) else text.value)
  }

  function Valued(tag: Tag, value: string): Xml {
    Element(tag, map[Val := value], [], [])
  }

  /** A control made in the editor has the four properties it needs, and no others. */
  ghost predicate MadeFor(n: Node, x: Xml, native: string)
    requires n.Field?
  {
    && n.key.Tagged?
    && var several := Element(PlainText, map[MultiLine := "1"], [], []);
       var properties := [Valued(NativeId, native), Valued(TagName, n.key.value), Valued(Alias, n.alias), several];
       x == Element(Sdt, map[], [], [Element(SdtPr, map[], [], properties)])
  }

  /** A control whose content is written anew exactly if it changed. */
  ghost predicate KeepsField(elements: map<Id, Xml>, known: map<Id, Node>, n: Node, x: Xml)
    requires n.Field?
  {
    if n.id !in known then exists bare, native :: MadeFor(n, bare, native) && Rewrites(elements, bare, x, n.content)
    else
      && known[n.id].Field? && n.id in elements
      && if n.content == known[n.id].content then Renamed(elements[n.id], x, known[n.id], n)
         else exists renamed :: Renamed(elements[n.id], renamed, known[n.id], n)
                && Rewrites(elements, renamed, x, n.content)
  }

  ghost predicate KeepsBox(elements: map<Id, Xml>, known: map<Id, Node>, n: Node, x: Xml)
    requires n.Checkbox?
  {
    && n.id in known && known[n.id].Checkbox? && n.id in elements
    && if n.checked == known[n.id].checked then x == elements[n.id]
       else Follows(elements[n.id], x, n.checked) && Shaped(x, elements[n.id])
  }

  /** A locked run without new fills stays as it is. */
  ghost predicate KeepsLocked(elements: map<Id, Xml>, n: Node, x: Xml)
    requires n.LockedInline?
  {
    n.id in elements && (n.shapes == map[] ==> x == elements[n.id])
  }

  ghost predicate KeepsInline(elements: map<Id, Xml>, known: map<Id, Node>, n: Node, x: Xml) {
    match n
    case Text(_, _, _) => KeepsRun(elements, n, x)
    case Field(_, _, _, _) => KeepsField(elements, known, n, x)
    case LockedInline(_, _, _) => KeepsLocked(elements, n, x)
    case Checkbox(_, _) => KeepsBox(elements, known, n, x)
    case _ => false
  }

  ghost predicate KeepsInlines(elements: map<Id, Xml>, known: map<Id, Node>, ns: seq<Node>, xs: seq<Xml>) {
    |ns| == |xs| && forall i | 0 <= i < |ns| :: KeepsInline(elements, known, ns[i], xs[i])
  }

  // ----- blocks

  /** The same properties without section boundary. */
  ghost predicate NoBoundary(before: seq<Xml>, after: seq<Xml>) {
    && |after| == |before|
    && forall i | 0 <= i < |before| ::
         Shaped(after[i], before[i]) && after[i].children == Beside(before[i].children, {SectPr})
  }

  /** A paragraph split off another one: as that one, but for its identifiers and a section boundary. */
  ghost predicate SplitFrom(e: Xml, x: Xml) {
    && x.tag == e.tag && x.text == e.text && TextId !in x.attrs && x.attrs - {ParaId} == e.attrs - {ParaId, TextId}
    && NoBoundary(Among(e.children, {PPr}), Among(x.children, {PPr})) && Under(x.children, PPr, SectPr).None?
  }

  /** All properties of the source paragraph, and behind them the inlines. */
  ghost predicate KeepsParagraph(elements: map<Id, Xml>, known: map<Id, Node>, n: Node, x: Xml)
    requires n.Paragraph?
  {
    && (if n.id.Split? then n.id.source in elements && SplitFrom(elements[n.id.source], x)
        else
          && n.id in elements && Shaped(x, elements[n.id])
          && Among(x.children, {PPr}) == Among(elements[n.id].children, {PPr}))
    && x.children == Among(x.children, {PPr}) + Beside(x.children, {PPr})
    && KeepsInlines(elements, known, n.content, Beside(x.children, {PPr}))
  }

  /** The properties of a container around its blocks, which stand before the first section boundary or last. */
  ghost predicate Around(xs: seq<Xml>, properties: seq<Xml>, blocks: seq<Xml>, k: int) {
    && 0 <= k <= |properties| && xs == properties[..k] + blocks + properties[k..]
    && (forall i | 0 <= i < k :: !properties[i].tag.SectPr?) && (k < |properties| ==> properties[k].tag.SectPr?)
  }

  ghost predicate LaidOut(before: seq<Xml>, after: seq<Xml>) {
    exists k :: Around(after, Among(before, CONTAINER), Beside(after, CONTAINER), k)
  }

  /** An unchanged block is the source's; in a changed one everything stays but the inlines of its paragraphs. */
  ghost predicate KeepsBlock(elements: map<Id, Xml>, known: map<Id, Node>, n: Node, x: Xml)
    decreases n, 1
  {
    && (IdOf(n).Some? && IdOf(n).value in known && known[IdOf(n).value] == n ==>
          IdOf(n).value in elements && x == elements[IdOf(n).value])
    && (n.LockedBlock? ==> n.id in elements && x == elements[n.id])
    && (IdOf(n).Some? && !(IdOf(n).value in known && known[IdOf(n).value] == n) ==>
          && (n.Paragraph? ==> KeepsParagraph(elements, known, n, x))
          && (IsGrid(n) ==>
                && n.id in elements && Shaped(x, elements[n.id]) && LaidOut(elements[n.id].children, x.children)
                && KeepsBlocks(elements, known, n.content, Beside(x.children, CONTAINER))))
  }

  ghost predicate KeepsBlocks(elements: map<Id, Xml>, known: map<Id, Node>, ns: seq<Node>, xs: seq<Xml>)
    decreases ns, 0
  {
    |ns| == |xs| && forall i | 0 <= i < |ns| :: KeepsBlock(elements, known, ns[i], xs[i])
  }

  // ----- parts

  /** The first body replaced, everything else as it was. */
  ghost predicate OneReplaced(before: seq<Xml>, after: seq<Xml>, i: int) {
    && 0 <= i < |before| && before[i].tag.Body? && (forall k | 0 <= k < i :: !before[k].tag.Body?)
    && |after| == |before| && forall k | 0 <= k < |before| && k != i :: after[k] == before[k]
  }

  /** A part keeps everything around its blocks, and its blocks what they keep. */
  ghost predicate KeepsPart(elements: map<Id, Xml>, known: map<Id, Node>, section: Node, part: Part, written: Part)
    requires section.Section? && Parent(part).Some?
  {
    && written.name == part.name && Parent(written).Some?
    && (var before, after := Parent(part).value, Parent(written).value;
        && Shaped(after, before) && LaidOut(before.children, after.children)
        && KeepsBlocks(elements, known, section.content, Beside(after.children, CONTAINER)))
    && Shaped(written.root, part.root)
    && (part.name == MAIN ==> exists i :: OneReplaced(part.root.children, written.root.children, i))
  }

  lemma {:induction false} PutReplaces(xs: seq<Xml>, y: Xml) returns (i: nat)
    requires y.tag.Body? && First(xs, Body).Some?
    ensures OneReplaced(xs, Put(xs, y), i)
  {
    if xs[0].tag.Body? {
      i := 0;
    } else {
      i := PutReplaces(xs[1..], y);
      i := i + 1;
    }
  }

  // ----- lists with and without some tags

  lemma {:induction false} AmongConcat(a: seq<Xml>, b: seq<Xml>, tags: set<Tag>)
    ensures Among(a + b, tags) == Among(a, tags) + Among(b, tags)
  {
    if a == [] {
      assert a + b == b;
    } else {
      AmongConcat(a[1..], b, tags);
      assert (a + b)[1..] == a[1..] + b;
      Associate(if a[0].tag in tags then [a[0]] else [], Among(a[1..], tags), Among(b, tags));
    }
  }

  lemma {:induction false} BesideConcat(a: seq<Xml>, b: seq<Xml>, tags: set<Tag>)
    ensures Beside(a + b, tags) == Beside(a, tags) + Beside(b, tags)
  {
    if a == [] {
      assert a + b == b;
    } else {
      BesideConcat(a[1..], b, tags);
      assert (a + b)[1..] == a[1..] + b;
      Associate(if a[0].tag in tags then [] else [a[0]], Beside(a[1..], tags), Beside(b, tags));
    }
  }

  lemma {:induction false} AllAmong(xs: seq<Xml>, tags: set<Tag>)
    ensures (forall x | x in xs :: x.tag in tags) ==> Among(xs, tags) == xs && Beside(xs, tags) == []
    ensures (forall x | x in xs :: x.tag !in tags) ==> Among(xs, tags) == [] && Beside(xs, tags) == xs
  {
    if xs != [] {
      assert xs == [xs[0]] + xs[1..];
      AllAmong(xs[1..], tags);
    }
  }

  /** Properties in front of everything else. */
  lemma KeptFirst(kept: seq<Xml>, xs: seq<Xml>, tags: set<Tag>)
    requires (forall x | x in kept :: x.tag in tags) && forall x | x in xs :: x.tag !in tags
    ensures Among(kept + xs, tags) == kept && Beside(kept + xs, tags) == xs
  {
    AmongConcat(kept, xs, tags);
    BesideConcat(kept, xs, tags);
    AllAmong(kept, tags);
    AllAmong(xs, tags);
    assert kept + [] == kept && [] + xs == xs;
  }

  lemma {:induction false} OnlyAmong(xs: seq<Xml>, tag: Tag)
    ensures Among(xs, {tag}) == Only(xs, tag)
  {
    if xs != [] {
      OnlyAmong(xs[1..], tag);
    }
  }

  lemma {:induction false} WithoutBeside(xs: seq<Xml>, tag: Tag, tags: set<Tag>)
    ensures tag in tags ==> Beside(Without(xs, tag), tags) == Beside(xs, tags)
    ensures Without(xs, tag) == Beside(xs, {tag})
  {
    if xs != [] {
      WithoutBeside(xs[1..], tag, tags);
    }
  }

  lemma {:induction false} PutBeside(xs: seq<Xml>, y: Xml, tags: set<Tag>)
    requires y.tag in tags
    ensures Beside(Put(xs, y), tags) == Beside(xs, tags)
  {
    if xs == [] {
      assert [y][1..] == [];
    } else if xs[0].tag == y.tag {
      assert ([y] + xs[1..])[1..] == xs[1..];
    } else {
      PutBeside(xs[1..], y, tags);
    }
  }

  lemma {:induction false} DropBeside(xs: seq<Xml>, tag: Tag, tags: set<Tag>)
    requires tag in tags
    ensures Beside(DropFirst(xs, tag), tags) == Beside(xs, tags)
  {
    if xs != [] && xs[0].tag != tag {
      DropBeside(xs[1..], tag, tags);
    }
  }

  // ----- controls

  lemma BeyondFront(x: Xml, rest: seq<Xml>, tags: set<Tag>)
    ensures Beyond([x] + rest, tags) ==
      (if x.tag in tags then [] else [if x.tag.SdtPr? then x.(children := Beside(x.children, tags)) else x])
        + Beyond(rest, tags)
  {
    hide Beside;
    assert ([x] + rest)[1..] == rest;
  }

  /** Replacing an element that does not count, or properties by ones that agree in what counts, changes nothing. */
  lemma {:induction false} PutBeyond(xs: seq<Xml>, y: Xml, tags: set<Tag>)
    requires y.tag in tags
      || (y.tag.SdtPr? && First(xs, SdtPr).Some? && Shaped(y, First(xs, SdtPr).value)
          && Beside(y.children, tags) == Beside(First(xs, SdtPr).value.children, tags))
    ensures Beyond(Put(xs, y), tags) == Beyond(xs, tags)
  {
    hide Beside;
    if xs == [] {
      BeyondFront(y, [], tags);
      assert [y] + [] == [y];
    } else {
      assert xs == [xs[0]] + xs[1..];
      BeyondFront(xs[0], xs[1..], tags);
      if xs[0].tag == y.tag {
        BeyondFront(y, xs[1..], tags);
      } else {
        PutBeyond(xs[1..], y, tags);
        BeyondFront(xs[0], Put(xs[1..], y), tags);
      }
    }
  }

  lemma {:induction false} PutUnderBeyond(xs: seq<Xml>, y: Xml, tags: set<Tag>)
    requires y.tag in tags
    ensures Beyond(PutUnder(xs, SdtPr, y), tags) == Beyond(xs, tags)
  {
    hide Beside, First, Put;
    if xs != [] {
      var x, rest := xs[0], xs[1..];
      assert xs == [x] + rest;
      BeyondFront(x, rest, tags);
      if x.tag.SdtPr? && First(x.children, y.tag).Some? {
        PutBeside(x.children, y, tags);
        BeyondFront(x.(children := Put(x.children, y)), rest, tags);
      } else {
        PutUnderBeyond(rest, y, tags);
        BeyondFront(x, PutUnder(rest, SdtPr, y), tags);
      }
    }
  }

  lemma {:induction false} DropUnderBeyond(xs: seq<Xml>, tag: Tag, tags: set<Tag>)
    requires tag in tags
    ensures Beyond(DropUnder(xs, SdtPr, tag), tags) == Beyond(xs, tags)
  {
    hide Beside, First, DropFirst;
    if xs != [] {
      var x, rest := xs[0], xs[1..];
      assert xs == [x] + rest;
      BeyondFront(x, rest, tags);
      if x.tag.SdtPr? && First(x.children, tag).Some? {
        DropBeside(x.children, tag, tags);
        BeyondFront(x.(children := DropFirst(x.children, tag)), rest, tags);
      } else {
        DropUnderBeyond(rest, tag, tags);
        BeyondFront(x, DropUnder(rest, SdtPr, tag), tags);
      }
    }
  }

  lemma ReviewedKeeps(x: Xml, tag: Tag, value: string, tags: set<Tag>)
    requires First(x.children, SdtPr).Some? && tag in tags && !tag.SdtPr?
    ensures var y := Reviewed(x, tag, value);
      Shaped(y, x) && Beyond(y.children, tags) == Beyond(x.children, tags) && ValueSet(x, y, tag, value)
  {
    hide First, Put, Beside, Beyond;
    var before := First(x.children, SdtPr).value;
    var prior := First(before.children, tag);
    var element := if prior.Some? then prior.value else Element(tag, map[], [], []);
    PutBeside(before.children, element.(attrs := element.attrs[Val := value]), tags);
    PutBeyond(x.children, WithProperty(before, tag, value), tags);
    PutFirst(x.children, WithProperty(before, tag, value), SdtPr);
    PutFirst(before.children, element.(attrs := element.attrs[Val := value]), tag);
  }

  /** Setting one property leaves the value set for another. */
  lemma ValueStays(e: Xml, x: Xml, tag: Tag, value: string, other: Tag, more: string)
    requires ValueSet(e, x, tag, value) && other != tag
    ensures ValueSet(e, Reviewed(x, other, more), tag, value)
  {
    hide First, Put;
    var before := First(x.children, SdtPr).value;
    SetOther(before, other, more, tag);
    PutFirst(x.children, WithProperty(before, other, more), SdtPr);
  }

  /** A value is set the same way whether or not another property was set before. */
  lemma ValueSets(e: Xml, x: Xml, tag: Tag, value: string, other: Tag, more: string)
    requires First(e.children, SdtPr).Some? && x == Reviewed(e, other, more) && other != tag
    ensures First(x.children, SdtPr).Some? && ValueSet(e, Reviewed(x, tag, value), tag, value)
  {
    hide First, Put;
    var before := First(e.children, SdtPr).value;
    SetOther(before, other, more, tag);
    PutFirst(e.children, WithProperty(before, other, more), SdtPr);
    var middle := First(x.children, SdtPr).value;
    var prior := First(middle.children, tag);
    var element := if prior.Some? then prior.value else Element(tag, map[], [], []);
    PutFirst(x.children, WithProperty(middle, tag, value), SdtPr);
    PutFirst(middle.children, element.(attrs := element.attrs[Val := value]), tag);
  }

  /** A new key first, then a new label. */
  lemma RenamedControl(e: Xml, y: Xml, x: Xml, original: Node, n: Node)
    requires original.Field? && n.Field? && First(e.children, SdtPr).Some?
    requires if n.key == original.key then y == e else n.key.Tagged? && y == Reviewed(e, TagName, n.key.value)
    requires First(y.children, SdtPr).Some? && x == if n.alias == original.alias then y else Reviewed(y, Alias, n.alias)
    ensures Renamed(e, x, original, n)
  {
    hide First, Beyond, Reviewed, ValueSet;
    var tags := (if n.key != original.key then {TagName} else {}) + if n.alias != original.alias then {Alias} else {};
    if n.key != original.key {
      ReviewedKeeps(e, TagName, n.key.value, tags);
    }
    if n.alias != original.alias {
      ReviewedKeeps(y, Alias, n.alias, tags);
      if n.key != original.key {
        ValueStays(e, y, TagName, n.key.value, Alias, n.alias);
        ValueSets(e, y, Alias, n.alias, TagName, n.key.value);
      }
    }
  }

  // ----- placeholders

  lemma PlaceholdersFront(x: Xml, rest: seq<Xml>)
    ensures Placeholders([x] + rest) ==
      (if x.tag.SdtPr? then |Among(x.children, {ShowingPlaceholder})| else 0) + Placeholders(rest)
  {
    hide Among;
    assert ([x] + rest)[1..] == rest;
  }

  lemma {:induction false} PutPlaceholders(xs: seq<Xml>, y: Xml)
    requires !y.tag.SdtPr?
    ensures Placeholders(Put(xs, y)) == Placeholders(xs)
  {
    hide Among;
    if xs == [] {
      PlaceholdersFront(y, []);
      assert [y] + [] == [y];
    } else {
      assert xs == [xs[0]] + xs[1..];
      PlaceholdersFront(xs[0], xs[1..]);
      if xs[0].tag == y.tag {
        PlaceholdersFront(y, xs[1..]);
      } else {
        PutPlaceholders(xs[1..], y);
        PlaceholdersFront(xs[0], Put(xs[1..], y));
      }
    }
  }

  lemma {:induction false} PutUnderPlaceholders(xs: seq<Xml>, y: Xml)
    requires !y.tag.ShowingPlaceholder?
    ensures Placeholders(PutUnder(xs, SdtPr, y)) == Placeholders(xs)
  {
    hide First, Put, Among;
    if xs != [] {
      var x, rest := xs[0], xs[1..];
      assert xs == [x] + rest;
      PlaceholdersFront(x, rest);
      if x.tag.SdtPr? && First(x.children, y.tag).Some? {
        OnlyAmong(x.children, ShowingPlaceholder);
        OnlyAmong(Put(x.children, y), ShowingPlaceholder);
        PutOnly(x.children, y, ShowingPlaceholder);
        PlaceholdersFront(x.(children := Put(x.children, y)), rest);
      } else {
        PutUnderPlaceholders(rest, y);
        PlaceholdersFront(x, PutUnder(rest, SdtPr, y));
      }
    }
  }

  lemma {:induction false} DropAmong(xs: seq<Xml>, tag: Tag)
    ensures First(xs, tag).None? ==> |Among(xs, {tag})| == 0
    ensures First(xs, tag).Some? ==> |Among(DropFirst(xs, tag), {tag})| == |Among(xs, {tag})| - 1
  {
    if xs != [] && xs[0].tag != tag {
      DropAmong(xs[1..], tag);
      assert ([xs[0]] + DropFirst(xs[1..], tag))[1..] == DropFirst(xs[1..], tag);
    }
  }

  lemma {:induction false} DropPlaceholder(xs: seq<Xml>)
    ensures Placeholders(DropUnder(xs, SdtPr, ShowingPlaceholder)) ==
      if Placeholders(xs) == 0 then 0 else Placeholders(xs) - 1
  {
    hide First, DropFirst, Among;
    if xs != [] {
      var x, rest := xs[0], xs[1..];
      assert xs == [x] + rest;
      PlaceholdersFront(x, rest);
      DropAmong(x.children, ShowingPlaceholder);
      if x.tag.SdtPr? && First(x.children, ShowingPlaceholder).Some? {
        PlaceholdersFront(x.(children := DropFirst(x.children, ShowingPlaceholder)), rest);
      } else {
        DropPlaceholder(rest);
        PlaceholdersFront(x, DropUnder(rest, SdtPr, ShowingPlaceholder));
      }
    }
  }

  // ----- writing a control anew

  lemma SteadyOn(x: Xml, y: Xml, e: Xml, tags: set<Tag>)
    requires Steady(y, e, tags) && Steady(x, y, tags)
    ensures Steady(x, e, tags)
  {
    hide Beyond;
  }

  lemma FilledControl(e: Xml, filled: Xml, tags: set<Tag>)
    requires IsControl(e) && filled.tag.SdtContent? && SdtContent in tags
    ensures var y := Filled(e, filled);
      && Steady(y, e, tags) && Holder(y) == Some(filled) && Placeholders(y.children) == Placeholders(e.children)
      && IsControl(y) && Under(y.children, SdtPr, PlainText) == Under(e.children, SdtPr, PlainText)
  {
    hide First, Under, Put, Beyond, Placeholders;
    PutBeyond(e.children, filled, tags);
    PutElsewhere(e.children, filled, SdtPr, PlainText);
    PutFirst(e.children, filled, SdtContent);
    PutPlaceholders(e.children, filled);
  }

  lemma MarkedControl(y: Xml, tags: set<Tag>)
    requires IsControl(y) && PlainText in tags
    ensures var z := Multiline(y); var text := Under(y.children, SdtPr, PlainText).value;
      && Steady(z, y, tags) && Holder(z) == Holder(y) && Placeholders(z.children) == Placeholders(y.children)
      && Under(z.children, SdtPr, PlainText) == Some(text.(attrs := text.attrs[MultiLine := "1"]))
  {
    hide First, Under, PutUnder, Beyond, Placeholders;
    var text := Under(y.children, SdtPr, PlainText).value;
    var marked := text.(attrs := text.attrs[MultiLine := "1"]);
    PutUnderBeyond(y.children, marked, tags);
    PutUnderUnder(y.children, SdtPr, marked, PlainText);
    PutUnderFirst(y.children, SdtPr, marked, SdtContent);
    PutUnderPlaceholders(y.children, marked);
  }

  lemma ClearedControl(z: Xml, tags: set<Tag>)
    requires ShowingPlaceholder in tags
    ensures var x := WithoutPlaceholder(z);
      && Steady(x, z, tags) && Holder(x) == Holder(z)
      && Placeholders(x.children) == (if Placeholders(z.children) == 0 then 0 else Placeholders(z.children) - 1)
      && Under(x.children, SdtPr, PlainText) == Under(z.children, SdtPr, PlainText)
  {
    hide First, Under, DropUnder, Beyond, Placeholders;
    DropUnderBeyond(z.children, ShowingPlaceholder, tags);
    DropUnderOther(z.children, SdtPr, ShowingPlaceholder, PlainText);
    DropUnderFirst(z.children, SdtPr, ShowingPlaceholder, SdtContent);
    DropPlaceholder(z.children);
  }

  /** Filling, marking and clearing the flag, one after the other. */
  lemma RewrittenControl(elements: map<Id, Xml>, e: Xml, filled: Xml, ns: seq<Node>, xs: seq<Xml>)
    requires IsControl(e) && filled.tag.SdtContent?
    requires var holder := if Holder(e).Some? then Holder(e).value else Element(SdtContent, map[], [], []);
      Shaped(filled, holder) && filled.children == Only(holder.children, PPr) + xs
    requires KeepsRuns(elements, ns, xs) && forall x | x in xs :: !x.tag.PPr?
    ensures var y := Filled(e, filled);
      IsControl(y) && Rewrites(elements, e, WithoutPlaceholder(if Several(ns) then Multiline(y) else y), ns)
  {
    hide First, Under, Filled, WithoutPlaceholder, Steady, Among, Beside, Placeholders, KeepsRuns, Several, Only;
    var tags := {SdtContent, PlainText, ShowingPlaceholder};
    var y := Filled(e, filled);
    var holder := if Holder(e).Some? then Holder(e).value else Element(SdtContent, map[], [], []);
    FilledControl(e, filled, tags);
    var z := if Several(ns) then Multiline(y) else y;
    if Several(ns) {
      MarkedControl(y, tags);
      SteadyOn(z, y, e, tags);
    }
    ClearedControl(z, tags);
    SteadyOn(WithoutPlaceholder(z), z, e, tags);
    OnlyAmong(holder.children, PPr);
    KeptFirst(Only(holder.children, PPr), xs, {PPr});
  }

  // ----- runs

  lemma ToggledBeside(properties: seq<Xml>, tag: Tag, selected: Option<bool>, tags: set<Tag>)
    requires selected.Some? ==> tag in tags
    ensures Beside(Toggled(properties, tag, selected), tags) == Beside(properties, tags)
  {
    if selected.Some? {
      WithoutBeside(properties, tag, tags);
      BesideConcat(Without(properties, tag), [Toggle(tag, selected.value)], tags);
      AllAmong([Toggle(tag, selected.value)], tags);
    }
  }

  lemma FormattedKeeps(kept: seq<Xml>, format: Format)
    ensures Reformatted(kept, Formatted(kept, format), format)
  {
    hide Toggled, Beside;
    var tags := ChosenTags(format);
    var first := if kept == [] then Mark(RPr) else kept[0];
    var bold := Toggled(first.children, B, format.bold);
    var italic := Toggled(bold, I, format.italic);
    ToggledBeside(first.children, B, format.bold, tags);
    ToggledBeside(bold, I, format.italic, tags);
    ToggledBeside(italic, U, format.underline, tags);
  }

  /** A run of kept properties and characters. */
  lemma RunKept(elements: map<Id, Xml>, n: Node, x: Xml, kept: seq<Xml>, chars: seq<Xml>)
    requires n.Text? && x.children == kept + chars && Characters(chars) && forall k | k in kept :: k.tag.RPr?
    requires n.source.Some? ==> n.source.value.id in elements
    requires var e := if n.source.Some? then elements[n.source.value.id] else Element(R, map[], [], []);
      Shaped(x, e) && kept == var before := if n.source.Some? then Only(e.children, RPr) else [];
        if n.format.None? then before else Formatted(before, n.format.value)
    ensures KeepsRun(elements, n, x)
  {
    hide Formatted, Only, Among, Beside, Reformatted;
    var e := if n.source.Some? then elements[n.source.value.id] else Element(R, map[], [], []);
    OnlyAmong(e.children, RPr);
    NoneAmong({RPr});
    KeptFirst(kept, chars, {RPr});
    if n.format.Some? {
      FormattedKeeps(Among(e.children, {RPr}), n.format.value);
    }
  }

  lemma NoneAmong(tags: set<Tag>)
    ensures Among([], tags) == [] && Beside([], tags) == []
  {
  }

  // ----- checkboxes

  lemma TickedShape(x: Xml, checked: bool)
    requires Switched(x, checked).Some?
    ensures x.tag.Sdt? ==> Shaped(Switched(x, checked).value, x)
  {
    hide ReglyphAll, Lines, GlyphOf;
  }

  // ----- paragraphs and containers

  lemma {:induction false} UnsectionedAmong(xs: seq<Xml>)
    ensures NoBoundary(Among(xs, {PPr}), Among(Unsectioned(xs), {PPr}))
  {
    hide Without, Beside;
    if xs != [] {
      UnsectionedAmong(xs[1..]);
      var x := if xs[0].tag.PPr? then xs[0].(children := Without(xs[0].children, SectPr)) else xs[0];
      WithoutBeside(xs[0].children, SectPr, {SectPr});
      assert ([x] + Unsectioned(xs[1..]))[1..] == Unsectioned(xs[1..]);
    }
  }

  lemma {:induction false} UnsectionedNone(xs: seq<Xml>)
    ensures Under(Unsectioned(xs), PPr, SectPr).None?
  {
    hide First, Without, Under;
    if xs == [] {
      NoneUnder([], PPr, SectPr);
    } else {
      UnsectionedNone(xs[1..]);
      var x := if xs[0].tag.PPr? then xs[0].(children := Without(xs[0].children, SectPr)) else xs[0];
      WithoutFirst(xs[0].children, SectPr, SectPr);
      UnderFront(x, Unsectioned(xs[1..]), PPr, SectPr);
    }
  }

  lemma SplitKeeps(e: Xml, name: string)
    ensures SplitFrom(e, BlockExport.Split(e, name))
  {
    hide Unsectioned, NoBoundary, Among, Under;
    UnsectionedAmong(e.children);
    UnsectionedNone(e.children);
  }

  /** Other inlines behind the properties leave a split paragraph one. */
  lemma SplitStill(e: Xml, y: Xml, xs: seq<Xml>)
    requires SplitFrom(e, y) && forall x | x in xs :: !x.tag.PPr?
    ensures SplitFrom(e, y.(children := Only(y.children, PPr) + xs))
  {
    hide Among, Beside, Only, Under, NoBoundary;
    OnlyAmong(y.children, PPr);
    KeptFirst(Only(y.children, PPr), xs, {PPr});
    RewrittenUnder(y, xs, SectPr);
  }

  lemma {:induction false} PropertiesAmong(xs: seq<Xml>)
    ensures Among(xs, CONTAINER) == Properties(xs)
  {
    if xs != [] {
      PropertiesAmong(xs[1..]);
    }
  }

  lemma {:induction false} PlacedAround(properties: seq<Xml>, blocks: seq<Xml>) returns (k: nat)
    ensures Around(Placed(properties, blocks), properties, blocks, k)
  {
    if properties == [] || properties[0].tag.SectPr? {
      k := 0;
      assert [] + blocks + properties == blocks + properties;
    } else {
      var m := PlacedAround(properties[1..], blocks);
      k := m + 1;
      var rest := properties[1..];
      assert properties[..k] == [properties[0]] + rest[..m] && properties[k..] == rest[m..];
      assert [properties[0]] + (rest[..m] + blocks + rest[m..]) == properties[..k] + blocks + properties[k..];
    }
  }

  lemma RefilledLaysOut(children: seq<Xml>, blocks: seq<Xml>)
    requires forall x | x in blocks :: !IsProperties(x.tag)
    ensures Beside(Refilled(children, blocks), CONTAINER) == blocks && LaidOut(children, Refilled(children, blocks))
  {
    hide Properties, Placed, Among, Beside, Around;
    var properties := Properties(children);
    PropertiesAmong(children);
    var k := PlacedAround(properties, blocks);
    AroundParts(Placed(properties, blocks), properties, blocks, k);
    ContainerTags(properties[..k]);
    ContainerTags(properties[k..]);
    BlocksBetween(properties[..k], blocks, properties[k..], CONTAINER);
  }

  lemma AroundParts(xs: seq<Xml>, properties: seq<Xml>, blocks: seq<Xml>, k: nat)
    requires Around(xs, properties, blocks, k) && forall x | x in properties :: IsProperties(x.tag)
    ensures k <= |properties| && xs == properties[..k] + blocks + properties[k..]
    ensures forall x | x in properties[..k] :: IsProperties(x.tag)
    ensures forall x | x in properties[k..] :: IsProperties(x.tag)
  {
    assert forall x | x in properties[..k] :: x in properties;
    assert forall x | x in properties[k..] :: x in properties;
  }

  lemma ContainerTags(xs: seq<Xml>)
    ensures (forall x | x in xs :: IsProperties(x.tag)) ==> forall x | x in xs :: x.tag in CONTAINER
  {
  }

  lemma BlocksBetween(before: seq<Xml>, blocks: seq<Xml>, after: seq<Xml>, tags: set<Tag>)
    requires (forall x | x in before :: x.tag in tags) && forall x | x in after :: x.tag in tags
    requires forall x | x in blocks :: x.tag !in tags
    ensures Beside(before + blocks + after, tags) == blocks
  {
    hide Beside, Among;
    BesideConcat(before + blocks, after, tags);
    BesideConcat(before, blocks, tags);
    AllAmong(before, tags);
    AllAmong(after, tags);
    AllAmong(blocks, tags);
    assert [] + blocks + [] == blocks;
  }

  // ----- lists

  lemma KeepsNext(elements: map<Id, Xml>, known: map<Id, Node>, ns: seq<Node>, i: nat, xs: seq<Xml>, x: Xml)
    requires i < |ns|
    ensures KeepsInlines(elements, known, ns[..i], xs) && KeepsInline(elements, known, ns[i], x) ==>
      KeepsInlines(elements, known, ns[..i + 1], xs + [x])
    ensures KeepsBlocks(elements, known, ns[..i], xs) && KeepsBlock(elements, known, ns[i], x) ==>
      KeepsBlocks(elements, known, ns[..i + 1], xs + [x])
  {
    hide KeepsInline, KeepsBlock;
  }

  lemma KeepsNone(elements: map<Id, Xml>, known: map<Id, Node>, ns: seq<Node>)
    ensures KeepsInlines(elements, known, ns[..0], []) && KeepsBlocks(elements, known, ns[..0], [])
  {
  }

  /** Inlines that are all text are runs. */
  lemma KeepsText(elements: map<Id, Xml>, known: map<Id, Node>, ns: seq<Node>, xs: seq<Xml>)
    requires KeepsInlines(elements, known, ns, xs) && AllText(ns)
    ensures KeepsRuns(elements, ns, xs)
  {
    hide KeepsRun;
    forall i | 0 <= i < |ns| ensures ns[i].Text? && KeepsRun(elements, ns[i], xs[i]) {
      assert ns[i] in ns && KeepsInline(elements, known, ns[i], xs[i]);
    }
  }

  /** A paragraph of the source with other inlines behind its properties. */
  lemma ParagraphKept(elements: map<Id, Xml>, known: map<Id, Node>, n: Node, y: Xml, xs: seq<Xml>)
    requires n.Paragraph? && KeepsInlines(elements, known, n.content, xs) && forall x | x in xs :: !x.tag.PPr?
    requires if n.id.Split? then n.id.source in elements && SplitFrom(elements[n.id.source], y)
             else n.id in elements && y == elements[n.id]
    ensures KeepsParagraph(elements, known, n, y.(children := Only(y.children, PPr) + xs))
  {
    hide KeepsInlines, Only, Among, Beside, SplitFrom;
    OnlyAmong(y.children, PPr);
    KeptFirst(Only(y.children, PPr), xs, {PPr});
    if n.id.Split? {
      SplitStill(elements[n.id.source], y, xs);
    }
  }
}
