/** Editing a control in place: what each edit of its element leaves as it was. */
module ControlExport {
  import opened Common
  import opened DocumentModel
  import opened Ooxml
  import opened Reimport
  import opened XmlEdits

  /** A text control with the key and alias, whatever its content. */
  ghost predicate Shell(x: Xml, key: Key, alias: string) {
    IsControl(x) && !Restricted(x) && KeyOf(x) == key && ValueIn(Under(x.children, SdtPr, Alias)) == alias
  }

  /** The tags below the properties on which importing a text control depends. */
  predicate Matters(tag: Tag) {
    tag.PlainText? || tag.DataBinding? || tag.Lock? || tag.Temporary? || tag.TagName? || tag.Alias?
  }

  /** Everything a control's import depends on, its content aside, is found as before. */
  lemma SameShell(x: Xml, y: Xml, key: Key, alias: string)
    requires x.tag == y.tag && Shell(x, key, alias)
    requires forall t: Tag | Matters(t) :: Under(y.children, SdtPr, t).Some? <==> Under(x.children, SdtPr, t).Some?
    requires forall t: Tag | t.TagName? || t.Alias? :: Under(y.children, SdtPr, t) == Under(x.children, SdtPr, t)
    ensures Shell(y, key, alias)
  {
  }

  /** An element that imports as a control has a shell. */
  lemma ImportedShell(part: string, n: Node, x: Xml, p: nat)
    requires n.Field? && InlineOf(part, x, p) == [n]
    ensures Shell(x, n.key, n.alias) && Held(part, x, p) == n.content && AllText(n.content) && !x.tag.PPr?
  {
    hide Held, RunText, PlainRun, Under;
  }

  /** A control with the right shell and content gives its node back. */
  lemma ControlRenders(part: string, n: Node, x: Xml)
    requires n.Field? && Shell(x, n.key, n.alias) && AllText(n.content)
    requires forall p: nat :: AlikeAll(n.content, Held(part, x, p))
    ensures Renders(part, n, x)
  {
    hide Alike, Held, Under, KeyOf;
    forall p: nat ensures AlikeAll([n], InlineOf(part, x, p)) {
      AlikeText(n.content, Held(part, x, p));
      assert InlineOf(part, x, p) ==
        [Field(ControlId(part, x, p), KeyOf(x), ValueIn(Under(x.children, SdtPr, Alias)), Held(part, x, p))];
      AlikeSame(n, InlineOf(part, x, p)[0]);
    }
  }

  /** The content element replaced by one that holds the rendered runs. */
  function Filled(x: Xml, content: Xml): Xml {
    x.(children := Put(x.children, content))
  }

  lemma FilledShell(x: Xml, content: Xml, key: Key, alias: string)
    requires Shell(x, key, alias) && content.tag.SdtContent?
    ensures Shell(Filled(x, content), key, alias) && ContentOf(Filled(x, content)) == content.children
  {
    hide Under, KeyOf, Put, First;
    forall t: Tag | Matters(t) ensures Under(Filled(x, content).children, SdtPr, t) == Under(x.children, SdtPr, t) {
      PutElsewhere(x.children, content, SdtPr, t);
    }
    PutFirst(x.children, content, SdtContent);
    SameShell(x, Filled(x, content), key, alias);
  }

  /** A control whose text has breaks or tabs is marked as having several lines. */
  function Multiline(x: Xml): Xml
    requires IsControl(x)
  {
    var text := Under(x.children, SdtPr, PlainText).value;
    x.(children := PutUnder(x.children, SdtPr, text.(attrs := text.attrs[MultiLine := "1"])))
  }

  lemma MultilineShell(x: Xml, key: Key, alias: string)
    requires Shell(x, key, alias)
    ensures Shell(Multiline(x), key, alias) && ContentOf(Multiline(x)) == ContentOf(x)
  {
    hide Under, KeyOf, PutUnder, First;
    var text := Under(x.children, SdtPr, PlainText).value;
    var marked := text.(attrs := text.attrs[MultiLine := "1"]);
    forall t: Tag | Matters(t)
      ensures Under(Multiline(x).children, SdtPr, t).Some? <==> Under(x.children, SdtPr, t).Some?
      ensures !t.PlainText? ==> Under(Multiline(x).children, SdtPr, t) == Under(x.children, SdtPr, t)
    {
      PutUnderUnder(x.children, SdtPr, marked, t);
    }
    PutUnderFirst(x.children, SdtPr, marked, SdtContent);
    SameShell(x, Multiline(x), key, alias);
  }

  /** The placeholder flag goes once there is content. */
  function WithoutPlaceholder(x: Xml): Xml {
    x.(children := DropUnder(x.children, SdtPr, ShowingPlaceholder))
  }

  lemma PlaceholderShell(x: Xml, key: Key, alias: string)
    requires Shell(x, key, alias)
    ensures Shell(WithoutPlaceholder(x), key, alias) && ContentOf(WithoutPlaceholder(x)) == ContentOf(x)
  {
    hide Under, KeyOf, DropUnder, First;
    forall t: Tag | Matters(t) ensures Under(WithoutPlaceholder(x).children, SdtPr, t) == Under(x.children, SdtPr, t) {
      DropUnderOther(x.children, SdtPr, ShowingPlaceholder, t);
    }
    DropUnderFirst(x.children, SdtPr, ShowingPlaceholder, SdtContent);
    SameShell(x, WithoutPlaceholder(x), key, alias);
  }

  /** A property of the control set: the first of its tag gets the value, or a new one is appended. */
  function WithProperty(properties: Xml, tag: Tag, value: string): Xml {
    var prior := First(properties.children, tag);
    var element := if prior.Some? then prior.value else Element(tag, map[], [], []);
    properties.(children := Put(properties.children, element.(attrs := element.attrs[Val := value])))
  }

  function Reviewed(x: Xml, tag: Tag, value: string): Xml
    requires First(x.children, SdtPr).Some?
  {
    x.(children := Put(x.children, WithProperty(First(x.children, SdtPr).value, tag, value)))
  }

  lemma ReviewedFinds(x: Xml, tag: Tag, value: string)
    requires First(x.children, SdtPr).Some?
    ensures var y := Reviewed(x, tag, value);
      && First(y.children, SdtPr).Some? && ContentOf(y) == ContentOf(x) && y.tag == x.tag
      && Under(y.children, SdtPr, tag).Some? && ValueIn(Under(y.children, SdtPr, tag)) == value
  {
    hide First, Under, Put;
    var before := First(x.children, SdtPr).value;
    var after := WithProperty(before, tag, value);
    PutFirst(x.children, after, SdtPr);
    PutFirst(x.children, after, SdtContent);
    SetOther(before, tag, value, tag);
    PutProperties(x.children, after, tag);
  }

  lemma ReviewedOther(x: Xml, tag: Tag, value: string, t: Tag)
    requires First(x.children, SdtPr).Some? && t != tag
    ensures Under(Reviewed(x, tag, value).children, SdtPr, t) == Under(x.children, SdtPr, t)
  {
    hide First, Under, Put;
    var before := First(x.children, SdtPr).value;
    SetOther(before, tag, value, t);
    PutProperties(x.children, WithProperty(before, tag, value), t);
  }

  /** The edit leaves a control what it was. */
  lemma StillControl(x: Xml, tag: Tag, value: string)
    requires First(x.children, SdtPr).Some? && (tag.TagName? || tag.Alias?) && IsControl(x) && !Restricted(x)
    ensures IsControl(Reviewed(x, tag, value)) && !Restricted(Reviewed(x, tag, value))
  {
    hide First, Under, Reviewed;
    ReviewedFinds(x, tag, value);
    ReviewedOther(x, tag, value, PlainText);
    ReviewedOther(x, tag, value, DataBinding);
    ReviewedOther(x, tag, value, Lock);
    ReviewedOther(x, tag, value, Temporary);
  }

  /** How often another property is there does not change. */
  lemma ReviewedOnly(x: Xml, tag: Tag, value: string, other: Tag)
    requires First(x.children, SdtPr).Some? && tag != other
    ensures First(Reviewed(x, tag, value).children, SdtPr).Some?
    ensures Only(First(Reviewed(x, tag, value).children, SdtPr).value.children, other)
            == Only(First(x.children, SdtPr).value.children, other)
  {
    hide First, Put, Only;
    var before := First(x.children, SdtPr).value;
    PutFirst(x.children, WithProperty(before, tag, value), SdtPr);
    var prior := First(before.children, tag);
    var element := if prior.Some? then prior.value else Element(tag, map[], [], []);
    PutOnly(before.children, element.(attrs := element.attrs[Val := value]), other);
  }

  /** The native identifier of a control. */
  function NativeOf(x: Xml): Option<string> {
    var native := Under(x.children, SdtPr, NativeId);
    if native.None? then None else Some(ValueIn(native))
  }

  /** Giving a control another key or label leaves its native identifier. */
  lemma ReviewedNative(x: Xml, tag: Tag, value: string)
    requires First(x.children, SdtPr).Some? && !tag.NativeId?
    ensures NativeOf(Reviewed(x, tag, value)) == NativeOf(x)
  {
    hide Under, Reviewed;
    ReviewedOther(x, tag, value, NativeId);
  }

  /** Filling a control leaves its native identifier. */
  lemma NativeKept(x: Xml, content: Xml)
    requires content.tag.SdtContent?
    ensures NativeOf(Filled(x, content)) == NativeOf(x) && NativeOf(WithoutPlaceholder(x)) == NativeOf(x)
    ensures IsControl(x) ==> NativeOf(Multiline(x)) == NativeOf(x)
  {
    hide Under, Put, PutUnder, DropUnder;
    PutElsewhere(x.children, content, SdtPr, NativeId);
    DropUnderOther(x.children, SdtPr, ShowingPlaceholder, NativeId);
    if IsControl(x) {
      var text := Under(x.children, SdtPr, PlainText).value;
      PutUnderUnder(x.children, SdtPr, text.(attrs := text.attrs[MultiLine := "1"]), NativeId);
    }
  }

  lemma SetOther(properties: Xml, tag: Tag, value: string, other: Tag)
    ensures var after := WithProperty(properties, tag, value);
      && (other != tag ==> First(after.children, other) == First(properties.children, other))
      && First(after.children, tag).Some? && ValueIn(First(after.children, tag)) == value && after.tag == properties.tag
  {
    var prior := First(properties.children, tag);
    var element := if prior.Some? then prior.value else Element(tag, map[], [], []);
    PutFirst(properties.children, element.(attrs := element.attrs[Val := value]), other);
    PutFirst(properties.children, element.(attrs := element.attrs[Val := value]), tag);
  }

  lemma Rekeyed(y: Xml, value: string)
    requires Under(y.children, SdtPr, TagName).Some? && ValueIn(Under(y.children, SdtPr, TagName)) == value
      && !Blank(value)
    ensures KeyOf(y) == Tagged(value)
  {
    hide Under, Blank;
  }

  lemma SameKey(x: Xml, y: Xml)
    requires Under(y.children, SdtPr, TagName) == Under(x.children, SdtPr, TagName)
    ensures KeyOf(y) == KeyOf(x)
  {
    hide Under, Blank;
  }

  lemma RekeyedShell(x: Xml, key: Key, alias: string, value: string)
    requires Shell(x, key, alias) && !Blank(value)
    ensures First(x.children, SdtPr).Some?
    ensures Shell(Reviewed(x, TagName, value), Tagged(value), alias)
      && ContentOf(Reviewed(x, TagName, value)) == ContentOf(x)
  {
    hide Under, Reviewed, Blank, First, ContentOf, KeyOf, Restricted;
    FirstOfUnder(x.children, SdtPr, PlainText);
    ReviewedFinds(x, TagName, value);
    StillControl(x, TagName, value);
    ReviewedOther(x, TagName, value, Alias);
    Rekeyed(Reviewed(x, TagName, value), value);
  }

  lemma RelabelledShell(x: Xml, key: Key, alias: string, value: string)
    requires Shell(x, key, alias)
    ensures First(x.children, SdtPr).Some?
    ensures Shell(Reviewed(x, Alias, value), key, value) && ContentOf(Reviewed(x, Alias, value)) == ContentOf(x)
  {
    hide Under, Reviewed, Blank, First, ContentOf, KeyOf, Restricted;
    FirstOfUnder(x.children, SdtPr, PlainText);
    ReviewedFinds(x, Alias, value);
    StillControl(x, Alias, value);
    ReviewedOther(x, Alias, value, TagName);
    SameKey(x, Reviewed(x, Alias, value));
  }

  function Property(tag: Tag, value: string): Xml {
    Element(tag, map[Val := value], [], [])
  }

  /** A control added in the editor, still without content. */
  function Fresh(native: string, key: string, alias: string): Xml {
    var several := Element(PlainText, map[MultiLine := "1"], [], []);
    Element(Sdt, map[], [],
            [Element(SdtPr, map[], [],
                     [Property(NativeId, native), Property(TagName, key), Property(Alias, alias), several])])
  }

  lemma FreshFinds(native: string, key: string, alias: string, tag: Tag)
    ensures Under(Fresh(native, key, alias).children, SdtPr, tag) ==
      match tag
      case NativeId => Some(Property(NativeId, native))
      case TagName => Some(Property(TagName, key))
      case Alias => Some(Property(Alias, alias))
      case PlainText => Some(Element(PlainText, map[MultiLine := "1"], [], []))
      case _ => None
  {
    hide First, Under;
    var several := Element(PlainText, map[MultiLine := "1"], [], []);
    var properties := Fresh(native, key, alias).children[0];
    var (a, b, c) := (Property(NativeId, native), Property(TagName, key), Property(Alias, alias));
    assert properties.children == [a] + ([b] + ([c] + ([several] + [])));
    assert Fresh(native, key, alias).children == [properties] + [];
    UnderFront(properties, [], SdtPr, tag);
    NoneUnder([], SdtPr, tag);
    FirstFront(a, [b] + ([c] + ([several] + [])), tag);
    FirstFront(b, [c] + ([several] + []), tag);
    FirstFront(c, [several] + [], tag);
    FirstFront(several, [], tag);
    NoneFirst(tag);
  }

  lemma NoneFirst(tag: Tag)
    ensures First([], tag) == None
  {
  }

  lemma FreshShell(native: string, key: string, alias: string)
    requires !Blank(key)
    ensures Shell(Fresh(native, key, alias), Tagged(key), alias) && ContentOf(Fresh(native, key, alias)) == []
  {
    hide Under, First, Blank, KeyOf, Fresh;
    var x := Fresh(native, key, alias);
    FreshContent(native, key, alias);
    FreshFinds(native, key, alias, TagName);
    FreshFinds(native, key, alias, Alias);
    FreshFinds(native, key, alias, PlainText);
    FreshFinds(native, key, alias, DataBinding);
    FreshFinds(native, key, alias, Lock);
    FreshFinds(native, key, alias, Temporary);
    Rekeyed(x, key);
  }

  lemma FreshContent(native: string, key: string, alias: string)
    ensures ContentOf(Fresh(native, key, alias)) == [] && Fresh(native, key, alias).tag.Sdt?
  {
    hide First;
    var x := Fresh(native, key, alias);
    assert x.children == [x.children[0]] + [];
    FirstFront(x.children[0], [], SdtContent);
    NoneFirst(SdtContent);
  }

  /** The content of a copied control is alike at any position. */
  lemma SameHeld(part: string, x: Xml, y: Xml, p: nat, q: nat)
    requires ContentOf(x) == ContentOf(y)
    ensures AlikeAll(Held(part, x, p), Held(part, y, q))
  {
    hide Alike, InlinesOf;
    NoInlines(part, p + Ahead(x.children, SdtContent) + 2);
    NoInlines(part, q + Ahead(y.children, SdtContent) + 2);
    if Holder(x).Some? || Holder(y).Some? {
      InlinesMoved(part, ContentOf(x), p + Ahead(x.children, SdtContent) + 2, q + Ahead(y.children, SdtContent) + 2);
    }
  }

  lemma FilledHeld(part: string, x: Xml, content: Xml, kept: seq<Xml>, ns: seq<Node>, xs: seq<Xml>)
    requires ContentOf(x) == kept + xs && (forall k | k in kept :: k.tag.PPr?) && RendersAll(part, ns, xs)
    ensures forall p: nat :: AlikeAll(ns, Held(part, x, p))
  {
    hide Alike, InlinesOf, RendersAll;
    forall p: nat ensures AlikeAll(ns, Held(part, x, p)) {
      RenderedInlines(part, kept, ns, xs, p + Ahead(x.children, SdtContent) + 2);
      NoInlines(part, p + Ahead(x.children, SdtContent) + 2);
    }
  }

  lemma NoInlines(part: string, p: nat)
    ensures InlinesOf(part, [], p) == []
  {
  }

  // ----- checkboxes

  /** The state element of a checkbox set. */
  function WithState(control: Xml, checked: bool): Xml {
    var prior := First(control.children, Checked);
    var state := if prior.Some? then prior.value else Element(Checked, map[], [], []);
    control.(children := Put(control.children, state.(attrs := state.attrs[Val14 := if checked then "1" else "0"])))
  }

  function Ticked(x: Xml, checked: bool): Xml
    requires Under(x.children, SdtPr, CheckBox).Some?
  {
    x.(children := PutUnder(x.children, SdtPr, WithState(Under(x.children, SdtPr, CheckBox).value, checked)))
  }

  /** A checkbox, whatever its state, whose content is plain. */
  ghost predicate Box(x: Xml) {
    IsCheckbox(x) && OnlyRuns(ContentOf(x))
  }

  lemma ImportedBox(part: string, n: Node, x: Xml, p: nat)
    requires n.Checkbox? && InlineOf(part, x, p) == [n]
    ensures Box(x) && IsChecked(x) == n.checked && !x.tag.PPr?
  {
    hide Held, RunText, PlainRun, Under, Deep, OnlyRuns;
    HeldRuns(part, x, p);
  }

  lemma HeldRuns(part: string, x: Xml, p: nat)
    ensures AllText(Held(part, x, p)) <==> OnlyRuns(ContentOf(x))
  {
    hide InlinesOf;
    if Holder(x).Some? {
      RunsAreText(part, ContentOf(x), p + Ahead(x.children, SdtContent) + 2);
    }
  }

  lemma BoxRenders(part: string, n: Node, x: Xml)
    requires n.Checkbox? && Box(x) && IsChecked(x) == n.checked
    ensures Renders(part, n, x)
  {
    hide Alike, Held, Under, Deep, OnlyRuns;
    forall p: nat ensures AlikeAll([n], InlineOf(part, x, p)) {
      HeldRuns(part, x, p);
      assert InlineOf(part, x, p) == [Checkbox(At(part, p), n.checked)];
      AlikeSame(n, InlineOf(part, x, p)[0]);
    }
  }

  lemma TickedFinds(x: Xml, checked: bool)
    requires IsCheckbox(x)
    ensures IsCheckbox(Ticked(x, checked)) && ContentOf(Ticked(x, checked)) == ContentOf(x)
  {
    hide Under, First, PutUnder, Put;
    var y := WithState(Under(x.children, SdtPr, CheckBox).value, checked);
    PutUnderUnder(x.children, SdtPr, y, PlainText);
    PutUnderUnder(x.children, SdtPr, y, CheckBox);
    PutUnderFirst(x.children, SdtPr, y, SdtContent);
  }

  lemma StateFound(control: Xml, checked: bool)
    ensures var state := First(WithState(control, checked).children, Checked);
      state.Some? && Val14 in state.value.attrs && state.value.attrs[Val14] == if checked then "1" else "0"
    ensures WithState(control, checked).tag == control.tag
  {
    hide First, Put;
    var prior := First(control.children, Checked);
    var state := if prior.Some? then prior.value else Element(Checked, map[], [], []);
    PutFirst(control.children, state.(attrs := state.attrs[Val14 := if checked then "1" else "0"]), Checked);
  }

  lemma TickedBox(x: Xml, checked: bool)
    requires Box(x)
    ensures Box(Ticked(x, checked)) && IsChecked(Ticked(x, checked)) == checked
  {
    hide Under, Deep, First, PutUnder, OnlyRuns, WithState, ContentOf;
    TickedFinds(x, checked);
    var control := Under(x.children, SdtPr, CheckBox).value;
    StateFound(control, checked);
    DeepPut(x.children, SdtPr, WithState(control, checked), Checked);
  }

  lemma ReglyphBox(x: Xml, before: char, after: char)
    requires Box(x)
    ensures Box(Reglyph(x, before, after)) && IsChecked(Reglyph(x, before, after)) == IsChecked(x)
  {
    hide Under, Deep, First, OnlyRuns, ReglyphAll, IsChecked;
    ReglyphParts(x, before, after);
    ReglyphUnder(x.children, before, after, SdtPr, PlainText);
    ReglyphUnder(x.children, before, after, SdtPr, CheckBox);
    ReglyphFirst(x.children, before, after, SdtContent);
    ReglyphRuns(ContentOf(x), before, after);
    ReglyphState(x, before, after);
  }

  lemma ReglyphParts(x: Xml, before: char, after: char)
    ensures var y := Reglyph(x, before, after);
      y.tag == x.tag && y.children == ReglyphAll(x.children, before, after) && (!x.tag.T? ==> y.attrs == x.attrs)
  {
    hide ReglyphAll;
  }

  lemma ReglyphState(x: Xml, before: char, after: char)
    ensures IsChecked(Reglyph(x, before, after)) == IsChecked(x)
  {
    hide Deep, ReglyphAll, Reglyph;
    ReglyphParts(x, before, after);
    ReglyphDeep(x.children, before, after, SdtPr, CheckBox, Checked);
    var state := Deep(x.children, SdtPr, CheckBox, Checked);
    if state.Some? {
      DeepTag(x.children, SdtPr, CheckBox, Checked);
      ReglyphParts(state.value, before, after);
    }
  }

  lemma {:induction false} DeepTag(xs: seq<Xml>, a: Tag, b: Tag, c: Tag)
    requires Deep(xs, a, b, c).Some?
    ensures Deep(xs, a, b, c).value.tag == c
  {
    if !(xs[0].tag == a && Under(xs[0].children, b, c).Some?) {
      DeepTag(xs[1..], a, b, c);
    }
  }
}
