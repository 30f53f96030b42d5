/** What the importer makes of an element, attribute by attribute and without its own functions: a relation between the
    XML and the nodes, which the functions of `Ooxml` are proved to satisfy. */
module ImportReads {
  import opened Common
  import opened DocumentModel
  import opened Correspondence
  import opened FreshIds
  import opened Ooxml

  // ----- what a search finds

  /** The first child with the tag. */
  ghost predicate Leads(xs: seq<Xml>, tag: Tag, i: int) {
    0 <= i < |xs| && xs[i].tag == tag && forall k | 0 <= k < i :: xs[k].tag != tag
  }

  lemma {:induction false} FirstMeans(xs: seq<Xml>, tag: Tag)
    ensures First(xs, tag).None? <==> forall x | x in xs :: x.tag != tag
    ensures forall i | Leads(xs, tag, i) :: First(xs, tag) == Some(xs[i])
  {
    if xs != [] && xs[0].tag != tag {
      FirstMeans(xs[1..], tag);
      assert xs == [xs[0]] + xs[1..];
      forall i | Leads(xs, tag, i) ensures First(xs, tag) == Some(xs[i]) {
        assert Leads(xs[1..], tag, i - 1);
      }
    }
  }

  /** A `b` stands below the `i`th child, an `a`, and below no earlier one. */
  ghost predicate LeadsUnder(xs: seq<Xml>, a: Tag, b: Tag, i: int, j: int) {
    && 0 <= i < |xs| && xs[i].tag == a && Leads(xs[i].children, b, j)
    && forall k, x | 0 <= k < i && xs[k].tag == a && x in xs[k].children :: x.tag != b
  }

  lemma {:induction false} UnderNone(xs: seq<Xml>, a: Tag, b: Tag)
    ensures Under(xs, a, b).None? <==> forall x, y | x in xs && x.tag == a && y in x.children :: y.tag != b
  {
    if xs != [] {
      assert xs == [xs[0]] + xs[1..];
      FirstMeans(xs[0].children, b);
      UnderNone(xs[1..], a, b);
    }
  }

  lemma {:induction false} UnderFinds(xs: seq<Xml>, a: Tag, b: Tag, i: int, j: int)
    requires LeadsUnder(xs, a, b, i, j)
    ensures Under(xs, a, b) == Some(xs[i].children[j])
  {
    FirstMeans(xs[0].children, b);
    if i > 0 {
      assert forall x | x in xs[0].children && xs[0].tag == a :: x.tag != b;
      assert LeadsUnder(xs[1..], a, b, i - 1, j) by {
        forall k, x | 0 <= k < i - 1 && xs[1..][k].tag == a && x in xs[1..][k].children ensures x.tag != b {
          assert xs[1..][k] == xs[k + 1];
        }
      }
      UnderFinds(xs[1..], a, b, i - 1, j);
    }
  }

  /** A search for `a/b` finds the first `b` below any `a`. */
  lemma UnderMeans(xs: seq<Xml>, a: Tag, b: Tag)
    ensures Under(xs, a, b).None? <==> forall x, y | x in xs && x.tag == a && y in x.children :: y.tag != b
    ensures forall i, j | LeadsUnder(xs, a, b, i, j) :: Under(xs, a, b) == Some(xs[i].children[j])
  {
    hide Under;
    UnderNone(xs, a, b);
    forall i, j | LeadsUnder(xs, a, b, i, j) ensures Under(xs, a, b) == Some(xs[i].children[j]) {
      UnderFinds(xs, a, b, i, j);
    }
  }

  /** The `i`th child is the first `a` with a `b/c` in it. */
  ghost predicate LeadsDeep(xs: seq<Xml>, a: Tag, b: Tag, c: Tag, i: int) {
    && 0 <= i < |xs| && xs[i].tag == a && Under(xs[i].children, b, c).Some?
    && forall k | 0 <= k < i && xs[k].tag == a :: Under(xs[k].children, b, c).None?
  }

  lemma {:induction false} DeepNone(xs: seq<Xml>, a: Tag, b: Tag, c: Tag)
    ensures Deep(xs, a, b, c).None? <==> forall x | x in xs && x.tag == a :: Under(x.children, b, c).None?
  {
    hide Under;
    if xs != [] {
      assert xs == [xs[0]] + xs[1..];
      DeepNone(xs[1..], a, b, c);
    }
  }

  lemma {:induction false} DeepFinds(xs: seq<Xml>, a: Tag, b: Tag, c: Tag, i: int)
    requires LeadsDeep(xs, a, b, c, i)
    ensures Deep(xs, a, b, c) == Under(xs[i].children, b, c)
  {
    hide Under;
    if i > 0 {
      var rest := xs[1..];
      assert rest[i - 1] == xs[i];
      assert forall k | 0 <= k < i - 1 :: rest[k] == xs[k + 1];
      assert LeadsDeep(rest, a, b, c, i - 1);
      assert xs[0].tag == a ==> Under(xs[0].children, b, c).None?;
      DeepFinds(rest, a, b, c, i - 1);
    }
  }

  /** A search for `a/b/c` finds the first `c` of the first `a` that has one below a `b`. */
  lemma DeepMeans(xs: seq<Xml>, a: Tag, b: Tag, c: Tag)
    ensures Deep(xs, a, b, c).None? <==> forall x | x in xs && x.tag == a :: Under(x.children, b, c).None?
    ensures forall i | LeadsDeep(xs, a, b, c, i) :: Deep(xs, a, b, c) == Under(xs[i].children, b, c)
  {
    hide Under, Deep;
    DeepNone(xs, a, b, c);
    forall i | LeadsDeep(xs, a, b, c, i) ensures Deep(xs, a, b, c) == Under(xs[i].children, b, c) {
      DeepFinds(xs, a, b, c, i);
    }
  }

  // ----- positions

  lemma ListingFirst(x: Xml)
    ensures Listing(x)[0] == x && Listing(x)[1..] == ListingAll(x.children)
  {
  }

  lemma {:induction false} ListingLength(x: Xml)
    ensures |Listing(x)| == Elements(x)
    decreases x, 1
  {
    ListingLengths(x.children);
  }

  lemma {:induction false} ListingLengths(xs: seq<Xml>)
    ensures |ListingAll(xs)| == ElementsAll(xs)
    decreases xs, 0
  {
    if xs != [] {
      ListingLengths(xs[..|xs| - 1]);
      ListingLength(xs[|xs| - 1]);
    }
  }

  /** The listing of `xs` stands in `all` from position `p` on. */
  ghost predicate Spread(all: seq<Xml>, xs: seq<Xml>, p: nat) {
    p + ElementsAll(xs) <= |all| && all[p..p + ElementsAll(xs)] == ListingAll(xs)
  }

  /** `part` stands in `all` from position `p` on. */
  ghost predicate Stretch(all: seq<Xml>, part: seq<Xml>, p: nat) {
    p + |part| <= |all| && all[p..p + |part|] == part
  }

  lemma StretchParts(all: seq<Xml>, a: seq<Xml>, b: seq<Xml>, p: nat)
    requires Stretch(all, a + b, p)
    ensures Stretch(all, a, p) && Stretch(all, b, p + |a|)
    ensures |a| == 1 ==> all[p] == a[0]
  {
    var here := all[p..p + |a + b|];
    assert here[..|a|] == a && here[|a|..] == b;
    if |a| == 1 {
      assert here[0] == a[0];
    }
  }

  lemma SpreadIs(all: seq<Xml>, xs: seq<Xml>, p: nat)
    ensures Spread(all, xs, p) <==> Stretch(all, ListingAll(xs), p)
  {
    hide ElementsAll, ListingAll;
    ListingLengths(xs);
  }

  /** An element stands where its listing does, its children behind it. */
  lemma SpreadElement(all: seq<Xml>, x: Xml, p: nat)
    requires Stretch(all, Listing(x), p)
    ensures p < |all| && all[p] == x && Spread(all, x.children, p + 1)
  {
    hide Spread, Stretch, ListingAll;
    StretchInside(all, Listing(x), p);
    StretchParts(all, [x], ListingAll(x.children), p);
    SpreadIs(all, x.children, p + 1);
  }

  lemma StretchInside(all: seq<Xml>, part: seq<Xml>, p: nat)
    requires Stretch(all, part, p)
    ensures p + |part| <= |all|
  {
  }

  lemma SpreadLast(all: seq<Xml>, xs: seq<Xml>, p: nat)
    requires Spread(all, xs, p) && xs != []
    ensures var n := |xs| - 1; var q := p + ElementsAll(xs[..n]);
      Spread(all, xs[..n], p) && q < |all| && all[q] == xs[n] && Spread(all, xs[n].children, q + 1)
  {
    hide Spread, Stretch, Listing, ElementsAll;
    var n := |xs| - 1;
    SpreadIs(all, xs, p);
    StretchParts(all, ListingAll(xs[..n]), Listing(xs[n]), p);
    ListingLengths(xs[..n]);
    SpreadIs(all, xs[..n], p);
    SpreadElement(all, xs[n], p + ElementsAll(xs[..n]));
  }

  /** The element below which a control keeps its content is where its content is counted from. */
  lemma {:induction false} SpreadHolder(all: seq<Xml>, xs: seq<Xml>, p: nat, tag: Tag)
    requires Spread(all, xs, p) && First(xs, tag).Some?
    ensures var q := p + Ahead(xs, tag);
      q < |all| && all[q] == First(xs, tag).value && Spread(all, First(xs, tag).value.children, q + 1)
    decreases |xs|
  {
    hide Spread, Elements;
    SpreadFirst(all, xs, p);
    if xs[0].tag != tag {
      SpreadHolder(all, xs[1..], p + Elements(xs[0]), tag);
    }
  }

  lemma SpreadFirst(all: seq<Xml>, xs: seq<Xml>, p: nat)
    requires Spread(all, xs, p) && xs != []
    ensures p < |all| && all[p] == xs[0] && Spread(all, xs[0].children, p + 1)
      && Spread(all, xs[1..], p + Elements(xs[0]))
  {
    hide Spread, Stretch, Listing, ListingAll, Elements;
    FrontListing(xs);
    SpreadIs(all, xs, p);
    StretchParts(all, Listing(xs[0]), ListingAll(xs[1..]), p);
    ListingLength(xs[0]);
    SpreadIs(all, xs[1..], p + Elements(xs[0]));
    SpreadElement(all, xs[0], p);
  }

  lemma {:induction false} FrontListing(xs: seq<Xml>)
    requires xs != []
    ensures ListingAll(xs) == Listing(xs[0]) + ListingAll(xs[1..])
    decreases |xs|
  {
    var n := |xs| - 1;
    if n == 0 {
      assert xs[..0] == [] && xs[1..] == [];
    } else {
      FrontListing(xs[..n]);
      assert xs[..n][1..] == xs[1..][..n - 1];
      Associate(Listing(xs[0]), ListingAll(xs[1..][..n - 1]), Listing(xs[n]));
    }
  }

  // ----- text

  /** All the text of a list of elements, one after the other. */
  function TextsOf(all: seq<Xml>): string {
    if all == [] then [] else TextsOf(all[..|all| - 1]) + all[|all| - 1].text
  }

  lemma {:induction false} TextsConcat(a: seq<Xml>, b: seq<Xml>)
    ensures TextsOf(a + b) == TextsOf(a) + TextsOf(b)
    decreases |b|
  {
    if b == [] {
      assert a + b == a;
    } else {
      assert (a + b)[..|a + b| - 1] == a + b[..|b| - 1];
      TextsConcat(a, b[..|b| - 1]);
      assert TextsOf(a + b) == TextsOf(a) + TextsOf(b[..|b| - 1]) + b[|b| - 1].text;
    }
  }

  lemma {:induction false} CaptionReads(x: Xml)
    ensures Caption(x) == TextsOf(Listing(x))
    decreases x, 1
  {
    CaptionsRead(x.children);
    TextsConcat([x], ListingAll(x.children));
    assert [x][..0] == [] && TextsOf([x]) == x.text;
  }

  lemma {:induction false} CaptionsRead(xs: seq<Xml>)
    ensures CaptionAll(xs) == TextsOf(ListingAll(xs))
    decreases xs, 0
  {
    if xs != [] {
      CaptionsRead(xs[..|xs| - 1]);
      CaptionReads(xs[|xs| - 1]);
      TextsConcat(ListingAll(xs[..|xs| - 1]), Listing(xs[|xs| - 1]));
    }
  }

  // ----- attributes

  /** The value of the property `b` in the first `a` that has one; nothing if there is no such property. */
  function Property(x: Xml, a: Tag, b: Tag): Option<Xml> {
    Under(x.children, a, b)
  }

  /** Only the four values the editor knows are taken over. */
  ghost predicate AlignRead(x: Xml, align: Alignment) {
    var jc := Property(x, PPr, Jc);
    var v := if jc.Some? && Val in jc.value.attrs then jc.value.attrs[Val] else "";
    && (align == Center <==> v == "center") && (align == Right <==> v == "right") && (align == Both <==> v == "both")
  }

  /** One column, unless a number in decimal digits from 1 to 64 is given. */
  ghost predicate SpanRead(x: Xml, columns: nat) {
    var span := Property(x, TcPr, GridSpan);
    if span.None? || Val !in span.value.attrs then columns == 1
    else
      var v := span.value.attrs[Val];
      && v != [] && (forall c | c in v :: '0' <= c <= '9')
      && columns == ValueOf(v, 10) && 1 <= columns <= 64
  }

  /** A property of a run is on unless its value switches it off. */
  ghost predicate ToggleRead(xs: seq<Xml>, tag: Tag, on: bool) {
    var toggle := Under(xs, RPr, tag);
    on <==> toggle.Some? && (Val !in toggle.value.attrs
                             || (toggle.value.attrs[Val] != "0" && toggle.value.attrs[Val] != "false"
                                 && toggle.value.attrs[Val] != "none"))
  }

  ghost predicate StyleRead(xs: seq<Xml>, style: Style) {
    ToggleRead(xs, B, style.bold) && ToggleRead(xs, I, style.italic) && ToggleRead(xs, U, style.underline)
  }

  /** Properties, texts, tabs and line breaks; a break of another type is none of them. */
  predicate IsPlain(x: Xml) {
    match x.tag
    case RPr => true
    case T => true
    case Tab => true
    case Br => BreakType in x.attrs ==> x.attrs[BreakType] == "textWrapping"
    case _ => false
  }

  predicate AllPlain(xs: seq<Xml>) {
    forall x | x in xs :: IsPlain(x)
  }

  /** The text of a run, part by part. */
  ghost predicate TextRead(xs: seq<Xml>, text: string) {
    if xs == [] then text == [] else
    var n := |xs| - 1;
    match xs[n].tag
    case Br => text != [] && text[|text| - 1] == '\n' && TextRead(xs[..n], text[..|text| - 1])
    case Tab => text != [] && text[|text| - 1] == '\t' && TextRead(xs[..n], text[..|text| - 1])
    case T =>
      var last := xs[n].text;
      && |last| <= |text| && text[|text| - |last|..] == last && TextRead(xs[..n], text[..|text| - |last|])
    case _ => TextRead(xs[..n], text)
  }

  /** Bound to data, locked or temporary: the editor leaves such a control alone. */
  ghost predicate Untouchable(x: Xml) {
    Property(x, SdtPr, DataBinding).Some? || Property(x, SdtPr, Lock).Some? || Property(x, SdtPr, Temporary).Some?
  }

  /** A control is keyed by its tag, or by itself if that says nothing. */
  ghost predicate KeyRead(x: Xml, key: Key) {
    var tag := Property(x, SdtPr, TagName);
    if tag.None? || Val !in tag.value.attrs || Blank(tag.value.attrs[Val]) then key == Own
    else key == Tagged(tag.value.attrs[Val])
  }

  ghost predicate LabelRead(x: Xml, caption: string) {
    var alias := Property(x, SdtPr, Alias);
    caption == if alias.Some? && Val in alias.value.attrs then alias.value.attrs[Val] else ""
  }

  /** A control with a native identifier is known by it, any other by its place. */
  ghost predicate IdentityRead(part: string, x: Xml, p: nat, id: Id) {
    var native := Property(x, SdtPr, NativeId);
    if native.None? then id == At(part, p)
    else id == Control(part, if Val in native.value.attrs then native.value.attrs[Val] else "")
  }

  /** A box is ticked by two values only. */
  ghost predicate TickRead(x: Xml, checked: bool) {
    var state := Deep(x.children, SdtPr, CheckBox, Checked);
    checked <==> state.Some? && Val14 in state.value.attrs
                 && (state.value.attrs[Val14] == "1" || state.value.attrs[Val14] == "true")
  }

  // ----- nodes

  ghost predicate LockedRead(part: string, x: Xml, p: nat, ns: seq<Node>) {
    ns == [LockedInline(At(part, p), TextsOf(Listing(x)), map[])]
  }

  ghost predicate RunRead(part: string, x: Xml, p: nat, ns: seq<Node>) {
    if !AllPlain(x.children) then LockedRead(part, x, p, ns)
    else if ns == [] then TextRead(x.children, [])
    else
      && |ns| == 1 && ns[0].Text? && ns[0].text != [] && TextRead(x.children, ns[0].text)
      && ns[0].source.Some? && ns[0].source.value.id == At(part, p) && StyleRead(x.children, ns[0].source.value.style)
      && ns[0].format == None
  }

  /** A child of a paragraph or control. `all` is the part in document order, and `x` the element at position `p`. */
  ghost predicate InlineRead(part: string, all: seq<Xml>, x: Xml, p: nat, ns: seq<Node>)
    decreases x, 1
  {
    && p < |all| && all[p] == x
    && if x.tag.R? then RunRead(part, x, p, ns)
       else if x.tag.Sdt? && Property(x, SdtPr, PlainText).Some? then
         if Untouchable(x) then LockedRead(part, x, p, ns) else ControlRead(part, all, x, p, Held(part, x, p), ns)
       else if x.tag.Sdt? && Property(x, SdtPr, CheckBox).Some? then BoxRead(part, all, x, p, Held(part, x, p), ns)
       else LockedRead(part, x, p, ns)
  }

  /** A text control is a field if its content is nothing but text, and left alone otherwise. */
  ghost predicate ControlRead(part: string, all: seq<Xml>, x: Xml, p: nat, held: seq<Node>, ns: seq<Node>)
    decreases x, 0, 1
  {
    && HeldRead(part, all, x, p, held)
    && if !AllText(held) then LockedRead(part, x, p, ns)
       else
         && |ns| == 1 && ns[0].Field? && ns[0].content == held
         && IdentityRead(part, x, p, ns[0].id) && KeyRead(x, ns[0].key) && LabelRead(x, ns[0].alias)
  }

  ghost predicate BoxRead(part: string, all: seq<Xml>, x: Xml, p: nat, held: seq<Node>, ns: seq<Node>)
    decreases x, 0, 1
  {
    && HeldRead(part, all, x, p, held)
    && if !AllText(held) then LockedRead(part, x, p, ns)
       else |ns| == 1 && ns[0].Checkbox? && ns[0].id == At(part, p) && TickRead(x, ns[0].checked)
  }

  /** The content of a control: what its first content element holds. */
  ghost predicate HeldRead(part: string, all: seq<Xml>, x: Xml, p: nat, held: seq<Node>)
    decreases x, 0, 0
  {
    var content := Holder(x);
    if content.None? then held == []
    else
      var q := p + 1 + Ahead(x.children, SdtContent);
      q < |all| && all[q] == content.value && InlinesRead(part, all, content.value.children, q + 1, held)
  }

  ghost predicate InlinesRead(part: string, all: seq<Xml>, xs: seq<Xml>, p: nat, ns: seq<Node>)
    decreases xs, 0
  {
    if xs == [] then ns == [] else
    var n := |xs| - 1;
    if xs[n].tag.PPr? then InlinesRead(part, all, xs[..n], p, ns)
    else
      var q := p + ElementsAll(xs[..n]);
      || (InlinesRead(part, all, xs[..n], p, ns) && InlineRead(part, all, xs[n], q, []))
      || (ns != [] && InlinesRead(part, all, xs[..n], p, ns[..|ns| - 1])
           && InlineRead(part, all, xs[n], q, [ns[|ns| - 1]]))
  }

  predicate Skipped(tag: Tag) {
    match tag
    case SectPr => true
    case TblPr => true
    case TblGrid => true
    case TrPr => true
    case TcPr => true
    case _ => false
  }

  ghost predicate BlockRead(part: string, all: seq<Xml>, x: Xml, p: nat, n: Node)
    decreases x, 1
  {
    && p < |all| && all[p] == x && IdOf(n) == Some(At(part, p))
    && match x.tag
       case P =>
         && n.Paragraph? && AlignRead(x, n.align) && (n.numbered <==> Property(x, PPr, NumPr).Some?)
         && InlinesRead(part, all, x.children, p + 1, n.content)
       case Tbl => n.Table? && BlocksRead(part, all, x.children, p + 1, n.content)
       case Tr => n.TableRow? && BlocksRead(part, all, x.children, p + 1, n.content)
       case Tc => n.TableCell? && SpanRead(x, n.colspan) && BlocksRead(part, all, x.children, p + 1, n.content)
       case _ => n.LockedBlock? && n.caption == TextsOf(Listing(x))
  }

  /** Every child but properties is one node, in document order. */
  ghost predicate BlocksRead(part: string, all: seq<Xml>, xs: seq<Xml>, p: nat, ns: seq<Node>)
    decreases xs, 0
  {
    if xs == [] then ns == [] else
    var n, m := |xs| - 1, |ns| - 1;
    if Skipped(xs[n].tag) then BlocksRead(part, all, xs[..n], p, ns)
    else
      && ns != [] && BlocksRead(part, all, xs[..n], p, ns[..m])
      && BlockRead(part, all, xs[n], p + ElementsAll(xs[..n]), ns[m])
  }

  /** A part is read as one section, from the children of its body or of its root. */
  ghost predicate SectionRead(part: Part, section: Node) {
    && section.Section? && section.part == part.name && Parent(part).Some?
    && BlocksRead(part.name, Listing(part.root), Parent(part).value.children, ParentAt(part) + 1, section.content)
  }

  // ----- the importer reads so

  lemma {:induction false} RunTextReads(xs: seq<Xml>)
    requires AllPlain(xs)
    ensures TextRead(xs, RunText(xs))
  {
    if xs != [] {
      RunTextReads(xs[..|xs| - 1]);
      var front := RunText(xs[..|xs| - 1]);
      var text := RunText(xs);
      assert text == front + PartText(xs[|xs| - 1]);
      assert text[..|front|] == front;
      assert front + [] == front;
    }
  }

  lemma PlainMeans(xs: seq<Xml>)
    ensures PlainRun(xs) <==> AllPlain(xs)
  {
  }

  lemma StyleReads(xs: seq<Xml>)
    ensures StyleRead(xs, RunStyle(xs))
  {
    hide Under;
  }

  lemma RunReads(part: string, x: Xml, p: nat)
    requires x.tag.R?
    ensures RunRead(part, x, p, InlineOf(part, x, p))
  {
    hide Under, RunText, TextRead, PlainRun, AllPlain, Listing, StyleRead, RunStyle, Caption, Held, IsControl;
    PlainMeans(x.children);
    StyleReads(x.children);
    CaptionReads(x);
    if PlainRun(x.children) {
      RunTextReads(x.children);
    }
  }

  lemma {:induction false} InlineReads(part: string, all: seq<Xml>, x: Xml, p: nat)
    requires p < |all| && all[p] == x && Spread(all, x.children, p + 1)
    ensures InlineRead(part, all, x, p, InlineOf(part, x, p)) && |InlineOf(part, x, p)| <= 1
    decreases x, 1
  {
    hide Under, Deep, RunText, PlainRun, RunRead, TextRead, Listing, Held, HeldRead, Spread, ControlRead, BoxRead,
      AllText, Caption;
    CaptionReads(x);
    if x.tag.R? {
      RunReads(part, x, p);
    } else if x.tag.Sdt? {
      HeldReads(part, all, x, p);
      if IsControl(x) && !Restricted(x) {
        ControlReads(part, all, x, p);
      } else if IsCheckbox(x) {
        BoxReads(part, all, x, p);
      }
    }
  }

  lemma ControlReads(part: string, all: seq<Xml>, x: Xml, p: nat)
    requires HeldRead(part, all, x, p, Held(part, x, p)) && IsControl(x) && !Restricted(x)
    ensures ControlRead(part, all, x, p, Held(part, x, p), InlineOf(part, x, p))
  {
    hide Under, HeldRead, Held, Blank, Listing, Caption, AllText, RunText, PlainRun;
    CaptionReads(x);
    BlankNothing();
  }

  lemma BlankNothing()
    ensures Blank("")
  {
  }

  lemma BoxReads(part: string, all: seq<Xml>, x: Xml, p: nat)
    requires HeldRead(part, all, x, p, Held(part, x, p)) && IsCheckbox(x)
    ensures BoxRead(part, all, x, p, Held(part, x, p), InlineOf(part, x, p))
  {
    hide Under, Deep, HeldRead, Held, Listing, Caption, AllText, RunText, PlainRun;
    CaptionReads(x);
  }

  lemma {:induction false} HeldReads(part: string, all: seq<Xml>, x: Xml, p: nat)
    requires Spread(all, x.children, p + 1)
    ensures HeldRead(part, all, x, p, Held(part, x, p))
    decreases x, 0
  {
    hide InlinesRead, InlinesOf, Spread;
    if Holder(x).Some? {
      SpreadHolder(all, x.children, p + 1, SdtContent);
      InlinesReads(part, all, Holder(x).value.children, p + 2 + Ahead(x.children, SdtContent));
    }
  }

  lemma {:induction false} InlinesReads(part: string, all: seq<Xml>, xs: seq<Xml>, p: nat)
    requires Spread(all, xs, p)
    ensures InlinesRead(part, all, xs, p, InlinesOf(part, xs, p))
    decreases xs, 0
  {
    hide InlineRead, InlineOf, Spread, ElementsAll;
    if xs != [] {
      var n := |xs| - 1;
      SpreadLast(all, xs, p);
      InlinesReads(part, all, xs[..n], p);
      if xs[n].tag.PPr? {
        assert InlinesOf(part, xs[..n], p) + [] == InlinesOf(part, xs[..n], p);
      } else {
        var q, front := p + ElementsAll(xs[..n]), InlinesOf(part, xs[..n], p);
        InlineReads(part, all, xs[n], q);
        var last := InlineOf(part, xs[n], q);
        assert InlinesOf(part, xs, p) == front + last;
        if last == [] {
          assert front + last == front;
        } else {
          assert last == [last[0]] && (front + last)[..|front|] == front;
        }
      }
    }
  }

  lemma AlignReads(x: Xml)
    ensures AlignRead(x, AlignOf(x.children))
  {
    hide Under;
  }

  lemma SpanReads(x: Xml)
    requires Spanned(x.children).Some?
    ensures SpanRead(x, Spanned(x.children).value)
  {
    hide Under;
    OneIs();
  }

  lemma OneIs()
    ensures ValueOf("1", 10) == 1
  {
    NumeralValue(1, 10);
    assert Numeral(1, 10) == "1";
  }

  lemma {:induction false} BlockReads(part: string, all: seq<Xml>, x: Xml, p: nat)
    requires p < |all| && all[p] == x && Spread(all, x.children, p + 1) && SpansTold(x) && !IsProperties(x.tag)
    ensures |BlockOf(part, x, p)| == 1 && BlockRead(part, all, x, p, BlockOf(part, x, p)[0])
    decreases x, 1
  {
    hide Under, AlignOf, Spanned, AlignRead, SpanRead, InlinesOf, InlinesRead, BlocksOf, BlocksRead, Listing, Spread,
      AllTold;
    CaptionReads(x);
    if x.tag.P? {
      AlignReads(x);
      InlinesReads(part, all, x.children, p + 1);
    } else if IsTabular(x.tag) {
      SpanReads(x);
      BlocksReads(part, all, x.children, p + 1);
    }
  }

  lemma {:induction false} BlocksReads(part: string, all: seq<Xml>, xs: seq<Xml>, p: nat)
    requires Spread(all, xs, p) && AllTold(xs)
    ensures BlocksRead(part, all, xs, p, BlocksOf(part, xs, p))
    decreases xs, 0
  {
    hide BlockRead, BlockOf, Spread, ElementsAll, SpansTold;
    if xs != [] {
      var n := |xs| - 1;
      SpreadLast(all, xs, p);
      BlocksReads(part, all, xs[..n], p);
      var q, front := p + ElementsAll(xs[..n]), BlocksOf(part, xs[..n], p);
      if IsProperties(xs[n].tag) {
        SkippedNothing(part, xs[n], q);
        assert front + [] == front;
      } else {
        BlockReads(part, all, xs[n], q);
        var last := BlockOf(part, xs[n], q);
        assert last == [last[0]] && (front + last)[..|front|] == front;
      }
    }
  }

  lemma SkippedNothing(part: string, x: Xml, p: nat)
    ensures IsProperties(x.tag) <==> Skipped(x.tag)
    ensures IsProperties(x.tag) ==> BlockOf(part, x, p) == []
  {
  }

  /** A span can be told exactly when there is a number of columns to read. */
  lemma SpanTold(x: Xml)
    ensures Spanned(x.children).Some? <==> exists columns: nat :: SpanRead(x, columns)
  {
    hide Under;
    OneIs();
    if Spanned(x.children).Some? {
      assert SpanRead(x, Spanned(x.children).value);
    }
  }

  /** Every part that can be imported is read as it is written. */
  lemma SectionReads(part: Part)
    requires Importable(part)
    ensures SectionRead(part, SectionOf(part))
  {
    hide BlocksRead, BlocksOf, Spread, Listing, AllTold, NoRepeats;
    var all := Listing(part.root);
    RootSpread(part.root);
    if part.name == MAIN {
      SpreadHolder(all, part.root.children, 1, Body);
    }
    BlocksReads(part.name, all, Parent(part).value.children, ParentAt(part) + 1);
  }

  lemma RootSpread(root: Xml)
    ensures Spread(Listing(root), root.children, 1)
  {
    ListingFirst(root);
    ListingLength(root);
    ListingLengths(root.children);
    assert Listing(root)[1..1 + ElementsAll(root.children)] == Listing(root)[1..];
  }
}
