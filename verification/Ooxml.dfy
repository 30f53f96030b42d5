/** WordprocessingML as a tree, and the document the importer reads from it (sections 17.3.3 and 17.5.2 of ECMA-376
    Part 1). */
module Ooxml {
  import opened Common
  import opened DocumentModel
  import opened FreshIds

  datatype Tag =
    | Body | P | PPr | SectPr | TblPr | TblGrid | TrPr | TcPr | Tbl | Tr | Tc | GridSpan | Jc | NumPr
    | R | RPr | B | I | U | T | Tab | Br
    | Sdt | SdtPr | SdtContent | NativeId | TagName | Alias | PlainText | ShowingPlaceholder | DataBinding | Lock
    | Temporary
    | CheckBox | Checked | CheckedState | UncheckedState
    | Foreign(name: string)

  datatype Attribute = Val | Val14 | BreakType | MultiLine | Space | ParaId | TextId | Named(name: string)

  datatype Xml = Element(tag: Tag, attrs: map<Attribute, string>, text: string, children: seq<Xml>)

  // ----- looking things up

  function First(xs: seq<Xml>, tag: Tag): (r: Option<Xml>)
    ensures r.Some? ==> r.value in xs && r.value.tag == tag
  {
    if xs == [] then None else if xs[0].tag == tag then Some(xs[0]) else First(xs[1..], tag)
  }

  /** The first `b` below any `a`. */
  function Under(xs: seq<Xml>, a: Tag, b: Tag): (r: Option<Xml>)
    ensures r.Some? ==> r.value.tag == b
  {
    if xs == [] then None
    else if xs[0].tag == a && First(xs[0].children, b).Some? then First(xs[0].children, b)
    else Under(xs[1..], a, b)
  }

  function Deep(xs: seq<Xml>, a: Tag, b: Tag, c: Tag): Option<Xml> {
    if xs == [] then None
    else if xs[0].tag == a && Under(xs[0].children, b, c).Some? then Under(xs[0].children, b, c)
    else Deep(xs[1..], a, b, c)
  }

  function ValueOr(x: Xml, name: Attribute, default: string): string {
    if name in x.attrs then x.attrs[name] else default
  }

  function ValueIn(x: Option<Xml>): string {
    if x.None? then "" else ValueOr(x.value, Val, "")
  }

  /** The number of elements: what positions count. */
  function Elements(x: Xml): nat
    decreases x, 1
  {
    1 + ElementsAll(x.children)
  }

  function ElementsAll(xs: seq<Xml>): nat
    decreases xs, 0
  {
    if xs == [] then 0 else ElementsAll(xs[..|xs| - 1]) + Elements(xs[|xs| - 1])
  }

  /** How many elements come before the first child with the tag. */
  function Ahead(xs: seq<Xml>, tag: Tag): nat {
    if xs == [] || xs[0].tag == tag then 0 else Elements(xs[0]) + Ahead(xs[1..], tag)
  }

  /** An element and everything in it, in document order. */
  function Listing(x: Xml): seq<Xml>
    decreases x, 1
  {
    [x] + ListingAll(x.children)
  }

  function ListingAll(xs: seq<Xml>): seq<Xml>
    decreases xs, 0
  {
    if xs == [] then [] else ListingAll(xs[..|xs| - 1]) + Listing(xs[|xs| - 1])
  }

  /** All the text of an element. */
  function Caption(x: Xml): string
    decreases x, 1
  {
    x.text + CaptionAll(x.children)
  }

  function CaptionAll(xs: seq<Xml>): string
    decreases xs, 0
  {
    if xs == [] then [] else CaptionAll(xs[..|xs| - 1]) + Caption(xs[|xs| - 1])
  }

  // ----- runs

  predicate PlainPart(x: Xml) {
    x.tag.RPr? || x.tag.T? || x.tag.Tab? || (x.tag.Br? && ValueOr(x, BreakType, "textWrapping") == "textWrapping")
  }

  predicate PlainRun(xs: seq<Xml>) {
    forall x | x in xs :: PlainPart(x)
  }

  function PartText(x: Xml): string {
    if x.tag.Br? then "\n" else if x.tag.Tab? then "\t" else if x.tag.T? then x.text else []
  }

  function RunText(xs: seq<Xml>): string {
    if xs == [] then [] else RunText(xs[..|xs| - 1]) + PartText(xs[|xs| - 1])
  }

  /** A toggle is on when it is there and not switched off. */
  predicate On(p: Option<Xml>) {
    p.Some? && !(Val in p.value.attrs && p.value.attrs[Val] in {"0", "false", "none"})
  }

  function RunStyle(xs: seq<Xml>): Style {
    Style(On(Under(xs, RPr, B)), On(Under(xs, RPr, I)), On(Under(xs, RPr, U)))
  }

  // ----- controls

  predicate WhiteSpace(c: char) {
    || '\t' <= c <= '\r' || '\U{1c}' <= c <= ' ' || c == '\U{85}' || c == '\U{a0}' || c == '\U{1680}'
    || '\U{2000}' <= c <= '\U{200a}' || c == '\U{2028}' || c == '\U{2029}' || c == '\U{202f}' || c == '\U{205f}'
    || c == '\U{3000}'
  }

  predicate Blank(s: string) {
    forall c | c in s :: WhiteSpace(c)
  }

  predicate IsControl(x: Xml) {
    x.tag.Sdt? && Under(x.children, SdtPr, PlainText).Some?
  }

  /** Bound to other data, locked or temporary. */
  predicate Restricted(x: Xml) {
    || Under(x.children, SdtPr, DataBinding).Some? || Under(x.children, SdtPr, Lock).Some?
    || Under(x.children, SdtPr, Temporary).Some?
  }

  predicate IsCheckbox(x: Xml) {
    x.tag.Sdt? && Under(x.children, SdtPr, PlainText).None? && Under(x.children, SdtPr, CheckBox).Some?
  }

  function KeyOf(x: Xml): Key {
    var value := ValueIn(Under(x.children, SdtPr, TagName));
    if Blank(value) then Own else Tagged(value)
  }

  function ControlId(part: string, x: Xml, p: nat): Id {
    var native := Under(x.children, SdtPr, NativeId);
    if native.Some? then Control(part, ValueIn(native)) else At(part, p)
  }

  predicate IsChecked(x: Xml) {
    var state := Deep(x.children, SdtPr, CheckBox, Checked);
    state.Some? && Val14 in state.value.attrs && state.value.attrs[Val14] in {"1", "true"}
  }

  // ----- inlines

  predicate AllText(ns: seq<Node>) {
    forall n | n in ns :: n.Text?
  }

  function Locked(part: string, x: Xml, p: nat): Node {
    LockedInline(At(part, p), Caption(x), map[])
  }

  /** What the importer reads from one child of a paragraph or control that is not its properties. */
  function InlineOf(part: string, x: Xml, p: nat): seq<Node>
    decreases x, 1
  {
    if x.tag.R? then
      if !PlainRun(x.children) then [Locked(part, x, p)]
      else if RunText(x.children) == [] then []
      else [Text(RunText(x.children), Some(Source(At(part, p), RunStyle(x.children))), None)]
    else if IsControl(x) then
      if Restricted(x) || !AllText(Held(part, x, p)) then [Locked(part, x, p)]
      else [Field(ControlId(part, x, p), KeyOf(x), ValueIn(Under(x.children, SdtPr, Alias)), Held(part, x, p))]
    else if IsCheckbox(x) then
      if !AllText(Held(part, x, p)) then [Locked(part, x, p)] else [Checkbox(At(part, p), IsChecked(x))]
    else [Locked(part, x, p)]
  }

  function Holder(x: Xml): (r: Option<Xml>)
    ensures r.Some? ==> r.value < x
  {
    First(x.children, SdtContent)
  }

  function ContentOf(x: Xml): seq<Xml> {
    if Holder(x).None? then [] else Holder(x).value.children
  }

  /** The content of a control. */
  function Held(part: string, x: Xml, p: nat): seq<Node>
    decreases x, 0
  {
    if Holder(x).None? then [] else InlinesOf(part, Holder(x).value.children, p + Ahead(x.children, SdtContent) + 2)
  }

  function InlinesOf(part: string, xs: seq<Xml>, p: nat): seq<Node>
    decreases xs, 0
  {
    if xs == [] then [] else
    var n := |xs| - 1;
    InlinesOf(part, xs[..n], p) + if xs[n].tag.PPr? then [] else InlineOf(part, xs[n], p + ElementsAll(xs[..n]))
  }

  // ----- blocks

  predicate IsProperties(tag: Tag) {
    tag.SectPr? || tag.TblPr? || tag.TblGrid? || tag.TrPr? || tag.TcPr?
  }

  function AlignOf(xs: seq<Xml>): Alignment {
    match ValueIn(Under(xs, PPr, Jc)) case "center" => Center case "right" => Right case "both" => Both case _ => Left
  }

  predicate Digits(s: string) {
    s != [] && forall c | c in s :: '0' <= c <= '9'
  }

  /** How many columns a cell spans, if that can be told. */
  function Spanned(xs: seq<Xml>): Option<nat> {
    var span := Under(xs, TcPr, GridSpan);
    if span.None? then Some(1) else
    var value := ValueOr(span.value, Val, "1");
    if Digits(value) && 1 <= ValueOf(value, 10) <= 64 then Some(ValueOf(value, 10)) else None
  }

  predicate IsTabular(tag: Tag) {
    tag.Tbl? || tag.Tr? || tag.Tc?
  }

  /** What the importer reads from one block. */
  function BlockOf(part: string, x: Xml, p: nat): seq<Node>
    decreases x, 1
  {
    if IsProperties(x.tag) then []
    else if x.tag.P? then
      [Paragraph(At(part, p), AlignOf(x.children), Under(x.children, PPr, NumPr).Some?,
        InlinesOf(part, x.children, p + 1))]
    else if x.tag.Tbl? then [Table(At(part, p), BlocksOf(part, x.children, p + 1))]
    else if x.tag.Tr? then [TableRow(At(part, p), BlocksOf(part, x.children, p + 1))]
    else if x.tag.Tc? then
      [TableCell(At(part, p), if Spanned(x.children).Some? then Spanned(x.children).value else 0,
                 BlocksOf(part, x.children, p + 1))]
    else [LockedBlock(At(part, p), Caption(x))]
  }

  function BlocksOf(part: string, xs: seq<Xml>, p: nat): seq<Node>
    decreases xs, 0
  {
    if xs == [] then [] else
    var n := |xs| - 1;
    BlocksOf(part, xs[..n], p) + BlockOf(part, xs[n], p + ElementsAll(xs[..n]))
  }

  /** Every table element's column span can be told. */
  predicate SpansTold(x: Xml)
    decreases x, 1
  {
    IsTabular(x.tag) ==> Spanned(x.children).Some? && AllTold(x.children)
  }

  predicate AllTold(xs: seq<Xml>)
    decreases xs, 0
  {
    xs == [] || (AllTold(xs[..|xs| - 1]) && SpansTold(xs[|xs| - 1]))
  }

  /** The native identifiers the importer registers, in the order it meets them. */
  function Natives(x: Xml): seq<string>
    decreases x, 1
  {
    if IsControl(x) && !Restricted(x) then
      (if Under(x.children, SdtPr, NativeId).Some? then [ValueIn(Under(x.children, SdtPr, NativeId))] else [])
        + if Holder(x).None? then [] else NativesAll(Holder(x).value.children)
    else if IsCheckbox(x) then if Holder(x).None? then [] else NativesAll(Holder(x).value.children)
    else []
  }

  function NativesAll(xs: seq<Xml>): seq<string>
    decreases xs, 0
  {
    if xs == [] then [] else NativesAll(xs[..|xs| - 1]) + if xs[|xs| - 1].tag.PPr? then [] else Natives(xs[|xs| - 1])
  }

  function BlockNatives(x: Xml): seq<string>
    decreases x, 1
  {
    if x.tag.P? then NativesAll(x.children) else if IsTabular(x.tag) then BlocksNatives(x.children) else []
  }

  function BlocksNatives(xs: seq<Xml>): seq<string>
    decreases xs, 0
  {
    if xs == [] then [] else BlocksNatives(xs[..|xs| - 1]) + BlockNatives(xs[|xs| - 1])
  }

  predicate NoRepeats<T(==)>(s: seq<T>) {
    forall i, k | 0 <= i < k < |s| :: s[i] != s[k]
  }

  // ----- parts

  const MAIN: string := "word/document.xml"

  datatype Part = Part(name: string, root: Xml)

  /** The element whose children are the blocks of a part. */
  function Parent(part: Part): Option<Xml> {
    if part.name == MAIN then First(part.root.children, Body) else Some(part.root)
  }

  function ParentAt(part: Part): nat {
    if part.name == MAIN then 1 + Ahead(part.root.children, Body) else 0
  }

  /** The part can be imported. */
  predicate Importable(part: Part) {
    Parent(part).Some? && AllTold(Parent(part).value.children) && NoRepeats(BlocksNatives(Parent(part).value.children))
  }

  function SectionOf(part: Part): Node
    requires Parent(part).Some?
  {
    Section(part.name, BlocksOf(part.name, Parent(part).value.children, ParentAt(part) + 1))
  }

  function ModelOf(parts: seq<Part>): Node
    requires forall k | 0 <= k < |parts| :: Parent(parts[k]).Some?
  {
    Doc(seq(|parts|, k requires 0 <= k < |parts| => SectionOf(parts[k])))
  }
}
