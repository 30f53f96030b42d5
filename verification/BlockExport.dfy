/** Writing blocks: paragraphs around their properties, tables around theirs. */
module BlockExport {
  import opened DocumentModel
  import opened Ooxml
  import opened Reimport
  import opened XmlEdits

  // ----- paragraphs

  /** A paragraph with other inlines behind its properties. */
  function Rewritten(x: Xml, inlines: seq<Xml>): Xml {
    x.(children := Only(x.children, PPr) + inlines)
  }

  lemma RewrittenUnder(x: Xml, inlines: seq<Xml>, tag: Tag)
    requires forall y | y in inlines :: !y.tag.PPr?
    ensures Under(Rewritten(x, inlines).children, PPr, tag) == Under(x.children, PPr, tag)
  {
    OnlyUnder(x.children, PPr, tag);
    UnderConcat(Only(x.children, PPr), inlines, PPr, tag);
  }

  lemma RenderedTags(part: string, ns: seq<Node>, xs: seq<Xml>)
    requires RendersAll(part, ns, xs)
    ensures forall x | x in xs :: !x.tag.PPr?
  {
    forall x | x in xs ensures !x.tag.PPr? {
      var i :| 0 <= i < |xs| && xs[i] == x;
      assert Renders(part, ns[i], xs[i]);
    }
  }

  /** A paragraph whose properties say what the node says, and whose inlines are rendered, gives its node back. */
  lemma ParagraphRenders(part: string, n: Node, x: Xml, inlines: seq<Xml>)
    requires n.Paragraph? && x.tag.P? && RendersAll(part, n.content, inlines)
    requires n.align == AlignOf(x.children) && n.numbered == Under(x.children, PPr, NumPr).Some?
    ensures RendersBlock(part, n, Rewritten(x, inlines))
  {
    hide Alike, AlikeAll, RendersAll, Under, InlinesOf, Only;
    var y := Rewritten(x, inlines);
    RenderedTags(part, n.content, inlines);
    RewrittenUnder(x, inlines, Jc);
    RewrittenUnder(x, inlines, NumPr);
    forall p: nat ensures AlikeAll([n], BlockOf(part, y, p)) {
      RenderedInlines(part, Only(x.children, PPr), n.content, inlines, p + 1);
      var m := BlockOf(part, y, p)[0];
      AlikeSame(n, m);
      OneAlike(n, m);
    }
  }

  lemma ImportedParagraph(part: string, n: Node, x: Xml, p: nat)
    requires n.Paragraph? && BlockOf(part, x, p) == [n]
    ensures x.tag.P? && n.align == AlignOf(x.children) && n.numbered == Under(x.children, PPr, NumPr).Some?
  {
    hide Under, InlinesOf, BlocksOf;
  }

  /** A copied paragraph must not repeat a section boundary. */
  function Unsectioned(xs: seq<Xml>): seq<Xml> {
    if xs == [] then []
    else [if xs[0].tag.PPr? then xs[0].(children := Without(xs[0].children, SectPr)) else xs[0]] + Unsectioned(xs[1..])
  }

  lemma {:induction false} UnsectionedUnder(xs: seq<Xml>, tag: Tag)
    requires !tag.SectPr?
    ensures Under(Unsectioned(xs), PPr, tag) == Under(xs, PPr, tag)
  {
    hide First, Without;
    if xs != [] {
      var x := if xs[0].tag.PPr? then xs[0].(children := Without(xs[0].children, SectPr)) else xs[0];
      UnsectionedUnder(xs[1..], tag);
      UnderFront(x, Unsectioned(xs[1..]), PPr, tag);
      WithoutFirst(xs[0].children, SectPr, tag);
    }
  }

  /** The element a new paragraph starts from: its source, without section boundary, under a paragraph identifier. */
  function Split(x: Xml, name: string): Xml {
    x.(children := Unsectioned(x.children), attrs := (x.attrs - {TextId})[ParaId := name])
  }

  lemma SplitProperties(x: Xml, name: string)
    ensures AlignOf(Split(x, name).children) == AlignOf(x.children)
    ensures Under(Split(x, name).children, PPr, NumPr) == Under(x.children, PPr, NumPr)
  {
    hide Under, Unsectioned;
    UnsectionedUnder(x.children, Jc);
    UnsectionedUnder(x.children, NumPr);
  }

  // ----- containers

  function Properties(xs: seq<Xml>): (r: seq<Xml>)
    ensures forall x | x in r :: IsProperties(x.tag)
  {
    if xs == [] then [] else if IsProperties(xs[0].tag) then [xs[0]] + Properties(xs[1..]) else Properties(xs[1..])
  }

  /** The blocks go before the first section boundary, or last. */
  function Placed(properties: seq<Xml>, blocks: seq<Xml>): seq<Xml> {
    if properties == [] || properties[0].tag.SectPr? then blocks + properties
    else [properties[0]] + Placed(properties[1..], blocks)
  }

  lemma {:induction false} PropertiesUnder(xs: seq<Xml>, tag: Tag)
    ensures Under(Properties(xs), TcPr, tag) == Under(xs, TcPr, tag)
  {
    hide First;
    if xs != [] {
      PropertiesUnder(xs[1..], tag);
      UnderFront(xs[0], Properties(xs[1..]), TcPr, tag);
    }
  }

  /** Where the blocks are placed: properties before and after them. */
  lemma {:induction false} PlacedBetween(properties: seq<Xml>, blocks: seq<Xml>)
    returns (before: seq<Xml>, after: seq<Xml>)
    requires forall x | x in properties :: IsProperties(x.tag)
    ensures Placed(properties, blocks) == (before + blocks) + after && properties == before + after
  {
    if properties == [] || properties[0].tag.SectPr? {
      before, after := [], properties;
      assert [] + blocks == blocks;
    } else {
      var b, a := PlacedBetween(properties[1..], blocks);
      before, after := [properties[0]] + b, a;
      assert ([properties[0]] + b) + blocks == [properties[0]] + (b + blocks);
      assert ((([properties[0]] + b) + blocks) + a) == [properties[0]] + ((b + blocks) + a);
    }
  }

  lemma {:induction false} PlacedUnder(properties: seq<Xml>, blocks: seq<Xml>, tag: Tag)
    requires forall x | x in blocks :: !x.tag.TcPr?
    ensures Under(Placed(properties, blocks), TcPr, tag) == Under(properties, TcPr, tag)
  {
    hide First;
    if properties == [] || properties[0].tag.SectPr? {
      BlocksFirst(blocks, properties, tag);
    } else {
      PlacedUnder(properties[1..], blocks, tag);
      UnderFront(properties[0], Placed(properties[1..], blocks), TcPr, tag);
    }
  }

  lemma {:induction false} BlocksFirst(blocks: seq<Xml>, rest: seq<Xml>, tag: Tag)
    requires forall x | x in blocks :: !x.tag.TcPr?
    ensures Under(blocks + rest, TcPr, tag) == Under(rest, TcPr, tag)
  {
    hide First;
    if blocks == [] {
      assert blocks + rest == rest;
    } else {
      assert blocks + rest == [blocks[0]] + (blocks[1..] + rest);
      UnderFront(blocks[0], blocks[1..] + rest, TcPr, tag);
      BlocksFirst(blocks[1..], rest, tag);
    }
  }

  /** What the children of a container become. */
  function Refilled(children: seq<Xml>, blocks: seq<Xml>): seq<Xml> {
    Placed(Properties(children), blocks)
  }

  /** Rendered blocks between kept properties give the nodes back, and column spans stay. */
  lemma RefilledRenders(part: string, children: seq<Xml>, ns: seq<Node>, blocks: seq<Xml>)
    requires RendersBlocks(part, ns, blocks)
    ensures forall p: nat :: AlikeAll(ns, BlocksOf(part, Refilled(children, blocks), p))
    ensures Spanned(Refilled(children, blocks)) == Spanned(children)
  {
    hide AlikeAll, BlocksOf, RendersBlocks, Under, Properties, Placed;
    BlockTags(part, ns, blocks);
    var properties := Properties(children);
    PlacedUnder(properties, blocks, GridSpan);
    PropertiesUnder(children, GridSpan);
    var before, after := PlacedBetween(properties, blocks);
    KeptProperties(properties, before, after);
    forall p: nat ensures AlikeAll(ns, BlocksOf(part, Refilled(children, blocks), p)) {
      RenderedBlocks(part, before, ns, blocks, p);
      BlocksFollowed(part, before + blocks, after, p);
    }
  }

  lemma KeptProperties(properties: seq<Xml>, before: seq<Xml>, after: seq<Xml>)
    requires (forall x | x in properties :: IsProperties(x.tag)) && properties == before + after
    ensures (forall x | x in before :: IsProperties(x.tag)) && forall x | x in after :: IsProperties(x.tag)
  {
    assert forall x | x in before :: x in properties;
    assert forall x | x in after :: x in properties;
  }

  lemma BlockTags(part: string, ns: seq<Node>, blocks: seq<Xml>)
    requires RendersBlocks(part, ns, blocks)
    ensures forall x | x in blocks :: !x.tag.TcPr?
  {
    forall x | x in blocks ensures !x.tag.TcPr? {
      var i :| 0 <= i < |blocks| && blocks[i] == x;
      assert RendersBlock(part, ns[i], blocks[i]);
    }
  }

  /** Nodes that differ at most in their content. */
  function Bare(n: Node): Node {
    match n
    case Doc(_) => Doc([])
    case Section(part, _) => Section(part, [])
    case Paragraph(id, align, numbered, _) => Paragraph(id, align, numbered, [])
    case Table(id, _) => Table(id, [])
    case TableRow(id, _) => TableRow(id, [])
    case TableCell(id, colspan, _) => TableCell(id, colspan, [])
    case Field(id, key, alias, _) => Field(id, key, alias, [])
    case _ => n
  }

  predicate IsGrid(n: Node) {
    n.Table? || n.TableRow? || n.TableCell?
  }

  /** A table element with its own properties and rendered content gives its node back. */
  lemma GridRenders(part: string, n: Node, m: Node, x: Xml, p0: nat, children: seq<Xml>)
    requires IsGrid(n) && Bare(n) == Bare(m) && BlockOf(part, x, p0) == [m]
    requires (forall p: nat :: AlikeAll(n.content, BlocksOf(part, children, p)))
      && Spanned(children) == Spanned(x.children)
    ensures RendersBlock(part, n, x.(children := children))
  {
    hide Alike, AlikeAll, BlocksOf, InlinesOf, Under, Spanned, Caption;
    var y := x.(children := children);
    assert IsTabular(x.tag);
    forall p: nat ensures AlikeAll([n], BlockOf(part, y, p)) {
      assert AlikeAll(n.content, BlocksOf(part, children, p + 1));
      var t := BlockOf(part, y, p)[0];
      AlikeSame(n, t);
      OneAlike(n, t);
    }
  }
}
