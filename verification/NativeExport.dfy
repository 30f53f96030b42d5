/** What writing a node does to the native identifiers: its element brings along what the node does. */
module NativeExport {
  import opened Common
  import opened DocumentModel
  import opened Ooxml
  import opened Reimport
  import opened XmlEdits
  import opened ControlExport
  import opened BlockExport
  import opened NativeIds
  import opened Identities
  import opened DocxPackage

  ghost predicate Extending(a: map<Id, string>, b: map<Id, string>) {
    forall id | id in a :: id in b && b[id] == a[id]
  }

  /** The nodes bring along exactly these identifiers, whatever further names are given out. */
  ghost predicate Brings(elements: map<Id, Xml>, names: map<Id, string>, ns: seq<Node>, natives: seq<string>) {
    forall more: map<Id, string> | Extending(names, more) :: NodesNatives(elements, more, ns) == natives
  }

  lemma BringsNow(elements: map<Id, Xml>, names: map<Id, string>, ns: seq<Node>, natives: seq<string>)
    requires Brings(elements, names, ns, natives)
    ensures NodesNatives(elements, names, ns) == natives
  {
    hide NodesNatives;
    assert Extending(names, names);
  }

  lemma BringsLater(elements: map<Id, Xml>, a: map<Id, string>, b: map<Id, string>, ns: seq<Node>, natives: seq<string>)
    requires Brings(elements, a, ns, natives) && Extending(a, b)
    ensures Brings(elements, b, ns, natives)
  {
    hide NodesNatives;
    forall more | Extending(b, more) ensures NodesNatives(elements, more, ns) == natives { assert Extending(a, more); }
  }

  lemma BringsNothing(elements: map<Id, Xml>, names: map<Id, string>)
    ensures Brings(elements, names, [], [])
  {
  }

  lemma BringsNext(elements: map<Id, Xml>, a: map<Id, string>, b: map<Id, string>, ns: seq<Node>, i: nat,
                   x: seq<string>, y: seq<string>)
    requires i < |ns| && Extending(a, b) && Brings(elements, a, ns[..i], x) && Brings(elements, b, [ns[i]], y)
    ensures Brings(elements, b, ns[..i + 1], x + y)
  {
    hide NodesNatives, NodeNatives;
    BringsLater(elements, a, b, ns[..i], x);
    forall more | Extending(b, more) ensures NodesNatives(elements, more, ns[..i + 1]) == x + y {
      NativesNext(elements, more, ns, i);
      OneNatives(elements, more, ns[i]);
    }
  }

  /** A node around what its content brings along. */
  lemma BringsAround(elements: map<Id, Xml>, names: map<Id, string>, n: Node, natives: seq<string>)
    requires (n.Paragraph? || IsGrid(n)) && Brings(elements, names, n.content, natives)
    ensures Brings(elements, names, [n], natives)
  {
    hide NodesNatives;
    forall more | Extending(names, more) ensures NodesNatives(elements, more, [n]) == natives {
      OneNatives(elements, more, n);
      assert [] + natives == natives;
    }
  }

  // ----- inlines

  lemma RunBrings(elements: map<Id, Xml>, names: map<Id, string>, n: Node, x: Xml)
    requires n.Text? && x.tag.R?
    ensures Brings(elements, names, [n], Natives(x))
  {
    forall more ensures NodesNatives(elements, more, [n]) == [] { OneNatives(elements, more, n); }
  }

  lemma LockedBrings(elements: map<Id, Xml>, names: map<Id, string>, n: Node, x: Xml)
    requires n.LockedInline? && n.id in elements && Natives(x) == Natives(elements[n.id])
    ensures Brings(elements, names, [n], Natives(x))
  {
    hide Natives;
    forall more ensures NodesNatives(elements, more, [n]) == Natives(x) { OneNatives(elements, more, n); }
  }

  lemma BoxBrings(elements: map<Id, Xml>, names: map<Id, string>, n: Node, x: Xml)
    requires n.Checkbox? && Box(x)
    ensures Brings(elements, names, [n], Natives(x))
  {
    hide OnlyRuns, NativesAll, Under;
    RunsNatives(ContentOf(x));
    NoNatives();
    assert Natives(x) == [];
    forall more ensures NodesNatives(elements, more, [n]) == [] { OneNatives(elements, more, n); }
  }

  lemma NoNatives()
    ensures NativesAll([]) == [] && BlocksNatives([]) == []
  {
  }

  /** A control whose content is text brings along its own identifier. */
  lemma ControlBrings(elements: map<Id, Xml>, names: map<Id, string>, part: string, n: Node, x: Xml, p: nat)
    requires n.Field? && Shell(x, n.key, n.alias) && AllText(n.content) && AlikeAll(n.content, Held(part, x, p))
    requires forall more | Extending(names, more) :: OwnNatives(elements, more, n) == OwnNative(x)
    ensures Brings(elements, names, [n], Natives(x))
  {
    hide OnlyRuns, NativesAll, Under, Held, Alike, OwnNatives, OwnNative, Natives, AllText, KeyOf, NodesNatives;
    AlikeText(n.content, Held(part, x, p));
    HeldRuns(part, x, p);
    RunsNatives(ContentOf(x));
    ControlNatives(x);
    NoNatives();
    assert OwnNative(x) + [] == OwnNative(x);
    forall more | Extending(names, more) ensures NodesNatives(elements, more, [n]) == Natives(x) {
      OneNatives(elements, more, n);
      TextNatives(elements, more, n.content);
      assert OwnNatives(elements, more, n) + [] == OwnNatives(elements, more, n);
    }
  }

  /** A control of the source still has the identifier it is known by. */
  lemma KeptNative(elements: map<Id, Xml>, names: map<Id, string>, part: string, original: Node, n: Node, x: Xml,
                   y: Xml, p: nat)
    requires original.Field? && n.Field? && n.id == original.id && InlineOf(part, x, p) == [original]
      && NativeOf(y) == NativeOf(x)
    ensures OwnNatives(elements, names, n) == OwnNative(y)
  {
    hide Under, Held, KeyOf, AllText, PlainRun, RunText, Natives;
  }

  lemma MadeNative(elements: map<Id, Xml>, names: map<Id, string>, n: Node, x: Xml)
    requires n.Field? && n.id.Made? && n.id in names && NativeOf(x) == Some(names[n.id])
    ensures OwnNatives(elements, names, n) == OwnNative(x)
  {
    hide Under;
  }

  // ----- around inlines and blocks

  lemma {:induction false} InlinesNatives(a: seq<Xml>, b: seq<Xml>)
    requires forall x | x in a :: x.tag.PPr?
    ensures NativesAll(a + b) == NativesAll(b)
    decreases |b|, |a|
  {
    hide Natives;
    if b != [] {
      var n := |b| - 1;
      assert (a + b)[..|a + b| - 1] == a + b[..n];
      InlinesNatives(a, b[..n]);
    } else if a != [] {
      var n := |a| - 1;
      assert a[n] in a && a + b == a && a[..n] + b == a[..n];
      InlinesNatives(a[..n], b);
    }
  }

  lemma InlinesMore(xs: seq<Xml>, x: Xml)
    requires !x.tag.PPr?
    ensures NativesAll(xs + [x]) == NativesAll(xs) + Natives(x)
  {
    hide Natives;
    assert (xs + [x])[..|xs|] == xs;
  }

  lemma BlocksMore(xs: seq<Xml>, x: Xml)
    ensures BlocksNatives(xs + [x]) == BlocksNatives(xs) + BlockNatives(x)
      && (AllTold(xs + [x]) <==> AllTold(xs) && SpansTold(x))
  {
    hide BlockNatives, SpansTold;
    assert (xs + [x])[..|xs|] == xs;
  }

  lemma {:induction false} BlocksJoin(a: seq<Xml>, b: seq<Xml>)
    ensures BlocksNatives(a + b) == BlocksNatives(a) + BlocksNatives(b)
      && (AllTold(a + b) <==> AllTold(a) && AllTold(b))
    decreases |b|
  {
    hide BlockNatives, SpansTold;
    if b == [] {
      assert a + b == a;
    } else {
      var n := |b| - 1;
      assert (a + b)[..|a + b| - 1] == a + b[..n];
      BlocksJoin(a, b[..n]);
    }
  }

  lemma {:induction false} PropertiesBring(xs: seq<Xml>)
    requires forall x | x in xs :: IsProperties(x.tag)
    ensures BlocksNatives(xs) == [] && AllTold(xs)
  {
    if xs != [] {
      var n := |xs| - 1;
      assert xs[n] in xs;
      PropertiesBring(xs[..n]);
    }
  }

  /** Blocks between kept properties bring along what they did. */
  lemma RefilledNatives(children: seq<Xml>, blocks: seq<Xml>)
    ensures BlocksNatives(Refilled(children, blocks)) == BlocksNatives(blocks)
    ensures AllTold(Refilled(children, blocks)) <==> AllTold(blocks)
  {
    hide BlocksNatives, AllTold, Properties, Placed;
    var properties := Properties(children);
    var before, after := PlacedBetween(properties, blocks);
    KeptProperties(properties, before, after);
    PropertiesBring(before);
    PropertiesBring(after);
    BlocksJoin(before, blocks);
    BlocksJoin(before + blocks, after);
    assert [] + BlocksNatives(blocks) == BlocksNatives(blocks);
    assert ([] + BlocksNatives(blocks)) + [] == BlocksNatives(blocks);
  }

  // ----- nodes and the elements written for them

  ghost predicate Carries(elements: map<Id, Xml>, names: map<Id, string>, n: Node, x: Xml) {
    Brings(elements, names, [n], Natives(x))
  }

  ghost predicate CarriesAll(elements: map<Id, Xml>, names: map<Id, string>, ns: seq<Node>, xs: seq<Xml>) {
    Brings(elements, names, ns, NativesAll(xs))
  }

  /** The column spans can be told as well. */
  ghost predicate CarriesBlock(elements: map<Id, Xml>, names: map<Id, string>, n: Node, x: Xml) {
    SpansTold(x) && Brings(elements, names, [n], BlockNatives(x))
  }

  ghost predicate CarriesBlocks(elements: map<Id, Xml>, names: map<Id, string>, ns: seq<Node>, xs: seq<Xml>) {
    AllTold(xs) && Brings(elements, names, ns, BlocksNatives(xs))
  }

  lemma CarriesNothing(elements: map<Id, Xml>, names: map<Id, string>, ns: seq<Node>)
    ensures CarriesAll(elements, names, ns[..0], []) && CarriesBlocks(elements, names, ns[..0], [])
  {
    assert ns[..0] == [];
    BringsNothing(elements, names);
  }

  lemma CarriesNext(elements: map<Id, Xml>, a: map<Id, string>, b: map<Id, string>, part: string, ns: seq<Node>,
                    i: nat, xs: seq<Xml>, x: Xml)
    requires i < |ns| && Extending(a, b) && CarriesAll(elements, a, ns[..i], xs) && Carries(elements, b, ns[i], x)
    requires Renders(part, ns[i], x)
    ensures CarriesAll(elements, b, ns[..i + 1], xs + [x])
  {
    hide Natives, NativesAll, Brings, InlineOf, AlikeAll;
    BringsNext(elements, a, b, ns, i, NativesAll(xs), Natives(x));
    InlinesMore(xs, x);
  }

  lemma CarriesNextBlock(elements: map<Id, Xml>, a: map<Id, string>, b: map<Id, string>, ns: seq<Node>, i: nat,
                         xs: seq<Xml>, x: Xml)
    requires i < |ns| && Extending(a, b) && CarriesBlocks(elements, a, ns[..i], xs)
      && CarriesBlock(elements, b, ns[i], x)
    ensures CarriesBlocks(elements, b, ns[..i + 1], xs + [x])
  {
    hide BlockNatives, BlocksNatives, Brings, SpansTold, AllTold;
    BringsNext(elements, a, b, ns, i, BlocksNatives(xs), BlockNatives(x));
    BlocksMore(xs, x);
  }

  lemma CarriesKept(elements: map<Id, Xml>, names: map<Id, string>, ns: seq<Node>, kept: seq<Xml>, xs: seq<Xml>)
    requires CarriesAll(elements, names, ns, xs) && forall x | x in kept :: x.tag.PPr?
    ensures CarriesAll(elements, names, ns, kept + xs)
  {
    hide NativesAll, Brings;
    InlinesNatives(kept, xs);
  }

  lemma CarriesRefilled(elements: map<Id, Xml>, names: map<Id, string>, ns: seq<Node>, children: seq<Xml>, xs: seq<Xml>)
    requires CarriesBlocks(elements, names, ns, xs)
    ensures CarriesBlocks(elements, names, ns, Refilled(children, xs))
  {
    hide BlocksNatives, Brings, AllTold, Refilled;
    RefilledNatives(children, xs);
  }

  lemma ParagraphCarries(elements: map<Id, Xml>, names: map<Id, string>, n: Node, x: Xml)
    requires n.Paragraph? && x.tag.P? && CarriesAll(elements, names, n.content, x.children)
    ensures CarriesBlock(elements, names, n, x)
  {
    hide NativesAll, Brings;
    BringsAround(elements, names, n, NativesAll(x.children));
  }

  lemma GridCarries(elements: map<Id, Xml>, names: map<Id, string>, n: Node, x: Xml, children: seq<Xml>)
    requires IsGrid(n) && IsTabular(x.tag) && SpansTold(x) && Spanned(children) == Spanned(x.children)
    requires CarriesBlocks(elements, names, n.content, children)
    ensures CarriesBlock(elements, names, n, x.(children := children))
  {
    hide BlocksNatives, Brings, AllTold, Spanned;
    BringsAround(elements, names, n, BlocksNatives(children));
  }

  /** A control of the source, edited in place. */
  lemma KnownCarries(elements: map<Id, Xml>, names: map<Id, string>, part: string, original: Node, n: Node, x: Xml,
                     y: Xml)
    requires original.Field? && n.Field? && n.id == original.id && NativeOf(y) == NativeOf(x)
    requires exists p: nat :: InlineOf(part, x, p) == [original]
    requires Shell(y, n.key, n.alias) && AllText(n.content) && forall p: nat :: AlikeAll(n.content, Held(part, y, p))
    ensures Carries(elements, names, n, y)
  {
    hide InlineOf, Shell, AllText, AlikeAll, Held, NativeOf, OwnNatives, OwnNative, Natives, Brings;
    var p: nat :| InlineOf(part, x, p) == [original];
    forall more | Extending(names, more) ensures OwnNatives(elements, more, n) == OwnNative(y) {
      KeptNative(elements, more, part, original, n, x, y, p);
    }
    ControlBrings(elements, names, part, n, y, p);
  }

  /** A control made in the editor. */
  lemma MadeCarries(elements: map<Id, Xml>, names: map<Id, string>, part: string, n: Node, x: Xml)
    requires n.Field? && n.id.Made? && n.id in names && NativeOf(x) == Some(names[n.id])
    requires Shell(x, n.key, n.alias) && AllText(n.content) && forall p: nat :: AlikeAll(n.content, Held(part, x, p))
    ensures Carries(elements, names, n, x)
  {
    hide Shell, AllText, AlikeAll, Held, NativeOf, OwnNatives, OwnNative, Natives, Brings;
    forall more | Extending(names, more) ensures OwnNatives(elements, more, n) == OwnNative(x) {
      MadeNative(elements, more, n, x);
    }
    ControlBrings(elements, names, part, n, x, 0);
  }

  // ----- paragraph identifiers

  /** The blocks among the children of a container. */
  function BlocksIn(xs: seq<Xml>): seq<Xml> {
    if xs == [] then [] else BlocksIn(xs[..|xs| - 1]) + if IsProperties(xs[|xs| - 1].tag) then [] else [xs[|xs| - 1]]
  }

  /** Every paragraph made in the editor stands there under the identifier it was given. */
  ghost predicate Labels(names: map<Id, string>, n: Node, x: Xml)
    decreases n, 1
  {
    if n.Paragraph? then n.id.Split? ==> n.id in names && ParaId in x.attrs && x.attrs[ParaId] == names[n.id]
    else IsGrid(n) ==> LabelsAll(names, n.content, BlocksIn(x.children))
  }

  ghost predicate LabelsAll(names: map<Id, string>, ns: seq<Node>, xs: seq<Xml>)
    decreases ns, 0
  {
    |ns| == |xs| && forall i | 0 <= i < |ns| :: Labels(names, ns[i], xs[i])
  }

  lemma {:induction false} LabelsLater(a: map<Id, string>, b: map<Id, string>, n: Node, x: Xml)
    requires Labels(a, n, x) && Extending(a, b)
    ensures Labels(b, n, x)
    decreases n, 1
  {
    hide BlocksIn;
    if IsGrid(n) {
      AllLabelsLater(a, b, n.content, BlocksIn(x.children));
    }
  }

  lemma {:induction false} AllLabelsLater(a: map<Id, string>, b: map<Id, string>, ns: seq<Node>, xs: seq<Xml>)
    requires LabelsAll(a, ns, xs) && Extending(a, b)
    ensures LabelsAll(b, ns, xs)
    decreases ns, 0
  {
    hide Labels, Extending;
    forall i | 0 <= i < |ns| ensures Labels(b, ns[i], xs[i]) { LabelsLater(a, b, ns[i], xs[i]); }
  }

  lemma LabelsNothing(names: map<Id, string>, ns: seq<Node>)
    ensures LabelsAll(names, ns[..0], [])
  {
  }

  lemma LabelsNext(a: map<Id, string>, b: map<Id, string>, ns: seq<Node>, i: nat, xs: seq<Xml>, x: Xml)
    requires i < |ns| && Extending(a, b) && LabelsAll(a, ns[..i], xs) && Labels(b, ns[i], x)
    ensures LabelsAll(b, ns[..i + 1], xs + [x])
  {
    hide Labels, Extending;
    AllLabelsLater(a, b, ns[..i], xs);
    forall k | 0 <= k <= i ensures Labels(b, ns[..i + 1][k], (xs + [x])[k]) {
      assert k < i ==> Labels(b, ns[..i][k], xs[k]);
    }
  }

  lemma {:induction false} BlocksInJoin(a: seq<Xml>, b: seq<Xml>)
    ensures BlocksIn(a + b) == BlocksIn(a) + BlocksIn(b)
    decreases |b|
  {
    if b == [] {
      assert a + b == a;
    } else {
      var n := |b| - 1;
      assert (a + b)[..|a + b| - 1] == a + b[..n];
      BlocksInJoin(a, b[..n]);
    }
  }

  lemma {:induction false} BlocksInKept(xs: seq<Xml>, properties: bool)
    requires forall x | x in xs :: IsProperties(x.tag) <==> properties
    ensures BlocksIn(xs) == if properties then [] else xs
  {
    if xs != [] {
      var n := |xs| - 1;
      assert xs[n] in xs && xs == xs[..n] + [xs[n]];
      BlocksInKept(xs[..n], properties);
    }
  }

  /** Blocks put among kept properties are the blocks found there. */
  lemma BlocksInRefilled(part: string, ns: seq<Node>, children: seq<Xml>, blocks: seq<Xml>)
    requires RendersBlocks(part, ns, blocks)
    ensures BlocksIn(Refilled(children, blocks)) == blocks
  {
    hide Properties, Placed, BlocksIn, AlikeAll, BlockOf;
    var properties := Properties(children);
    var before, after := PlacedBetween(properties, blocks);
    KeptProperties(properties, before, after);
    forall x | x in blocks ensures !IsProperties(x.tag) {
      var i :| 0 <= i < |blocks| && blocks[i] == x;
      assert RendersBlock(part, ns[i], blocks[i]);
    }
    BlocksInKept(before, true);
    BlocksInKept(blocks, false);
    BlocksInKept(after, true);
    BlocksInJoin(before, blocks);
    BlocksInJoin(before + blocks, after);
    assert ([] + blocks) + [] == blocks;
  }

  lemma LabelsRefilled(names: map<Id, string>, part: string, ns: seq<Node>, children: seq<Xml>, blocks: seq<Xml>)
    requires LabelsAll(names, ns, blocks) && RendersBlocks(part, ns, blocks)
    ensures LabelsAll(names, ns, BlocksIn(Refilled(children, blocks)))
  {
    hide LabelsAll, BlocksIn, Refilled, RendersBlocks;
    BlocksInRefilled(part, ns, children, blocks);
  }

  /** The source has no paragraph made in the editor. */
  lemma {:induction false} SourceLabels(names: map<Id, string>, part: string, x: Xml, p: nat)
    requires !IsProperties(x.tag)
    ensures |BlockOf(part, x, p)| == 1 && Labels(names, BlockOf(part, x, p)[0], x)
    decreases x, 1
  {
    hide InlinesOf, BlocksOf, Under, Spanned, AlignOf, Caption, BlocksIn;
    if IsTabular(x.tag) {
      AllSourceLabels(names, part, x.children, p + 1);
    }
  }

  lemma {:induction false} AllSourceLabels(names: map<Id, string>, part: string, xs: seq<Xml>, p: nat)
    ensures LabelsAll(names, BlocksOf(part, xs, p), BlocksIn(xs))
    decreases xs, 0
  {
    hide BlockOf, Elements, Labels;
    if xs != [] {
      var n := |xs| - 1;
      var q := p + ElementsAll(xs[..n]);
      AllSourceLabels(names, part, xs[..n], p);
      if IsProperties(xs[n].tag) {
        PropertiesRead(part, xs[n], q);
      } else {
        SourceLabels(names, part, xs[n], q);
        assert BlockOf(part, xs[n], q) == [BlockOf(part, xs[n], q)[0]];
      }
    }
  }
}
