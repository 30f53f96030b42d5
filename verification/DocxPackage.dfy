/** The importer: one traversal that reads the document, remembers where its nodes came from, and lists what is
    locked. */
module DocxPackage {
  import opened Common
  import opened DocumentModel
  import opened Correspondence
  import opened Ooxml
  import opened ImportReads
  import opened Identities
  import opened NativeIds

  function HomeOf(id: Id): Option<string> {
    match id case At(part, _) => Some(part) case Control(part, _) => Some(part) case _ => None
  }

  predicate IsInline(n: Node) {
    n.Field? || n.LockedInline? || n.Checkbox?
  }

  /** The element a node's identity stands for is the one it was imported from. */
  ghost predicate From(elements: map<Id, Xml>, part: string, n: Node) {
    if n.Text? then
      && n.text != [] && n.source.Some? && n.format.None? && HomeOf(n.source.value.id) == Some(part)
      && n.source.value.id in elements
      && elements[n.source.value.id].tag.R? && RunStyle(elements[n.source.value.id].children) == n.source.value.style
    else
      && IdOf(n).Some? && HomeOf(IdOf(n).value) == Some(part) && IdOf(n).value in elements
      && if IsInline(n)
         then !elements[IdOf(n).value].tag.PPr? && exists p: nat :: InlineOf(part, elements[IdOf(n).value], p) == [n]
         else exists p: nat :: BlockOf(part, elements[IdOf(n).value], p) == [n]
  }

  /** The element of a block: its column spans can be told, and it holds the native identifiers of its node. */
  ghost predicate Told(elements: map<Id, Xml>, n: Node) {
    !n.Text? && !IsInline(n) ==>
      && IdOf(n).Some? && IdOf(n).value in elements && SpansTold(elements[IdOf(n).value])
      && BlockNatives(elements[IdOf(n).value]) == NodeNatives(elements, map[], n)
  }

  /** Every node of a tree can be traced to its element. */
  ghost predicate Traced(elements: map<Id, Xml>, part: string, n: Node)
    decreases n
  {
    && From(elements, part, n) && Told(elements, n)
    && forall i | 0 <= i < |Content(n)| :: Traced(elements, part, Content(n)[i])
  }

  ghost predicate TracedAll(elements: map<Id, Xml>, part: string, ns: seq<Node>) {
    forall n | n in ns :: Traced(elements, part, n)
  }

  /** Native identifiers that can be registered: new, and none twice. */
  ghost predicate Registers(elements: map<Id, Xml>, part: string, natives: seq<string>) {
    NoRepeats(natives) && forall n | n in natives :: Control(part, n) !in elements
  }

  /** The table of elements has grown by entries of one range of one part. */
  ghost predicate Grown(before: map<Id, Xml>, after: map<Id, Xml>, part: string, low: nat, high: nat,
                        natives: seq<string>) {
    && (forall id | id in before :: id in after && after[id] == before[id])
    && (forall id | id in after && id !in before :: Issued(id, part, low, high, natives))
    && (forall n | n in natives :: Control(part, n) in after)
  }

  ghost predicate Free(elements: map<Id, Xml>, part: string, p: nat) {
    forall q: nat | p <= q :: At(part, q) !in elements
  }

  lemma {:induction false} StillTraced(before: map<Id, Xml>, after: map<Id, Xml>, part: string, n: Node)
    requires Traced(before, part, n) && forall id | id in before :: id in after && after[id] == before[id]
    ensures Traced(after, part, n) && NodeNatives(after, map[], n) == NodeNatives(before, map[], n)
    decreases n, 1
  {
    hide InlineOf, BlockOf, RunStyle, Natives, BlockNatives, SpansTold, NodesNatives;
    forall i | 0 <= i < |Content(n)| ensures Traced(after, part, Content(n)[i]) {
      StillTraced(before, after, part, Content(n)[i]);
    }
    if IsContainer(n) {
      forall i | 0 <= i < |n.content|
        ensures Traced(before, part, n.content[i])
      {
        assert Content(n)[i] == n.content[i];
      }
      StillNatives(before, after, part, n.content);
    }
  }

  lemma {:induction false} StillNatives(before: map<Id, Xml>, after: map<Id, Xml>, part: string, ns: seq<Node>)
    requires forall i | 0 <= i < |ns| :: Traced(before, part, ns[i])
    requires forall id | id in before :: id in after && after[id] == before[id]
    ensures NodesNatives(after, map[], ns) == NodesNatives(before, map[], ns)
    decreases ns, 0
  {
    hide Traced, NodeNatives;
    if ns != [] {
      StillNatives(before, after, part, ns[..|ns| - 1]);
      StillTraced(before, after, part, ns[|ns| - 1]);
    }
  }

  lemma AllTraced(before: map<Id, Xml>, after: map<Id, Xml>, part: string, ns: seq<Node>)
    requires TracedAll(before, part, ns) && forall id | id in before :: id in after && after[id] == before[id]
    ensures TracedAll(after, part, ns)
  {
    hide Traced;
    forall n | n in ns ensures Traced(after, part, n) { StillTraced(before, after, part, n); }
  }

  lemma GrownOn(a: map<Id, Xml>, b: map<Id, Xml>, c: map<Id, Xml>, part: string, low: nat, middle: nat, high: nat,
                x: seq<string>, y: seq<string>)
    requires Grown(a, b, part, low, middle, x) && Grown(b, c, part, middle, high, y) && low <= middle <= high
    ensures Grown(a, c, part, low, high, x + y)
  {
  }

  lemma GrownFree(a: map<Id, Xml>, b: map<Id, Xml>, part: string, low: nat, high: nat, x: seq<string>)
    requires Grown(a, b, part, low, high, x) && Free(a, part, low) && low <= high
    ensures Free(b, part, high)
  {
  }

  lemma RegistersMore(a: map<Id, Xml>, b: map<Id, Xml>, part: string, low: nat, high: nat, x: seq<string>,
                      y: seq<string>)
    requires Grown(a, b, part, low, high, x) && Registers(a, part, x)
    ensures Registers(a, part, x + y) <==> Registers(b, part, y)
  {
    hide NoRepeats;
    NoRepeatsConcat(x, y);
    forall n | n in y ensures Control(part, n) in b <==> Control(part, n) in a || n in x {
      if Control(part, n) in b && Control(part, n) !in a {
        assert Issued(Control(part, n), part, low, high, x);
      }
    }
  }

  lemma RegistersPrefix(a: map<Id, Xml>, part: string, x: seq<string>, y: seq<string>)
    requires Registers(a, part, x + y)
    ensures Registers(a, part, x)
  {
    hide NoRepeats;
    NoRepeatsConcat(x, y);
  }

  lemma {:induction false} NativesPrefix(xs: seq<Xml>, i: nat) returns (rest: seq<string>)
    requires i <= |xs|
    ensures NativesAll(xs) == NativesAll(xs[..i]) + rest
    decreases |xs| - i
  {
    if i == |xs| {
      assert xs[..i] == xs;
      rest := [];
    } else {
      hide Natives, InlineOf, Elements;
      var more := NativesPrefix(xs, i + 1);
      NextInline([], xs, i, 0);
      var own := if xs[i].tag.PPr? then [] else Natives(xs[i]);
      rest := own + more;
      Associate(NativesAll(xs[..i]), own, more);
    }
  }

  lemma {:induction false} BlocksPrefix(xs: seq<Xml>, i: nat) returns (rest: seq<string>)
    requires i <= |xs|
    ensures BlocksNatives(xs) == BlocksNatives(xs[..i]) + rest
    ensures AllTold(xs) ==> AllTold(xs[..i])
    decreases |xs| - i
  {
    if i == |xs| {
      assert xs[..i] == xs;
      rest := [];
    } else {
      hide BlockNatives, BlockOf, Elements, SpansTold;
      var more := BlocksPrefix(xs, i + 1);
      NextBlock([], xs, i, 0);
      rest := BlockNatives(xs[i]) + more;
      Associate(BlocksNatives(xs[..i]), BlockNatives(xs[i]), more);
    }
  }

  lemma {:induction false} LockedConcat(a: seq<Node>, b: seq<Node>)
    ensures LockedAll(a + b) == LockedAll(a) + LockedAll(b)
    decreases |b|
  {
    hide LockedOf;
    if b == [] {
      assert a + b == a;
    } else {
      var n := |b| - 1;
      assert (a + b)[..|a + b| - 1] == a + b[..n];
      LockedConcat(a, b[..n]);
    }
  }

  lemma {:induction false} TextUnlocked(ns: seq<Node>)
    requires AllText(ns)
    ensures LockedAll(ns) == []
  {
    if ns != [] {
      assert ns[|ns| - 1] in ns;
      TextUnlocked(ns[..|ns| - 1]);
    }
  }

  lemma OneLocked(n: Node)
    ensures LockedAll([n]) == LockedOf(n) && LockedAll([]) == []
  {
    assert [n][..0] == [];
  }

  /** A freshly made node is traced to the element it was made from. */
  lemma MadeInline(elements: map<Id, Xml>, part: string, x: Xml, p: nat, n: Node)
    requires InlineOf(part, x, p) == [n] && !x.tag.PPr? && IdOf(n).Some? && IdOf(n).value in elements
      && elements[IdOf(n).value] == x
    requires TracedAll(elements, part, Content(n))
    ensures Traced(elements, part, n) && TracedAll(elements, part, [n])
  {
    hide Caption, Under, RunText, PlainRun, KeyOf, Traced;
    forall i | 0 <= i < |Content(n)|
      ensures Traced(elements, part, Content(n)[i])
    {
      assert Content(n)[i] in Content(n);
    }
    assert From(elements, part, n);
    TraceIs(elements, part, n);
  }

  lemma TraceIs(elements: map<Id, Xml>, part: string, n: Node)
    requires From(elements, part, n) && Told(elements, n)
      && forall i | 0 <= i < |Content(n)| :: Traced(elements, part, Content(n)[i])
    ensures Traced(elements, part, n)
  {
    hide From, Told;
  }

  lemma MadeBlock(elements: map<Id, Xml>, part: string, x: Xml, p: nat, n: Node)
    requires BlockOf(part, x, p) == [n] && At(part, p) in elements && elements[At(part, p)] == x
    requires TracedAll(elements, part, Content(n)) && SpansTold(x) && BlockNatives(x) == NodeNatives(elements, map[], n)
    ensures TracedAll(elements, part, [n])
  {
    hide Caption, Under, InlinesOf, BlocksOf, Spanned, AlignOf, Traced, BlockNatives, NodeNatives, SpansTold;
    forall i | 0 <= i < |Content(n)|
      ensures Traced(elements, part, Content(n)[i])
    {
      assert Content(n)[i] in Content(n);
    }
    assert From(elements, part, n);
    TraceIs(elements, part, n);
  }

  // ----- where the elements stand

  /** The element filed under an identity is the one that stands at its place in the part, or has its identifier. */
  ghost predicate StandsAs(all: seq<Xml>, id: Id, x: Xml) {
    match id
    case At(_, p) => p < |all| && all[p] == x
    case Control(_, native) => x in all && OwnNative(x) == [native]
    case _ => false
  }

  ghost predicate Standing(elements: map<Id, Xml>, part: string, all: seq<Xml>) {
    forall id | id in elements && HomeOf(id) == Some(part) :: StandsAs(all, id, elements[id])
  }

  /** The element stands in the part from position `p` on. */
  ghost predicate StandsHere(all: seq<Xml>, x: Xml, p: nat) {
    p < |all| && all[p] == x && Spread(all, x.children, p + 1)
  }

  lemma ChildrenStand(all: seq<Xml>, xs: seq<Xml>, p: nat, i: nat)
    requires Spread(all, xs, p) && i < |xs|
    ensures StandsHere(all, xs[i], p + ElementsAll(xs[..i]))
    decreases |xs|
  {
    SpreadLast(all, xs, p);
    var n := |xs| - 1;
    if i < n {
      ChildrenStand(all, xs[..n], p, i);
      assert xs[..n][..i] == xs[..i];
    }
  }

  lemma ContentStands(all: seq<Xml>, x: Xml, p: nat)
    requires StandsHere(all, x, p) && Holder(x).Some?
    ensures Spread(all, Holder(x).value.children, p + Ahead(x.children, SdtContent) + 2)
  {
    SpreadHolder(all, x.children, p + 1, SdtContent);
  }

  lemma StandsMore(elements: map<Id, Xml>, part: string, all: seq<Xml>, x: Xml, p: nat)
    requires Standing(elements, part, all) && StandsHere(all, x, p)
    ensures Standing(elements[At(part, p) := x], part, all)
    ensures OwnNative(x) != [] ==> Standing(elements[At(part, p) := x][Control(part, OwnNative(x)[0]) := x], part, all)
  {
    hide Spread, Under;
  }

  // ----- one step of the traversal

  /** What reading one range of a part has done to the tables, besides yielding `r`. */
  ghost predicate Outcome(a: map<Id, Xml>, b: map<Id, Xml>, u: seq<Id>, v: seq<Id>, part: string, low: nat, high: nat,
                          natives: seq<string>, r: seq<Node>) {
    && Grown(a, b, part, low, high, natives) && TracedAll(b, part, r) && v == u + LockedAll(r)
    && NodesNatives(b, map[], r) == natives
  }

  lemma OutcomeOn(a: map<Id, Xml>, b: map<Id, Xml>, c: map<Id, Xml>, u: seq<Id>, v: seq<Id>, w: seq<Id>, part: string,
                  low: nat, middle: nat, high: nat, x: seq<string>, y: seq<string>, r: seq<Node>, s: seq<Node>)
    requires Outcome(a, b, u, v, part, low, middle, x, r) && Outcome(b, c, v, w, part, middle, high, y, s)
      && low <= middle <= high
    ensures Outcome(a, c, u, w, part, low, high, x + y, r + s)
  {
    hide Traced, Issued;
    AllTraced(b, c, part, r);
    AllNatives(b, c, part, r);
    NativesConcat(c, map[], r, s);
    LockedConcat(r, s);
    Associate(u, LockedAll(r), LockedAll(s));
    GrownOn(a, b, c, part, low, middle, high, x, y);
    hide Grown;
  }

  lemma AllNatives(before: map<Id, Xml>, after: map<Id, Xml>, part: string, ns: seq<Node>)
    requires TracedAll(before, part, ns) && forall id | id in before :: id in after && after[id] == before[id]
    ensures NodesNatives(after, map[], ns) == NodesNatives(before, map[], ns)
  {
    hide Traced;
    forall i | 0 <= i < |ns| ensures Traced(before, part, ns[i]) { assert ns[i] in ns; }
    StillNatives(before, after, part, ns);
  }

  lemma NothingRead(a: map<Id, Xml>, u: seq<Id>, part: string, p: nat, high: nat)
    requires p <= high
    ensures Outcome(a, a, u, u, part, p, high, [], [])
  {
    assert u + [] == u;
  }

  lemma {:induction false} ElementsFront(xs: seq<Xml>)
    requires xs != []
    ensures ElementsAll(xs) == Elements(xs[0]) + ElementsAll(xs[1..])
  {
    hide Elements;
    var n := |xs| - 1;
    if n == 0 {
      assert xs[..0] == [] && xs[1..] == [];
    } else {
      ElementsFront(xs[..n]);
      assert xs[..n][1..] == xs[1..][..n - 1];
    }
  }

  lemma {:induction false} ContentFits(xs: seq<Xml>, tag: Tag)
    requires First(xs, tag).Some?
    ensures Ahead(xs, tag) + Elements(First(xs, tag).value) <= ElementsAll(xs)
  {
    hide Elements;
    ElementsFront(xs);
    if xs[0].tag != tag {
      ContentFits(xs[1..], tag);
    }
  }

  lemma ContentEnds(x: Xml, p: nat)
    ensures Holder(x).Some? ==> p + Ahead(x.children, SdtContent) + 2 + ElementsAll(ContentOf(x)) <= p + Elements(x)
    ensures Elements(x) >= 1
  {
    if Holder(x).Some? {
      ContentFits(x.children, SdtContent);
    }
  }

  function ContentNatives(x: Xml): seq<string> {
    if Holder(x).None? then [] else NativesAll(Holder(x).value.children)
  }

  function OwnNative(x: Xml): seq<string> {
    if Under(x.children, SdtPr, NativeId).Some? then [ValueIn(Under(x.children, SdtPr, NativeId))] else []
  }

  /** The element itself is entered, under its position and, if it has one, its native identifier. */
  function Entered(a: map<Id, Xml>, part: string, x: Xml, p: nat, natives: seq<string>): map<Id, Xml> {
    if natives == [] then a[At(part, p) := x] else a[At(part, p) := x][Control(part, natives[0]) := x]
  }

  lemma EnteredGrows(a: map<Id, Xml>, part: string, x: Xml, p: nat, natives: seq<string>)
    requires Free(a, part, p) && |natives| <= 1 && Registers(a, part, natives)
    ensures Grown(a, Entered(a, part, x, p, natives), part, p, p + 1, natives)
    ensures Free(Entered(a, part, x, p, natives), part, p + 1)
  {
  }

  /** Entering an element again after its content changes nothing but its position. */
  lemma EnteredLast(a: map<Id, Xml>, b: map<Id, Xml>, part: string, x: Xml, p: nat, high: nat, natives: seq<string>)
    requires Free(a, part, p) && Grown(a, b, part, p + 1, high, natives) && p < high
    ensures Grown(a, b[At(part, p) := x], part, p, high, natives)
    ensures forall id | id in b :: id in b[At(part, p) := x] && b[At(part, p) := x][id] == b[id]
  {
    assert forall id | id in b && id !in a :: Issued(id, part, p + 1, high, natives);
  }

  /** The outcome when an element is locked: whatever its content listed is forgotten. */
  lemma LockedOutcome(a: map<Id, Xml>, b: map<Id, Xml>, u: seq<Id>, part: string, x: Xml, p: nat, high: nat,
                      natives: seq<string>)
    requires Grown(a, b, part, p, high, natives) && At(part, p) in b && b[At(part, p)] == x && !x.tag.PPr?
    requires InlineOf(part, x, p) == [Locked(part, x, p)] && natives == Natives(x)
    ensures Outcome(a, b, u, u + [At(part, p)], part, p, high, natives, [Locked(part, x, p)])
  {
    hide InlineOf, Caption, Grown, Natives;
    MadeInline(b, part, x, p, Locked(part, x, p));
    OneLocked(Locked(part, x, p));
    OneNatives(b, map[], Locked(part, x, p));
  }

  lemma LockedHere(a: map<Id, Xml>, u: seq<Id>, part: string, x: Xml, p: nat)
    requires Free(a, part, p) && !x.tag.PPr? && InlineOf(part, x, p) == [Locked(part, x, p)] && Natives(x) == []
    ensures Outcome(a, a[At(part, p) := x], u, u + [At(part, p)], part, p, p + Elements(x), [], [Locked(part, x, p)])
  {
    hide InlineOf, Caption, ElementsAll, Natives;
    LockedOutcome(a, a[At(part, p) := x], u, part, x, p, p + Elements(x), []);
  }

  lemma TextOutcome(a: map<Id, Xml>, u: seq<Id>, part: string, x: Xml, p: nat)
    requires Free(a, part, p) && x.tag.R? && PlainRun(x.children) && RunText(x.children) != []
    ensures Outcome(a, a[At(part, p) := x], u, u, part, p, p + Elements(x), [], InlineOf(part, x, p))
  {
    hide RunText, RunStyle, ElementsAll, PlainRun;
    var n := InlineOf(part, x, p)[0];
    OneLocked(n);
    OneNatives(a[At(part, p) := x], map[], n);
    assert u + [] == u;
    TraceIs(a[At(part, p) := x], part, n);
  }

  lemma FieldOutcome(a: map<Id, Xml>, b: map<Id, Xml>, u: seq<Id>, part: string, x: Xml, p: nat, high: nat,
                     natives: seq<string>)
    requires Grown(a, b, part, p, high, natives) && natives == OwnNative(x)
    requires IsControl(x) && !Restricted(x) && AllText(Held(part, x, p)) && TracedAll(b, part, Held(part, x, p))
    requires ControlId(part, x, p) in b && b[ControlId(part, x, p)] == x
    ensures Outcome(a, b, u, u, part, p, high, natives, InlineOf(part, x, p))
    ensures InlineOf(part, x, p) ==
      [Field(ControlId(part, x, p), KeyOf(x), ValueIn(Under(x.children, SdtPr, Alias)), Held(part, x, p))]
  {
    hide Held, Under, KeyOf, Grown, Traced;
    var n := InlineOf(part, x, p)[0];
    TextUnlocked(n.content);
    TextNatives(b, map[], n.content);
    OneLocked(n);
    OneNatives(b, map[], n);
    assert u + [] == u;
    hide InlineOf;
    MadeInline(b, part, x, p, n);
  }

  lemma BoxOutcome(a: map<Id, Xml>, b: map<Id, Xml>, u: seq<Id>, part: string, x: Xml, p: nat, high: nat,
                   natives: seq<string>)
    requires Grown(a, b, part, p, high, natives) && At(part, p) in b && b[At(part, p)] == x
    requires IsCheckbox(x) && AllText(Held(part, x, p)) && natives == []
    ensures Outcome(a, b, u, u, part, p, high, natives, InlineOf(part, x, p))
    ensures InlineOf(part, x, p) == [Checkbox(At(part, p), IsChecked(x))]
  {
    hide Held, Under, Deep, Grown, Traced;
    var n := InlineOf(part, x, p)[0];
    OneLocked(n);
    OneNatives(b, map[], n);
    assert u + [] == u;
    hide InlineOf;
    MadeInline(b, part, x, p, n);
  }

  lemma BlockOutcome(a: map<Id, Xml>, b: map<Id, Xml>, u: seq<Id>, v: seq<Id>, part: string, x: Xml, p: nat,
                     natives: seq<string>, n: Node)
    requires Free(a, part, p) && BlockOf(part, x, p) == [n] && !n.LockedBlock? && SpansTold(x)
      && natives == BlockNatives(x)
    requires Outcome(a[At(part, p) := x], b, u, v, part, p + 1, p + Elements(x), natives, Content(n))
    ensures Outcome(a, b, u, v, part, p, p + Elements(x), natives, [n])
  {
    hide BlockOf, ElementsAll, Traced, SpansTold, BlockNatives;
    EnteredGrows(a, part, x, p, []);
    GrownOn(a, a[At(part, p) := x], b, part, p, p + 1, p + Elements(x), [], natives);
    assert [] + natives == natives;
    hide Grown;
    OneLocked(n);
    OneNatives(b, map[], n);
    BlockContent(part, x, p, n);
    BlockOwn(b, part, x, p, n);
    MadeBlock(b, part, x, p, n);
  }

  lemma BlockOwn(elements: map<Id, Xml>, part: string, x: Xml, p: nat, n: Node)
    requires BlockOf(part, x, p) == [n] && !n.LockedBlock?
    ensures NodeNatives(elements, map[], n) == NodesNatives(elements, map[], Content(n))
  {
    hide InlinesOf, BlocksOf, NodesNatives, Caption, Under, Spanned, AlignOf;
    assert [] + NodesNatives(elements, map[], Content(n)) == NodesNatives(elements, map[], Content(n));
  }

  lemma BlockContent(part: string, x: Xml, p: nat, n: Node)
    requires BlockOf(part, x, p) == [n] && !n.LockedBlock?
    ensures LockedOf(n) == LockedAll(Content(n))
  {
    hide InlinesOf, BlocksOf;
  }

  class DocxPackage {
    var elements: map<Id, Xml>
    var unsupported: seq<Id>

    constructor ()
      ensures elements == map[] && unsupported == []
    {
      elements, unsupported := map[], [];
    }

    method Identity(part: string, x: Xml, p: nat) returns (id: Id)
      modifies this`elements
      ensures id == At(part, p) && elements == old(elements)[id := x]
    {
      id := At(part, p);
      elements := elements[id := x];
    }

    method Lock(part: string, x: Xml, p: nat, inline: bool) returns (n: Node)
      modifies this
      ensures elements == old(elements)[At(part, p) := x] && unsupported == old(unsupported) + [At(part, p)]
      ensures n == if inline then Locked(part, x, p) else LockedBlock(At(part, p), Caption(x))
    {
      var id := Identity(part, x, p);
      unsupported := unsupported + [id];
      n := if inline then LockedInline(id, Caption(x), map[]) else LockedBlock(id, Caption(x));
    }

    /** One inline element: exactly what the specification reads, refused exactly when a native identifier repeats. */
    method Inline(part: string, x: Xml, p: nat, ghost all: seq<Xml>) returns (r: Option<seq<Node>>)
      requires Free(elements, part, p) && !x.tag.PPr? && StandsHere(all, x, p) && Standing(elements, part, all)
      modifies this
      ensures Standing(elements, part, all)
      ensures r.Some? <==> Registers(old(elements), part, Natives(x))
      ensures r.Some? ==>
        && r.value == InlineOf(part, x, p)
        && Outcome(old(elements), elements, old(unsupported), unsupported, part, p, p + Elements(x), Natives(x),
             r.value)
      decreases x, 2
    {
      hide Caption, Under, RunText, PlainRun, KeyOf, Deep, RunStyle, Outcome, Free, ElementsAll, Held, Standing,
        StandsHere;
      StandsMore(elements, part, all, x, p);
      if x.tag.R? {
        if !PlainRun(x.children) {
          LockedHere(elements, unsupported, part, x, p);
          var locked := Lock(part, x, p, true);
          r := Some([locked]);
        } else if RunText(x.children) != [] {
          TextOutcome(elements, unsupported, part, x, p);
          var id := Identity(part, x, p);
          r := Some([Text(RunText(x.children), Some(Source(id, RunStyle(x.children))), None)]);
        } else {
          NothingRead(elements, unsupported, part, p, p + Elements(x));
          r := Some([]);
        }
      } else if IsControl(x) {
        if Restricted(x) {
          LockedHere(elements, unsupported, part, x, p);
          var locked := Lock(part, x, p, true);
          r := Some([locked]);
        } else {
          r := TextControl(part, x, p, all);
        }
      } else if IsCheckbox(x) {
        r := Box(part, x, p, all);
      } else {
        LockedHere(elements, unsupported, part, x, p);
        var locked := Lock(part, x, p, true);
        r := Some([locked]);
      }
    }

    /** The content of a control, read in place. */
    method Inner(part: string, x: Xml, p: nat, ghost all: seq<Xml>) returns (r: Option<seq<Node>>)
      requires Free(elements, part, p + 1) && StandsHere(all, x, p) && Standing(elements, part, all)
      modifies this
      ensures Standing(elements, part, all)
      ensures r.Some? <==> Registers(old(elements), part, ContentNatives(x))
      ensures r.Some? ==>
        && r.value == Held(part, x, p)
        && Outcome(old(elements), elements, old(unsupported), unsupported, part, p + 1, p + Elements(x),
             ContentNatives(x), r.value)
      decreases x, 0
    {
      hide InlinesOf, NativesAll, Registers, Standing, StandsHere, Spread, Outcome, Free, Elements, ElementsAll,
        InlinesRead, First, Ahead;
      ContentEnds(x, p);
      if Holder(x).None? {
        NothingRead(elements, unsupported, part, p + 1, p + Elements(x));
        NoneRegisters(elements, part);
        r := Some([]);
      } else {
        var at := p + Ahead(x.children, SdtContent) + 2;
        ContentStands(all, x, p);
        FreeFrom(elements, part, p + 1, at);
        r := Inlines(part, Holder(x).value.children, at, all);
        if r.Some? {
          WiderOutcome(old(elements), elements, old(unsupported), unsupported, part, at, at + ElementsAll(ContentOf(x)),
                       ContentNatives(x), r.value, p + 1, p + Elements(x));
        }
      }
    }

    method TextControl(part: string, x: Xml, p: nat, ghost all: seq<Xml>) returns (r: Option<seq<Node>>)
      requires Free(elements, part, p) && IsControl(x) && !Restricted(x) && StandsHere(all, x, p)
        && Standing(elements, part, all)
      modifies this
      ensures Standing(elements, part, all)
      ensures r.Some? <==> Registers(old(elements), part, Natives(x))
      ensures r.Some? ==>
        && r.value == InlineOf(part, x, p)
        && Outcome(old(elements), elements, old(unsupported), unsupported, part, p, p + Elements(x), Natives(x),
             r.value)
      decreases x, 1
    {
      hide Caption, Under, KeyOf, Outcome, Free, ElementsAll, Held, Grown, Registers, Natives, TracedAll, InlineOf,
        IsControl, Restricted, OwnNative, ContentNatives, ControlId, Standing, StandsHere;
      StandsMore(elements, part, all, x, p);
      var id := Identity(part, x, p);
      var native := OwnNative(x);
      ControlNatives(x);
      OwnRegisters(old(elements), part, x, p, native);
      if native != [] {
        id := Control(part, native[0]);
        if id in elements {
          NotRegistered(old(elements), part, native, ContentNatives(x));
          return None;
        }
        elements := elements[id := x];
      }
      assert elements == Entered(old(elements), part, x, p, native) && id == ControlId(part, x, p);
      EnteredGrows(old(elements), part, x, p, native);
      RegistersMore(old(elements), elements, part, p, p + 1, native, ContentNatives(x));
      ghost var entered := elements;
      var previous := unsupported;
      var children := Inner(part, x, p, all);
      if children.None? {
        return None;
      }
      ControlGrown(old(elements), entered, elements, previous, unsupported, part, x, p, native, children.value);
      if !AllText(children.value) {
        unsupported := previous;
        ControlLocks(part, x, p);
        LockedOutcome(old(elements), elements, unsupported, part, x, p, p + Elements(x), Natives(x));
        ghost var read := elements;
        var locked := Lock(part, x, p, true);
        assert elements == read;
        r := Some([locked]);
      } else {
        assert native + [] == native;
        FieldOutcome(old(elements), elements, previous, part, x, p, p + Elements(x), Natives(x));
        r := Some([Field(id, KeyOf(x), ValueIn(Under(x.children, SdtPr, Alias)), children.value)]);
      }
    }

    method Box(part: string, x: Xml, p: nat, ghost all: seq<Xml>) returns (r: Option<seq<Node>>)
      requires Free(elements, part, p) && IsCheckbox(x) && StandsHere(all, x, p) && Standing(elements, part, all)
      modifies this
      ensures Standing(elements, part, all)
      ensures r.Some? <==> Registers(old(elements), part, Natives(x))
      ensures r.Some? ==>
        && r.value == InlineOf(part, x, p)
        && Outcome(old(elements), elements, old(unsupported), unsupported, part, p, p + Elements(x), Natives(x),
             r.value)
      decreases x, 1
    {
      hide Caption, Under, Deep, Outcome, ElementsAll, Held, Grown, Registers, Natives, TracedAll, InlineOf,
        IsCheckbox, Free, ContentNatives, Standing, StandsHere;
      var previous := unsupported;
      FreeNext(elements, part, p);
      BoxNatives(x);
      var children := Inner(part, x, p, all);
      if children.None? {
        return None;
      }
      BoxGrown(old(elements), elements, previous, unsupported, part, x, p, children.value);
      StandsMore(elements, part, all, x, p);
      if !AllText(children.value) {
        unsupported := previous;
        var locked := Lock(part, x, p, true);
        BoxLocks(part, x, p);
        LockedOutcome(old(elements), elements, previous, part, x, p, p + Elements(x), Natives(x));
        r := Some([locked]);
      } else {
        var id := Identity(part, x, p);
        BoxOutcome(old(elements), elements, previous, part, x, p, p + Elements(x), Natives(x));
        r := Some([Checkbox(id, IsChecked(x))]);
      }
    }

    /** `inlines`: what the specification reads, with every node traced to its element and every lock listed once. */
    method Inlines(part: string, xs: seq<Xml>, p: nat, ghost all: seq<Xml>) returns (r: Option<seq<Node>>)
      requires Free(elements, part, p) && Spread(all, xs, p) && Standing(elements, part, all)
      modifies this
      ensures Standing(elements, part, all)
      ensures r.Some? <==> Registers(old(elements), part, NativesAll(xs))
      ensures r.Some? ==>
        && r.value == InlinesOf(part, xs, p)
        && InlinesRead(part, all, xs, p, r.value)
        && Outcome(old(elements), elements, old(unsupported), unsupported, part, p, p + ElementsAll(xs),
             NativesAll(xs), r.value)
      decreases xs, 0
    {
      hide InlinesRead, Spread, InlineOf, InlinesOf, Natives, NativesAll, Elements, Outcome, Registers, Free,
        ElementsAll, Standing, StandsHere;
      var result: seq<Node> := [];
      StartRead(elements, unsupported, part, xs, p);
      var i := 0;
      while i < |xs|
        invariant 0 <= i <= |xs| && result == InlinesOf(part, xs[..i], p) && Standing(elements, part, all)
        invariant Registers(old(elements), part, NativesAll(xs[..i]))
        invariant Outcome(old(elements), elements, old(unsupported), unsupported, part, p, p + ElementsAll(xs[..i]),
                          NativesAll(xs[..i]), result)
      {
        ghost var q, sofar, listed := p + ElementsAll(xs[..i]), elements, unsupported;
        NextInline(part, xs, i, p);
        ReadOn(old(elements), elements, old(unsupported), unsupported, part, p, q, NativesAll(xs[..i]), result);
        var next: seq<Node> := [];
        if xs[i].tag.PPr? {
          NothingRead(elements, unsupported, part, q, q + Elements(xs[i]));
          RegistersMore(old(elements), elements, part, p, q, NativesAll(xs[..i]), []);
          NoneRegisters(elements, part);
        } else {
          RegistersMore(old(elements), elements, part, p, q, NativesAll(xs[..i]), Natives(xs[i]));
          ChildrenStand(all, xs, p, i);
          var read := Inline(part, xs[i], p + ElementsAll(xs[..i]), all);
          if read.None? {
            RefusedInline(old(elements), part, xs, i);
            return None;
          }
          next := read.value;
        }
        OutcomeOn(old(elements), sofar, elements, old(unsupported), listed, unsupported, part, p, q,
          q + Elements(xs[i]),
                  NativesAll(xs[..i]), if xs[i].tag.PPr? then [] else Natives(xs[i]), result, next);
        result := result + next;
        i := i + 1;
      }
      assert xs[..i] == xs;
      InlinesReads(part, all, xs, p);
      r := Some(result);
    }

    method Block(part: string, x: Xml, p: nat, ghost all: seq<Xml>) returns (r: Option<seq<Node>>)
      requires Free(elements, part, p) && !IsProperties(x.tag) && StandsHere(all, x, p) && Standing(elements, part, all)
      modifies this
      ensures Standing(elements, part, all)
      ensures r.Some? <==> SpansTold(x) && Registers(old(elements), part, BlockNatives(x))
      ensures r.Some? ==>
        && r.value == BlockOf(part, x, p)
        && Outcome(old(elements), elements, old(unsupported), unsupported, part, p, p + Elements(x), BlockNatives(x),
             r.value)
      decreases x, 2
    {
      hide Caption, Under, Outcome, ElementsAll, InlinesOf, BlocksOf, NativesAll, BlocksNatives, AlignOf, Spanned,
        Standing, Spread, InlinesRead, BlocksRead;
      StandsMore(elements, part, all, x, p);
      EnteredGrows(elements, part, x, p, []);
      RegistersMore(elements, Entered(elements, part, x, p, []), part, p, p + 1, [], BlockNatives(x));
      assert [] + BlockNatives(x) == BlockNatives(x);
      hide Free, Registers, Grown;
      if x.tag.P? {
        var id := Identity(part, x, p);
        var content := Inlines(part, x.children, p + 1, all);
        if content.None? {
          return None;
        }
        r := Some([Paragraph(id, AlignOf(x.children), Under(x.children, PPr, NumPr).Some?, content.value)]);
        BlockOutcome(old(elements), elements, old(unsupported), unsupported, part, x, p, BlockNatives(x), r.value[0]);
      } else if IsTabular(x.tag) {
        var id := Identity(part, x, p);
        if Spanned(x.children).None? {
          return None;
        }
        var content := Blocks(part, x.children, p + 1, all);
        if content.None? {
          return None;
        }
        r := Some([if x.tag.Tbl? then Table(id, content.value) else if x.tag.Tr? then TableRow(id, content.value)
                   else TableCell(id, Spanned(x.children).value, content.value)]);
        BlockOutcome(old(elements), elements, old(unsupported), unsupported, part, x, p, BlockNatives(x), r.value[0]);
      } else {
        LockedBlockOutcome(elements, unsupported, part, x, p);
        var locked := Lock(part, x, p, false);
        NoneRegisters(old(elements), part);
        r := Some([locked]);
      }
    }

    /** `blocks`. */
    method Blocks(part: string, xs: seq<Xml>, p: nat, ghost all: seq<Xml>) returns (r: Option<seq<Node>>)
      requires Free(elements, part, p) && Spread(all, xs, p) && Standing(elements, part, all)
      modifies this
      ensures Standing(elements, part, all)
      ensures r.Some? <==> AllTold(xs) && Registers(old(elements), part, BlocksNatives(xs))
      ensures r.Some? ==>
        && r.value == BlocksOf(part, xs, p)
        && BlocksRead(part, all, xs, p, r.value)
        && Outcome(old(elements), elements, old(unsupported), unsupported, part, p, p + ElementsAll(xs),
             BlocksNatives(xs), r.value)
      decreases xs, 0
    {
      hide BlocksRead, Spread, BlockOf, BlocksOf, BlockNatives, BlocksNatives, Elements, Outcome, Registers, Free,
        ElementsAll, SpansTold, AllTold, Standing, StandsHere;
      var result: seq<Node> := [];
      StartRead(elements, unsupported, part, xs, p);
      var i := 0;
      while i < |xs|
        invariant 0 <= i <= |xs| && result == BlocksOf(part, xs[..i], p) && AllTold(xs[..i])
        invariant Standing(elements, part, all)
        invariant Registers(old(elements), part, BlocksNatives(xs[..i]))
        invariant Outcome(old(elements), elements, old(unsupported), unsupported, part, p, p + ElementsAll(xs[..i]),
                          BlocksNatives(xs[..i]), result)
      {
        ghost var q, sofar, listed := p + ElementsAll(xs[..i]), elements, unsupported;
        NextBlock(part, xs, i, p);
        ReadOn(old(elements), elements, old(unsupported), unsupported, part, p, q, BlocksNatives(xs[..i]), result);
        RegistersMore(old(elements), elements, part, p, q, BlocksNatives(xs[..i]), BlockNatives(xs[i]));
        var next: seq<Node> := [];
        if IsProperties(xs[i].tag) {
          PropertiesRead(part, xs[i], q);
          NothingRead(elements, unsupported, part, q, q + Elements(xs[i]));
          NoneRegisters(elements, part);
        } else {
          ChildrenStand(all, xs, p, i);
          var read := Block(part, xs[i], p + ElementsAll(xs[..i]), all);
          if read.None? {
            RefusedBlock(old(elements), part, xs, i);
            return None;
          }
          next := read.value;
        }
        OutcomeOn(old(elements), sofar, elements, old(unsupported), listed, unsupported, part, p, q,
          q + Elements(xs[i]),
                  BlocksNatives(xs[..i]), BlockNatives(xs[i]), result, next);
        result := result + next;
        i := i + 1;
      }
      assert xs[..i] == xs;
      BlocksReads(part, all, xs, p);
      r := Some(result);
    }

    /** The whole package, part by part: it is read exactly when every part can be. */
    method Load(parts: seq<Part>) returns (r: Option<Node>)
      requires elements == map[] && unsupported == [] && NoRepeats(Names(parts))
      modifies this
      ensures r.Some? <==> forall k | 0 <= k < |parts| :: Importable(parts[k])
      ensures r.Some? ==> r.value == ModelOf(parts) && unsupported == LockedAll(r.value.content)
      ensures r.Some? ==> r.value.Doc? && |r.value.content| == |parts|
      ensures r.Some? ==> forall k | 0 <= k < |parts| :: SectionRead(parts[k], r.value.content[k])
      ensures r.Some? ==> forall k | 0 <= k < |parts| ::
        TracedAll(elements, parts[k].name, r.value.content[k].content)
          && BringsItsOwn(elements, parts[k], r.value.content[k])
          && Standing(elements, parts[k].name, Listing(parts[k].root))
    {
      hide BlocksOf, BlocksNatives, AllTold, Traced, Registers, Outcome, Free, Loaded, NoRepeats, ParentAt,
        ElementsAll, Parent, BringsItsOwn, SectionRead, Standing, Spread, Listing;
      var sections: seq<Node> := [];
      NothingLoaded(parts);
      var k := 0;
      while k < |parts|
        invariant 0 <= k <= |parts| && Loaded(parts, k, elements, unsupported, sections)
      {
        var part := parts[k];
        var parent := Parent(part);
        if parent.None? {
          return None;
        }
        NewHome(parts, k, elements, unsupported, sections, ParentAt(part) + 1, BlocksNatives(parent.value.children));
        ghost var sofar, listed := elements, unsupported;
        PartStands(part);
        NoneStanding(parts, k, elements, unsupported, sections);
        var blocks := Blocks(part.name, parent.value.children, ParentAt(part) + 1, Listing(part.root));
        if blocks.None? {
          return None;
        }
        LoadedPart(parts, k, sofar, elements, listed, unsupported, sections,
          ParentAt(part) + 1 + ElementsAll(parent.value.children));
        sections := sections + [Section(part.name, blocks.value)];
        k := k + 1;
      }
      LoadedAll(parts, elements, unsupported, sections);
      forall m | 0 <= m < |parts| ensures SectionRead(parts[m], sections[m]) { SectionReads(parts[m]); }
      r := Some(Doc(sections));
    }
  }

  function Names(parts: seq<Part>): seq<string> {
    seq(|parts|, k requires 0 <= k < |parts| => parts[k].name)
  }

  ghost predicate OnlyHomes(elements: map<Id, Xml>, names: seq<string>) {
    forall id | id in elements :: HomeOf(id).Some? && HomeOf(id).value in names
  }

  /** What the nodes of a section bring along is what its part holds. */
  ghost predicate BringsItsOwn(elements: map<Id, Xml>, part: Part, section: Node) {
    && Parent(part).Some? && section.Section?
    && NodesNatives(elements, map[], section.content) == BlocksNatives(Parent(part).value.children)
  }

  /** What has been established after `k` parts. */
  ghost predicate Loaded(parts: seq<Part>, k: nat, elements: map<Id, Xml>, unsupported: seq<Id>, sections: seq<Node>)
    requires k <= |parts|
  {
    && (forall m | 0 <= m < k :: Importable(parts[m]))
    && |sections| == k && (forall m | 0 <= m < k :: sections[m] == SectionOf(parts[m]))
    && unsupported == LockedAll(sections) && OnlyHomes(elements, Names(parts)[..k])
    && forall m | 0 <= m < k ::
         TracedAll(elements, parts[m].name, sections[m].content) && BringsItsOwn(elements, parts[m], sections[m])
           && Standing(elements, parts[m].name, Listing(parts[m].root))
  }

  lemma PartStands(part: Part)
    requires Parent(part).Some?
    ensures Spread(Listing(part.root), Parent(part).value.children, ParentAt(part) + 1)
  {
    hide Spread, Listing;
    RootSpread(part.root);
    if part.name == MAIN {
      SpreadHolder(Listing(part.root), part.root.children, 1, Body);
    }
  }

  lemma NoneStanding(parts: seq<Part>, k: nat, a: map<Id, Xml>, u: seq<Id>, sections: seq<Node>)
    requires NoRepeats(Names(parts)) && k < |parts| && Loaded(parts, k, a, u, sections)
    ensures Standing(a, parts[k].name, Listing(parts[k].root))
  {
    hide SectionOf, Importable, LockedAll, TracedAll, BringsItsOwn, StandsAs, Listing;
    assert Names(parts)[k] !in Names(parts)[..k];
  }

  lemma NothingLoaded(parts: seq<Part>)
    ensures Loaded(parts, 0, map[], [], [])
  {
  }

  lemma LoadedAll(parts: seq<Part>, elements: map<Id, Xml>, unsupported: seq<Id>, sections: seq<Node>)
    requires Loaded(parts, |parts|, elements, unsupported, sections)
    ensures (forall k | 0 <= k < |parts| :: Importable(parts[k])) && unsupported == LockedAll(sections)
      && |sections| == |parts|
    ensures Doc(sections) == ModelOf(parts)
    ensures forall k | 0 <= k < |parts| ::
      TracedAll(elements, parts[k].name, sections[k].content) && BringsItsOwn(elements, parts[k], sections[k])
        && Standing(elements, parts[k].name, Listing(parts[k].root))
  {
    hide Standing, Listing, SectionOf, AllTold, BlocksNatives, LockedAll, TracedAll, OnlyHomes, NoRepeats, Parent,
      BringsItsOwn;
  }

  /** Nothing of a part is in the table before it is read. */
  lemma NewHome(parts: seq<Part>, k: nat, a: map<Id, Xml>, u: seq<Id>, sections: seq<Node>, p: nat,
                natives: seq<string>)
    requires NoRepeats(Names(parts)) && k < |parts| && Loaded(parts, k, a, u, sections)
    ensures Free(a, parts[k].name, p) && (Registers(a, parts[k].name, natives) <==> NoRepeats(natives))
  {
    hide SectionOf, Importable, LockedAll, TracedAll, BringsItsOwn;
    var names := Names(parts);
    assert names[k] !in names[..k];
    assert forall q: nat :: HomeOf(At(names[k], q)) == Some(names[k]);
    assert forall n :: HomeOf(Control(names[k], n)) == Some(names[k]);
  }

  lemma LoadedPart(parts: seq<Part>, k: nat, a: map<Id, Xml>, b: map<Id, Xml>, u: seq<Id>, v: seq<Id>,
                   sections: seq<Node>, high: nat)
    requires k < |parts| && Loaded(parts, k, a, u, sections) && Importable(parts[k])
    requires var children := Parent(parts[k]).value.children;
      Outcome(a, b, u, v, parts[k].name, ParentAt(parts[k]) + 1, high, BlocksNatives(children),
              BlocksOf(parts[k].name, children, ParentAt(parts[k]) + 1))
    requires Standing(b, parts[k].name, Listing(parts[k].root)) && NoRepeats(Names(parts))
    ensures Loaded(parts, k + 1, b, v, sections + [SectionOf(parts[k])])
  {
    hide Traced, LockedAll, BlocksOf, BlocksNatives, AllTold, Parent, ParentAt, NoRepeats, Standing, Listing;
    var names, section := Names(parts), SectionOf(parts[k]);
    assert names[..k + 1] == names[..k] + [names[k]];
    forall id | id in b ensures HomeOf(id).Some? && HomeOf(id).value in names[..k + 1] {
      if id !in a {
        assert Issued(id, names[k], ParentAt(parts[k]) + 1, high, BlocksNatives(Parent(parts[k]).value.children));
      }
    }
    SectionLocked(sections, section);
    forall m | 0 <= m < k
      ensures TracedAll(b, parts[m].name, sections[m].content) && BringsItsOwn(b, parts[m], sections[m])
      ensures Standing(b, parts[m].name, Listing(parts[m].root))
    {
      NamesDiffer(parts, m, k);
      EarlierPart(parts[m], sections[m], a, b, names[k], ParentAt(parts[k]) + 1, high,
        BlocksNatives(Parent(parts[k]).value.children));
    }
  }

  lemma EarlierPart(part: Part, section: Node, a: map<Id, Xml>, b: map<Id, Xml>, other: string, low: nat, high: nat,
                    natives: seq<string>)
    requires Grown(a, b, other, low, high, natives) && other != part.name && section.Section?
    requires TracedAll(a, part.name, section.content) && BringsItsOwn(a, part, section)
      && Standing(a, part.name, Listing(part.root))
    ensures TracedAll(b, part.name, section.content) && BringsItsOwn(b, part, section)
      && Standing(b, part.name, Listing(part.root))
  {
    hide Traced, BlocksNatives, Listing, Standing, Parent;
    StandingStill(a, b, part.name, Listing(part.root), other, low, high, natives);
    AllTraced(a, b, part.name, section.content);
    AllNatives(a, b, part.name, section.content);
  }

  /** Reading another part leaves the elements of this one. */
  lemma StandingStill(a: map<Id, Xml>, b: map<Id, Xml>, part: string, all: seq<Xml>, other: string, low: nat, high: nat,
                      natives: seq<string>)
    requires Standing(a, part, all) && Grown(a, b, other, low, high, natives) && other != part
    ensures Standing(b, part, all)
  {
    hide StandsAs;
    forall id | id in b && HomeOf(id) == Some(part) ensures StandsAs(all, id, b[id]) {
    }
  }

  lemma NamesDiffer(parts: seq<Part>, m: nat, k: nat)
    requires NoRepeats(Names(parts)) && m < k < |parts|
    ensures parts[m].name != parts[k].name
  {
    assert Names(parts)[m] != Names(parts)[k];
  }

  lemma SectionLocked(sections: seq<Node>, section: Node)
    requires section.Section?
    ensures LockedAll(sections + [section]) == LockedAll(sections) + LockedAll(section.content)
  {
    assert (sections + [section])[..|sections|] == sections;
  }

  lemma ControlNatives(x: Xml)
    requires IsControl(x) && !Restricted(x)
    ensures Natives(x) == OwnNative(x) + ContentNatives(x)
  {
    hide Under, NativesAll;
  }

  lemma BoxNatives(x: Xml)
    requires IsCheckbox(x)
    ensures Natives(x) == ContentNatives(x)
  {
    hide Under, NativesAll;
  }

  lemma ControlLocks(part: string, x: Xml, p: nat)
    requires IsControl(x) && !AllText(Held(part, x, p))
    ensures InlineOf(part, x, p) == [Locked(part, x, p)] && !x.tag.PPr?
  {
    hide Under, Held, Caption;
  }

  lemma BoxLocks(part: string, x: Xml, p: nat)
    requires IsCheckbox(x) && !AllText(Held(part, x, p))
    ensures InlineOf(part, x, p) == [Locked(part, x, p)] && !x.tag.PPr?
  {
    hide Under, Held, Caption;
  }

  lemma FreeNext(a: map<Id, Xml>, part: string, p: nat)
    requires Free(a, part, p)
    ensures Free(a, part, p + 1)
  {
  }

  lemma FreeFrom(a: map<Id, Xml>, part: string, p: nat, q: nat)
    requires Free(a, part, p) && p <= q
    ensures Free(a, part, q)
  {
  }

  lemma NoneRegisters(a: map<Id, Xml>, part: string)
    ensures Registers(a, part, [])
  {
  }

  lemma WiderOutcome(a: map<Id, Xml>, b: map<Id, Xml>, u: seq<Id>, v: seq<Id>, part: string, low: nat, high: nat,
                     natives: seq<string>, r: seq<Node>, less: nat, more: nat)
    requires Outcome(a, b, u, v, part, low, high, natives, r) && less <= low && high <= more
    ensures Outcome(a, b, u, v, part, less, more, natives, r)
  {
    hide Traced;
  }

  lemma OwnRegisters(a: map<Id, Xml>, part: string, x: Xml, p: nat, native: seq<string>)
    requires native == OwnNative(x)
    ensures Registers(a, part, native) <==> native == [] || Control(part, native[0]) !in a[At(part, p) := x]
    ensures |native| <= 1 && ControlId(part, x, p) == if native == [] then At(part, p) else Control(part, native[0])
  {
    hide Under;
  }

  lemma NotRegistered(a: map<Id, Xml>, part: string, x: seq<string>, y: seq<string>)
    requires !Registers(a, part, x)
    ensures !Registers(a, part, x + y)
  {
    hide Registers;
    if Registers(a, part, x + y) {
      RegistersPrefix(a, part, x, y);
    }
  }

  lemma ControlGrown(a: map<Id, Xml>, b: map<Id, Xml>, c: map<Id, Xml>, u: seq<Id>, v: seq<Id>, part: string, x: Xml,
                     p: nat, native: seq<string>, r: seq<Node>)
    requires native == OwnNative(x) && b == Entered(a, part, x, p, native) && Free(a, part, p)
    requires Grown(a, b, part, p, p + 1, native)
      && Outcome(b, c, u, v, part, p + 1, p + Elements(x), ContentNatives(x), r)
    ensures Grown(a, c, part, p, p + Elements(x), native + ContentNatives(x)) && TracedAll(c, part, r)
    ensures AllText(r) ==> v == u && ContentNatives(x) == []
    ensures At(part, p) in c && c[At(part, p)] == x && ControlId(part, x, p) in c && c[ControlId(part, x, p)] == x
  {
    hide Under, Traced, ContentNatives, LockedAll;
    if AllText(r) {
      TextUnlocked(r);
      TextNatives(c, map[], r);
    }
    GrownOn(a, b, c, part, p, p + 1, p + Elements(x), native, ContentNatives(x));
  }

  lemma BoxGrown(a: map<Id, Xml>, b: map<Id, Xml>, u: seq<Id>, v: seq<Id>, part: string, x: Xml, p: nat, r: seq<Node>)
    requires Free(a, part, p) && Outcome(a, b, u, v, part, p + 1, p + Elements(x), ContentNatives(x), r)
    ensures Grown(a, b[At(part, p) := x], part, p, p + Elements(x), ContentNatives(x))
    ensures AllText(r) ==> v == u && ContentNatives(x) == []
  {
    hide Traced, ContentNatives, Free, LockedAll;
    if AllText(r) {
      TextUnlocked(r);
      TextNatives(b, map[], r);
    }
    EnteredLast(a, b, part, x, p, p + Elements(x), ContentNatives(x));
  }

  lemma StartRead(a: map<Id, Xml>, u: seq<Id>, part: string, xs: seq<Xml>, p: nat)
    ensures Outcome(a, a, u, u, part, p, p + ElementsAll(xs[..0]), NativesAll(xs[..0]), InlinesOf(part, xs[..0], p))
    ensures Outcome(a, a, u, u, part, p, p + ElementsAll(xs[..0]), BlocksNatives(xs[..0]), BlocksOf(part, xs[..0], p))
    ensures InlinesOf(part, xs[..0], p) == [] && BlocksOf(part, xs[..0], p) == [] && AllTold(xs[..0])
    ensures Registers(a, part, NativesAll(xs[..0])) && Registers(a, part, BlocksNatives(xs[..0]))
  {
    NothingRead(a, u, part, p, p);
  }

  lemma ReadOn(a: map<Id, Xml>, b: map<Id, Xml>, u: seq<Id>, v: seq<Id>, part: string, p: nat, q: nat,
               natives: seq<string>, r: seq<Node>)
    requires Free(a, part, p) && Outcome(a, b, u, v, part, p, q, natives, r) && p <= q
    ensures Free(b, part, q) && Grown(a, b, part, p, q, natives)
  {
    hide Traced, Free;
    GrownFree(a, b, part, p, q, natives);
  }

  lemma RefusedInline(a: map<Id, Xml>, part: string, xs: seq<Xml>, i: nat)
    requires i < |xs| && !xs[i].tag.PPr? && !Registers(a, part, NativesAll(xs[..i]) + Natives(xs[i]))
    ensures !Registers(a, part, NativesAll(xs))
  {
    hide Registers, NativesAll, Natives, InlineOf, Elements;
    NextInline(part, xs, i, 0);
    var rest := NativesPrefix(xs, i + 1);
    NotRegistered(a, part, NativesAll(xs[..i + 1]), rest);
  }

  lemma RefusedBlock(a: map<Id, Xml>, part: string, xs: seq<Xml>, i: nat)
    requires i < |xs| && !(SpansTold(xs[i]) && Registers(a, part, BlocksNatives(xs[..i]) + BlockNatives(xs[i])))
    ensures !(AllTold(xs) && Registers(a, part, BlocksNatives(xs)))
  {
    hide Registers, BlocksNatives, BlockNatives, BlockOf, Elements, AllTold, SpansTold;
    NextBlock(part, xs, i, 0);
    var rest := BlocksPrefix(xs, i + 1);
    if Registers(a, part, BlocksNatives(xs)) && AllTold(xs) {
      RegistersPrefix(a, part, BlocksNatives(xs[..i + 1]), rest);
    }
  }

  lemma LockedBlockOutcome(a: map<Id, Xml>, u: seq<Id>, part: string, x: Xml, p: nat)
    requires Free(a, part, p) && !IsProperties(x.tag) && !x.tag.P? && !IsTabular(x.tag)
    ensures Outcome(a, a[At(part, p) := x], u, u + [At(part, p)], part, p, p + Elements(x), [], BlockOf(part, x, p))
  {
    hide Caption, ElementsAll;
    var n := BlockOf(part, x, p)[0];
    OneLocked(n);
    OneNatives(a[At(part, p) := x], map[], n);
    MadeBlock(a[At(part, p) := x], part, x, p, n);
  }
}
