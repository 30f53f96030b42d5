/** Structural correspondence of two documents, and the map of identities it yields. */
module Correspondence {
  import opened Common
  import opened DocumentModel
  import opened WorkingIndex
  import opened Rebase

  function IdOf(n: Node): Option<Id> {
    match n
    case Doc(_) => None
    case Section(_, _) => None
    case Text(_, _, _) => None
    case _ => Some(n.id)
  }

  /** The same kind of node with the same attributes, identities and shape fills aside. */
  predicate SameAttrs(s: Node, t: Node) {
    match s
    case Doc(_) => t.Doc?
    case Section(part, _) => t.Section? && t.part == part
    case Paragraph(_, align, numbered, _) => t.Paragraph? && t.align == align && t.numbered == numbered
    case Table(_, _) => t.Table?
    case TableRow(_, _) => t.TableRow?
    case TableCell(_, colspan, _) => t.TableCell? && t.colspan == colspan
    case Field(_, key, alias, _) => t.Field? && t.key == key && t.alias == alias
    case Text(_, _, _) => t == s
    case LockedBlock(_, caption) => t.LockedBlock? && t.caption == caption
    case LockedInline(_, caption, _) => t.LockedInline? && t.caption == caption
    case Checkbox(_, checked) => t.Checkbox? && t.checked == checked
  }

  function Pieces(n: Node): (r: seq<Piece>)
    ensures forall p | p in r && p.Child? :: p.node in Content(n) && p.node < n
  {
    PiecesOf(Content(n))
  }

  /** The documents differ at most in identities, shape fills and the boundaries of runs. */
  predicate Same(s: Node, t: Node)
    decreases s
  {
    && SameAttrs(s, t) && |Pieces(s)| == |Pieces(t)|
    && forall i | 0 <= i < |Pieces(s)| ::
         match Pieces(s)[i]
         case Run(text, style) => Pieces(t)[i] == Run(text, style)
         case Child(n) => Pieces(t)[i].Child? && Same(n, Pieces(t)[i].node)
  }

  predicate SamePiece(p: Piece, q: Piece) {
    match p
    case Run(text, style) => q == Run(text, style)
    case Child(n) => q.Child? && Same(n, q.node)
  }

  // ----- the same, told by what is left without identities

  const NOWHERE: Id := At("", 0)

  /** A node around other children, without identity and fills. */
  function Unmarked(n: Node, content: seq<Node>): Node {
    match n
    case Doc(_) => Doc(content)
    case Section(part, _) => Section(part, content)
    case Paragraph(_, align, numbered, _) => Paragraph(NOWHERE, align, numbered, content)
    case Table(_, _) => Table(NOWHERE, content)
    case TableRow(_, _) => TableRow(NOWHERE, content)
    case TableCell(_, colspan, _) => TableCell(NOWHERE, colspan, content)
    case Field(_, key, alias, _) => Field(NOWHERE, key, alias, content)
    case Text(_, _, _) => n
    case LockedBlock(_, caption) => LockedBlock(NOWHERE, caption)
    case LockedInline(_, caption, _) => LockedInline(NOWHERE, caption, map[])
    case Checkbox(_, checked) => Checkbox(NOWHERE, checked)
  }

  /** The document without identities and fills, each stretch of one style a single text. */
  function Erased(n: Node): Node
    decreases n, 1, 0
  {
    Unmarked(n, ErasedUpTo(n, |Pieces(n)|))
  }

  function ErasedUpTo(n: Node, i: nat): (r: seq<Node>)
    requires i <= |Pieces(n)|
    ensures |r| == i
    decreases n, 0, i
  {
    if i == 0 then [] else
    ErasedUpTo(n, i - 1) + [match Pieces(n)[i - 1]
                            case Run(text, style) => Text(text, Some(Source(NOWHERE, style)), None)
                            case Child(c) => Erased(c)]
  }

  function ErasedPiece(p: Piece): Node {
    match p case Run(text, style) => Text(text, Some(Source(NOWHERE, style)), None) case Child(c) => Erased(c)
  }

  lemma {:induction false} ErasedAre(n: Node, i: nat)
    requires i <= |Pieces(n)|
    ensures forall k | 0 <= k < i :: ErasedUpTo(n, i)[k] == ErasedPiece(Pieces(n)[k])
  {
    hide Erased, Pieces;
    if i > 0 {
      ErasedAre(n, i - 1);
    }
  }

  lemma {:induction false} ChildrenNoText(children: seq<Node>)
    ensures forall p | p in PiecesOf(children) && p.Child? :: !p.node.Text?
  {
    hide StyleOf;
    if children != [] {
      ChildrenNoText(children[..|children| - 1]);
    }
  }

  lemma UnmarkedEqual(s: Node, t: Node, a: seq<Node>, b: seq<Node>)
    requires !s.Text? && !t.Text? && (!IsContainer(s) ==> a == []) && (!IsContainer(t) ==> b == [])
    ensures Unmarked(s, a) == Unmarked(t, b) <==> SameAttrs(s, t) && a == b
  {
  }

  lemma SamePiecewise(s: Node, t: Node)
    ensures Same(s, t) <==>
      && SameAttrs(s, t) && |Pieces(s)| == |Pieces(t)|
      && forall i | 0 <= i < |Pieces(s)| :: SamePiece(Pieces(s)[i], Pieces(t)[i])
  {
    hide Pieces, SameAttrs;
  }

  /** Two documents are the same exactly if nothing but identities, fills and run boundaries tells them apart. */
  lemma {:induction false} SameMeans(s: Node, t: Node)
    requires !s.Text? && !t.Text?
    ensures Same(s, t) <==> Erased(s) == Erased(t)
    decreases s
  {
    hide PiecesOf, StyleOf, SameAttrs, Same, SamePiece, Unmarked;
    var n, m := |Pieces(s)|, |Pieces(t)|;
    ErasedAre(s, n);
    ErasedAre(t, m);
    ChildrenNoText(Content(s));
    ChildrenNoText(Content(t));
    LeavesErased(s);
    LeavesErased(t);
    UnmarkedEqual(s, t, ErasedUpTo(s, n), ErasedUpTo(t, m));
    SamePiecewise(s, t);
    forall i | 0 <= i < n && n == m
      ensures SamePiece(Pieces(s)[i], Pieces(t)[i]) <==> ErasedPiece(Pieces(s)[i]) == ErasedPiece(Pieces(t)[i])
    {
      var p, q := Pieces(s)[i], Pieces(t)[i];
      assert p in Pieces(s) && q in Pieces(t);
      if p.Child? && q.Child? {
        SameMeans(p.node, q.node);
      }
      PieceMeans(p, q);
    }
  }

  lemma LeavesErased(n: Node)
    ensures !IsContainer(n) ==> |Pieces(n)| == 0
  {
  }

  lemma PieceMeans(p: Piece, q: Piece)
    requires p.Child? ==> !p.node.Text?
    requires q.Child? ==> !q.node.Text?
    requires p.Child? && q.Child? ==> (Same(p.node, q.node) <==> Erased(p.node) == Erased(q.node))
    ensures SamePiece(p, q) <==> ErasedPiece(p) == ErasedPiece(q)
  {
    hide Same, ErasedUpTo, Pieces;
  }

  function OwnPair(s: Node, t: Node): seq<(Id, Id)> {
    if IdOf(s).Some? && IdOf(t).Some? then [(IdOf(s).value, IdOf(t).value)] else []
  }

  /** The identities that correspond, in the order they are met: last children first. */
  function Pairs(s: Node, t: Node): seq<(Id, Id)>
    decreases s, 1, 0
  {
    OwnPair(s, t) + if |Pieces(s)| == |Pieces(t)| then PairsUpTo(s, t, |Pieces(s)|) else []
  }

  function PairsUpTo(s: Node, t: Node, i: nat): seq<(Id, Id)>
    requires i <= |Pieces(s)| == |Pieces(t)|
    decreases s, 0, i
  {
    if i == 0 then [] else
    var p, q := Pieces(s)[i - 1], Pieces(t)[i - 1];
    (if p.Child? && q.Child? then Pairs(p.node, q.node) else []) + PairsUpTo(s, t, i - 1)
  }

  function PiecePairs(p: Piece, q: Piece): seq<(Id, Id)> {
    if p.Child? && q.Child? then Pairs(p.node, q.node) else []
  }

  /** No identity occurs twice on either side. */
  predicate OneToOne(pairs: seq<(Id, Id)>) {
    forall i, k | 0 <= i < k < |pairs| :: pairs[i].0 != pairs[k].0 && pairs[i].1 != pairs[k].1
  }

  function MapOf(pairs: seq<(Id, Id)>): map<Id, Id> {
    if pairs == [] then map[] else MapOf(pairs[..|pairs| - 1])[pairs[|pairs| - 1].0 := pairs[|pairs| - 1].1]
  }

  lemma {:induction false} MapKeys(pairs: seq<(Id, Id)>)
    ensures forall id :: id in MapOf(pairs) <==> exists i :: 0 <= i < |pairs| && pairs[i].0 == id
  {
    if pairs != [] {
      var n := |pairs| - 1;
      MapKeys(pairs[..n]);
      forall id
        ensures id in MapOf(pairs) <==> exists i :: 0 <= i < |pairs| && pairs[i].0 == id
      {
        if i :| 0 <= i < |pairs| && pairs[i].0 == id {
          assert i < n ==> pairs[..n][i].0 == id;
        }
      }
    }
  }

  lemma {:induction false} MapAt(pairs: seq<(Id, Id)>, i: nat)
    requires OneToOne(pairs) && i < |pairs|
    ensures pairs[i].0 in MapOf(pairs) && MapOf(pairs)[pairs[i].0] == pairs[i].1
  {
    var n := |pairs| - 1;
    if i < n {
      assert OneToOne(pairs[..n]);
      MapAt(pairs[..n], i);
    }
  }

  lemma MapOfPairs(pairs: seq<(Id, Id)>)
    ensures forall id :: id in MapOf(pairs) <==> exists i :: 0 <= i < |pairs| && pairs[i].0 == id
    ensures OneToOne(pairs) ==> forall i | 0 <= i < |pairs| :: MapOf(pairs)[pairs[i].0] == pairs[i].1
  {
    hide MapOf;
    MapKeys(pairs);
    forall i | 0 <= i < |pairs| && OneToOne(pairs) ensures MapOf(pairs)[pairs[i].0] == pairs[i].1 { MapAt(pairs, i); }
  }

  // ----- the work stack

  type Work = (Piece, Piece)

  function RestPairs(stack: seq<Work>): seq<(Id, Id)> {
    if stack == [] then [] else PiecePairs(stack[|stack| - 1].0, stack[|stack| - 1].1) + RestPairs(stack[..|stack| - 1])
  }

  ghost predicate RestSame(stack: seq<Work>) {
    forall i | 0 <= i < |stack| :: SamePiece(stack[i].0, stack[i].1)
  }

  function PieceCount(p: Piece): nat {
    if p.Child? then Count(p.node) else 1
  }

  function Weight(stack: seq<Work>): nat {
    if stack == [] then 0 else PieceCount(stack[|stack| - 1].0) + Weight(stack[..|stack| - 1])
  }

  function Zip(a: seq<Piece>, b: seq<Piece>): seq<Work>
    requires |a| == |b|
  {
    seq(|a|, i requires 0 <= i < |a| => (a[i], b[i]))
  }

  lemma UpToNext(s: Node, t: Node, i: nat)
    requires 0 < i <= |Pieces(s)| == |Pieces(t)|
    ensures PairsUpTo(s, t, i) == PiecePairs(Pieces(s)[i - 1], Pieces(t)[i - 1]) + PairsUpTo(s, t, i - 1)
  {
    hide Pieces, Pairs;
  }

  lemma ZipLast(stack: seq<Work>, a: seq<Piece>, b: seq<Piece>, i: nat)
    requires i < |a| == |b|
    ensures var pushed := stack + Zip(a[..i + 1], b[..i + 1]);
      |pushed| > 0 && pushed[|pushed| - 1] == (a[i], b[i]) && pushed[..|pushed| - 1] == stack + Zip(a[..i], b[..i])
  {
  }

  lemma {:induction false} ZipPairs(stack: seq<Work>, s: Node, t: Node, i: nat)
    requires i <= |Pieces(s)| == |Pieces(t)|
    ensures RestPairs(stack + Zip(Pieces(s)[..i], Pieces(t)[..i])) == PairsUpTo(s, t, i) + RestPairs(stack)
  {
    hide Pairs, Pieces, PiecePairs;
    var pushed := stack + Zip(Pieces(s)[..i], Pieces(t)[..i]);
    if i == 0 {
      assert pushed == stack;
    } else {
      ZipPairs(stack, s, t, i - 1);
      ZipLast(stack, Pieces(s), Pieces(t), i - 1);
      UpToNext(s, t, i);
      Associate(PiecePairs(Pieces(s)[i - 1], Pieces(t)[i - 1]), PairsUpTo(s, t, i - 1), RestPairs(stack));
    }
  }

  function PiecesCount(pieces: seq<Piece>): nat {
    if pieces == [] then 0 else PiecesCount(pieces[..|pieces| - 1]) + PieceCount(pieces[|pieces| - 1])
  }

  lemma {:induction false} ZipWeight(stack: seq<Work>, a: seq<Piece>, b: seq<Piece>)
    requires |a| == |b|
    ensures Weight(stack + Zip(a, b)) == PiecesCount(a) + Weight(stack)
  {
    hide PieceCount;
    var pushed := stack + Zip(a, b);
    if a == [] {
      assert pushed == stack;
    } else {
      var n := |a| - 1;
      ZipWeight(stack, a[..n], b[..n]);
      assert pushed[..|pushed| - 1] == stack + Zip(a[..n], b[..n]);
    }
  }

  lemma {:induction false} CountLast(ns: seq<Node>)
    requires ns != []
    ensures CountAll(ns) == CountAll(ns[..|ns| - 1]) + Count(ns[|ns| - 1])
  {
    hide Count;
    if |ns| == 1 {
      assert ns[1..] == [] && ns[..0] == [];
    } else {
      CountLast(ns[1..]);
      assert ns[1..][..|ns| - 2] == ns[..|ns| - 1][1..];
    }
  }

  lemma {:induction false} PiecesWeigh(children: seq<Node>)
    ensures PiecesCount(PiecesOf(children)) <= CountAll(children)
  {
    hide Count, StyleOf;
    if children != [] {
      var n := |children| - 1;
      PiecesWeigh(children[..n]);
      CountLast(children);
      JoinedWeight(PiecesOf(children[..n]), children[n]);
    }
  }

  lemma JoinedWeight(pieces: seq<Piece>, n: Node)
    ensures PiecesCount(Joined(pieces, n)) <= PiecesCount(pieces) + Count(n)
  {
    hide StyleOf;
    var joined := Joined(pieces, n);
    assert Count(n) >= 1;
    if n.Text? && pieces != [] && pieces[|pieces| - 1].Run? && pieces[|pieces| - 1].style == StyleOf(n) {
      assert joined[..|joined| - 1] == pieces[..|pieces| - 1];
    } else {
      assert joined[..|joined| - 1] == pieces;
    }
  }

  lemma OpenPairs(stack: seq<Work>, s: Node, t: Node)
    requires stack != [] && stack[|stack| - 1] == (Child(s), Child(t)) && |Pieces(s)| == |Pieces(t)|
    ensures RestPairs(stack) == OwnPair(s, t) + RestPairs(stack[..|stack| - 1] + Zip(Pieces(s), Pieces(t)))
  {
    hide Pieces, OwnPair, PairsUpTo;
    var rest := stack[..|stack| - 1];
    assert Pieces(s)[..|Pieces(s)|] == Pieces(s) && Pieces(t)[..|Pieces(t)|] == Pieces(t);
    ZipPairs(rest, s, t, |Pieces(s)|);
    Associate(OwnPair(s, t), PairsUpTo(s, t, |Pieces(s)|), RestPairs(rest));
  }

  lemma OpenWeight(stack: seq<Work>, s: Node, t: Node)
    requires stack != [] && stack[|stack| - 1] == (Child(s), Child(t)) && |Pieces(s)| == |Pieces(t)|
    ensures Weight(stack[..|stack| - 1] + Zip(Pieces(s), Pieces(t))) < Weight(stack)
  {
    ZipWeight(stack[..|stack| - 1], Pieces(s), Pieces(t));
    PiecesWeigh(Content(s));
  }

  /** Replacing the top of the stack by its pieces: what remains to be compared stays equivalent. */
  lemma OpenTop(stack: seq<Work>, s: Node, t: Node)
    requires stack != [] && stack[|stack| - 1] == (Child(s), Child(t)) && |Pieces(s)| == |Pieces(t)|
    ensures var next := stack[..|stack| - 1] + Zip(Pieces(s), Pieces(t));
      && RestPairs(stack) == OwnPair(s, t) + RestPairs(next)
      && (SameAttrs(s, t) ==> (RestSame(stack) <==> RestSame(next)))
      && Weight(next) < Weight(stack)
  {
    hide Pieces, OwnPair, RestPairs, RestSame, Weight, SameAttrs;
    OpenPairs(stack, s, t);
    OpenWeight(stack, s, t);
    if SameAttrs(s, t) {
      OpenSame(stack, s, t);
    }
  }

  lemma OpenSame(stack: seq<Work>, s: Node, t: Node)
    requires stack != [] && stack[|stack| - 1] == (Child(s), Child(t)) && |Pieces(s)| == |Pieces(t)| && SameAttrs(s, t)
    ensures RestSame(stack) <==> RestSame(stack[..|stack| - 1] + Zip(Pieces(s), Pieces(t)))
  {
    hide Pieces, SameAttrs;
    var n, next := |stack| - 1, stack[..|stack| - 1] + Zip(Pieces(s), Pieces(t));
    if RestSame(stack) {
      assert SamePiece(stack[n].0, stack[n].1);
      forall i | 0 <= i < |next| ensures SamePiece(next[i].0, next[i].1) {
        if i < n {
          assert SamePiece(stack[i].0, stack[i].1);
        }
      }
    }
    if RestSame(next) {
      forall i | 0 <= i < |Pieces(s)| ensures SamePiece(Pieces(s)[i], Pieces(t)[i]) {
        assert SamePiece(next[n + i].0, next[n + i].1);
      }
      forall i | 0 <= i < n ensures SamePiece(stack[i].0, stack[i].1) { assert SamePiece(next[i].0, next[i].1); }
    }
  }

  /** What is known between two steps of the comparison. */
  ghost predicate Comparing(document: Node, model: Node, stack: seq<Work>, seen: seq<(Id, Id)>) {
    && (Same(document, model) <==> RestSame(stack))
    && seen + RestPairs(stack) == Pairs(document, model)
    && OneToOne(seen)
  }

  lemma CompareStart(document: Node, model: Node)
    ensures Comparing(document, model, [(Child(document), Child(model))], [])
  {
    var stack: seq<Work> := [(Child(document), Child(model))];
    assert stack[..0] == [];
    assert RestSame(stack) <==> SamePiece(stack[0].0, stack[0].1);
  }

  lemma RunTop(stack: seq<Work>)
    requires stack != [] && stack[|stack| - 1].0.Run?
    ensures RestSame(stack) <==> stack[|stack| - 1].0 == stack[|stack| - 1].1 && RestSame(stack[..|stack| - 1])
    ensures RestPairs(stack) == RestPairs(stack[..|stack| - 1]) && Weight(stack[..|stack| - 1]) < Weight(stack)
  {
    hide SamePiece, PiecePairs, PieceCount, RestSame;
    var n := |stack| - 1;
    RestTop(stack);
    RunAlone(stack[n].0, stack[n].1);
    assert [] + RestPairs(stack[..n]) == RestPairs(stack[..n]);
  }

  lemma RunAlone(p: Piece, q: Piece)
    requires p.Run?
    ensures PiecePairs(p, q) == [] && PieceCount(p) == 1 && (SamePiece(p, q) <==> p == q)
  {
    hide Same, Pairs;
  }

  lemma RestTop(stack: seq<Work>)
    requires stack != []
    ensures var n := |stack| - 1; RestSame(stack) <==> SamePiece(stack[n].0, stack[n].1) && RestSame(stack[..n])
  {
    hide SamePiece;
    var n := |stack| - 1;
    assert forall i | 0 <= i < n :: stack[..n][i] == stack[i];
  }

  lemma CompareRun(document: Node, model: Node, stack: seq<Work>, seen: seq<(Id, Id)>)
    requires Comparing(document, model, stack, seen) && stack != [] && stack[|stack| - 1].0.Run?
    ensures var (p, q) := stack[|stack| - 1];
      (p == q ==> Comparing(document, model, stack[..|stack| - 1], seen)) && (p != q ==> !Same(document, model))
      && Weight(stack[..|stack| - 1]) < Weight(stack)
  {
    hide Same, Pairs, RestSame, RestPairs, Weight;
    RunTop(stack);
  }

  lemma CompareFails(document: Node, model: Node, stack: seq<Work>, seen: seq<(Id, Id)>)
    requires Comparing(document, model, stack, seen) && stack != [] && stack[|stack| - 1].0.Child?
    requires var (p, q) := stack[|stack| - 1];
      !q.Child? || !SameAttrs(p.node, q.node) || |Pieces(p.node)| != |Pieces(q.node)|
    ensures !Same(document, model)
  {
    hide SameAttrs, Pieces, Pairs;
    if RestSame(stack) {
      TopSame(stack);
    }
  }

  lemma TopSame(stack: seq<Work>)
    requires RestSame(stack) && stack != []
    ensures SamePiece(stack[|stack| - 1].0, stack[|stack| - 1].1)
  {
    hide SamePiece;
  }

  lemma CompareNode(document: Node, model: Node, stack: seq<Work>, seen: seq<(Id, Id)>, s: Node, t: Node)
    requires Comparing(document, model, stack, seen) && stack != [] && stack[|stack| - 1] == (Child(s), Child(t))
    requires SameAttrs(s, t) && |Pieces(s)| == |Pieces(t)|
    ensures var next := stack[..|stack| - 1] + Zip(Pieces(s), Pieces(t));
      && Weight(next) < Weight(stack)
      && (OneToOne(seen + OwnPair(s, t)) ==> Comparing(document, model, next, seen + OwnPair(s, t)))
      && (!OneToOne(seen + OwnPair(s, t)) ==> !OneToOne(Pairs(document, model)))
  {
    hide Same, Pairs, Pieces, RestPairs, RestSame, SameAttrs, OwnPair, Weight;
    OpenTop(stack, s, t);
    var next := stack[..|stack| - 1] + Zip(Pieces(s), Pieces(t));
    Associate(seen, OwnPair(s, t), RestPairs(next));
    if !OneToOne(seen + OwnPair(s, t)) {
      var all, one := Pairs(document, model), seen + OwnPair(s, t);
      var i, k :| 0 <= i < k < |one| && !(one[i].0 != one[k].0 && one[i].1 != one[k].1);
      assert all[i] == one[i] && all[k] == one[k];
    }
  }

  function News(pairs: seq<(Id, Id)>): set<Id> {
    set p | p in pairs :: p.1
  }

  lemma ExtendMap(seen: seq<(Id, Id)>, p: (Id, Id))
    ensures MapOf(seen + [p]) == MapOf(seen)[p.0 := p.1] && News(seen + [p]) == News(seen) + {p.1}
  {
    assert (seen + [p])[..|seen|] == seen;
  }

  lemma Extend(seen: seq<(Id, Id)>, p: (Id, Id))
    requires OneToOne(seen)
    ensures OneToOne(seen + [p]) <==> p.0 !in MapOf(seen) && p.1 !in News(seen)
    ensures MapOf(seen + [p]) == MapOf(seen)[p.0 := p.1] && News(seen + [p]) == News(seen) + {p.1}
  {
    hide MapOf;
    ExtendMap(seen, p);
    MapOfPairs(seen);
    var one := seen + [p];
    if p.0 in MapOf(seen) {
      var i :| 0 <= i < |seen| && seen[i].0 == p.0;
      assert one[i].0 == one[|seen|].0;
    } else if p.1 in News(seen) {
      var x :| x in seen && x.1 == p.1;
      var i :| 0 <= i < |seen| && seen[i] == x;
      assert one[i].1 == one[|seen|].1;
    } else {
      forall i | 0 <= i < |seen| ensures seen[i].0 != p.0 && seen[i].1 != p.1 {
        assert seen[i].0 in MapOf(seen) && seen[i] in seen && seen[i].1 in News(seen);
      }
    }
  }

  /** `correspondence`: the identities of the document mapped to those of the other one. It succeeds exactly when the
      two are the same up to identities, shape fills and run boundaries, and the map is one to one. */
  method Correspond(document: Node, model: Node) returns (r: Option<map<Id, Id>>)
    requires document.Doc?
    ensures r.Some? <==>
      WellFormed(document) && Distinct(ControlsOf(document)) && Same(document, model)
        && OneToOne(Pairs(document, model))
    ensures r.Some? ==> r.value == MapOf(Pairs(document, model))
  {
    hide WellFormed, Distinct, ControlsOf, Same, Pairs, Comparing, SameAttrs, MapOf, OneToOne, News, Weight, Pieces;
    NoneSeen();
    var indexed := Index(document);
    if indexed.None? {
      return None;
    }
    var identities: map<Id, Id>, targets: set<Id> := map[], {};
    var pending: seq<Work> := [(Child(document), Child(model))];
    ghost var seen: seq<(Id, Id)> := [];
    CompareStart(document, model);
    while pending != []
      invariant Comparing(document, model, pending, seen)
      invariant identities == MapOf(seen) && targets == News(seen)
      decreases Weight(pending)
    {
      var (p, q) := pending[|pending| - 1];
      var rest := pending[..|pending| - 1];
      if p.Run? {
        CompareRun(document, model, pending, seen);
        if p != q {
          return None;
        }
        pending := rest;
      } else {
        if !q.Child? || !SameAttrs(p.node, q.node) {
          CompareFails(document, model, pending, seen);
          return None;
        }
        var source, target := p.node, q.node;
        var before := Children(Content(source));
        var after := Children(Content(target));
        PiecesAre(source);
        PiecesAre(target);
        if |before| != |after| {
          CompareFails(document, model, pending, seen);
          return None;
        }
        CompareNode(document, model, pending, seen, source, target);
        var left, right := IdOf(source), IdOf(target);
        SameIds(source, target);
        SeenOnce(document, model, pending, seen);
        if left.Some? {
          Extend(seen, (left.value, right.value));
          if left.value in identities || right.value in targets {
            return None;
          }
          identities := identities[left.value := right.value];
          targets := targets + {right.value};
        } else {
          assert seen + OwnPair(source, target) == seen;
        }
        seen := seen + OwnPair(source, target);
        pending := rest + Zip(before, after);
      }
    }
    CompareDone(document, model, seen);
    r := Some(identities);
  }

  lemma NoneSeen()
    ensures MapOf([]) == map[] && News([]) == {}
  {
  }

  lemma PiecesAre(n: Node)
    ensures Pieces(n) == PiecesOf(Content(n))
  {
  }

  lemma SeenOnce(document: Node, model: Node, stack: seq<Work>, seen: seq<(Id, Id)>)
    requires Comparing(document, model, stack, seen)
    ensures OneToOne(seen)
  {
  }

  lemma SameIds(s: Node, t: Node)
    requires SameAttrs(s, t)
    ensures IdOf(s).Some? <==> IdOf(t).Some?
  {
  }

  lemma CompareDone(document: Node, model: Node, seen: seq<(Id, Id)>)
    requires Comparing(document, model, [], seen)
    ensures Same(document, model) && seen == Pairs(document, model) && OneToOne(seen)
  {
    hide Same, Pairs;
    assert seen + [] == seen;
  }
}
