/** The identities of a document: an import never repeats one, so correspondence is one to one. */
module Identities {
  import opened Common
  import opened DocumentModel
  import opened Rebase
  import opened Correspondence
  import opened Transport
  import opened Ooxml

  function OwnId(n: Node): seq<Id> {
    if IdOf(n).Some? then [IdOf(n).value] else []
  }

  /** The identities of a tree, each node before its content. */
  function IdsOf(n: Node): seq<Id>
    decreases n, 1
  {
    OwnId(n) + if IsContainer(n) then IdsAll(n.content) else []
  }

  function IdsAll(ns: seq<Node>): seq<Id>
    decreases ns, 0
  {
    if ns == [] then [] else IdsAll(ns[..|ns| - 1]) + IdsOf(ns[|ns| - 1])
  }

  /** The identities of the locked nodes. */
  function LockedOf(n: Node): seq<Id>
    decreases n, 1
  {
    (if n.LockedBlock? || n.LockedInline? then [n.id] else []) + if IsContainer(n) then LockedAll(n.content) else []
  }

  function LockedAll(ns: seq<Node>): seq<Id>
    decreases ns, 0
  {
    if ns == [] then [] else LockedAll(ns[..|ns| - 1]) + LockedOf(ns[|ns| - 1])
  }

  /** A node and everything below it. */
  function Everything(n: Node): seq<Node>
    decreases n, 1
  {
    [n] + if IsContainer(n) then EverythingIn(n.content) else []
  }

  function EverythingIn(ns: seq<Node>): seq<Node>
    decreases ns, 0
  {
    if ns == [] then [] else EverythingIn(ns[..|ns| - 1]) + Everything(ns[|ns| - 1])
  }

  ghost predicate HasId(all: seq<Node>, id: Id) {
    exists m :: m in all && IdOf(m) == Some(id)
  }

  ghost predicate HasLocked(all: seq<Node>, id: Id) {
    exists m :: m in all && (m.LockedBlock? || m.LockedInline?) && m.id == id
  }

  lemma HasEither(a: seq<Node>, b: seq<Node>, id: Id)
    ensures HasId(a + b, id) <==> HasId(a, id) || HasId(b, id)
    ensures HasLocked(a + b, id) <==> HasLocked(a, id) || HasLocked(b, id)
  {
  }

  /** The identities listed are those of the nodes, and the locks listed those of the locked ones. */
  lemma {:induction false} ListsMean(n: Node, id: Id)
    ensures id in IdsOf(n) <==> HasId(Everything(n), id)
    ensures id in LockedOf(n) <==> HasLocked(Everything(n), id)
    decreases n, 1
  {
    hide HasId, HasLocked, EverythingIn, IdsAll, LockedAll;
    HasEither([n], if IsContainer(n) then EverythingIn(n.content) else [], id);
    OwnMeans(n, id);
    if IsContainer(n) {
      ListsInMean(n.content, id);
    }
  }

  lemma OwnMeans(n: Node, id: Id)
    ensures HasId([n], id) <==> IdOf(n) == Some(id)
    ensures HasLocked([n], id) <==> (n.LockedBlock? || n.LockedInline?) && n.id == id
    ensures !HasId([], id) && !HasLocked([], id)
  {
    if IdOf(n) == Some(id) {
      assert n in [n];
    }
  }

  lemma {:induction false} ListsInMean(ns: seq<Node>, id: Id)
    ensures id in IdsAll(ns) <==> HasId(EverythingIn(ns), id)
    ensures id in LockedAll(ns) <==> HasLocked(EverythingIn(ns), id)
    decreases ns, 0
  {
    hide Everything, IdsOf, LockedOf;
    if ns != [] {
      var n := |ns| - 1;
      ListsInMean(ns[..n], id);
      ListsMean(ns[n], id);
      HasEither(EverythingIn(ns[..n]), Everything(ns[n]), id);
    }
  }

  lemma NoRepeatsConcat<T>(a: seq<T>, b: seq<T>)
    ensures NoRepeats(a + b) <==> NoRepeats(a) && NoRepeats(b) && forall x | x in a :: x !in b
  {
    var all := a + b;
    if NoRepeats(all) {
      forall i, k | 0 <= i < k < |a| ensures a[i] != a[k] { assert all[i] != all[k]; }
      forall i, k | 0 <= i < k < |b| ensures b[i] != b[k] { assert all[|a| + i] != all[|a| + k]; }
      forall x | x in a ensures x !in b {
        var i :| 0 <= i < |a| && a[i] == x;
        forall k | 0 <= k < |b| ensures b[k] != x { assert all[i] != all[|a| + k]; }
      }
    } else {
      var i, k :| 0 <= i < k < |all| && all[i] == all[k];
      if i < |a| <= k {
        assert a[i] in a && b[k - |a|] in b;
      }
    }
  }

  // ----- what an import issues

  /** An identity of the part whose position lies in a range, or whose native identifier is among those registered. */
  predicate Issued(id: Id, part: string, low: nat, high: nat, natives: seq<string>) {
    match id
    case At(home, position) => home == part && low <= position < high
    case Control(home, native) => home == part && native in natives
    case _ => false
  }

  ghost predicate IssuedAll(ids: seq<Id>, part: string, low: nat, high: nat, natives: seq<string>) {
    (forall id | id in ids :: Issued(id, part, low, high, natives)) && (NoRepeats(natives) ==> NoRepeats(ids))
  }

  lemma IssuedElsewhere(id: Id, part: string, low: nat, middle: nat, high: nat, x: seq<string>, y: seq<string>)
    requires Issued(id, part, low, middle, x) && forall n | n in x :: n !in y
    ensures !Issued(id, part, middle, high, y)
  {
  }

  /** Two neighbouring ranges, their natives apart. */
  lemma IssuedConcat(a: seq<Id>, b: seq<Id>, part: string, low: nat, middle: nat, high: nat, x: seq<string>,
                     y: seq<string>)
    requires IssuedAll(a, part, low, middle, x) && IssuedAll(b, part, middle, high, y) && low <= middle <= high
    ensures IssuedAll(a + b, part, low, high, x + y)
  {
    hide NoRepeats;
    NoRepeatsConcat(a, b);
    NoRepeatsConcat(x, y);
    if NoRepeats(x + y) {
      forall id | id in a ensures id !in b { IssuedElsewhere(id, part, low, middle, high, x, y); }
    }
  }

  lemma Wider(ids: seq<Id>, part: string, low: nat, high: nat, x: seq<string>, less: nat, more: nat)
    requires IssuedAll(ids, part, low, high, x) && less <= low && high <= more
    ensures IssuedAll(ids, part, less, more, x)
  {
    hide NoRepeats;
  }

  lemma NothingIssued(part: string, low: nat, high: nat, x: seq<string>)
    ensures IssuedAll([], part, low, high, x)
  {
  }

  lemma OneIssued(part: string, p: nat, high: nat, x: seq<string>)
    requires p < high
    ensures IssuedAll([At(part, p)], part, p, high, x)
  {
  }

  lemma {:induction false} TextIds(ns: seq<Node>)
    requires AllText(ns)
    ensures IdsAll(ns) == []
  {
    if ns != [] {
      TextIds(ns[..|ns| - 1]);
    }
  }

  lemma OneIds(n: Node)
    ensures IdsAll([n]) == IdsOf(n)
  {
    assert [n][..0] == [];
  }

  lemma InlineIssues(part: string, x: Xml, p: nat)
    ensures IssuedAll(IdsAll(InlineOf(part, x, p)), part, p, p + Elements(x), Natives(x))
  {
    hide Caption, RunText, PlainRun, Under, Held, NativesAll, IdsAll, ElementsAll, KeyOf, NoRepeats;
    var ns, high := InlineOf(part, x, p), p + Elements(x);
    NothingIssued(part, p, high, Natives(x));
    OneIssued(part, p, high, Natives(x));
    if ns != [] {
      OneIds(ns[0]);
      assert ns == [ns[0]];
      if ns[0].Field? {
        TextIds(ns[0].content);
        FieldIssued(part, x, p);
        assert IdsOf(ns[0]) == [ControlId(part, x, p)];
      } else if !ns[0].Text? {
        assert IdsOf(ns[0]) == [At(part, p)];
      } else {
        assert IdsOf(ns[0]) == [];
      }
    } else {
      NoIds();
    }
  }

  lemma NoIds()
    ensures IdsAll([]) == []
  {
  }

  lemma FieldIssued(part: string, x: Xml, p: nat)
    requires IsControl(x) && !Restricted(x)
    ensures IssuedAll([ControlId(part, x, p)], part, p, p + Elements(x), Natives(x))
  {
    hide Under, NativesAll;
  }

  lemma {:induction false} IdsConcat(a: seq<Node>, b: seq<Node>)
    ensures IdsAll(a + b) == IdsAll(a) + IdsAll(b)
    decreases |b|
  {
    hide IdsOf;
    if b == [] {
      assert a + b == a;
    } else {
      var n := |b| - 1;
      assert (a + b)[..|a + b| - 1] == a + b[..n];
      IdsConcat(a, b[..n]);
    }
  }

  /** A step of the traversal over siblings: what was read before, one more child, and what that adds. */
  lemma NextInline(part: string, xs: seq<Xml>, i: nat, p: nat)
    requires i < |xs|
    ensures ElementsAll(xs[..i + 1]) == ElementsAll(xs[..i]) + Elements(xs[i])
    ensures NativesAll(xs[..i + 1]) == NativesAll(xs[..i]) + if xs[i].tag.PPr? then [] else Natives(xs[i])
    ensures InlinesOf(part, xs[..i + 1], p) ==
      InlinesOf(part, xs[..i], p) + if xs[i].tag.PPr? then [] else InlineOf(part, xs[i], p + ElementsAll(xs[..i]))
  {
    hide Elements, Natives, InlineOf;
    assert xs[..i + 1][..i] == xs[..i];
  }

  lemma NextBlock(part: string, xs: seq<Xml>, i: nat, p: nat)
    requires i < |xs|
    ensures ElementsAll(xs[..i + 1]) == ElementsAll(xs[..i]) + Elements(xs[i])
    ensures BlocksNatives(xs[..i + 1]) == BlocksNatives(xs[..i]) + BlockNatives(xs[i])
    ensures BlocksOf(part, xs[..i + 1], p) == BlocksOf(part, xs[..i], p) +
      BlockOf(part, xs[i], p + ElementsAll(xs[..i]))
    ensures AllTold(xs[..i + 1]) <==> AllTold(xs[..i]) && SpansTold(xs[i])
  {
    hide Elements, BlockNatives, BlockOf, SpansTold;
    assert xs[..i + 1][..i] == xs[..i];
  }

  lemma PropertiesRead(part: string, x: Xml, p: nat)
    requires IsProperties(x.tag)
    ensures BlockOf(part, x, p) == [] && BlockNatives(x) == [] && SpansTold(x)
  {
  }

  /** One node among its siblings: its identities are its own. */
  lemma NextDistinct(ns: seq<Node>, i: nat)
    requires i < |ns| && NoRepeats(IdsAll(ns))
    ensures NoRepeats(IdsOf(ns[i])) && forall id | id in IdsOf(ns[i]) :: id in IdsAll(ns) && id !in IdsAll(ns[..i])
  {
    hide NoRepeats, IdsOf;
    assert ns == (ns[..i] + [ns[i]]) + ns[i + 1..];
    IdsConcat(ns[..i] + [ns[i]], ns[i + 1..]);
    IdsConcat(ns[..i], [ns[i]]);
    OneIds(ns[i]);
    NoRepeatsConcat(IdsAll(ns[..i]) + IdsOf(ns[i]), IdsAll(ns[i + 1..]));
    NoRepeatsConcat(IdsAll(ns[..i]), IdsOf(ns[i]));
  }

  lemma NothingInlined(part: string, p: nat)
    ensures IssuedAll(IdsAll(InlinesOf(part, [], p)), part, p, p + ElementsAll([]), NativesAll([]))
    ensures IssuedAll(IdsAll(BlocksOf(part, [], p)), part, p, p + ElementsAll([]), BlocksNatives([]))
  {
    NoIds();
    NothingIssued(part, p, p, []);
  }

  lemma {:induction false} InlinesIssue(part: string, xs: seq<Xml>, p: nat)
    ensures IssuedAll(IdsAll(InlinesOf(part, xs, p)), part, p, p + ElementsAll(xs), NativesAll(xs))
  {
    hide InlineOf, Natives, Elements, IdsOf, IssuedAll, IdsAll, InlinesOf, NativesAll, ElementsAll;
    if xs == [] {
      NothingInlined(part, p);
    } else {
      var n := |xs| - 1;
      var q := p + ElementsAll(xs[..n]);
      assert xs[..n + 1] == xs;
      NextInline(part, xs, n, p);
      InlinesIssue(part, xs[..n], p);
      if xs[n].tag.PPr? {
        assert NativesAll(xs) == NativesAll(xs[..n]) && InlinesOf(part, xs, p) == InlinesOf(part, xs[..n], p);
        Wider(IdsAll(InlinesOf(part, xs[..n], p)), part, p, q, NativesAll(xs[..n]), p, p + ElementsAll(xs));
      } else {
        InlineIssues(part, xs[n], q);
        IdsConcat(InlinesOf(part, xs[..n], p), InlineOf(part, xs[n], q));
        IssuedConcat(IdsAll(InlinesOf(part, xs[..n], p)), IdsAll(InlineOf(part, xs[n], q)), part, p, q,
          p + ElementsAll(xs),
                     NativesAll(xs[..n]), Natives(xs[n]));
      }
    }
  }

  /** A block: its own identity, then those of its content. */
  lemma Framed(part: string, n: Node, inner: seq<Node>, p: nat, high: nat, x: seq<string>)
    requires IdOf(n) == Some(At(part, p)) && Content(n) == inner && IssuedAll(IdsAll(inner), part, p + 1, high, x)
      && p < high
    ensures IssuedAll(IdsAll([n]), part, p, high, x)
  {
    hide NoRepeats, IdsAll;
    OneIds(n);
    OneIssued(part, p, p + 1, []);
    IssuedConcat([At(part, p)], IdsAll(inner), part, p, p + 1, high, [], x);
    assert [] + x == x;
    if !IsContainer(n) {
      NoIds();
    }
    assert IdsOf(n) == [At(part, p)] + IdsAll(inner);
  }

  lemma {:induction false} BlockIssues(part: string, x: Xml, p: nat)
    ensures IssuedAll(IdsAll(BlockOf(part, x, p)), part, p, p + Elements(x), BlockNatives(x))
    decreases x, 1
  {
    hide InlinesOf, BlocksOf, IssuedAll, IdsAll, ElementsAll, NativesAll, BlocksNatives, Under, Spanned, AlignOf,
      Caption, IdsOf;
    var ns, high := BlockOf(part, x, p), p + Elements(x);
    if ns == [] {
      NoIds();
      NothingIssued(part, p, high, BlockNatives(x));
    } else {
      assert ns == [ns[0]];
      InlinesIssue(part, x.children, p + 1);
      BlocksIssue(part, x.children, p + 1);
      if ns[0].LockedBlock? {
        NoIds();
        NothingIssued(part, p + 1, high, BlockNatives(x));
      }
      Framed(part, ns[0], Content(ns[0]), p, high, BlockNatives(x));
    }
  }

  lemma {:induction false} BlocksIssue(part: string, xs: seq<Xml>, p: nat)
    ensures IssuedAll(IdsAll(BlocksOf(part, xs, p)), part, p, p + ElementsAll(xs), BlocksNatives(xs))
    decreases xs, 0
  {
    hide BlockOf, BlockNatives, Elements, IdsOf, IssuedAll, IdsAll, BlocksOf, BlocksNatives, ElementsAll;
    if xs == [] {
      NothingInlined(part, p);
    } else {
      var n := |xs| - 1;
      var q := p + ElementsAll(xs[..n]);
      assert xs[..n + 1] == xs;
      NextBlock(part, xs, n, p);
      BlocksIssue(part, xs[..n], p);
      BlockIssues(part, xs[n], q);
      IdsConcat(BlocksOf(part, xs[..n], p), BlockOf(part, xs[n], q));
      IssuedConcat(IdsAll(BlocksOf(part, xs[..n], p)), IdsAll(BlockOf(part, xs[n], q)), part, p, q, p + ElementsAll(xs),
                   BlocksNatives(xs[..n]), BlockNatives(xs[n]));
    }
  }

  // ----- one to one

  function Lefts(pairs: Links): seq<Id> {
    seq(|pairs|, i requires 0 <= i < |pairs| => pairs[i].0)
  }

  function Rights(pairs: Links): seq<Id> {
    seq(|pairs|, i requires 0 <= i < |pairs| => pairs[i].1)
  }

  /** The identities in the order the comparison meets them: last children first. */
  function MetOf(n: Node): seq<Id>
    decreases n, 1
  {
    OwnId(n) + if IsContainer(n) then MetAll(n.content) else []
  }

  function MetAll(ns: seq<Node>): seq<Id>
    decreases ns, 0
  {
    if ns == [] then [] else MetOf(ns[|ns| - 1]) + MetAll(ns[..|ns| - 1])
  }

  function MetPiece(p: Piece): seq<Id> {
    if p.Child? then MetOf(p.node) else []
  }

  function MetPieces(pieces: seq<Piece>): seq<Id> {
    if pieces == [] then [] else MetPiece(pieces[|pieces| - 1]) + MetPieces(pieces[..|pieces| - 1])
  }

  lemma {:induction false} MetByPieces(ns: seq<Node>)
    ensures MetPieces(PiecesOf(ns)) == MetAll(ns)
  {
    hide MetOf, PiecesOf, MetPieces;
    if ns == [] {
      PiecesNone();
      NoneMet();
    } else {
      var n := |ns| - 1;
      MetByPieces(ns[..n]);
      PiecesNext(ns, n);
      assert ns[..n + 1] == ns;
      JoinedMeets(PiecesOf(ns[..n]), ns[n]);
    }
  }

  lemma NoneMet()
    ensures MetPieces([]) == []
  {
  }

  lemma JoinedMeets(before: seq<Piece>, n: Node)
    ensures MetPieces(Joined(before, n)) == MetOf(n) + MetPieces(before)
  {
    hide MetOf, StyleOf;
    var joined := Joined(before, n);
    TextMeets(n);
    if Joins(before, n) {
      assert joined[..|joined| - 1] == before[..|before| - 1];
    } else {
      assert joined[..|joined| - 1] == before;
    }
  }

  lemma TextMeets(n: Node)
    ensures n.Text? ==> MetOf(n) == []
  {
  }

  lemma {:induction false} MetIsMultiset(n: Node)
    ensures multiset(MetOf(n)) == multiset(IdsOf(n))
    decreases n, 1
  {
    if IsContainer(n) {
      AllIsMultiset(n.content);
    }
  }

  lemma {:induction false} AllIsMultiset(ns: seq<Node>)
    ensures multiset(MetAll(ns)) == multiset(IdsAll(ns))
    decreases ns, 0
  {
    hide MetOf, IdsOf;
    if ns != [] {
      AllIsMultiset(ns[..|ns| - 1]);
      MetIsMultiset(ns[|ns| - 1]);
    }
  }

  lemma {:induction false} Once<T>(s: seq<T>, x: T)
    requires NoRepeats(s)
    ensures multiset(s)[x] <= 1
  {
    if s != [] {
      var n := |s| - 1;
      assert s == s[..n] + [s[n]];
      Once(s[..n], x);
      assert forall i | 0 <= i < n :: s[..n][i] != s[n];
    }
  }

  lemma SameElementsOnce<T>(a: seq<T>, b: seq<T>)
    requires multiset(a) == multiset(b)
    ensures NoRepeats(a) <==> NoRepeats(b)
  {
    hide NoRepeats;
    if NoRepeats(a) {
      OnceToo(a, b);
    } else if NoRepeats(b) {
      OnceToo(b, a);
    }
  }

  lemma OnceToo<T>(a: seq<T>, b: seq<T>)
    requires multiset(a) == multiset(b) && NoRepeats(a)
    ensures NoRepeats(b)
  {
    forall i, k | 0 <= i < k < |b| ensures b[i] != b[k] {
      Once(a, b[i]);
      assert b == b[..i] + [b[i]] + b[i + 1..k] + [b[k]] + b[k + 1..];
    }
  }

  /** The pairs are the identities of the two sides, in the same order. */
  lemma {:induction false} PairsMeet(s: Node, t: Node)
    requires Same(s, t)
    ensures Lefts(Pairs(s, t)) == MetOf(s) && Rights(Pairs(s, t)) == MetOf(t)
    decreases s, 1, 0
  {
    hide Same, Pieces, SamePiece;
    SamePiecesAll(s, t);
    SameIds(s, t);
    UpToMeets(s, t, |Pieces(s)|);
    assert Pieces(s)[..|Pieces(s)|] == Pieces(s) && Pieces(t)[..|Pieces(t)|] == Pieces(t);
    PiecesAre(s);
    PiecesAre(t);
    MetByPieces(Content(s));
    MetByPieces(Content(t));
    SidesConcat(OwnPair(s, t), PairsUpTo(s, t, |Pieces(s)|));
    OwnSides(s, t);
  }

  lemma OwnSides(s: Node, t: Node)
    requires IdOf(s).Some? <==> IdOf(t).Some?
    ensures Lefts(OwnPair(s, t)) == OwnId(s) && Rights(OwnPair(s, t)) == OwnId(t)
  {
  }

  lemma SidesConcat(a: Links, b: Links)
    ensures Lefts(a + b) == Lefts(a) + Lefts(b) && Rights(a + b) == Rights(a) + Rights(b)
  {
  }

  lemma {:induction false} UpToMeets(s: Node, t: Node, i: nat)
    requires Same(s, t) && i <= |Pieces(s)|
    ensures |Pieces(s)| == |Pieces(t)|
    ensures Lefts(PairsUpTo(s, t, i)) == MetPieces(Pieces(s)[..i])
      && Rights(PairsUpTo(s, t, i)) == MetPieces(Pieces(t)[..i])
    decreases s, 0, i
  {
    hide Same, Pieces, MetOf, Pairs, PairsUpTo, MetPieces, PiecePairs, MetPiece;
    SamePiecesAll(s, t);
    UpToNone(s, t);
    if i > 0 {
      var p, q := Pieces(s)[i - 1], Pieces(t)[i - 1];
      UpToMeets(s, t, i - 1);
      assert SamePiece(p, q) && p in Pieces(s);
      if p.Child? {
        PairsMeet(p.node, q.node);
      }
      PairMeets(p, q);
      UpToNext(s, t, i);
      SidesConcat(PiecePairs(p, q), PairsUpTo(s, t, i - 1));
      MetNext(Pieces(s), i - 1);
      MetNext(Pieces(t), i - 1);
    }
  }

  lemma UpToNone(s: Node, t: Node)
    requires |Pieces(s)| == |Pieces(t)|
    ensures PairsUpTo(s, t, 0) == [] && MetPieces(Pieces(s)[..0]) == [] && MetPieces(Pieces(t)[..0]) == []
  {
    hide Pieces, Pairs;
  }

  lemma PairMeets(p: Piece, q: Piece)
    requires SamePiece(p, q)
    requires p.Child? ==>
      Lefts(Pairs(p.node, q.node)) == MetOf(p.node) && Rights(Pairs(p.node, q.node)) == MetOf(q.node)
    ensures Lefts(PiecePairs(p, q)) == MetPiece(p) && Rights(PiecePairs(p, q)) == MetPiece(q)
  {
    hide Same, Pairs, MetOf;
  }

  lemma MetNext(pieces: seq<Piece>, i: nat)
    requires i < |pieces|
    ensures MetPieces(pieces[..i + 1]) == MetPiece(pieces[i]) + MetPieces(pieces[..i])
  {
    hide MetPiece;
    assert pieces[..i + 1][..i] == pieces[..i];
  }

  /** Correspondence is one to one exactly if neither side repeats an identity. */
  lemma {:induction false} DistinctIsOneToOne(s: Node, t: Node)
    requires Same(s, t)
    ensures OneToOne(Pairs(s, t)) <==> NoRepeats(IdsOf(s)) && NoRepeats(IdsOf(t))
  {
    hide Same, Pairs, MetOf, IdsOf, NoRepeats;
    PairsMeet(s, t);
    MetIsMultiset(s);
    MetIsMultiset(t);
    SameElementsOnce(IdsOf(s), MetOf(s));
    SameElementsOnce(IdsOf(t), MetOf(t));
    SidesApart(Pairs(s, t));
  }

  lemma SidesApart(pairs: Links)
    ensures OneToOne(pairs) <==> NoRepeats(Lefts(pairs)) && NoRepeats(Rights(pairs))
  {
    forall i, k | 0 <= i < k < |pairs|
      ensures Lefts(pairs)[i] == pairs[i].0 && Lefts(pairs)[k] == pairs[k].0
      ensures Rights(pairs)[i] == pairs[i].1 && Rights(pairs)[k] == pairs[k].1
    {
    }
  }
}
