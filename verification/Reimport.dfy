/** When an element, imported again, gives back a node: at any position, up to identities and run boundaries. */
module Reimport {
  import opened DocumentModel
  import opened Rebase
  import opened Correspondence
  import opened Transport
  import opened Ooxml

  // ----- alike nodes

  function PieceOf(n: Node): Piece {
    if n.Text? then Run(n.text, StyleOf(n)) else Child(n)
  }

  /** Texts shown alike, or corresponding nodes. */
  ghost predicate Alike(n: Node, m: Node) {
    SamePiece(PieceOf(n), PieceOf(m))
  }

  ghost predicate AlikeAll(ns: seq<Node>, ms: seq<Node>) {
    |ns| == |ms| && forall i | 0 <= i < |ns| :: Alike(ns[i], ms[i])
  }

  lemma JoinedAlike(a: seq<Piece>, b: seq<Piece>, n: Node, m: Node)
    requires SameAll(a, b) && Alike(n, m)
    ensures SameAll(Joined(a, n), Joined(b, m))
  {
    hide StyleOf, Same;
    assert a != [] ==> SamePiece(a[|a| - 1], b[|b| - 1]);
  }

  lemma {:induction false} AlikePieces(ns: seq<Node>, ms: seq<Node>)
    requires AlikeAll(ns, ms)
    ensures SameAll(PiecesOf(ns), PiecesOf(ms))
  {
    if ns != [] {
      hide Alike, SameAll, Joined;
      AlikePieces(ns[..|ns| - 1], ms[..|ms| - 1]);
      JoinedAlike(PiecesOf(ns[..|ns| - 1]), PiecesOf(ms[..|ms| - 1]), ns[|ns| - 1], ms[|ms| - 1]);
    }
  }

  /** Nodes with the same attributes and alike contents correspond. */
  lemma AlikeSame(s: Node, t: Node)
    requires !s.Text? && SameAttrs(s, t) && AlikeAll(Content(s), Content(t))
    ensures Same(s, t) && Alike(s, t)
  {
    hide Alike, PiecesOf, SameAttrs, Same, SameAll, Pieces, AlikeAll;
    AlikePieces(Content(s), Content(t));
    PiecesAre(s);
    PiecesAre(t);
    SameParts(s, t);
    AlikeNode(s, t);
  }

  lemma SameParts(s: Node, t: Node)
    requires SameAttrs(s, t) && SameAll(Pieces(s), Pieces(t))
    ensures Same(s, t)
  {
    hide Pieces, SameAttrs;
    forall i | 0 <= i < |Pieces(s)|
      ensures match Pieces(s)[i]
              case Run(text, style) => Pieces(t)[i] == Run(text, style)
              case Child(n) => Pieces(t)[i].Child? && Same(n, Pieces(t)[i].node)
    {
      assert SamePiece(Pieces(s)[i], Pieces(t)[i]);
    }
  }

  lemma AlikeNode(s: Node, t: Node)
    requires !s.Text? && Same(s, t)
    ensures Alike(s, t)
  {
    SamePiecesAll(s, t);
  }

  lemma AlikeConcat(a: seq<Node>, b: seq<Node>, c: seq<Node>, d: seq<Node>)
    requires AlikeAll(a, c) && AlikeAll(b, d)
    ensures AlikeAll(a + b, c + d)
  {
    hide Alike;
  }

  lemma AlikeText(ns: seq<Node>, ms: seq<Node>)
    requires AlikeAll(ns, ms)
    ensures AllText(ns) <==> AllText(ms)
  {
    hide StyleOf, Same;
    forall i | 0 <= i < |ns| ensures ns[i].Text? <==> ms[i].Text? { assert Alike(ns[i], ms[i]); }
    assert AllText(ns) ==> forall i | 0 <= i < |ms| :: ns[i] in ns && ms[i].Text?;
    assert AllText(ms) ==> forall i | 0 <= i < |ns| :: ms[i] in ms && ns[i].Text?;
  }

  // ----- positions do not matter

  lemma LockedAlike(part: string, x: Xml, p: nat, q: nat)
    ensures AlikeAll([Locked(part, x, p)], [Locked(part, x, q)])
  {
    hide Caption;
    AlikeSame(Locked(part, x, p), Locked(part, x, q));
  }

  lemma ControlAlike(part: string, x: Xml, p: nat, q: nat)
    requires (IsControl(x) || IsCheckbox(x)) && AlikeAll(Held(part, x, p), Held(part, x, q))
    ensures AlikeAll(InlineOf(part, x, p), InlineOf(part, x, q))
  {
    hide Alike, AlikeAll, Under, Deep, Held, AllText, KeyOf, IsChecked, ControlId, Restricted;
    LockedAlike(part, x, p, q);
    AlikeText(Held(part, x, p), Held(part, x, q));
    if AllText(Held(part, x, p)) && !(IsControl(x) && Restricted(x)) {
      var n, m := InlineOf(part, x, p)[0], InlineOf(part, x, q)[0];
      NothingAlike();
      AlikeSame(n, m);
      OneAlike(n, m);
    }
  }

  lemma NothingAlike()
    ensures AlikeAll([], [])
  {
  }

  lemma OneAlike(n: Node, m: Node)
    requires Alike(n, m)
    ensures AlikeAll([n], [m])
  {
    hide Alike;
  }

  lemma {:induction false} Moved(part: string, x: Xml, p: nat, q: nat)
    ensures AlikeAll(InlineOf(part, x, p), InlineOf(part, x, q))
    decreases x, 1
  {
    hide Caption, AlikeAll, Under, Deep, RunText, PlainRun, StyleOf, Held, AllText;
    LockedAlike(part, x, p, q);
    if x.tag.R? {
      if PlainRun(x.children) {
        RunAlike(part, x, p, q);
      }
    } else if IsControl(x) || IsCheckbox(x) {
      HeldMoved(part, x, p, q);
      ControlAlike(part, x, p, q);
    }
  }

  lemma RunAlike(part: string, x: Xml, p: nat, q: nat)
    requires x.tag.R? && PlainRun(x.children)
    ensures AlikeAll(InlineOf(part, x, p), InlineOf(part, x, q))
  {
    hide RunText, RunStyle;
  }

  lemma {:induction false} HeldMoved(part: string, x: Xml, p: nat, q: nat)
    ensures AlikeAll(Held(part, x, p), Held(part, x, q))
    decreases x, 0
  {
    hide Alike, InlinesOf;
    if Holder(x).Some? {
      InlinesMoved(part, Holder(x).value.children, p + Ahead(x.children, SdtContent) + 2,
        q + Ahead(x.children, SdtContent) + 2);
    }
  }

  lemma {:induction false} InlinesMoved(part: string, xs: seq<Xml>, p: nat, q: nat)
    ensures AlikeAll(InlinesOf(part, xs, p), InlinesOf(part, xs, q))
    decreases xs, 0
  {
    hide Alike, InlineOf, ElementsAll;
    if xs != [] {
      var n := |xs| - 1;
      InlinesMoved(part, xs[..n], p, q);
      Moved(part, xs[n], p + ElementsAll(xs[..n]), q + ElementsAll(xs[..n]));
      if !xs[n].tag.PPr? {
        AlikeConcat(InlinesOf(part, xs[..n], p), InlineOf(part, xs[n], p + ElementsAll(xs[..n])),
                    InlinesOf(part, xs[..n], q), InlineOf(part, xs[n], q + ElementsAll(xs[..n])));
      }
    }
  }

  lemma {:induction false} BlockMoved(part: string, x: Xml, p: nat, q: nat)
    ensures AlikeAll(BlockOf(part, x, p), BlockOf(part, x, q))
    decreases x, 1
  {
    hide Alike, InlinesOf, BlocksOf, Under, Spanned, AlignOf, Caption;
    if !IsProperties(x.tag) {
      InlinesMoved(part, x.children, p + 1, q + 1);
      BlocksMoved(part, x.children, p + 1, q + 1);
      AlikeSame(BlockOf(part, x, p)[0], BlockOf(part, x, q)[0]);
    }
  }

  lemma {:induction false} BlocksMoved(part: string, xs: seq<Xml>, p: nat, q: nat)
    ensures AlikeAll(BlocksOf(part, xs, p), BlocksOf(part, xs, q))
    decreases xs, 0
  {
    hide Alike, BlockOf, ElementsAll;
    if xs != [] {
      var n := |xs| - 1;
      BlocksMoved(part, xs[..n], p, q);
      BlockMoved(part, xs[n], p + ElementsAll(xs[..n]), q + ElementsAll(xs[..n]));
      AlikeConcat(BlocksOf(part, xs[..n], p), BlockOf(part, xs[n], p + ElementsAll(xs[..n])),
                  BlocksOf(part, xs[..n], q), BlockOf(part, xs[n], q + ElementsAll(xs[..n])));
    }
  }

  // ----- elements that give a node back

  ghost predicate Renders(part: string, n: Node, x: Xml) {
    !x.tag.PPr? && forall p: nat :: AlikeAll([n], InlineOf(part, x, p))
  }

  ghost predicate RendersAll(part: string, ns: seq<Node>, xs: seq<Xml>) {
    |ns| == |xs| && forall i | 0 <= i < |ns| :: Renders(part, ns[i], xs[i])
  }

  ghost predicate RendersBlock(part: string, n: Node, x: Xml) {
    !IsProperties(x.tag) && forall p: nat :: AlikeAll([n], BlockOf(part, x, p))
  }

  ghost predicate RendersBlocks(part: string, ns: seq<Node>, xs: seq<Xml>) {
    |ns| == |xs| && forall i | 0 <= i < |ns| :: RendersBlock(part, ns[i], xs[i])
  }

  /** Property elements kept in front add nothing. */
  lemma {:induction false} RenderedInlines(part: string, kept: seq<Xml>, ns: seq<Node>, xs: seq<Xml>, p: nat)
    requires (forall k | k in kept :: k.tag.PPr?) && RendersAll(part, ns, xs)
    ensures AlikeAll(ns, InlinesOf(part, kept + xs, p))
    decreases |xs|
  {
    hide Alike, InlineOf, ElementsAll, Renders;
    if xs == [] {
      assert kept + xs == kept;
      KeptInlines(part, kept, p);
    } else {
      var n, all := |xs| - 1, kept + xs;
      assert all[..|all| - 1] == kept + xs[..n] && all[|all| - 1] == xs[n];
      RenderedInlines(part, kept, ns[..n], xs[..n], p);
      RendersHere(part, ns[n], xs[n], p + ElementsAll(kept + xs[..n]));
      assert ns == ns[..n] + [ns[n]];
      AlikeConcat(ns[..n], [ns[n]], InlinesOf(part, kept + xs[..n], p),
        InlineOf(part, xs[n], p + ElementsAll(kept + xs[..n])));
    }
  }

  lemma RendersHere(part: string, n: Node, x: Xml, p: nat)
    requires Renders(part, n, x)
    ensures !x.tag.PPr? && AlikeAll([n], InlineOf(part, x, p))
  {
  }

  lemma {:induction false} KeptInlines(part: string, kept: seq<Xml>, p: nat)
    requires forall k | k in kept :: k.tag.PPr?
    ensures InlinesOf(part, kept, p) == []
  {
    hide InlineOf, ElementsAll;
    if kept != [] {
      KeptInlines(part, kept[..|kept| - 1], p);
    }
  }

  lemma {:induction false} KeptBlocks(part: string, kept: seq<Xml>, p: nat)
    requires forall k | k in kept :: IsProperties(k.tag)
    ensures BlocksOf(part, kept, p) == []
  {
    hide ElementsAll;
    if kept != [] {
      KeptBlocks(part, kept[..|kept| - 1], p);
    }
  }

  lemma {:induction false} RenderedBlocks(part: string, kept: seq<Xml>, ns: seq<Node>, xs: seq<Xml>, p: nat)
    requires (forall k | k in kept :: IsProperties(k.tag)) && RendersBlocks(part, ns, xs)
    ensures AlikeAll(ns, BlocksOf(part, kept + xs, p))
    decreases |xs|
  {
    hide Alike, BlockOf, ElementsAll, RendersBlock;
    if xs == [] {
      assert kept + xs == kept;
      KeptBlocks(part, kept, p);
    } else {
      var n, all := |xs| - 1, kept + xs;
      assert all[..|all| - 1] == kept + xs[..n] && all[|all| - 1] == xs[n];
      RenderedBlocks(part, kept, ns[..n], xs[..n], p);
      BlockHere(part, ns[n], xs[n], p + ElementsAll(kept + xs[..n]));
      assert ns == ns[..n] + [ns[n]];
      AlikeConcat(ns[..n], [ns[n]], BlocksOf(part, kept + xs[..n], p),
        BlockOf(part, xs[n], p + ElementsAll(kept + xs[..n])));
    }
  }

  lemma BlockHere(part: string, n: Node, x: Xml, p: nat)
    requires RendersBlock(part, n, x)
    ensures AlikeAll([n], BlockOf(part, x, p))
  {
  }

  lemma {:induction false} BlocksFollowed(part: string, xs: seq<Xml>, after: seq<Xml>, p: nat)
    requires forall k | k in after :: IsProperties(k.tag)
    ensures BlocksOf(part, xs + after, p) == BlocksOf(part, xs, p)
    decreases |after|
  {
    hide ElementsAll;
    if after == [] {
      assert xs + after == xs;
    } else {
      var n, all := |after| - 1, xs + after;
      assert all[..|all| - 1] == xs + after[..n] && all[|all| - 1] == after[n];
      BlocksFollowed(part, xs, after[..n], p);
    }
  }

  lemma CopyRendersBlock(part: string, n: Node, x: Xml, p: nat)
    requires BlockOf(part, x, p) == [n]
    ensures RendersBlock(part, n, x)
  {
    hide Alike, BlocksOf, InlinesOf;
    forall q: nat ensures AlikeAll([n], BlockOf(part, x, q)) { BlockMoved(part, x, p, q); }
  }
}
