/** Carrying anchors and reviews over to a corresponding document. */
module Transport {
  import opened Common
  import opened Utf16
  import opened DocumentModel
  import opened WorkingSpans
  import opened FieldAnchors
  import opened Rebase
  import opened Correspondence

  type Links = seq<(Id, Id)>

  // ----- everything an anchor sees, read off the pieces

  function PieceText(p: Piece): string {
    match p case Run(text, _) => text case Child(n) => Chars(n)
  }

  function PieceCells(p: Piece): seq<Option<Unit>> {
    match p case Run(text, _) => Somes(Encode(text)) case Child(n) => seq(Size(n), i => None)
  }

  function PiecesText(pieces: seq<Piece>): string {
    if pieces == [] then [] else PiecesText(pieces[..|pieces| - 1]) + PieceText(pieces[|pieces| - 1])
  }

  function PiecesTape(pieces: seq<Piece>): seq<Option<Unit>> {
    if pieces == [] then [] else PiecesTape(pieces[..|pieces| - 1]) + PieceCells(pieces[|pieces| - 1])
  }

  function PieceBlocked(p: Piece, offset: nat): seq<Interval> {
    match p case Run(_, _) => [] case Child(n) => [(offset, offset + |Chars(n)|)]
  }

  function PiecesBlocked(pieces: seq<Piece>): seq<Interval> {
    if pieces == [] then [] else
    var before := pieces[..|pieces| - 1];
    PiecesBlocked(before) + PieceBlocked(pieces[|pieces| - 1], |PiecesText(before)|)
  }

  function PieceField(p: Piece): seq<Node> {
    match p case Run(_, _) => [] case Child(n) => OwnField(n)
  }

  function OwnField(n: Node): seq<Node> {
    if n.Field? then [n] else []
  }

  function FieldPieces(pieces: seq<Piece>): seq<Node> {
    if pieces == [] then [] else FieldPieces(pieces[..|pieces| - 1]) + PieceField(pieces[|pieces| - 1])
  }

  function FieldNodes(children: seq<Node>): seq<Node> {
    if children == [] then [] else OwnField(children[0]) + FieldNodes(children[1..])
  }

  lemma {:induction false} TextAppend(a: seq<Node>, n: Node)
    ensures TextOf(a + [n]) == TextOf(a) + Chars(n)
  {
    hide Chars;
    if a == [] {
      assert a + [n] == [n] && [n][1..] == [];
    } else {
      assert (a + [n])[1..] == a[1..] + [n];
      TextAppend(a[1..], n);
    }
  }

  lemma {:induction false} FieldsAppend(a: seq<Node>, n: Node)
    ensures FieldNodes(a + [n]) == FieldNodes(a) + OwnField(n)
  {
    if a == [] {
      assert a + [n] == [n] && [n][1..] == [];
    } else {
      assert (a + [n])[1..] == a[1..] + [n];
      FieldsAppend(a[1..], n);
    }
  }

  lemma {:induction false} BlockedAppend(a: seq<Node>, n: Node, offset: nat)
    ensures BlockedOf(a + [n], offset) == BlockedOf(a, offset) + OwnBlocked(n, offset + |TextOf(a)|)
  {
    hide Chars, TextOf, BlockedOf, OwnBlocked;
    BlockedFront(a + [n], offset);
    if a == [] {
      assert a + [n] == [n] && [n][1..] == [];
      NoneFront(offset + |Chars(n)|);
      NoneFront(offset);
      assert OwnBlocked(n, offset) + [] == [] + OwnBlocked(n, offset);
    } else {
      assert (a + [n])[1..] == a[1..] + [n];
      BlockedFront(a, offset);
      BlockedAppend(a[1..], n, offset + |Chars(a[0])|);
      Associate(OwnBlocked(a[0], offset), BlockedOf(a[1..], offset + |Chars(a[0])|),
        OwnBlocked(n, offset + |TextOf(a)|));
    }
  }

  lemma BlockedFront(a: seq<Node>, offset: nat)
    requires a != []
    ensures BlockedOf(a, offset) == OwnBlocked(a[0], offset) + BlockedOf(a[1..], offset + |Chars(a[0])|)
    ensures TextOf(a) == Chars(a[0]) + TextOf(a[1..])
  {
    hide Chars;
  }

  lemma NoneFront(offset: nat)
    ensures BlockedOf([], offset) == [] && TextOf([]) == []
  {
  }

  predicate Joins(pieces: seq<Piece>, n: Node) {
    n.Text? && pieces != [] && pieces[|pieces| - 1].Run? && pieces[|pieces| - 1].style == StyleOf(n)
  }

  lemma JoinedText(pieces: seq<Piece>, n: Node)
    ensures PiecesText(Joined(pieces, n)) == PiecesText(pieces) + Chars(n)
  {
    hide StyleOf;
    var joined, k := Joined(pieces, n), |pieces| - 1;
    if Joins(pieces, n) {
      assert joined[..k] == pieces[..k];
      Associate(PiecesText(pieces[..k]), pieces[k].text, n.text);
    } else {
      assert joined[..|pieces|] == pieces;
    }
  }

  lemma JoinedBlocked(pieces: seq<Piece>, n: Node)
    ensures PiecesBlocked(Joined(pieces, n)) == PiecesBlocked(pieces) + OwnBlocked(n, |PiecesText(pieces)|)
  {
    hide StyleOf, PiecesText, Chars, OwnBlocked, PieceBlocked;
    var joined, k := Joined(pieces, n), |pieces| - 1;
    if Joins(pieces, n) {
      assert joined[..k] == pieces[..k];
      NoneBlocked(joined[k], n, pieces[k], |PiecesText(pieces[..k])|, |PiecesText(pieces)|);
      assert PiecesBlocked(joined) == PiecesBlocked(pieces);
    } else {
      assert joined[..|pieces|] == pieces;
      LastBlocked(joined[|pieces|], n, |PiecesText(pieces)|);
    }
  }

  lemma NoneBlocked(p: Piece, n: Node, q: Piece, offset: nat, after: nat)
    requires p.Run? && q.Run? && n.Text?
    ensures PieceBlocked(p, offset) == PieceBlocked(q, offset) == OwnBlocked(n, after) == []
    ensures PieceField(p) == PieceField(q) == OwnField(n) == []
  {
  }

  lemma LastBlocked(p: Piece, n: Node, offset: nat)
    requires if n.Text? then p.Run? else p == Child(n)
    ensures PieceBlocked(p, offset) == OwnBlocked(n, offset) && PieceField(p) == OwnField(n)
  {
  }

  lemma JoinedFields(pieces: seq<Piece>, n: Node)
    ensures FieldPieces(Joined(pieces, n)) == FieldPieces(pieces) + OwnField(n)
  {
    hide StyleOf, OwnField, PieceField;
    var joined, k := Joined(pieces, n), |pieces| - 1;
    if Joins(pieces, n) {
      assert joined[..k] == pieces[..k];
      NoneBlocked(joined[k], n, pieces[k], 0, 0);
      assert FieldPieces(joined) == FieldPieces(pieces);
    } else {
      assert joined[..|pieces|] == pieces;
      LastBlocked(joined[|pieces|], n, 0);
    }
  }

  lemma JoinedTape(pieces: seq<Piece>, n: Node)
    ensures PiecesTape(Joined(pieces, n)) == PiecesTape(pieces) + Cells(n)
  {
    hide StyleOf, Encode, Somes, Size;
    var joined, k := Joined(pieces, n), |pieces| - 1;
    if Joins(pieces, n) {
      assert joined[..k] == pieces[..k];
      EncodeConcat(pieces[k].text, n.text);
      SomesConcat(Encode(pieces[k].text), Encode(n.text));
      Associate(PiecesTape(pieces[..k]), Somes(Encode(pieces[k].text)), Somes(Encode(n.text)));
    } else {
      assert joined[..|pieces|] == pieces;
    }
  }

  lemma NoPieces()
    ensures TextOf([]) == PiecesText([]) && BlockedOf([], 0) == PiecesBlocked([])
    ensures FieldNodes([]) == FieldPieces([]) && Tape([]) == PiecesTape([]) == []
  {
  }

  /** Text, blocked ranges, fields and positions depend on the pieces alone. */
  lemma {:induction false} ContentByPieces(children: seq<Node>)
    ensures TextOf(children) == PiecesText(PiecesOf(children))
    ensures BlockedOf(children, 0) == PiecesBlocked(PiecesOf(children))
    ensures FieldNodes(children) == FieldPieces(PiecesOf(children))
    ensures Tape(children) == PiecesTape(PiecesOf(children))
  {
    hide TextOf, BlockedOf, FieldNodes, Tape, PiecesText, PiecesBlocked, FieldPieces, PiecesTape, Chars, Cells,
      OwnField, OwnBlocked, Joined;
    if children == [] {
      NoPieces();
    } else {
      var before, last := children[..|children| - 1], children[|children| - 1];
      assert children == before + [last];
      ContentByPieces(before);
      TextAppend(before, last);
      BlockedAppend(before, last, 0);
      FieldsAppend(before, last);
      TapeConcat(before, [last]);
      OneTape(last);
      JoinedText(PiecesOf(before), last);
      JoinedBlocked(PiecesOf(before), last);
      JoinedFields(PiecesOf(before), last);
      JoinedTape(PiecesOf(before), last);
    }
  }

  // ----- corresponding nodes look the same to an anchor

  ghost predicate SameAll(a: seq<Piece>, b: seq<Piece>) {
    |a| == |b| && forall i | 0 <= i < |a| :: SamePiece(a[i], b[i])
  }

  lemma SamePiecesAll(s: Node, t: Node)
    requires Same(s, t)
    ensures SameAll(Pieces(s), Pieces(t)) && SameAttrs(s, t)
  {
  }

  lemma {:induction false} PiecesSize(n: Node)
    requires IsContainer(n)
    ensures Size(n) == |PiecesTape(Pieces(n))| + if n.Doc? then 0 else 2
  {
    hide PiecesTape, PiecesOf;
    ContentByPieces(n.content);
    TapeSize(n.content);
  }

  lemma SameKind(s: Node, t: Node)
    requires SameAttrs(s, t)
    ensures (IsContainer(s) <==> IsContainer(t)) && (s.Doc? <==> t.Doc?)
    ensures !IsContainer(s) ==> Size(s) == Size(t)
  {
  }

  /** Corresponding nodes take the same number of positions. */
  lemma {:induction false} SameSize(s: Node, t: Node)
    requires Same(s, t)
    ensures Size(s) == Size(t)
    decreases s, 1, 0
  {
    hide PiecesTape, SamePiece, Size;
    SamePiecesAll(s, t);
    SameKind(s, t);
    if IsContainer(s) {
      PiecesSize(s);
      PiecesSize(t);
      assert Pieces(s)[..|Pieces(s)|] == Pieces(s) && Pieces(t)[..|Pieces(t)|] == Pieces(t);
      SameTapes(s, t, |Pieces(s)|);
    }
  }

  lemma {:induction false} TapePrefixes(a: seq<Piece>, b: seq<Piece>, i: nat)
    requires i < |a| == |b| && PiecesTape(a[..i]) == PiecesTape(b[..i]) && PieceCells(a[i]) == PieceCells(b[i])
    ensures PiecesTape(a[..i + 1]) == PiecesTape(b[..i + 1])
  {
    hide PieceCells;
    assert a[..i + 1][..i] == a[..i] && b[..i + 1][..i] == b[..i];
  }

  lemma {:induction false} SameTapes(s: Node, t: Node, i: nat)
    requires Same(s, t) && i <= |Pieces(s)|
    ensures |Pieces(t)| == |Pieces(s)| && PiecesTape(Pieces(s)[..i]) == PiecesTape(Pieces(t)[..i])
    decreases s, 0, i
  {
    hide Same, Encode, Somes, Size, Pieces, PiecesTape;
    SamePiecesAll(s, t);
    NoPieces();
    if i > 0 {
      var p, q := Pieces(s)[i - 1], Pieces(t)[i - 1];
      SameTapes(s, t, i - 1);
      assert SamePiece(p, q) && p in Pieces(s);
      if p.Child? {
        SameSize(p.node, q.node);
      }
      TapePrefixes(Pieces(s), Pieces(t), i - 1);
    }
  }

  lemma SameTape(s: Node, t: Node)
    requires Same(s, t) && IsContainer(s)
    ensures IsContainer(t) && Tape(s.content) == Tape(t.content)
  {
    hide Same, Tape, PiecesTape, Size;
    SamePiecesAll(s, t);
    SameKind(s, t);
    ContentByPieces(s.content);
    ContentByPieces(t.content);
    SameTapes(s, t, |Pieces(s)|);
    assert Pieces(s)[..|Pieces(s)|] == Pieces(s) && Pieces(t)[..|Pieces(t)|] == Pieces(t);
  }

  /** A control's text is its pieces' text. */
  lemma {:induction false} ValueText(content: seq<Node>)
    requires forall c | c in content :: c.Text?
    ensures Value(content) == TextOf(content)
  {
    if content != [] {
      ValueText(content[1..]);
    }
  }

  lemma {:induction false} TextRuns(children: seq<Node>)
    requires forall c | c in children :: c.Text?
    ensures forall p | p in PiecesOf(children) :: p.Run?
  {
    hide StyleOf;
    if children != [] {
      TextRuns(children[..|children| - 1]);
    }
  }

  lemma {:induction false} RunsText(a: seq<Piece>, b: seq<Piece>)
    requires SameAll(a, b) && forall p | p in a :: p.Run?
    ensures a == b
  {
    forall i | 0 <= i < |a| ensures a[i] == b[i] { assert a[i] in a && SamePiece(a[i], b[i]); }
  }

  /** What a paragraph may hold, its controls holding text only. */
  ghost predicate Inline(n: Node) {
    n.Text? || IsLeaf(n) || (n.Field? && forall c | c in n.content :: c.Text?)
  }

  /** Corresponding inlines contribute the same characters. */
  lemma {:induction false} SameChars(s: Node, t: Node)
    requires Same(s, t) && Inline(s) && Inline(t)
    ensures Chars(s) == Chars(t) && (s.Field? <==> t.Field?)
  {
    hide StyleOf, TextOf, PiecesText, PiecesBlocked, FieldPieces, Same;
    SamePiecesAll(s, t);
    if s.Field? {
      TextRuns(s.content);
      RunsText(Pieces(s), Pieces(t));
      ValueText(s.content);
      ValueText(t.content);
      ContentByPieces(s.content);
      ContentByPieces(t.content);
    }
  }

  ghost predicate InlinePieces(pieces: seq<Piece>) {
    forall p | p in pieces && p.Child? :: Inline(p.node)
  }

  lemma SameFaces(p: Piece, q: Piece, offset: nat)
    requires SamePiece(p, q) && (p.Child? ==> Inline(p.node)) && (q.Child? ==> Inline(q.node))
    ensures PieceText(p) == PieceText(q) && PieceBlocked(p, offset) == PieceBlocked(q, offset)
  {
    hide Same, Chars, Inline;
    if p.Child? {
      SameChars(p.node, q.node);
    }
  }

  lemma {:induction false} SameContent(a: seq<Piece>, b: seq<Piece>)
    requires SameAll(a, b) && InlinePieces(a) && InlinePieces(b)
    ensures PiecesText(a) == PiecesText(b) && PiecesBlocked(a) == PiecesBlocked(b)
  {
    hide SamePiece, Inline, PieceText, PieceBlocked;
    if a != [] {
      var n := |a| - 1;
      assert SamePiece(a[n], b[n]) && a[n] in a && b[n] in b;
      SameContent(a[..n], b[..n]);
      SameFaces(a[n], b[n], |PiecesText(a[..n])|);
    }
  }

  // ----- corresponding controls

  ghost predicate Within(pairs: Links, all: Links) {
    forall p | p in pairs :: p in all
  }

  /** Two controls correspond: key, alias and text agree, and their identities are among the pairs. */
  ghost predicate TwinFields(a: Node, b: Node, pairs: Links) {
    && a.Field? && b.Field? && a.key == b.key && a.alias == b.alias
    && Value(a.content) == Value(b.content) && (a.id, b.id) in pairs
  }

  ghost predicate TwinFieldLists(a: seq<Node>, b: seq<Node>, pairs: Links) {
    |a| == |b| && forall i | 0 <= i < |a| :: TwinFields(a[i], b[i], pairs)
  }

  lemma {:induction false} PairsCover(s: Node, t: Node, i: nat, k: nat)
    requires k < i <= |Pieces(s)| == |Pieces(t)| && Pieces(s)[k].Child? && Pieces(t)[k].Child?
    ensures Within(Pairs(Pieces(s)[k].node, Pieces(t)[k].node), PairsUpTo(s, t, i))
  {
    hide Pairs, Pieces;
    if k < i - 1 {
      PairsCover(s, t, i - 1, k);
    }
  }

  /** What corresponds within a child corresponds within its parent. */
  lemma PairsInside(s: Node, t: Node, k: nat)
    requires Same(s, t) && k < |Pieces(s)| && Pieces(s)[k].Child?
    ensures |Pieces(t)| == |Pieces(s)| && Pieces(t)[k].Child? && Same(Pieces(s)[k].node, Pieces(t)[k].node)
    ensures Within(Pairs(Pieces(s)[k].node, Pieces(t)[k].node), Pairs(s, t))
  {
    hide Pieces, PairsUpTo, Same;
    SamePiecesAll(s, t);
    assert SamePiece(Pieces(s)[k], Pieces(t)[k]);
    PairsCover(s, t, |Pieces(s)|, k);
  }

  lemma FieldTwins(a: Node, b: Node)
    requires Same(a, b) && Inline(a) && Inline(b) && a.Field?
    ensures TwinFields(a, b, Pairs(a, b))
  {
    hide PairsUpTo, Pieces, Value;
    SamePiecesAll(a, b);
    SameChars(a, b);
    assert OwnPair(a, b)[0] == (a.id, b.id);
  }

  lemma TwinWithin(a: Node, b: Node, some: Links, all: Links)
    requires TwinFields(a, b, some) && Within(some, all)
    ensures TwinFields(a, b, all)
  {
  }

  ghost predicate PiecePaired(a: seq<Piece>, b: seq<Piece>, pairs: Links)
    requires |a| == |b|
  {
    forall i | 0 <= i < |a| && a[i].Child? && b[i].Child? :: Within(Pairs(a[i].node, b[i].node), pairs)
  }

  lemma {:induction false} SameFields(a: seq<Piece>, b: seq<Piece>, pairs: Links)
    requires SameAll(a, b) && InlinePieces(a) && InlinePieces(b) && PiecePaired(a, b, pairs)
    ensures TwinFieldLists(FieldPieces(a), FieldPieces(b), pairs)
  {
    hide Same, Inline, Pairs, TwinFields;
    if a != [] {
      var n := |a| - 1;
      assert SamePiece(a[n], b[n]) && a[n] in a && b[n] in b;
      SameFields(a[..n], b[..n], pairs);
      if a[n].Child? {
        SameChars(a[n].node, b[n].node);
        if a[n].node.Field? {
          FieldTwins(a[n].node, b[n].node);
          TwinWithin(a[n].node, b[n].node, Pairs(a[n].node, b[n].node), pairs);
        }
      }
    }
  }
}
