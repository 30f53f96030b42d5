/** Matching a document to another one that may differ in run boundaries and identities. */
module Rebase {
  import opened Common
  import opened DocumentModel

  /** A child as the comparison sees it: a maximal stretch of one style, or a node that is no text. */
  datatype Piece = Run(text: string, style: Style) | Child(node: Node)

  function Chosen(format: Option<bool>, source: bool): bool {
    if format.Some? then format.value else source
  }

  /** The style a text is shown in: the source's, overridden by what was chosen in the editor. */
  function StyleOf(n: Node): Style
    requires n.Text?
  {
    var s := if n.source.Some? then n.source.value.style else Style(false, false, false);
    if n.format.None? then s else
    Style(Chosen(n.format.value.bold, s.bold), Chosen(n.format.value.italic, s.italic),
          Chosen(n.format.value.underline, s.underline))
  }

  // ----- the stream of styled characters

  datatype Symbol = Shown(c: char, style: Style) | Inner(node: Node)

  function ShownAll(s: string, style: Style): seq<Symbol> {
    seq(|s|, i requires 0 <= i < |s| => Shown(s[i], style))
  }

  function SymbolsOf(n: Node): seq<Symbol> {
    if n.Text? then ShownAll(n.text, StyleOf(n)) else [Inner(n)]
  }

  /** What a reader sees: styled characters and the nodes between them. */
  function Stream(children: seq<Node>): seq<Symbol> {
    if children == [] then [] else SymbolsOf(children[0]) + Stream(children[1..])
  }

  function PieceSymbols(p: Piece): seq<Symbol> {
    match p case Run(text, style) => ShownAll(text, style) case Child(n) => [Inner(n)]
  }

  function PiecesStream(pieces: seq<Piece>): seq<Symbol> {
    if pieces == [] then [] else PiecesStream(pieces[..|pieces| - 1]) + PieceSymbols(pieces[|pieces| - 1])
  }

  // ----- the pieces

  /** The pieces with one more child: a text joins the last run if the style is the same. */
  function Joined(pieces: seq<Piece>, n: Node): seq<Piece> {
    if n.Text? then
      if pieces != [] && pieces[|pieces| - 1].Run? && pieces[|pieces| - 1].style == StyleOf(n)
      then pieces[..|pieces| - 1] + [Run(pieces[|pieces| - 1].text + n.text, StyleOf(n))]
      else pieces + [Run(n.text, StyleOf(n))]
    else pieces + [Child(n)]
  }

  function PiecesOf(children: seq<Node>): (r: seq<Piece>)
    ensures forall p | p in r && p.Child? :: p.node in children
  {
    if children == [] then [] else Joined(PiecesOf(children[..|children| - 1]), children[|children| - 1])
  }

  /** No run is empty and no two neighbouring runs have one style. */
  ghost predicate Canonical(pieces: seq<Piece>) {
    && (forall i | 0 <= i < |pieces| :: pieces[i].Run? ==> pieces[i].text != [])
    && (forall i | 0 < i < |pieces| :: pieces[i].Run? && pieces[i - 1].Run? ==> pieces[i].style != pieces[i - 1].style)
  }

  ghost predicate NoEmptyText(children: seq<Node>) {
    forall c | c in children && c.Text? :: c.text != []
  }

  lemma {:induction false} StreamConcat(a: seq<Node>, b: seq<Node>)
    ensures Stream(a + b) == Stream(a) + Stream(b)
  {
    hide SymbolsOf;
    if a == [] {
      assert a + b == b;
    } else {
      assert (a + b)[1..] == a[1..] + b;
      StreamConcat(a[1..], b);
    }
  }

  lemma ShownConcat(a: string, b: string, style: Style)
    ensures ShownAll(a + b, style) == ShownAll(a, style) + ShownAll(b, style)
  {
  }

  lemma {:induction false} JoinedStream(pieces: seq<Piece>, n: Node)
    ensures PiecesStream(Joined(pieces, n)) == PiecesStream(pieces) + SymbolsOf(n)
  {
    hide StyleOf;
    var joined := Joined(pieces, n);
    if n.Text? && pieces != [] && pieces[|pieces| - 1].Run? && pieces[|pieces| - 1].style == StyleOf(n) {
      ShownConcat(pieces[|pieces| - 1].text, n.text, StyleOf(n));
      assert joined[..|joined| - 1] == pieces[..|pieces| - 1];
    } else {
      assert joined[..|joined| - 1] == pieces;
    }
  }

  lemma {:induction false} JoinedCanonical(pieces: seq<Piece>, n: Node)
    requires Canonical(pieces) && (n.Text? ==> n.text != [])
    ensures Canonical(Joined(pieces, n))
  {
    hide StyleOf;
  }

  lemma StreamLast(children: seq<Node>)
    requires children != []
    ensures var n := |children| - 1; Stream(children) == Stream(children[..n]) + SymbolsOf(children[n])
  {
    hide SymbolsOf;
    var n := |children| - 1;
    assert children == children[..n] + [children[n]];
    StreamConcat(children[..n], [children[n]]);
    assert [children[n]][1..] == [];
  }

  lemma NothingShown()
    ensures PiecesStream([]) == [] && Stream([]) == [] && Canonical([])
  {
  }

  /** The pieces are canonical and show the same stream. */
  lemma {:induction false} PiecesShow(children: seq<Node>)
    ensures PiecesStream(PiecesOf(children)) == Stream(children)
    ensures NoEmptyText(children) ==> Canonical(PiecesOf(children))
  {
    hide SymbolsOf, Joined, Canonical, Stream, PiecesStream;
    if children == [] {
      NothingShown();
    } else {
      var n := |children| - 1;
      PiecesShow(children[..n]);
      JoinedStream(PiecesOf(children[..n]), children[n]);
      StreamLast(children);
      if NoEmptyText(children) {
        assert NoEmptyText(children[..n]) && children[n] in children;
        JoinedCanonical(PiecesOf(children[..n]), children[n]);
      }
    }
  }

  lemma {:induction false} EmptyStream(pieces: seq<Piece>)
    requires Canonical(pieces)
    ensures PiecesStream(pieces) == [] <==> pieces == []
  {
    if pieces != [] {
      assert PieceSymbols(pieces[|pieces| - 1]) != [];
    }
  }

  /** Before the last run of a canonical list stands something of another style, or nothing. */
  lemma {:induction false} BeforeLast(pieces: seq<Piece>)
    requires Canonical(pieces) && pieces != [] && pieces[|pieces| - 1].Run?
    ensures var u, last := PiecesStream(pieces), pieces[|pieces| - 1];
      |last.text| <= |u| && (|last.text| < |u| ==> !InStyle(u[|u| - |last.text| - 1], last.style))
  {
    var n := |pieces| - 1;
    var before := PiecesStream(pieces[..n]);
    if before != [] {
      LastSymbols(pieces[..n]);
      assert pieces[..n][n - 1] == pieces[n - 1];
    }
  }

  predicate InStyle(s: Symbol, style: Style) {
    s.Shown? && s.style == style
  }

  /** Two canonical lists that show the same stream are the same list. */
  lemma {:induction false} CanonicalUnique(a: seq<Piece>, b: seq<Piece>)
    requires Canonical(a) && Canonical(b) && PiecesStream(a) == PiecesStream(b)
    ensures a == b
  {
    hide PiecesStream, PieceSymbols, Canonical;
    EmptyStream(a);
    EmptyStream(b);
    if a != [] {
      SameLast(a, b);
      BeforeStream(a);
      BeforeStream(b);
      CanonicalUnique(a[..|a| - 1], b[..|b| - 1]);
      assert a == a[..|a| - 1] + [a[|a| - 1]] && b == b[..|b| - 1] + [b[|b| - 1]];
    }
  }

  lemma BeforeStream(a: seq<Piece>)
    requires Canonical(a) && a != []
    ensures Canonical(a[..|a| - 1])
    ensures var u, n := PiecesStream(a), |PieceSymbols(a[|a| - 1])|;
      n <= |u| && PiecesStream(a[..|a| - 1]) == u[..|u| - n]
  {
    hide PieceSymbols;
  }

  lemma LastSymbols(a: seq<Piece>)
    requires Canonical(a) && a != []
    ensures var u, last := PiecesStream(a), PieceSymbols(a[|a| - 1]);
      0 < |last| <= |u| && u[|u| - |last|..] == last
  {
  }

  /** What the last piece of a list contributes to the end of its stream. */
  lemma LastShown(a: seq<Piece>)
    requires Canonical(a) && a != []
    ensures var u := PiecesStream(a);
      && u != []
      && match a[|a| - 1]
         case Run(text, style) =>
           && 0 < |text| <= |u| && (|text| < |u| ==> !InStyle(u[|u| - |text| - 1], style))
           && forall i | |u| - |text| <= i < |u| :: u[i] == Shown(text[i - (|u| - |text|)], style)
         case Child(n) => u[|u| - 1] == Inner(n)
  {
    hide PiecesStream, Canonical, InStyle;
    LastSymbols(a);
    var u, p := PiecesStream(a), a[|a| - 1];
    if p.Run? {
      BeforeLast(a);
      forall i | |u| - |p.text| <= i < |u|
        ensures u[i] == Shown(p.text[i - (|u| - |p.text|)], p.style)
      {
        assert u[|u| - |p.text|..][i - (|u| - |p.text|)] == ShownAll(p.text, p.style)[i - (|u| - |p.text|)];
      }
    }
  }

  /** Two runs of one style that both end the stream and cannot be prolonged are the same. */
  lemma {:induction false} SameRun(u: seq<Symbol>, s: string, t: string, style: Style)
    requires 0 < |s| <= |u| && 0 < |t| <= |u|
    requires forall i | |u| - |s| <= i < |u| :: u[i] == Shown(s[i - (|u| - |s|)], style)
    requires forall i | |u| - |t| <= i < |u| :: u[i] == Shown(t[i - (|u| - |t|)], style)
    requires |s| < |u| ==> !InStyle(u[|u| - |s| - 1], style)
    requires |t| < |u| ==> !InStyle(u[|u| - |t| - 1], style)
    ensures s == t
  {
    assert |s| == |t|;
    forall i | 0 <= i < |s| ensures s[i] == t[i] { assert u[|u| - |s| + i] == Shown(s[i], style); }
  }

  lemma {:induction false} SameLast(a: seq<Piece>, b: seq<Piece>)
    requires Canonical(a) && Canonical(b) && PiecesStream(a) == PiecesStream(b) && a != [] && b != []
    ensures a[|a| - 1] == b[|b| - 1]
  {
    hide PiecesStream, Canonical, PieceSymbols;
    var p, q, u := a[|a| - 1], b[|b| - 1], PiecesStream(a);
    LastShown(a);
    LastShown(b);
    assert p.Run? ==> u[|u| - 1] == Shown(p.text[|p.text| - 1], p.style);
    assert q.Run? ==> u[|u| - 1] == Shown(q.text[|q.text| - 1], q.style);
    if p.Run? && q.Run? {
      SameRun(u, p.text, q.text, p.style);
    }
  }

  /** The pieces are a canonical form: two lists of children give the same pieces exactly when they show the same styled
      characters and the same nodes, however their runs are cut. */
  lemma SamePieces(a: seq<Node>, b: seq<Node>)
    requires NoEmptyText(a) && NoEmptyText(b)
    ensures PiecesOf(a) == PiecesOf(b) <==> Stream(a) == Stream(b)
  {
    PiecesShow(a);
    PiecesShow(b);
    if Stream(a) == Stream(b) {
      CanonicalUnique(PiecesOf(a), PiecesOf(b));
    }
  }

  lemma PiecesNone()
    ensures PiecesOf([]) == []
  {
  }

  lemma PiecesNext(children: seq<Node>, i: nat)
    requires i < |children|
    ensures children[..0] == [] && PiecesOf(children[..i + 1]) == Joined(PiecesOf(children[..i]), children[i])
  {
    hide Joined;
    assert children[..i + 1][..i] == children[..i];
  }

  lemma JoinedRun(result: seq<Piece>, text: string, style: Style, n: Node)
    ensures Joined(result + [Run(text, style)], n) ==
      if !n.Text? then result + [Run(text, style)] + [Child(n)]
      else if StyleOf(n) == style then result + [Run(text + n.text, style)]
      else result + [Run(text, style)] + [Run(n.text, StyleOf(n))]
  {
    hide StyleOf;
    assert (result + [Run(text, style)])[..|result|] == result;
  }

  lemma JoinedNode(result: seq<Piece>, n: Node)
    requires result != [] ==> result[|result| - 1].Child?
    ensures Joined(result, n) == result + [if n.Text? then Run(n.text, StyleOf(n)) else Child(n)]
  {
    hide StyleOf;
  }

  /** `children`: fragments are collected until the style changes or another node comes, then flushed. */
  method Children(children: seq<Node>) returns (result: seq<Piece>)
    ensures result == PiecesOf(children)
  {
    hide StyleOf, PiecesOf, Joined;
    result := [];
    PiecesNone();
    var fragments: string, collecting, previous := [], false, Style(false, false, false);
    assert children[..0] == [];
    var i := 0;
    while i < |children|
      invariant 0 <= i <= |children|
      invariant PiecesOf(children[..i]) == if collecting then result + [Run(fragments, previous)] else result
      invariant !collecting && result != [] ==> result[|result| - 1].Child?
    {
      var child := children[i];
      PiecesNext(children, i);
      if collecting {
        JoinedRun(result, fragments, previous, child);
      } else {
        JoinedNode(result, child);
      }
      if !child.Text? {
        if collecting {
          result := result + [Run(fragments, previous)];
          fragments, collecting := [], false;
        }
        result := result + [Child(child)];
      } else {
        var style := StyleOf(child);
        if collecting && style != previous {
          result := result + [Run(fragments, previous)];
          fragments, collecting := [], false;
          fragments, collecting, previous := child.text, true, style;
        } else if collecting {
          fragments := fragments + child.text;
        } else {
          fragments, collecting, previous := child.text, true, style;
        }
      }
      i := i + 1;
    }
    assert children[..i] == children;
    if collecting {
      result := result + [Run(fragments, previous)];
    }
  }
}
