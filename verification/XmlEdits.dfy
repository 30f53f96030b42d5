/** In-place edits of an element tree, and what they leave as it was. */
module XmlEdits {
  import opened Common
  import opened DocumentModel
  import opened Ooxml

  /** The children with one tag. */
  function Only(xs: seq<Xml>, tag: Tag): (r: seq<Xml>)
    ensures forall x | x in r :: x.tag == tag
  {
    if xs == [] then [] else if xs[0].tag == tag then [xs[0]] + Only(xs[1..], tag) else Only(xs[1..], tag)
  }

  /** The children without those of one tag. */
  function Without(xs: seq<Xml>, tag: Tag): seq<Xml> {
    if xs == [] then [] else if xs[0].tag == tag then Without(xs[1..], tag) else [xs[0]] + Without(xs[1..], tag)
  }

  /** The first child of the same tag replaced, or the element appended. */
  function Put(xs: seq<Xml>, y: Xml): seq<Xml> {
    if xs == [] then [y] else if xs[0].tag == y.tag then [y] + xs[1..] else [xs[0]] + Put(xs[1..], y)
  }

  function DropFirst(xs: seq<Xml>, tag: Tag): seq<Xml> {
    if xs == [] then [] else if xs[0].tag == tag then xs[1..] else [xs[0]] + DropFirst(xs[1..], tag)
  }

  /** The first element of the same tag below any `a` replaced. */
  function PutUnder(xs: seq<Xml>, a: Tag, y: Xml): seq<Xml> {
    if xs == [] then []
    else if xs[0].tag == a && First(xs[0].children, y.tag).Some?
    then [xs[0].(children := Put(xs[0].children, y))] + xs[1..]
    else [xs[0]] + PutUnder(xs[1..], a, y)
  }

  function DropUnder(xs: seq<Xml>, a: Tag, b: Tag): seq<Xml> {
    if xs == [] then []
    else if xs[0].tag == a && First(xs[0].children, b).Some?
    then [xs[0].(children := DropFirst(xs[0].children, b))] + xs[1..]
    else [xs[0]] + DropUnder(xs[1..], a, b)
  }

  lemma FirstFront(x: Xml, rest: seq<Xml>, tag: Tag)
    ensures First([x] + rest, tag) == if x.tag == tag then Some(x) else First(rest, tag)
  {
    assert ([x] + rest)[1..] == rest;
  }

  lemma UnderFront(x: Xml, rest: seq<Xml>, a: Tag, b: Tag)
    ensures Under([x] + rest, a, b) ==
      if x.tag == a && First(x.children, b).Some? then First(x.children, b) else Under(rest, a, b)
  {
    hide First, Under;
    assert ([x] + rest)[1..] == rest;
    UnderStep([x] + rest, a, b);
  }

  lemma UnderStep(xs: seq<Xml>, a: Tag, b: Tag)
    requires xs != []
    ensures Under(xs, a, b) ==
      if xs[0].tag == a && First(xs[0].children, b).Some? then First(xs[0].children, b) else Under(xs[1..], a, b)
  {
    hide First;
  }

  lemma {:induction false} OnlyUnder(xs: seq<Xml>, a: Tag, b: Tag)
    ensures Under(Only(xs, a), a, b) == Under(xs, a, b)
  {
    if xs != [] {
      OnlyUnder(xs[1..], a, b);
      UnderFront(xs[0], Only(xs[1..], a), a, b);
    }
  }

  lemma {:induction false} WithoutFirst(xs: seq<Xml>, tag: Tag, other: Tag)
    ensures First(Without(xs, tag), other) == if tag == other then None else First(xs, other)
  {
    if xs != [] {
      WithoutFirst(xs[1..], tag, other);
      FirstFront(xs[0], Without(xs[1..], tag), other);
    }
  }

  lemma {:induction false} FirstConcat(a: seq<Xml>, b: seq<Xml>, tag: Tag)
    ensures First(a + b, tag) == if First(a, tag).Some? then First(a, tag) else First(b, tag)
  {
    if a == [] {
      assert a + b == b;
    } else {
      assert (a + b)[1..] == a[1..] + b;
      FirstConcat(a[1..], b, tag);
    }
  }

  lemma {:induction false} UnderConcat(xs: seq<Xml>, ys: seq<Xml>, a: Tag, b: Tag)
    requires forall y | y in ys :: y.tag != a
    ensures Under(xs + ys, a, b) == Under(xs, a, b)
  {
    if xs == [] {
      assert xs + ys == ys;
      NoneUnder(ys, a, b);
    } else {
      assert (xs + ys)[1..] == xs[1..] + ys;
      UnderConcat(xs[1..], ys, a, b);
    }
  }

  lemma {:induction false} NoneUnder(ys: seq<Xml>, a: Tag, b: Tag)
    requires forall y | y in ys :: y.tag != a
    ensures Under(ys, a, b) == None
  {
    if ys != [] {
      NoneUnder(ys[1..], a, b);
    }
  }

  lemma {:induction false} PutFirst(xs: seq<Xml>, y: Xml, tag: Tag)
    ensures First(Put(xs, y), tag) == if tag == y.tag then Some(y) else First(xs, tag)
  {
    if xs == [] {
      FirstFront(y, [], tag);
    } else {
      PutFirst(xs[1..], y, tag);
      FirstFront(y, xs[1..], tag);
      FirstFront(xs[0], Put(xs[1..], y), tag);
    }
  }

  /** Replacing an element of one tag leaves those of another. */
  lemma {:induction false} PutOnly(xs: seq<Xml>, y: Xml, tag: Tag)
    requires y.tag != tag
    ensures Only(Put(xs, y), tag) == Only(xs, tag)
  {
    if xs == [] {
      assert [y][1..] == [];
    } else {
      PutOnly(xs[1..], y, tag);
      assert ([y] + xs[1..])[1..] == xs[1..];
      assert ([xs[0]] + Put(xs[1..], y))[1..] == Put(xs[1..], y);
    }
  }

  lemma {:induction false} DropOther(xs: seq<Xml>, tag: Tag, other: Tag)
    requires tag != other
    ensures First(DropFirst(xs, tag), other) == First(xs, other)
  {
    if xs != [] {
      DropOther(xs[1..], tag, other);
      FirstFront(xs[0], DropFirst(xs[1..], tag), other);
    }
  }

  /** Replacing the first properties element: what it holds is found first; what it holds as before is found as
      before. */
  lemma {:induction false} PutProperties(xs: seq<Xml>, y: Xml, b: Tag)
    requires First(xs, y.tag).Some?
    ensures First(y.children, b).Some? ==> Under(Put(xs, y), y.tag, b) == First(y.children, b)
    ensures First(y.children, b) == First(First(xs, y.tag).value.children, b) ==>
      Under(Put(xs, y), y.tag, b) == Under(xs, y.tag, b)
  {
    UnderFront(y, xs[1..], y.tag, b);
    if xs[0].tag != y.tag {
      PutProperties(xs[1..], y, b);
      UnderFront(xs[0], Put(xs[1..], y), y.tag, b);
    }
  }

  lemma {:induction false} PutElsewhere(xs: seq<Xml>, y: Xml, a: Tag, b: Tag)
    requires y.tag != a
    ensures Under(Put(xs, y), a, b) == Under(xs, a, b)
  {
    if xs == [] {
      UnderFront(y, [], a, b);
      assert [y] + [] == [y];
    } else {
      PutElsewhere(xs[1..], y, a, b);
      UnderFront(y, xs[1..], a, b);
      UnderFront(xs[0], Put(xs[1..], y), a, b);
    }
  }

  lemma PutInside(x: Xml, y: Xml, rest: seq<Xml>, a: Tag, b: Tag)
    requires x.tag == a && First(x.children, y.tag).Some?
    ensures var after := [x.(children := Put(x.children, y))] + rest;
      && (b != y.tag ==> Under(after, a, b) == Under([x] + rest, a, b))
      && Under(after, a, y.tag) == Some(y)
  {
    var z := x.(children := Put(x.children, y));
    UnderFront(z, rest, a, b);
    UnderFront(z, rest, a, y.tag);
    UnderFront(x, rest, a, b);
    PutFirst(x.children, y, b);
    PutFirst(x.children, y, y.tag);
  }

  lemma PutUnderFront(x: Xml, rest: seq<Xml>, a: Tag, y: Xml)
    ensures PutUnder([x] + rest, a, y) ==
      if x.tag == a && First(x.children, y.tag).Some? then [x.(children := Put(x.children, y))] + rest
      else [x] + PutUnder(rest, a, y)
  {
    hide First, Put;
    assert ([x] + rest)[1..] == rest;
  }

  lemma {:induction false} PutUnderUnder(xs: seq<Xml>, a: Tag, y: Xml, b: Tag)
    ensures b != y.tag ==> Under(PutUnder(xs, a, y), a, b) == Under(xs, a, b)
    ensures Under(xs, a, y.tag).Some? ==> Under(PutUnder(xs, a, y), a, y.tag) == Some(y)
  {
    hide First, Under, Put, PutUnder;
    if xs == [] {
      NothingPut(a, y, b);
    } else {
      var x, rest := xs[0], xs[1..];
      assert xs == [x] + rest;
      UnderFront(x, rest, a, b);
      UnderFront(x, rest, a, y.tag);
      PutUnderFront(x, rest, a, y);
      if x.tag == a && First(x.children, y.tag).Some? {
        PutInside(x, y, rest, a, b);
      } else {
        PutUnderUnder(rest, a, y, b);
        UnderFront(x, PutUnder(rest, a, y), a, b);
        UnderFront(x, PutUnder(rest, a, y), a, y.tag);
      }
    }
  }

  lemma NothingPut(a: Tag, y: Xml, b: Tag)
    ensures PutUnder([], a, y) == [] && Under([], a, b) == None && Under([], a, y.tag) == None
  {
  }

  lemma {:induction false} PutUnderFirst(xs: seq<Xml>, a: Tag, y: Xml, tag: Tag)
    requires tag != a
    ensures First(PutUnder(xs, a, y), tag) == First(xs, tag)
  {
    hide Put;
    if xs != [] {
      PutUnderFirst(xs[1..], a, y, tag);
      FirstFront(xs[0], PutUnder(xs[1..], a, y), tag);
      FirstFront(xs[0].(children := Put(xs[0].children, y)), xs[1..], tag);
    }
  }

  lemma {:induction false} DropUnderOther(xs: seq<Xml>, a: Tag, b: Tag, c: Tag)
    requires b != c
    ensures Under(DropUnder(xs, a, b), a, c) == Under(xs, a, c)
  {
    hide First, DropFirst;
    if xs != [] {
      DropUnderOther(xs[1..], a, b, c);
      DropOther(xs[0].children, b, c);
      UnderFront(xs[0], DropUnder(xs[1..], a, b), a, c);
      UnderFront(xs[0].(children := DropFirst(xs[0].children, b)), xs[1..], a, c);
    }
  }

  lemma {:induction false} DropUnderFirst(xs: seq<Xml>, a: Tag, b: Tag, tag: Tag)
    requires tag != a
    ensures First(DropUnder(xs, a, b), tag) == First(xs, tag)
  {
    hide DropFirst;
    if xs != [] {
      DropUnderFirst(xs[1..], a, b, tag);
      FirstFront(xs[0], DropUnder(xs[1..], a, b), tag);
      FirstFront(xs[0].(children := DropFirst(xs[0].children, b)), xs[1..], tag);
    }
  }

  lemma {:induction false} NoFirst(xs: seq<Xml>, a: Tag, b: Tag)
    requires First(xs, a).None?
    ensures Under(xs, a, b).None?
  {
    if xs != [] {
      NoFirst(xs[1..], a, b);
    }
  }

  lemma {:induction false} FirstOfUnder(xs: seq<Xml>, a: Tag, b: Tag)
    requires Under(xs, a, b).Some?
    ensures First(xs, a).Some?
  {
    if xs[0].tag != a {
      FirstOfUnder(xs[1..], a, b);
    }
  }

  /** After replacing the first `y` below any `a`, what it holds is found first. */
  lemma {:induction false} DeepPut(xs: seq<Xml>, a: Tag, y: Xml, c: Tag)
    requires Under(xs, a, y.tag).Some? && First(y.children, c).Some?
    ensures Deep(PutUnder(xs, a, y), a, y.tag, c) == First(y.children, c)
  {
    var r := PutUnder(xs, a, y);
    if xs[0].tag == a && First(xs[0].children, y.tag).Some? {
      PutProperties(xs[0].children, y, c);
    } else {
      assert r[1..] == PutUnder(xs[1..], a, y);
      if xs[0].tag == a {
        NoFirst(xs[0].children, y.tag, c);
      }
      DeepPut(xs[1..], a, y, c);
    }
  }

  // ----- the glyph of a checkbox

  /** Every text that is exactly the old glyph replaced by the new one. */
  function Reglyph(x: Xml, before: char, after: char): Xml
    decreases x, 1
  {
    var y := x.(children := ReglyphAll(x.children, before, after));
    if x.tag.T? && x.text == [before] then y.(text := [after], attrs := x.attrs[Space := "preserve"]) else y
  }

  function ReglyphAll(xs: seq<Xml>, before: char, after: char): seq<Xml>
    decreases xs, 0
  {
    if xs == [] then [] else [Reglyph(xs[0], before, after)] + ReglyphAll(xs[1..], before, after)
  }

  lemma {:induction false} ReglyphFirst(xs: seq<Xml>, before: char, after: char, tag: Tag)
    ensures First(ReglyphAll(xs, before, after), tag) ==
      if First(xs, tag).None? then None else Some(Reglyph(First(xs, tag).value, before, after))
  {
    if xs != [] {
      ReglyphFirst(xs[1..], before, after, tag);
    }
  }

  lemma {:induction false} ReglyphUnder(xs: seq<Xml>, before: char, after: char, a: Tag, b: Tag)
    ensures Under(ReglyphAll(xs, before, after), a, b) ==
      if Under(xs, a, b).None? then None else Some(Reglyph(Under(xs, a, b).value, before, after))
  {
    if xs != [] {
      ReglyphUnder(xs[1..], before, after, a, b);
      ReglyphFirst(xs[0].children, before, after, b);
    }
  }

  lemma {:induction false} ReglyphDeep(xs: seq<Xml>, before: char, after: char, a: Tag, b: Tag, c: Tag)
    ensures Deep(ReglyphAll(xs, before, after), a, b, c) ==
      if Deep(xs, a, b, c).None? then None else Some(Reglyph(Deep(xs, a, b, c).value, before, after))
  {
    if xs != [] {
      ReglyphDeep(xs[1..], before, after, a, b, c);
      ReglyphUnder(xs[0].children, before, after, b, c);
    }
  }

  /** Children that are runs of plain text, or properties. */
  predicate OnlyRuns(xs: seq<Xml>) {
    forall x | x in xs :: x.tag.PPr? || (x.tag.R? && PlainRun(x.children))
  }

  lemma {:induction false} ReglyphItems(xs: seq<Xml>, before: char, after: char)
    ensures |ReglyphAll(xs, before, after)| == |xs|
    ensures forall i | 0 <= i < |xs| :: ReglyphAll(xs, before, after)[i] == Reglyph(xs[i], before, after)
  {
    hide Reglyph;
    if xs != [] {
      ReglyphItems(xs[1..], before, after);
    }
  }

  lemma ReglyphRuns(xs: seq<Xml>, before: char, after: char)
    requires OnlyRuns(xs)
    ensures OnlyRuns(ReglyphAll(xs, before, after))
  {
    ReglyphItems(xs, before, after);
    forall i | 0 <= i < |xs| && xs[i].tag.R?
      ensures PlainRun(Reglyph(xs[i], before, after).children)
    {
      assert xs[i] in xs;
      ReglyphPlain(xs[i].children, before, after);
    }
    forall y | y in ReglyphAll(xs, before, after) ensures y.tag.PPr? || (y.tag.R? && PlainRun(y.children)) {
      var i :| 0 <= i < |xs| && ReglyphAll(xs, before, after)[i] == y;
      assert xs[i] in xs;
    }
  }

  lemma ReglyphPlain(xs: seq<Xml>, before: char, after: char)
    requires PlainRun(xs)
    ensures PlainRun(ReglyphAll(xs, before, after))
  {
    ReglyphItems(xs, before, after);
    forall y | y in ReglyphAll(xs, before, after) ensures PlainPart(y) {
      var i :| 0 <= i < |xs| && ReglyphAll(xs, before, after)[i] == y;
      assert xs[i] in xs && PlainPart(xs[i]);
    }
  }

  /** A control's content is all text exactly when it is runs of plain text. */
  lemma {:induction false} RunsAreText(part: string, xs: seq<Xml>, p: nat)
    ensures AllText(InlinesOf(part, xs, p)) <==> OnlyRuns(xs)
  {
    hide InlineOf, ElementsAll, PlainRun, AllText;
    if xs == [] {
      NoText();
    } else {
      var n := |xs| - 1;
      RunsAreText(part, xs[..n], p);
      var own := if xs[n].tag.PPr? then [] else InlineOf(part, xs[n], p + ElementsAll(xs[..n]));
      TextConcat(InlinesOf(part, xs[..n], p), own);
      RunIsText(part, xs[n], p + ElementsAll(xs[..n]));
      NoText();
      RunsFront(xs);
    }
  }

  lemma NoText()
    ensures AllText([])
  {
  }

  lemma RunsFront(xs: seq<Xml>)
    requires xs != []
    ensures var n := |xs| - 1;
      OnlyRuns(xs) <==> OnlyRuns(xs[..n]) && (xs[n].tag.PPr? || (xs[n].tag.R? && PlainRun(xs[n].children)))
  {
    hide PlainRun;
    assert xs == xs[..|xs| - 1] + [xs[|xs| - 1]];
  }

  lemma TextConcat(a: seq<Node>, b: seq<Node>)
    ensures AllText(a + b) <==> AllText(a) && AllText(b)
  {
    assert forall n | n in a :: n in a + b;
    assert forall n | n in b :: n in a + b;
  }

  lemma RunIsText(part: string, x: Xml, p: nat)
    ensures AllText(InlineOf(part, x, p)) <==> x.tag.R? && PlainRun(x.children)
  {
    hide RunText, Caption, Under, PlainRun, Held, RunStyle;
    if !(x.tag.R? && PlainRun(x.children)) {
      assert |InlineOf(part, x, p)| == 1 && !InlineOf(part, x, p)[0].Text?;
    }
  }
}
