/** Which spans of a snapshot the editor can attach, told from the text of the paragraph alone, and the positions they
    take. */
module ReviewSpans {
  import opened Utf16
  import opened DocumentModel
  import opened WorkingIndex
  import opened WorkingSpans
  import opened FieldAnchors
  import opened ReviewAttach
  import opened ReviewDocument

  // ----- where a character stands

  /** The `k`th character of the children is the `j`th of the `i`th of them. */
  ghost predicate CharAt(children: seq<Node>, i: int, j: int, k: int) {
    0 <= i < |children| && 0 <= j < |Chars(children[i])| && k == |TextOf(children[..i])| + j
  }

  /** The position behind `j` characters of the `i`th child: everything before that child, the token that opens a
      field, and the units of the characters. */
  function PositionOf(children: seq<Node>, begin: nat, i: nat, j: nat): nat
    requires i < |children| && j <= |Chars(children[i])|
  {
    begin + SizeAll(children[..i]) + (if children[i].Field? then 1 else 0) + |Encode(Chars(children[i])[..j])|
  }

  /** The `k`th character takes the positions from `from` to `to`. */
  ghost predicate Takes(children: seq<Node>, begin: nat, k: int, from: nat, to: nat) {
    exists i, j ::
      && CharAt(children, i, j, k)
      && from == PositionOf(children, begin, i, j) && to == PositionOf(children, begin, i, j + 1)
  }

  ghost predicate Begins(children: seq<Node>, begin: nat, k: int, from: nat) {
    exists to :: Takes(children, begin, k, from, to)
  }

  ghost predicate Ends(children: seq<Node>, begin: nat, k: int, to: nat) {
    exists from :: Takes(children, begin, k, from, to)
  }

  lemma {:induction false} PointMeans(children: seq<Node>, begin: nat, k: nat)
    requires k < |TextOf(children)|
    ensures |PointsOf(children, begin)| == |TextOf(children)|
    ensures Takes(children, begin, k, PointsOf(children, begin)[k].0, PointsOf(children, begin)[k].1)
  {
    hide Encode, Size, CharPoints, Chars, Takes, PointsOf;
    PointsCount(children, begin);
    PointsSplit(children, begin);
    var c, n := children[0], |Chars(children[0])|;
    if k < n {
      HeadTakes(children, begin, k);
    } else {
      PointMeans(children[1..], begin + Size(c), k - n);
      var point := PointsOf(children[1..], begin + Size(c))[k - n];
      TailTakes(children, begin, k - n, point.0, point.1);
    }
  }

  lemma PointsSplit(children: seq<Node>, begin: nat)
    requires children != []
    ensures var c := children[0]; var points := CharPoints(Chars(c), begin + if c.Field? then 1 else 0);
      && |points| == |Chars(c)| && PointsOf(children, begin) == points + PointsOf(children[1..], begin + Size(c))
      && TextOf(children) == Chars(c) + TextOf(children[1..])
  {
    hide CharPoints, Chars, Size;
    CharPointsCount(Chars(children[0]), begin + if children[0].Field? then 1 else 0);
  }

  lemma HeadTakes(children: seq<Node>, begin: nat, k: nat)
    requires children != [] && k < |Chars(children[0])|
    ensures var c := children[0]; var points := CharPoints(Chars(c), begin + if c.Field? then 1 else 0);
      |points| == |Chars(c)| && Takes(children, begin, k, points[k].0, points[k].1)
  {
    hide Encode, CharPoints, Chars;
    var c := children[0];
    CharPointAt(Chars(c), begin + if c.Field? then 1 else 0, k);
    assert children[..0] == [] && TextOf([]) == [] && SizeAll([]) == 0;
    assert CharAt(children, 0, k, k);
    assert CharPoints(Chars(c), begin + if c.Field? then 1 else 0)[k] ==
      (PositionOf(children, begin, 0, k), PositionOf(children, begin, 0, k + 1));
  }

  /** What the rest takes, the whole takes behind the first child. */
  lemma TailTakes(children: seq<Node>, begin: nat, k: nat, from: nat, to: nat)
    requires children != [] && Takes(children[1..], begin + Size(children[0]), k, from, to)
    ensures Takes(children, begin, |Chars(children[0])| + k, from, to)
  {
    hide Encode, Chars, Size, TextOf, SizeAll;
    var c, rest := children[0], children[1..];
    var i, j :| CharAt(rest, i, j, k) && from == PositionOf(rest, begin + Size(c), i, j)
      && to == PositionOf(rest, begin + Size(c), i, j + 1);
    assert children[..i + 1] == [c] + rest[..i];
    FrontCounts(c, rest[..i]);
    assert CharAt(children, i + 1, j, |Chars(c)| + k);
    assert from == PositionOf(children, begin, i + 1, j) && to == PositionOf(children, begin, i + 1, j + 1);
  }

  lemma FrontCounts(c: Node, rest: seq<Node>)
    ensures |TextOf([c] + rest)| == |Chars(c)| + |TextOf(rest)| && SizeAll([c] + rest) == Size(c) + SizeAll(rest)
  {
    hide Chars, Size;
    assert ([c] + rest)[1..] == rest;
  }

  // ----- overlapping ranges

  /** Two ranges share a character, or an empty one lies inside the other. */
  predicate Overlap(start: nat, end: nat, b: Interval) {
    start < b.1 && end > b.0
  }

  predicate FreeOf(start: nat, end: nat, blocked: seq<Interval>) {
    forall k | 0 <= k < |blocked| :: !Overlap(start, end, blocked[k])
  }

  /** The characters of a child that is no text. */
  ghost predicate BlockAt(children: seq<Node>, offset: nat, i: int, b: Interval) {
    && 0 <= i < |children| && !children[i].Text?
    && b.0 == offset + |TextOf(children[..i])| && b.1 == b.0 + |Chars(children[i])|
  }

  lemma BlockNext(children: seq<Node>, offset: nat, i: int, b: Interval)
    requires children != [] && i >= 0
    ensures BlockAt(children[1..], offset + |Chars(children[0])|, i, b) <==> BlockAt(children, offset, i + 1, b)
  {
    hide Chars;
    if i < |children[1..]| {
      assert children[..i + 1] == [children[0]] + children[1..][..i] && children[..i + 1][1..] == children[1..][..i];
    }
  }

  /** The blocked ranges are those of the children that are no text. */
  lemma {:induction false} BlockedAre(children: seq<Node>, offset: nat, b: Interval)
    ensures b in BlockedOf(children, offset) <==> exists i :: BlockAt(children, offset, i, b)
  {
    hide Chars;
    if children != [] {
      var c, rest, next := children[0], children[1..], offset + |Chars(children[0])|;
      var own := if c.Text? then [] else [(offset, next)];
      BlockedAre(rest, next, b);
      assert BlockedOf(children, offset) == own + BlockedOf(rest, next);
      assert BlockAt(children, offset, 0, b) <==> b in own by { assert children[..0] == []; }
      if i :| BlockAt(rest, next, i, b) {
        BlockNext(children, offset, i, b);
      }
      if i :| BlockAt(children, offset, i, b) && i > 0 {
        BlockNext(children, offset, i - 1, b);
      }
    }
  }

  // ----- what is free can be read

  lemma FreeTail(children: seq<Node>, offset: nat, start: nat, end: nat)
    requires children != [] && FreeOf(start, end, BlockedOf(children, offset))
    ensures FreeOf(start, end, BlockedOf(children[1..], offset + |Chars(children[0])|))
    ensures !children[0].Text? ==> !Overlap(start, end, (offset, offset + |Chars(children[0])|))
  {
    var all, next := BlockedOf(children, offset), BlockedOf(children[1..], offset + |Chars(children[0])|);
    var n := |all| - |next|;
    assert all[n..] == next;
    forall k | 0 <= k < |next| ensures !Overlap(start, end, next[k]) { assert next[k] == all[n + k]; }
    if !children[0].Text? {
      assert all[0] == (offset, offset + |Chars(children[0])|);
    }
  }

  /** From a text on, what is free is clear: no empty control stands at the very start. */
  lemma FreeIsClear(children: seq<Node>, offset: nat, start: nat, end: nat)
    requires children != [] && children[0].Text? && offset <= start < offset + |children[0].text|
    requires FreeOf(start, end, BlockedOf(children, offset))
    ensures Clear(start, end, BlockedOf(children, offset))
  {
    var blocked := BlockedOf(children, offset);
    forall k | 0 <= k < |blocked| ensures !Hits(start, end, blocked[k]) {
      BlockedAre(children, offset, blocked[k]);
      var i :| BlockAt(children, offset, i, blocked[k]);
      assert children[..i][0] == children[0];
      assert !Overlap(start, end, blocked[k]);
    }
  }

  /** A free range of characters is a stretch of units. */
  lemma {:induction false} FreeSpelled(children: seq<Node>, position: nat, offset: nat, start: nat, end: nat)
    requires Inlines(children) && offset <= start < end <= offset + |TextOf(children)|
    requires FreeOf(start, end, BlockedOf(children, offset))
    ensures SpelledAt(children, position, offset, start, end)
    decreases |children|
  {
    hide SpelledAt, PointsOf, CharPoints, Size, Clear, FreeOf, BlockedOf;
    var c, n := children[0], |Chars(children[0])|;
    FreeTail(children, offset, start, end);
    if offset + n <= start {
      FreeSpelled(children[1..], position + Size(c), offset + n, start, end);
      SpelledTail(children, position, offset, start, end);
    } else {
      assert c.Text?;
      FreeIsClear(children, offset, start, end);
      ClearSpelled(children, position, offset, start, end);
    }
  }

  // ----- what is not free meets something

  lemma {:induction false} PointsConcat(a: seq<Node>, b: seq<Node>, position: nat)
    ensures PointsOf(a + b, position) == PointsOf(a, position) + PointsOf(b, position + SizeAll(a))
    ensures TextOf(a + b) == TextOf(a) + TextOf(b)
  {
    hide Size, CharPoints, Chars;
    if a == [] {
      assert a + b == b;
    } else {
      assert (a + b)[1..] == a[1..] + b;
      PointsConcat(a[1..], b, position + Size(a[0]));
    }
  }

  lemma {:induction false} MeetsAt(children: seq<Node>, begin: nat, i: nat, from: nat, to: nat)
    requires i < |children| && !children[i].Text?
    requires begin + SizeAll(children[..i]) < to && from < begin + SizeAll(children[..i]) + Size(children[i])
    ensures MeetsAtom(children, begin, from, to)
  {
    hide Size;
    if i > 0 {
      assert children[..i][1..] == children[1..][..i - 1];
      MeetsAt(children[1..], begin + Size(children[0]), i - 1, from, to);
    } else {
      assert children[..0] == [];
    }
  }

  lemma {:induction false} CharPointsGrow(s: string, position: nat)
    ensures forall i | 0 <= i < |CharPoints(s, position)| :: CharPoints(s, position)[i].0 < CharPoints(s, position)[i].1
  {
    if s != [] {
      CharPointsGrow(s[1..], position + |Units(s[0])|);
    }
  }

  /** Every character takes at least one position. */
  lemma {:induction false} PointsGrow(children: seq<Node>, position: nat)
    ensures forall i | 0 <= i < |PointsOf(children, position)| ::
      PointsOf(children, position)[i].0 < PointsOf(children, position)[i].1
  {
    hide Size, CharPoints, Chars;
    if children != [] {
      CharPointsGrow(Chars(children[0]), position + if children[0].Field? then 1 else 0);
      PointsGrow(children[1..], position + Size(children[0]));
    }
  }

  ghost predicate Sized(children: seq<Node>) {
    FieldsHoldText(children)
      && forall c | c in children :: Size(c) > 0 && (c.Text? || c.Field? || IsLeaf(c))
  }

  /** Characters up to the end of the `i`th child end there at the latest, those from its start on begin there. */
  lemma PointsAround(children: seq<Node>, position: nat, i: nat)
    requires i < |children| && Sized(children)
    ensures var points, n := PointsOf(children, position), |TextOf(children[..i])|;
      && |points| == |TextOf(children)| && n + |Chars(children[i])| <= |points|
      && (forall k | 0 <= k < n + |Chars(children[i])| ::
            points[k].1 <= position + SizeAll(children[..i]) + Size(children[i]))
      && (forall k | n <= k < |points| :: points[k].0 >= position + SizeAll(children[..i]))
  {
    hide Size, CharPoints, Chars, PointsOf, TextOf, SizeAll;
    PointsCount(children, position);
    var a, b := children[..i], children[i..];
    var c, d := children[..i + 1], children[i + 1..];
    assert children == a + b && children == c + d;
    PointsConcat(a, b, position);
    PointsConcat(c, d, position);
    PointsCount(a, position);
    PointsCount(c, position);
    assert Sized(c) && Sized(b);
    PointsAscending(c, position);
    PointsAscending(b, position + SizeAll(a));
    UpTo(children, i);
  }

  lemma UpTo(children: seq<Node>, i: nat)
    requires i < |children|
    ensures SizeAll(children[..i + 1]) == SizeAll(children[..i]) + Size(children[i])
    ensures |TextOf(children[..i + 1])| == |TextOf(children[..i])| + |Chars(children[i])|
  {
    hide Size, Chars;
    assert children[..i + 1] == children[..i] + [children[i]];
    SizeAllConcat(children[..i], [children[i]]);
    PointsConcat(children[..i], [children[i]], 0);
    assert [children[i]][1..] == [];
  }

  /** A range that is not free meets a child that is no text. */
  lemma BlockedMeets(children: seq<Node>, position: nat, start: nat, end: nat)
    requires Sized(children) && start < end <= |TextOf(children)| && !FreeOf(start, end, BlockedOf(children, 0))
    ensures |PointsOf(children, position)| == |TextOf(children)|
    ensures var points := PointsOf(children, position);
      MeetsAtom(children, position, points[start].0, points[end - 1].1)
  {
    hide Size, CharPoints, Chars, PointsOf, TextOf, SizeAll, MeetsAtom, BlockedOf, Sized;
    PointsCount(children, position);
    PointsGrow(children, position);
    var blocked, points := BlockedOf(children, 0), PointsOf(children, position);
    var k :| 0 <= k < |blocked| && Overlap(start, end, blocked[k]);
    BlockedAre(children, 0, blocked[k]);
    var i :| BlockAt(children, 0, i, blocked[k]);
    PointsAround(children, position, i);
    assert points[start].0 < points[start].1 <= position + SizeAll(children[..i]) + Size(children[i]);
    assert points[end - 1].1 > points[end - 1].0 >= position + SizeAll(children[..i]);
    MeetsAt(children, position, i, points[start].0, points[end - 1].1);
  }

  // ----- one paragraph

  /** The range of positions a code-point range takes in a paragraph. */
  function RangeOf(s: Spot, start: nat, end: nat): (nat, nat)
    requires s.node.Paragraph? && start <= end <= |PointsOf(s.node.content, s.position + 1)|
  {
    var points := PointsOf(s.node.content, s.position + 1);
    var from := if start < |points| then points[start].0 else s.position + 1;
    (from, if end == start then from else points[end - 1].1)
  }

  /** The text stands there, and nothing but text is in it. An empty range needs an empty paragraph. */
  ghost predicate Readable(n: Node, start: nat, end: nat, text: string)
    requires n.Paragraph?
  {
    && start <= end <= |TextOf(n.content)| && TextOf(n.content)[start..end] == text
    && if start == end then n.content == [] else FreeOf(start, end, BlockedOf(n.content, 0))
  }

  /** From the first position of the first character to the last of the last one. */
  ghost predicate Covers(s: Spot, start: nat, end: nat, from: nat, to: nat)
    requires s.node.Paragraph?
  {
    if start == end then from == to == s.position + 1
    else Begins(s.node.content, s.position + 1, start, from) && Ends(s.node.content, s.position + 1, end - 1, to)
  }

  lemma ReadableRange(s: Spot, start: nat, end: nat, text: string)
    requires s.node.Paragraph? && WellFormed(s.node) && Readable(s.node, start, end, text)
    ensures |PointsOf(s.node.content, s.position + 1)| == |TextOf(s.node.content)|
    ensures var (from, to) := RangeOf(s, start, end);
      Spans(s.node, s.position, from, to, text) && Covers(s, start, end, from, to)
  {
    hide WellFormed, PointsOf, TextOf, Tape, Somes, Encode, FreeOf, BlockedOf, PositionOf, CharAt, Takes;
    var children, begin := s.node.content, s.position + 1;
    PointsCount(children, begin);
    if start == end {
      Nothing(begin);
    } else {
      ParagraphKids(s.node);
      FreeSpelled(children, begin, 0, start, end);
      PointMeans(children, begin, start);
      PointMeans(children, begin, end - 1);
      var (from, to) := RangeOf(s, start, end);
      assert Takes(children, begin, start, from, PointsOf(children, begin)[start].1);
      assert Takes(children, begin, end - 1, PointsOf(children, begin)[end - 1].0, to);
    }
  }

  lemma Nothing(begin: nat)
    ensures TextOf([]) == [] && PointsOf([], begin) == [] && Tape([]) == []
  {
  }

  /** The positions of a range lie inside the paragraph. */
  lemma RangeInside(s: Spot, start: nat, end: nat)
    requires s.node.Paragraph? && WellFormed(s.node) && start <= end <= |TextOf(s.node.content)|
    ensures |PointsOf(s.node.content, s.position + 1)| == |TextOf(s.node.content)|
    ensures var (from, to) := RangeOf(s, start, end);
      s.position + 1 <= from <= to <= s.position + 1 + SizeAll(s.node.content) && (start < end ==> from < to)
  {
    hide WellFormed, PointsOf, TextOf, SizeAll, Size;
    ParagraphKids(s.node);
    PointsCount(s.node.content, s.position + 1);
    PointsAscending(s.node.content, s.position + 1);
    PointsGrow(s.node.content, s.position + 1);
    var points := PointsOf(s.node.content, s.position + 1);
    if start < end {
      assert points[start].0 < points[start].1 <= points[end - 1].1 || start == end - 1;
    }
  }

  /** The editor allows the range exactly if it can be read. */
  lemma AllowedWhen(s: Spot, start: nat, end: nat, text: string)
    requires s.node.Paragraph? && WellFormed(s.node)
    requires start <= end <= |TextOf(s.node.content)| && TextOf(s.node.content)[start..end] == text
    ensures |PointsOf(s.node.content, s.position + 1)| == |TextOf(s.node.content)|
    ensures var (from, to) := RangeOf(s, start, end);
      AllowedIn(s.node, s.position, from, to, text) <==> Readable(s.node, start, end, text)
  {
    hide WellFormed, PointsOf, TextOf, SizeAll, Size, FreeOf, BlockedOf, InsideField, MeetsAtom, TextBetween, Spans,
      Covers;
    RangeInside(s, start, end);
    EmptyParagraph(s.node);
    var (from, to) := RangeOf(s, start, end);
    if Readable(s.node, start, end, text) {
      ReadableRange(s, start, end, text);
      AllowedIsSpan(s.node, s.position, from, to, text);
    } else if start < end {
      ParagraphKids(s.node);
      BlockedMeets(s.node.content, s.position + 1, start, end);
    }
  }
}
