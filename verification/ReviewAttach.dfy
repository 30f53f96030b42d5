/** Attaching a discovery snapshot to the editor's document: code-point offsets become document positions, and what is
    attached is exactly what the save validator accepts. */
module ReviewAttach {
  import opened Common
  import opened Utf16
  import opened DocumentModel
  import opened WorkingSpans
  import opened FieldAnchors

  // ----- code points and positions inside one paragraph

  /** The positions each character of a text takes. */
  function CharPoints(s: string, position: nat): seq<(nat, nat)> {
    if s == [] then [] else
    [(position, position + |Units(s[0])|)] + CharPoints(s[1..], position + |Units(s[0])|)
  }

  /** The positions of each character of a paragraph's children, field tokens skipped. */
  function PointsOf(children: seq<Node>, position: nat): seq<(nat, nat)> {
    if children == [] then [] else
    CharPoints(Chars(children[0]), position + if children[0].Field? then 1 else 0)
      + PointsOf(children[1..], position + Size(children[0]))
  }

  lemma {:induction false} CharPointAt(s: string, position: nat, i: nat)
    requires i < |s|
    ensures |CharPoints(s, position)| == |s|
    ensures CharPoints(s, position)[i] == (position + |Encode(s[..i])|, position + |Encode(s[..i + 1])|)
  {
    CharPointsCount(s, position);
    var head := Units(s[0]);
    if i == 0 {
      assert s[..0] == [] && s[..1] == [s[0]] && [s[0]][1..] == [];
    } else {
      CharPointAt(s[1..], position + |head|, i - 1);
      assert s[..i] == [s[0]] + s[1..][..i - 1] && s[..i + 1] == [s[0]] + s[1..][..i];
      EncodeConcat([s[0]], s[1..][..i - 1]);
      EncodeConcat([s[0]], s[1..][..i]);
      assert [s[0]][1..] == [];
    }
  }

  lemma {:induction false} CharPointsCount(s: string, position: nat)
    ensures |CharPoints(s, position)| == |s|
  {
    if s != [] {
      CharPointsCount(s[1..], position + |Units(s[0])|);
    }
  }

  lemma {:induction false} PointsCount(children: seq<Node>, position: nat)
    ensures |PointsOf(children, position)| == |TextOf(children)|
  {
    if children != [] {
      CharPointsCount(Chars(children[0]), position + if children[0].Field? then 1 else 0);
      PointsCount(children[1..], position + Size(children[0]));
    }
  }

  /** A part of one text child, in positions. */
  lemma PartOfText(s: string, position: nat, start: nat, end: nat)
    requires start < end <= |s|
    ensures |CharPoints(s, position)| == |s|
    ensures var from, to := CharPoints(s, position)[start].0 - position, CharPoints(s, position)[end - 1].1 - position;
      0 <= from < to <= |Encode(s)| && Somes(Encode(s))[from..to] == Somes(Encode(s[start..end]))
      && (start == 0 ==> from == 0) && (end == |s| ==> to == |Encode(s)|)
  {
    hide CharPoints, Encode, Somes;
    CharPointAt(s, position, start);
    CharPointAt(s, position, end - 1);
    assert s[..0] == [];
    EncodeEmpty([]);
    EncodeSlice(s, start, end);
    EncodeEmpty(s[start..end]);
    assert s[..end] == s[..start] + s[start..end];
    EncodeConcat(s[..start], s[start..end]);
    assert s[..|s|] == s;
    SomesSlice(Encode(s), |Encode(s[..start])|, |Encode(s[..end])|);
  }

  lemma SomesSlice(u: seq<Unit>, low: nat, high: nat)
    requires low <= high <= |u|
    ensures Somes(u)[low..high] == Somes(u[low..high])
  {
  }

  /** Inline children as the editor's schema has them. */
  ghost predicate Inlines(children: seq<Node>) {
    forall c | c in children :: (c.Text? ==> c.text != []) && !c.Doc?
  }

  lemma ClearTail(children: seq<Node>, offset: nat, start: nat, end: nat)
    requires children != [] && Clear(start, end, BlockedOf(children, offset))
    ensures Clear(start, end, BlockedOf(children[1..], offset + |Chars(children[0])|))
    ensures !children[0].Text? ==> !Hits(start, end, (offset, offset + |Chars(children[0])|))
  {
    var all, next := BlockedOf(children, offset), BlockedOf(children[1..], offset + |Chars(children[0])|);
    var n := |all| - |next|;
    assert all[n..] == next;
    forall k | 0 <= k < |next| ensures !Hits(start, end, next[k]) { assert next[k] == all[n + k]; }
    if !children[0].Text? {
      assert all[0] == (offset, offset + |Chars(children[0])|);
    }
  }

  lemma ClearWithin(start: nat, end: nat, low: nat, blocked: seq<Interval>)
    requires start <= low < end && Clear(start, end, blocked)
    ensures Clear(low, end, blocked)
  {
    forall k | 0 <= k < |blocked| ensures !Hits(low, end, blocked[k]) { assert !Hits(start, end, blocked[k]); }
  }

  /** Characters `i` to `k` of a text, in positions: their stretch of the tape encodes them. */
  ghost predicate Spelled(points: seq<(nat, nat)>, chars: string, tape: seq<Option<Unit>>, position: nat, i: nat,
                          k: nat)
    requires i < k <= |chars|
  {
    && |points| == |chars|
    && var from, to := points[i].0 - position, points[k - 1].1 - position;
       0 <= from < to <= |tape| && tape[from..to] == Somes(Encode(chars[i..k]))
  }

  lemma InHead(p: seq<(nat, nat)>, q: seq<(nat, nat)>, h: string, r: string, c: seq<Option<Unit>>, t: seq<Option<Unit>>,
               position: nat, i: nat, k: nat)
    requires i < k <= |h| && Spelled(p, h, c, position, i, k) && |q| == |r|
    ensures Spelled(p + q, h + r, c + t, position, i, k)
  {
    hide Somes, Encode;
    assert (h + r)[i..k] == h[i..k];
    var from, to := p[i].0 - position, p[k - 1].1 - position;
    assert (c + t)[from..to] == c[from..to];
  }

  lemma InTail(p: seq<(nat, nat)>, q: seq<(nat, nat)>, h: string, r: string, c: seq<Option<Unit>>, t: seq<Option<Unit>>,
               position: nat, i: nat, k: nat)
    requires i < k <= |r| && Spelled(q, r, t, position + |c|, i, k) && |p| == |h|
    ensures Spelled(p + q, h + r, c + t, position, |h| + i, |h| + k)
  {
    hide Somes, Encode;
    assert (h + r)[|h| + i..|h| + k] == r[i..k];
    var from, to := q[i].0 - (position + |c|), q[k - 1].1 - (position + |c|);
    assert (c + t)[|c| + from..|c| + to] == t[from..to];
  }

  /** A range over the end of a text child and on into the following ones. */
  lemma Across(p: seq<(nat, nat)>, q: seq<(nat, nat)>, h: string, r: string, c: seq<Option<Unit>>, t: seq<Option<Unit>>,
               position: nat, i: nat, k: nat)
    requires i < |h| && 0 < k <= |r| && Spelled(p, h, c, position, i, |h|) && Spelled(q, r, t, position + |c|, 0, k)
    requires p[|h| - 1].1 == position + |c| && q[0].0 == position + |c|
    ensures Spelled(p + q, h + r, c + t, position, i, |h| + k)
  {
    hide Encode;
    var from, to := p[i].0 - position, q[k - 1].1 - (position + |c|);
    assert (h + r)[i..|h| + k] == h[i..|h|] + r[0..k];
    EncodeConcat(h[i..|h|], r[0..k]);
    SomesConcat(Encode(h[i..|h|]), Encode(r[0..k]));
    assert (c + t)[from..|c| + to] == c[from..|c|] + t[0..to];
  }

  /** The statement about a list of children placed at `position`, whose text starts at offset `offset`. */
  ghost predicate SpelledAt(children: seq<Node>, position: nat, offset: nat, start: nat, end: nat)
    requires offset <= start < end <= offset + |TextOf(children)|
  {
    Spelled(PointsOf(children, position), TextOf(children), Tape(children), position, start - offset, end - offset)
  }

  /** The first child and the rest. */
  lemma Split(children: seq<Node>, position: nat)
    requires children != []
    ensures var c := children[0]; var points := CharPoints(Chars(c), position + if c.Field? then 1 else 0);
      && PointsOf(children, position) == points + PointsOf(children[1..], position + Size(c))
      && TextOf(children) == Chars(c) + TextOf(children[1..]) && Tape(children) == Cells(c) + Tape(children[1..])
      && |points| == |Chars(c)| && |Cells(c)| == Size(c)
      && |PointsOf(children[1..], position + Size(c))| == |TextOf(children[1..])|
  {
    CharPointsCount(Chars(children[0]), position + if children[0].Field? then 1 else 0);
    PointsCount(children[1..], position + Size(children[0]));
    CellsSize(children[0]);
  }

  lemma SpelledHead(children: seq<Node>, position: nat, offset: nat, start: nat, end: nat)
    requires children != [] && children[0].Text? && offset <= start < end <= offset + |children[0].text|
    ensures end <= offset + |TextOf(children)| && SpelledAt(children, position, offset, start, end)
  {
    hide Encode, CharPoints, Spelled, Size, Somes, PointsOf, TextOf, Tape;
    Split(children, position);
    var c, rest := children[0], children[1..];
    TextSpelled(c.text, position, start - offset, end - offset);
    assert Cells(c) == Somes(Encode(c.text));
    InHead(CharPoints(c.text, position), PointsOf(rest, position + Size(c)), c.text, TextOf(rest), Cells(c), Tape(rest),
           position, start - offset, end - offset);
  }

  lemma TextSpelled(s: string, position: nat, i: nat, k: nat)
    requires i < k <= |s|
    ensures |CharPoints(s, position)| == |s| && Spelled(CharPoints(s, position), s, Somes(Encode(s)), position, i, k)
    ensures k == |s| ==> CharPoints(s, position)[k - 1].1 == position + |Encode(s)|
  {
    PartOfText(s, position, i, k);
  }

  lemma SpelledTail(children: seq<Node>, position: nat, offset: nat, start: nat, end: nat)
    requires children != [] && offset + |Chars(children[0])| <= start < end <= offset + |TextOf(children)|
    requires end <= offset + |Chars(children[0])| + |TextOf(children[1..])|
    requires SpelledAt(children[1..], position + Size(children[0]), offset + |Chars(children[0])|, start, end)
    ensures SpelledAt(children, position, offset, start, end)
  {
    hide Encode, CharPoints, Spelled, Size, Somes, PointsOf, TextOf, Tape, Chars, Cells;
    Split(children, position);
    var c, rest, n := children[0], children[1..], |Chars(children[0])|;
    InTail(CharPoints(Chars(c), position + if c.Field? then 1 else 0), PointsOf(rest, position + Size(c)), Chars(c),
           TextOf(rest), Cells(c), Tape(rest), position, start - offset - n, end - offset - n);
  }

  lemma SpelledAcross(children: seq<Node>, position: nat, offset: nat, start: nat, end: nat)
    requires children != [] && children[0].Text?
    requires offset <= start < offset + |children[0].text| < end <= offset + |TextOf(children)|
    requires end <= offset + |children[0].text| + |TextOf(children[1..])|
    requires SpelledAt(children[1..], position + Size(children[0]), offset + |children[0].text|,
      offset + |children[0].text|, end)
    requires PointsOf(children[1..], position + Size(children[0])) != []
    requires PointsOf(children[1..], position + Size(children[0]))[0].0 == position + Size(children[0])
    ensures SpelledAt(children, position, offset, start, end)
  {
    hide Encode, CharPoints, Spelled, Somes, PointsOf, TextOf, Tape;
    Split(children, position);
    var c, rest, n := children[0], children[1..], |children[0].text|;
    TextSpelled(c.text, position, start - offset, n);
    assert Cells(c) == Somes(Encode(c.text)) && |Encode(c.text)| == Size(c);
    Across(CharPoints(c.text, position), PointsOf(rest, position + Size(c)), c.text, TextOf(rest), Cells(c), Tape(rest),
           position, start - offset, end - offset - n);
  }

  lemma ClearStart(children: seq<Node>, offset: nat, start: nat, end: nat)
    requires Inlines(children) && offset <= start < end && children != [] && start < offset + |Chars(children[0])|
    requires Clear(start, end, BlockedOf(children, offset))
    ensures children[0].Text?
  {
    hide Chars;
    var blocked := BlockedOf(children, offset);
    assert !children[0].Text? ==> Hits(start, end, blocked[0]);
  }

  /** A clear range of code points is a stretch of units, whatever stands before, between and after. */
  lemma {:induction false} ClearSpelled(children: seq<Node>, position: nat, offset: nat, start: nat, end: nat)
    requires Inlines(children) && offset <= start < end <= offset + |TextOf(children)|
    requires Clear(start, end, BlockedOf(children, offset))
    ensures SpelledAt(children, position, offset, start, end)
    decreases |children|
  {
    hide SpelledAt, PointsOf, CharPoints, Size, Clear;
    var c, n := children[0], |Chars(children[0])|;
    ClearTail(children, offset, start, end);
    if offset + n <= start {
      ClearSpelled(children[1..], position + Size(c), offset + n, start, end);
      SpelledTail(children, position, offset, start, end);
    } else {
      ClearStart(children, offset, start, end);
      if end <= offset + n {
        SpelledHead(children, position, offset, start, end);
      } else {
        ClearWithin(start, end, offset + n, BlockedOf(children[1..], offset + n));
        ClearSpelled(children[1..], position + Size(c), offset + n, offset + n, end);
        NextIsText(children[1..], position + Size(c), offset + n, end);
        SpelledAcross(children, position, offset, start, end);
      }
    }
  }

  lemma NextIsText(children: seq<Node>, position: nat, offset: nat, end: nat)
    requires Inlines(children) && offset < end <= offset + |TextOf(children)|
      && Clear(offset, end, BlockedOf(children, offset))
    ensures PointsOf(children, position) != [] && PointsOf(children, position)[0].0 == position
  {
    hide Size, Encode;
    ClearTail(children, offset, offset, end);
    assert children[0].Text?;
    CharPointsCount(children[0].text, position);
  }

  // ----- points ascend

  lemma {:induction false} CharPointsWithin(s: string, position: nat)
    ensures forall i | 0 <= i < |CharPoints(s, position)| ::
      position <= CharPoints(s, position)[i].0 <= CharPoints(s, position)[i].1 <= position + |Encode(s)|
    ensures forall i, k | 0 <= i < k < |CharPoints(s, position)| ::
      CharPoints(s, position)[i].1 <= CharPoints(s, position)[k].0
  {
    if s != [] {
      CharPointsWithin(s[1..], position + |Units(s[0])|);
    }
  }

  lemma {:induction false} ValueSize(content: seq<Node>)
    requires forall c | c in content :: c.Text?
    ensures |Encode(Value(content))| == SizeAll(content)
  {
    if content != [] {
      ValueSize(content[1..]);
      EncodeConcat(content[0].text, Value(content[1..]));
    }
  }

  ghost predicate FieldsHoldText(children: seq<Node>) {
    forall c | c in children && c.Field? :: forall d | d in c.content :: d.Text?
  }

  ghost predicate Ascending(points: seq<(nat, nat)>, low: nat, high: nat) {
    && (forall i | 0 <= i < |points| :: low <= points[i].0 <= points[i].1 <= high)
    && (forall i, k | 0 <= i < k < |points| :: points[i].1 <= points[k].0)
  }

  lemma InlinePoints(c: Node, position: nat)
    requires c.Text? || c.Field? || IsLeaf(c)
    requires c.Field? ==> forall d | d in c.content :: d.Text?
    ensures Ascending(CharPoints(Chars(c), position + if c.Field? then 1 else 0), position, position + Size(c))
  {
    CharPointsWithin(Chars(c), position + if c.Field? then 1 else 0);
    if c.Field? {
      ValueSize(c.content);
    } else if IsLeaf(c) {
      assert OBJECT[1..] == [] && Encode(OBJECT) == Units(OBJECT[0]) + Encode(OBJECT[1..]);
    }
  }

  lemma {:induction false} PointsAscending(children: seq<Node>, position: nat)
    requires FieldsHoldText(children) && forall c | c in children :: c.Text? || c.Field? || IsLeaf(c)
    ensures Ascending(PointsOf(children, position), position, position + SizeAll(children))
  {
    hide CharPoints, Size, Chars, Ascending;
    if children == [] {
      NothingAscends(position);
    } else {
      InlinePoints(children[0], position);
      PointsAscending(children[1..], position + Size(children[0]));
      JoinAscending(CharPoints(Chars(children[0]), position + if children[0].Field? then 1 else 0),
                    PointsOf(children[1..], position + Size(children[0])),
                    position, position + Size(children[0]), position + SizeAll(children));
    }
  }

  lemma NothingAscends(position: nat)
    ensures Ascending([], position, position)
  {
  }

  lemma JoinAscending(a: seq<(nat, nat)>, b: seq<(nat, nat)>, low: nat, middle: nat, high: nat)
    requires Ascending(a, low, middle) && Ascending(b, middle, high) && low <= middle <= high
    ensures Ascending(a + b, low, high)
  {
  }
}
