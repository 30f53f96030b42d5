/** `attachReview`, and the agreement of discovery, attachment and saving. */
module ReviewTheorem {
  import opened Common
  import opened Utf16
  import opened DocumentModel
  import opened WorkingIndex
  import opened WorkingSpans
  import opened WorkingReview
  import opened FieldAnchors
  import opened ReviewAttach
  import opened ReviewDocument
  import opened ReviewSpans

  // ----- attachment

  predicate DistinctSpots(spots: seq<Spot>)
    requires forall s | s in spots :: s.node.Paragraph?
  {
    forall i, k | 0 <= i < k < |spots| :: !(spots[i].part == spots[k].part && spots[i].node.id == spots[k].node.id)
  }

  /** The paragraph of a part and identity. */
  function SpotOf(spots: seq<Spot>, part: string, id: Id): (k: Option<nat>)
    requires forall s | s in spots :: s.node.Paragraph?
    ensures k.Some? ==> k.value < |spots| && spots[k.value].part == part && spots[k.value].node.id == id
    ensures k.None? ==> forall i | 0 <= i < |spots| :: !(spots[i].part == part && spots[i].node.id == id)
  {
    if spots == [] then None
    else if spots[0].part == part && spots[0].node.id == id then Some(0)
    else
      var rest := SpotOf(spots[1..], part, id);
      if rest.Some? then Some(rest.value + 1) else None
  }

  /** The fields of the document with the position of the paragraph each stands in. */
  function FieldsIn(children: seq<Node>, position: nat): seq<(nat, Node)> {
    if children == [] then [] else
    (if children[0].Field? then [(position, children[0])] else []) + FieldsIn(children[1..], position)
  }

  function NativeFields(spots: seq<Spot>): seq<(nat, Node)> {
    if spots == [] then [] else FieldsIn(Content(spots[0].node), spots[0].position) + NativeFields(spots[1..])
  }

  function Occurrences(fields: seq<(nat, Node)>, id: Id): nat {
    if fields == [] then 0 else
    (if fields[0].1.Field? && fields[0].1.id == id then 1 else 0) + Occurrences(fields[1..], id)
  }

  function FirstField(fields: seq<(nat, Node)>, id: Id): Option<(nat, Node)> {
    if fields == [] then None
    else if fields[0].1.Field? && fields[0].1.id == id then Some(fields[0])
    else FirstField(fields[1..], id)
  }

  /** A control is known by its identity unless that is repeated. */
  function Native(spots: seq<Spot>, id: Id): Option<(nat, Node)> {
    if Occurrences(NativeFields(spots), id) == 1 then FirstField(NativeFields(spots), id) else None
  }

  predicate Allowed(spots: seq<Spot>, from: nat, to: nat, text: string) {
    exists k ::
      0 <= k < |spots| && spots[k].node.Paragraph? && AllowedIn(spots[k].node, spots[k].position, from, to, text)
  }

  /** One candidate of the snapshot, or `None` where `attachReview` throws. A proposal's own label and key are not part
      of its anchor and are left blank here. */
  function AttachOne(spots: seq<Spot>, o: Occurrence): Option<Item>
    requires Proper(spots)
  {
    var k := SpotOf(spots, o.anchor.part, o.anchor.paragraph);
    if k.None? then None else
    var s := spots[k.value];
    match o.anchor
    case ControlAnchor(_, _, control) =>
      var field := Native(spots, control);
      if field.None? || !field.value.1.Field? || Value(field.value.1.content) != o.value || field.value.0 != s.position
      then None
      else Some(Item(OfControl(control), false, field.value.1.key, field.value.1.alias))
    case SpanAnchor(_, _, start, end) =>
      if !(start <= end <= |PointsOf(s.node.content, s.position + 1)| && end <= |TextOf(s.node.content)|) then None else
      var (from, to) := RangeOf(s, start, end);
      if TextOf(s.node.content)[start..end] != o.value || !Allowed(spots, from, to, o.value) then None
      else Some(Item(Span(from, to, o.value), false, Own, []))
  }

  // ----- what can be attached

  /** No two controls of the document have this identity, and one has. */
  ghost predicate Single(handles: seq<Handle>, id: Id) {
    exists i ::
      0 <= i < |handles| && handles[i].id == id && forall k | 0 <= k < |handles| && k != i :: handles[k].id != id
  }

  ghost predicate HasField(children: seq<Node>, id: Id, value: string) {
    exists c :: c in children && c.Field? && c.id == id && Value(c.content) == value
  }

  /** The `m`th paragraph is the one named, and what the occurrence says is there: a control of this identity and value,
      the only one in the document, or a stretch of plain text. */
  ghost predicate AttachesAt(spots: seq<Spot>, o: Occurrence, m: int)
    requires Proper(spots)
  {
    && 0 <= m < |spots| && spots[m].part == o.anchor.part && spots[m].node.id == o.anchor.paragraph
    && match o.anchor
       case ControlAnchor(_, _, control) =>
         HasField(spots[m].node.content, control, o.value) && Single(SpotHandles(spots), control)
       case SpanAnchor(_, _, start, end) => Readable(spots[m].node, start, end, o.value)
  }

  ghost predicate Attachable(spots: seq<Spot>, o: Occurrence)
    requires Proper(spots)
  {
    exists m :: AttachesAt(spots, o, m)
  }

  /** What an attached occurrence becomes: the control under its own key and label, or a span from the first position of
      its first character to the last of its last one. */
  ghost predicate Becomes(spots: seq<Spot>, o: Occurrence, item: Item)
    requires Proper(spots)
  {
    && !item.missing
    && match o.anchor
       case ControlAnchor(_, _, control) =>
         item.location == OfControl(control) && Handle(control, item.key, item.alias) in SpotHandles(spots)
       case SpanAnchor(_, _, start, end) =>
         && item.location.Span? && item.location.text == o.value && item.key == Own && item.alias == []
         && exists m :: AttachesAt(spots, o, m) && Covers(spots[m], start, end, item.location.from, item.location.to)
  }

  /** Fields that have an identity, counted. */
  lemma {:induction false} OccursNever(fields: seq<(nat, Node)>, id: Id)
    requires forall i | 0 <= i < |fields| :: fields[i].1.Field?
    ensures Occurrences(fields, id) == 0 <==> forall i | 0 <= i < |fields| :: fields[i].1.id != id
  {
    if fields != [] {
      OccursNever(fields[1..], id);
    }
  }

  ghost predicate OnlyAt(fields: seq<(nat, Node)>, id: Id, k: int) {
    && 0 <= k < |fields| && fields[k].1.Field? && fields[k].1.id == id
    && forall i | 0 <= i < |fields| && i != k :: !fields[i].1.Field? || fields[i].1.id != id
  }

  lemma {:induction false} OccursOnce(fields: seq<(nat, Node)>, id: Id)
    requires forall i | 0 <= i < |fields| :: fields[i].1.Field?
    ensures Occurrences(fields, id) == 1 <==> exists k :: OnlyAt(fields, id, k)
    ensures forall k | OnlyAt(fields, id, k) :: FirstField(fields, id) == Some(fields[k])
  {
    if fields != [] {
      var rest := fields[1..];
      OccursNever(rest, id);
      OccursOnce(rest, id);
      forall k | k >= 0 && fields[0].1.id != id ensures OnlyAt(fields, id, k + 1) <==> OnlyAt(rest, id, k) {
        if OnlyAt(rest, id, k) {
          forall i | 0 <= i < |fields| && i != k + 1 ensures fields[i].1.id != id {
            assert i > 0 ==> fields[i] == rest[i - 1];
          }
        }
        if OnlyAt(fields, id, k + 1) {
          forall i | 0 <= i < |rest| && i != k ensures rest[i].1.id != id { assert rest[i] == fields[i + 1]; }
        }
      }
      if fields[0].1.id == id {
        assert Occurrences(rest, id) == 0 ==> OnlyAt(fields, id, 0);
        forall k | OnlyAt(fields, id, k) ensures k == 0 && Occurrences(rest, id) == 0 {
          forall i | 0 <= i < |rest| ensures rest[i].1.id != id { assert rest[i] == fields[i + 1]; }
        }
      } else {
        assert !OnlyAt(fields, id, 0);
        forall k | OnlyAt(fields, id, k) ensures OnlyAt(rest, id, k - 1) {
          assert OnlyAt(fields, id, k - 1 + 1);
        }
        if k :| OnlyAt(rest, id, k) {
          assert OnlyAt(fields, id, k + 1);
        }
      }
    }
  }

  /** A control is native exactly if no other one of the document has its identity. */
  lemma NativeSingle(spots: seq<Spot>, id: Id)
    requires Proper(spots)
    ensures Native(spots, id).Some? <==> Single(SpotHandles(spots), id)
    ensures Native(spots, id).Some? ==>
      && Native(spots, id).value.1.Field? && Native(spots, id).value.1.id == id
      && Native(spots, id).value in NativeFields(spots)
      && (var c := Native(spots, id).value.1; Handle(id, c.key, c.alias) in SpotHandles(spots))
    ensures forall f | f in NativeFields(spots) && f.1.Field? && f.1.id == id && Single(SpotHandles(spots), id) ::
      Native(spots, id) == Some(f)
  {
    hide NativeFields, SpotHandles, Occurrences, FirstField;
    NativeHandles(spots);
    var fields, handles := NativeFields(spots), SpotHandles(spots);
    OccursOnce(fields, id);
    forall k ensures OnlyAt(fields, id, k) <==>
      0 <= k < |handles| && handles[k].id == id && forall i | 0 <= i < |handles| && i != k :: handles[i].id != id
    {
    }
    if Native(spots, id).Some? {
      var k :| OnlyAt(fields, id, k);
      assert handles[k] == Handle(id, fields[k].1.key, fields[k].1.alias);
    }
    if Single(handles, id) {
      var i :|
        0 <= i < |handles| && handles[i].id == id && forall k | 0 <= k < |handles| && k != i :: handles[k].id != id;
      assert OnlyAt(fields, id, i);
      assert forall f | f in fields && f.1.Field? && f.1.id == id :: f == fields[i];
    }
  }

  lemma {:induction false} FieldsStand(children: seq<Node>, position: nat, f: (nat, Node))
    ensures f in FieldsIn(children, position) ==> f.0 == position && f.1 in children && f.1.Field?
  {
    if children != [] {
      FieldsStand(children[1..], position, f);
    }
  }

  lemma {:induction false} NativeStands(spots: seq<Spot>, f: (nat, Node))
    requires Proper(spots) && f in NativeFields(spots)
    ensures exists m :: 0 <= m < |spots| && f.0 == spots[m].position && f.1 in spots[m].node.content && f.1.Field?
  {
    hide FieldsIn, WellFormed;
    FieldsStand(spots[0].node.content, spots[0].position, f);
    if f !in FieldsIn(spots[0].node.content, spots[0].position) {
      NativeStands(spots[1..], f);
      var rest := spots[1..];
      var m :| 0 <= m < |rest| && f.0 == rest[m].position && f.1 in rest[m].node.content && f.1.Field?;
      assert rest[m] == spots[m + 1];
    } else {
      assert f.1 in spots[0].node.content;
    }
  }

  lemma {:induction false} AttachesControlWhen(spots: seq<Spot>, o: Occurrence, m: nat)
    requires Proper(spots) && InOrder(Entries(spots)) && SpotOf(spots, o.anchor.part, o.anchor.paragraph) == Some(m)
      && m < |spots| && o.anchor.ControlAnchor?
    ensures AttachOne(spots, o).Some? <==> AttachesAt(spots, o, m)
    ensures AttachOne(spots, o).Some? ==> Becomes(spots, o, AttachOne(spots, o).value)
  {
    hide WellFormed, SpotHandles, Native, NativeFields, Entries, Single, SpotOf;
    var s, control := spots[m], o.anchor.control;
    NativeSingle(spots, control);
    if AttachOne(spots, o).Some? {
      var field := Native(spots, control).value;
      NativeStands(spots, field);
      var k :| 0 <= k < |spots| && field.0 == spots[k].position && field.1 in spots[k].node.content && field.1.Field?;
      SamePlace(spots, m, k);
      assert HasField(s.node.content, control, o.value);
    }
    if AttachesAt(spots, o, m) {
      var c :| c in s.node.content && c.Field? && c.id == control && Value(c.content) == o.value;
      NativeHandles(spots);
      assert (s.position, c) in NativeFields(spots);
    }
  }

  /** A range of this paragraph lies in no other. */
  lemma {:induction false} AllowedHere(spots: seq<Spot>, m: nat, from: nat, to: nat, text: string)
    requires Proper(spots) && InOrder(Entries(spots)) && m < |spots|
    requires spots[m].position + 1 <= from <= to <= spots[m].position + 1 + SizeAll(spots[m].node.content)
    ensures Allowed(spots, from, to, text) <==> AllowedIn(spots[m].node, spots[m].position, from, to, text)
  {
    hide WellFormed, AllowedIn, Entries, SizeAll;
    EntriesList(spots);
    forall k | 0 <= k < |spots| && AllowedIn(spots[k].node, spots[k].position, from, to, text) ensures k == m {
      AllowedBetween(spots[k].node, spots[k].position, from, to, text);
      assert Entries(spots)[k].start <= from <= to <= Entries(spots)[k].end;
      assert Entries(spots)[m].start <= from <= to <= Entries(spots)[m].end;
    }
  }

  lemma AllowedBetween(n: Node, position: nat, from: nat, to: nat, text: string)
    requires n.Paragraph? && AllowedIn(n, position, from, to, text)
    ensures position + 1 <= from <= to <= position + 1 + SizeAll(n.content)
  {
    hide SizeAll, MeetsAtom, InsideField, TextBetween;
  }

  lemma {:induction false} AttachesSpanWhen(spots: seq<Spot>, o: Occurrence, m: nat)
    requires Proper(spots) && InOrder(Entries(spots)) && SpotOf(spots, o.anchor.part, o.anchor.paragraph) == Some(m)
      && m < |spots| && o.anchor.SpanAnchor?
    ensures AttachOne(spots, o).Some? <==> AttachesAt(spots, o, m)
    ensures AttachOne(spots, o).Some? ==> Becomes(spots, o, AttachOne(spots, o).value)
  {
    hide WellFormed, SpotHandles, Entries, SpotOf, Allowed, AllowedIn, PointsOf, TextOf, RangeOf, Covers, FreeOf,
      BlockedOf, Native, InOrder, SizeAll;
    var s, start, end := spots[m], o.anchor.start, o.anchor.end;
    PointsCount(s.node.content, s.position + 1);
    if start <= end <= |TextOf(s.node.content)| && TextOf(s.node.content)[start..end] == o.value {
      RangeInside(s, start, end);
      AllowedWhen(s, start, end, o.value);
      var (from, to) := RangeOf(s, start, end);
      AllowedHere(spots, m, from, to, o.value);
      if Readable(s.node, start, end, o.value) {
        ReadableRange(s, start, end, o.value);
        assert AttachesAt(spots, o, m);
      }
    }
  }

  /** What `attachReview` accepts, told from the document alone, and what it makes of it. */
  lemma AttachesWhen(spots: seq<Spot>, o: Occurrence)
    requires Proper(spots) && DistinctSpots(spots) && InOrder(Entries(spots))
    ensures AttachOne(spots, o).Some? <==> Attachable(spots, o)
    ensures AttachOne(spots, o).Some? ==> Becomes(spots, o, AttachOne(spots, o).value)
  {
    hide WellFormed, AttachOne, Entries, AttachesAt, Becomes, SpotOf;
    var m := SpotOf(spots, o.anchor.part, o.anchor.paragraph);
    if m.None? {
      NoSpot(spots, o);
    } else {
      OneSpot(spots, o, m.value);
      if o.anchor.ControlAnchor? {
        AttachesControlWhen(spots, o, m.value);
      } else {
        AttachesSpanWhen(spots, o, m.value);
      }
    }
  }

  lemma NoSpot(spots: seq<Spot>, o: Occurrence)
    requires Proper(spots) && SpotOf(spots, o.anchor.part, o.anchor.paragraph).None?
    ensures AttachOne(spots, o).None? && !Attachable(spots, o)
  {
    hide WellFormed;
  }

  lemma OneSpot(spots: seq<Spot>, o: Occurrence, m: nat)
    requires Proper(spots) && DistinctSpots(spots) && SpotOf(spots, o.anchor.part, o.anchor.paragraph) == Some(m)
    ensures m < |spots| && forall k | AttachesAt(spots, o, k) :: k == m
  {
    hide WellFormed, SpotOf;
  }

  /** Where the backend's validation and the editor differ: the backend refuses a span that begins right behind an empty
      control, the editor attaches it. Everywhere else they accept the same spans. */
  lemma BackendAccepts(s: Spot, o: Occurrence)
    requires s.node.Paragraph? && WellFormed(s.node) && o.anchor.SpanAnchor?
    ensures var start, end := o.anchor.start, o.anchor.end;
      Anchored(o, KnownOf(s.part, s.node)) <==>
        Readable(s.node, start, end, o.value) && !(start < end && (start, start) in BlockedOf(s.node.content, 0))
  {
    hide WellFormed, TextOf, BlockedOf;
    var start, end, blocked := o.anchor.start, o.anchor.end, BlockedOf(s.node.content, 0);
    forall b: Interval
      ensures start < end ==> (Hits(start, end, b) <==> Overlap(start, end, b) || b == (start, start))
    {
    }
    if s.node.content == [] {
      Nothing(0);
      NothingBlocked();
    } else if TextOf(s.node.content) == [] && blocked == [] {
      NothingInside(s.node);
    }
    if start < end && (start, start) in blocked {
      var k :| 0 <= k < |blocked| && blocked[k] == (start, start);
      assert Hits(start, end, blocked[k]);
    }
  }

  lemma NothingBlocked()
    ensures BlockedOf([], 0) == []
  {
  }

  /** A paragraph that starts with an empty control: the backend refuses the word behind it. */
  lemma BehindEmptyControl() returns (s: Spot, o: Occurrence)
    ensures s.node.Paragraph? && WellFormed(s.node) && o.anchor.SpanAnchor?
    ensures AttachesAt([s], o, 0) && !Anchored(o, KnownOf(s.part, s.node))
  {
    var field, text := Field(At("p", 2), Own, [], []), Text("a", None, None);
    s := Spot("p", 1, Paragraph(At("p", 1), Left, false, [field, text]));
    o := Occurrence(SpanAnchor("p", At("p", 1), 0, 1), "a");
    var children := [field, text];
    assert children[1..] == [text] && [text][1..] == [];
    assert Value([]) == [] && Chars(field) == [] && Chars(text) == "a";
    assert TextOf([]) == [] && TextOf([text]) == "a" + TextOf([]) == "a";
    assert TextOf(children) == [] + TextOf([text]) == "a";
    assert BlockedOf([], 1) == [] && BlockedOf([text], 0) == [];
    assert BlockedOf(children, 0) == [(0, 0)] + BlockedOf([text], 0) == [(0, 0)];
    assert WellFormed(field) && WellFormed(text);
    assert WellFormed(s.node);
    BackendAccepts(s, o);
  }

  /** `attachReview`: `None` where it throws. */
  method AttachReview(doc: Node, occurrences: seq<Occurrence>) returns (r: Option<seq<Item>>)
    requires WellFormed(doc) && doc.Doc?
    ensures Proper(SpotsIn([], doc, 0))
    ensures r.Some? <==>
      DistinctSpots(SpotsIn([], doc, 0)) && forall o | o in occurrences :: Attachable(SpotsIn([], doc, 0), o)
    ensures r.Some? ==>
      && |r.value| == |occurrences|
      && forall i | 0 <= i < |occurrences| ::
           Becomes(SpotsIn([], doc, 0), occurrences[i], r.value[i])
             && AttachOne(SpotsIn([], doc, 0), occurrences[i]) == Some(r.value[i])
  {
    hide AttachOne, SpotsIn, Attachable, Becomes, Entries, WellFormed, DistinctSpots, InOrder, SpotHandles, Knowns,
      ControlsOf, EntriesOf, KnownIn;
    var spots := SpotsIn([], doc, 0);
    SpotsAgree([], doc, 0);
    DocumentApart(doc);
    if !DistinctSpots(spots) {
      return None;
    }
    var items: seq<Item> := [];
    for i := 0 to |occurrences|
      invariant |items| == i
      invariant forall k | 0 <= k < i :: Attachable(spots, occurrences[k]) && Becomes(spots, occurrences[k], items[k])
      invariant forall k | 0 <= k < i :: AttachOne(spots, occurrences[k]) == Some(items[k])
    {
      var item := AttachOne(spots, occurrences[i]);
      AttachesWhen(spots, occurrences[i]);
      if item.None? {
        assert occurrences[i] in occurrences;
        return None;
      }
      items := items + [item.value];
    }
    r := Some(items);
  }

  // ----- controls

  lemma {:induction false} FieldsInHandles(children: seq<Node>, position: nat)
    ensures |FieldsIn(children, position)| == |FieldHandles(children)|
    ensures forall i | 0 <= i < |FieldsIn(children, position)| ::
      var f := FieldsIn(children, position)[i];
        f.1.Field? && FieldHandles(children)[i] == Handle(f.1.id, f.1.key, f.1.alias)
    ensures forall c | c in children && c.Field? :: (position, c) in FieldsIn(children, position)
  {
    if children != [] {
      FieldsInHandles(children[1..], position);
    }
  }

  lemma {:induction false} NativeHandles(spots: seq<Spot>)
    requires Proper(spots)
    ensures |NativeFields(spots)| == |SpotHandles(spots)|
    ensures forall i | 0 <= i < |NativeFields(spots)| ::
      var f := NativeFields(spots)[i]; f.1.Field? && SpotHandles(spots)[i] == Handle(f.1.id, f.1.key, f.1.alias)
    ensures forall s | s in spots :: forall c | c in s.node.content && c.Field? ::
      (s.position, c) in NativeFields(spots)
  {
    hide FieldsIn, FieldHandles, WellFormed;
    if spots != [] {
      FieldsInHandles(spots[0].node.content, spots[0].position);
      NativeHandles(spots[1..]);
    }
  }

  ghost predicate DistinctFields(fields: seq<(nat, Node)>) {
    (forall i | 0 <= i < |fields| :: fields[i].1.Field?)
    && forall i, k | 0 <= i < k < |fields| :: fields[i].1.id != fields[k].1.id
  }

  lemma {:induction false} OnceFirst(fields: seq<(nat, Node)>, k: nat)
    requires DistinctFields(fields) && k < |fields|
    ensures Occurrences(fields, fields[k].1.id) == 1 && FirstField(fields, fields[k].1.id) == Some(fields[k])
  {
    if k == 0 {
      NoneLeft(fields[1..], fields[0].1.id);
    } else {
      OnceFirst(fields[1..], k - 1);
    }
  }

  lemma {:induction false} NoneLeft(fields: seq<(nat, Node)>, id: Id)
    requires forall i | 0 <= i < |fields| :: fields[i].1.Field? && fields[i].1.id != id
    ensures Occurrences(fields, id) == 0
  {
    if fields != [] {
      NoneLeft(fields[1..], id);
    }
  }

  /** A field in a paragraph is the native field of its identity. */
  lemma NativeFound(spots: seq<Spot>, s: Spot, c: Node)
    requires Proper(spots) && Distinct(SpotHandles(spots)) && s in spots && c in s.node.content && c.Field?
    ensures Native(spots, c.id) == Some((s.position, c))
    ensures Handle(c.id, c.key, c.alias) in SpotHandles(spots)
  {
    hide SpotHandles, NativeFields, WellFormed;
    NativeHandles(spots);
    var fields := NativeFields(spots);
    assert DistinctFields(fields) by {
      forall i, k | 0 <= i < k < |fields| ensures fields[i].1.id != fields[k].1.id {
        assert SpotHandles(spots)[i].id != SpotHandles(spots)[k].id;
      }
    }
    var k :| 0 <= k < |fields| && fields[k] == (s.position, c);
    OnceFirst(fields, k);
    assert SpotHandles(spots)[k] == Handle(c.id, c.key, c.alias);
  }

  lemma {:induction false} ValueListed(children: seq<Node>, id: Id, value: string)
    requires (id, value) in ValuesOf(children)
    ensures exists c :: c in children && c.Field? && c.id == id && Value(c.content) == value
  {
    if children[0].Field? && (children[0].id, Value(children[0].content)) == (id, value) {
    } else {
      ValueListed(children[1..], id, value);
    }
  }

  // ----- spans

  /** Occurrence `o` is anchored in paragraph `s`. */
  ghost predicate AnchoredAt(o: Occurrence, s: Spot)
    requires s.node.Paragraph?
  {
    o.anchor.part == s.part && o.anchor.paragraph == s.node.id && Anchored(o, KnownOf(s.part, s.node))
  }

  lemma NothingInside(n: Node)
    requires WellFormed(n) && n.Paragraph? && TextOf(n.content) == [] && BlockedOf(n.content, 0) == []
    ensures n.content == []
  {
    ParagraphKids(n);
    assert Inlines(n.content) && forall c | c in n.content && c.Text? :: c.text != [];
  }

  lemma SpanRange(s: Spot, start: nat, end: nat)
    requires s.node.Paragraph? && WellFormed(s.node) && start < end <= |TextOf(s.node.content)|
    requires Clear(start, end, BlockedOf(s.node.content, 0))
    ensures |PointsOf(s.node.content, s.position + 1)| == |TextOf(s.node.content)|
    ensures var (from, to) := RangeOf(s, start, end);
      from < to && Spans(s.node, s.position, from, to, TextOf(s.node.content)[start..end])
  {
    hide WellFormed, PointsOf, TextOf, Tape, Somes, Encode, Clear, BlockedOf;
    PointsCount(s.node.content, s.position + 1);
    ParagraphKids(s.node);
    ClearSpelled(s.node.content, s.position + 1, 0, start, end);
  }

  /** A span of the snapshot is a span of the document. */
  lemma SpanFits(s: Spot, o: Occurrence)
    requires s.node.Paragraph? && WellFormed(s.node) && o.anchor.SpanAnchor? && AnchoredAt(o, s)
    ensures |PointsOf(s.node.content, s.position + 1)| == |TextOf(s.node.content)|
    ensures o.anchor.start <= o.anchor.end <= |TextOf(s.node.content)|
    ensures var (from, to) := RangeOf(s, o.anchor.start, o.anchor.end);
      && Spans(s.node, s.position, from, to, o.value) && AllowedIn(s.node, s.position, from, to, o.value)
      && (from < to <==> o.anchor.start < o.anchor.end)
  {
    hide AllowedIn, WellFormed, PointsOf, TextOf, Clear, BlockedOf, Somes, Encode;
    var start, end := o.anchor.start, o.anchor.end;
    PointsCount(s.node.content, s.position + 1);
    if start == end {
      NothingInside(s.node);
      assert TextOf(s.node.content)[start..end] == [] && Tape(s.node.content) == [];
      assert PointsOf(s.node.content, s.position + 1) == [];
    } else {
      SpanRange(s, start, end);
    }
    var (from, to) := RangeOf(s, start, end);
    AllowedIsSpan(s.node, s.position, from, to, o.value);
  }

  lemma RangesApart(points: seq<(nat, nat)>, low: nat, high: nat, i: nat, k: nat, m: nat, n: nat)
    requires Ascending(points, low, high) && i < k <= m < n <= |points|
    ensures points[k - 1].1 <= points[m].0
  {
  }

  /** Two compatible spans of one paragraph take disjoint positions. */
  lemma SpansApart(s: Spot, o: Occurrence, p: Occurrence)
    requires s.node.Paragraph? && WellFormed(s.node) && AnchoredAt(o, s) && AnchoredAt(p, s) && Compatible(o, p)
    requires o.anchor.SpanAnchor? && p.anchor.SpanAnchor?
    ensures |PointsOf(s.node.content, s.position + 1)| == |TextOf(s.node.content)|
    ensures o.anchor.start <= o.anchor.end <= |TextOf(s.node.content)|
    ensures p.anchor.start <= p.anchor.end <= |TextOf(s.node.content)|
    ensures Disjoint(RangeOf(s, o.anchor.start, o.anchor.end), RangeOf(s, p.anchor.start, p.anchor.end))
  {
    hide WellFormed, AllowedIn, Spans, PointsOf, TextOf, Clear, BlockedOf, Ascending, SizeAll;
    var points := PointsOf(s.node.content, s.position + 1);
    var a, b, c, d := o.anchor.start, o.anchor.end, p.anchor.start, p.anchor.end;
    PointsCount(s.node.content, s.position + 1);
    SpanFits(s, o);
    SpanFits(s, p);
    ParagraphKids(s.node);
    PointsAscending(s.node.content, s.position + 1);
    if a < b && c < d {
      if b <= c {
        RangesApart(points, s.position + 1, s.position + 1 + SizeAll(s.node.content), a, b, c, d);
      } else {
        RangesApart(points, s.position + 1, s.position + 1 + SizeAll(s.node.content), c, d, a, b);
      }
    }
  }

  // ----- the theorem

  lemma {:induction false} EntriesList(spots: seq<Spot>)
    ensures |Entries(spots)| == |spots|
    ensures forall i | 0 <= i < |spots| :: Entries(spots)[i] == EntryOf(spots[i].node, spots[i].position)
  {
    hide EntryOf;
    if spots != [] {
      EntriesList(spots[1..]);
    }
  }

  lemma {:induction false} KnownsReverse(spots: seq<Spot>)
    requires forall s | s in spots :: s.node.Paragraph?
    ensures |Knowns(spots)| == |spots|
    ensures forall i | 0 <= i < |spots| :: KnownAt(spots, i) == KnownOf(spots[i].part, spots[i].node)
  {
    hide KnownOf;
    if spots != [] {
      KnownsReverse(spots[1..]);
      forall i | 0 <= i < |spots|
        ensures KnownAt(spots, i) == KnownOf(spots[i].part, spots[i].node)
      {
        if i > 0 {
          assert KnownAt(spots[1..], i - 1) == KnownOf(spots[i].part, spots[i].node);
        }
      }
    }
  }

  /** What the backend knows of the `i`th paragraph. */
  function KnownAt(spots: seq<Spot>, i: nat): Known
    requires (forall s | s in spots :: s.node.Paragraph?) && i < |spots| == |Knowns(spots)|
  {
    Knowns(spots)[|spots| - 1 - i]
  }

  /** The paragraph an occurrence of the snapshot is anchored in. */
  lemma Home(spots: seq<Spot>, o: Occurrence) returns (m: nat)
    requires Proper(spots) && OccurrenceOk(o, Knowns(spots))
    ensures m < |spots| && AnchoredAt(o, spots[m])
  {
    hide WellFormed, Anchored;
    KnownsReverse(spots);
    var k :| 0 <= k < |Knowns(spots)| && AtParagraph(o, Knowns(spots)[k]) && Anchored(o, Knowns(spots)[k]);
    m := |spots| - 1 - k;
    assert KnownAt(spots, m) == Knowns(spots)[k];
  }

  lemma SoundSpots(spots: seq<Spot>)
    requires Proper(spots) && Sound(Knowns(spots))
    ensures DistinctSpots(spots)
  {
    hide WellFormed;
    KnownsReverse(spots);
    forall i, k | 0 <= i < k < |spots|
      ensures !(spots[i].part == spots[k].part && spots[i].node.id == spots[k].node.id)
    {
      assert !SameParagraph(KnownAt(spots, k), KnownAt(spots, i));
    }
  }

  /** Everything a snapshot occurrence gives, attached. */
  ghost predicate Attached(spots: seq<Spot>, o: Occurrence, m: nat, item: Item)
    requires Proper(spots)
  {
    && m < |spots| && AnchoredAt(o, spots[m]) && AttachOne(spots, o) == Some(item) && !item.missing
    && match o.anchor
       case ControlAnchor(_, _, control) =>
         item.location == OfControl(control) && Handle(control, item.key, item.alias) in SpotHandles(spots)
         && exists c :: c in spots[m].node.content && c.Field? && c.id == control
       case SpanAnchor(_, _, start, end) =>
         && |PointsOf(spots[m].node.content, spots[m].position + 1)| == |TextOf(spots[m].node.content)|
         && start <= end <= |TextOf(spots[m].node.content)|
         && var (from, to) := RangeOf(spots[m], start, end);
            item.location == Span(from, to, o.value) && Spans(spots[m].node, spots[m].position, from, to, o.value)
  }

  lemma AttachesControl(spots: seq<Spot>, o: Occurrence, m: nat) returns (item: Item)
    requires Proper(spots) && Distinct(SpotHandles(spots)) && m < |spots| && AnchoredAt(o, spots[m])
      && o.anchor.ControlAnchor?
    requires SpotOf(spots, o.anchor.part, o.anchor.paragraph) == Some(m)
    ensures Attached(spots, o, m, item)
  {
    hide WellFormed, AllowedIn, SpotHandles, Knowns, Native, SpotOf, BlockedOf, TextOf;
    var s, control := spots[m], o.anchor.control;
    ValueListed(s.node.content, control, o.value);
    var c :| c in s.node.content && c.Field? && c.id == control && Value(c.content) == o.value;
    NativeFound(spots, s, c);
    item := Item(OfControl(control), false, c.key, c.alias);
  }

  lemma AttachesSpan(spots: seq<Spot>, o: Occurrence, m: nat) returns (item: Item)
    requires Proper(spots) && m < |spots| && AnchoredAt(o, spots[m]) && o.anchor.SpanAnchor?
    requires SpotOf(spots, o.anchor.part, o.anchor.paragraph) == Some(m)
    ensures Attached(spots, o, m, item)
  {
    hide WellFormed, AllowedIn, SpotHandles, Knowns, Native, SpotOf, BlockedOf, TextOf, PointsOf, RangeOf, Spans, Clear;
    var s := spots[m];
    SpanFits(s, o);
    var (from, to) := RangeOf(s, o.anchor.start, o.anchor.end);
    assert Allowed(spots, from, to, o.value);
    item := Item(Span(from, to, o.value), false, Own, []);
  }

  lemma AttachesOne(spots: seq<Spot>, o: Occurrence) returns (m: nat, item: Item)
    requires Proper(spots) && DistinctSpots(spots) && Distinct(SpotHandles(spots)) && OccurrenceOk(o, Knowns(spots))
    ensures Attached(spots, o, m, item)
  {
    hide WellFormed, SpotHandles, Knowns, Attached, Anchored;
    m := Home(spots, o);
    assert SpotOf(spots, spots[m].part, spots[m].node.id) == Some(m);
    if o.anchor.ControlAnchor? {
      item := AttachesControl(spots, o, m);
    } else {
      item := AttachesSpan(spots, o, m);
    }
  }

  lemma AttachedOk(spots: seq<Spot>, o: Occurrence, m: nat, item: Item)
    requires Proper(spots) && Distinct(SpotHandles(spots)) && Attached(spots, o, m, item)
    ensures ItemOk(item, Entries(spots), ByIdentity(SpotHandles(spots)))
  {
    hide WellFormed, SpotHandles, Knowns, AttachOne, Spans;
    EntriesList(spots);
    ByIdentityHas(SpotHandles(spots));
    if item.location.Span? {
      assert Indexes(Entries(spots)[m], spots[m].node, spots[m].position);
      assert EntrySpans(Entries(spots)[m], item.location.from, item.location.to, item.location.text);
    }
  }

  /** The range an attached span takes. */
  ghost predicate Taken(s: Spot, o: Occurrence, item: Item)
    requires s.node.Paragraph?
  {
    && item.location.Span? && o.anchor.SpanAnchor?
    && |PointsOf(s.node.content, s.position + 1)| == |TextOf(s.node.content)|
    && o.anchor.start <= o.anchor.end <= |TextOf(s.node.content)|
    && (item.location.from, item.location.to) == RangeOf(s, o.anchor.start, o.anchor.end)
  }

  /** Where an attached span lies. */
  lemma {:induction false} AttachedWithin(spots: seq<Spot>, o: Occurrence, m: nat, item: Item)
    requires Proper(spots) && Attached(spots, o, m, item) && item.location.Span?
    ensures |Entries(spots)| == |spots| && Taken(spots[m], o, item)
    ensures Entries(spots)[m].start <= item.location.from <= item.location.to <= Entries(spots)[m].end
  {
    hide WellFormed, SpotHandles, Knowns, AttachOne, RangeOf, Clear;
    EntriesList(spots);
    TapeSize(spots[m].node.content);
  }

  /** Items of compatible occurrences do not collide. */
  lemma AttachedThere(spots: seq<Spot>, o: Occurrence, m: nat, item: Item)
    requires Proper(spots) && Attached(spots, o, m, item)
    ensures m < |spots| && AnchoredAt(o, spots[m])
  {
  }

  lemma AttachedApart(spots: seq<Spot>, o: Occurrence, m: nat, item: Item, p: Occurrence, n: nat, other: Item)
    requires Proper(spots) && InOrder(Entries(spots)) && Distinct(SpotHandles(spots))
    requires Attached(spots, o, m, item) && Attached(spots, p, n, other) && Compatible(o, p)
    ensures !SameControl(item, other)
    ensures item.location.Span? && other.location.Span? ==>
      Disjoint((item.location.from, item.location.to), (other.location.from, other.location.to))
  {
    hide WellFormed, SpotHandles, Knowns, AttachOne, Attached, RangeOf, Entries, Anchored;
    if item.location.Span? && other.location.Span? {
      AttachedWithin(spots, o, m, item);
      AttachedWithin(spots, p, n, other);
      AttachedThere(spots, o, m, item);
      AttachedThere(spots, p, n, other);
      EntriesList(spots);
      if m == n {
        SpansApart(spots[m], o, p);
      } else {
        assert Entries(spots)[m].end < Entries(spots)[n].start || Entries(spots)[n].end < Entries(spots)[m].start;
      }
    }
    if SameControl(item, other) {
      SameHome(spots, o, m, item, p, n, other);
    }
  }

  /** A control stands in one paragraph only, so one occurrence at most is anchored to it. */
  lemma SameHome(spots: seq<Spot>, o: Occurrence, m: nat, item: Item, p: Occurrence, n: nat, other: Item)
    requires Proper(spots) && InOrder(Entries(spots)) && Distinct(SpotHandles(spots))
    requires Attached(spots, o, m, item) && Attached(spots, p, n, other) && SameControl(item, other)
    ensures o.anchor == p.anchor
  {
    hide WellFormed, SpotHandles, Knowns, AttachOne, RangeOf, Anchored, Spans;
    var c :| c in spots[m].node.content && c.Field? && c.id == item.location.id;
    var d :| d in spots[n].node.content && d.Field? && d.id == item.location.id;
    NativeFound(spots, spots[m], c);
    NativeFound(spots, spots[n], d);
    SamePlace(spots, m, n);
  }

  lemma {:induction false} SamePlace(spots: seq<Spot>, m: nat, n: nat)
    requires Proper(spots) && InOrder(Entries(spots)) && m < |spots| && n < |spots|
      && spots[m].position == spots[n].position
    ensures m == n
  {
    hide WellFormed;
    EntriesList(spots);
    assert forall i, k | 0 <= i < k < |spots| :: Entries(spots)[i].start < Entries(spots)[k].start;
  }

  ghost predicate AllControls(model: Node, occurrences: seq<Occurrence>) {
    forall c | c in ControlsOf(model) ::
      exists i ::
        0 <= i < |occurrences| && occurrences[i].anchor.ControlAnchor? && occurrences[i].anchor.control == c.id
  }

  lemma {:induction false} SpansDisjoint(items: seq<Item>)
    requires forall i, k | 0 <= i < k < |items| && items[i].location.Span? && items[k].location.Span? ::
      Disjoint((items[i].location.from, items[i].location.to), (items[k].location.from, items[k].location.to))
    ensures PairwiseDisjoint(SpansOf(items))
  {
    if items != [] {
      var n := |items| - 1;
      SpansDisjoint(items[..n]);
      SpansAre(items[..n]);
      var before := SpansOf(items[..n]);
      if items[n].location.Span? && !items[n].missing {
        forall i | 0 <= i < |before|
          ensures Disjoint(before[i], (items[n].location.from, items[n].location.to))
        {
          assert before[i] in before;
        }
      }
    }
  }

  /** Discovery, attachment and saving agree: whatever a valid snapshot of a sound document proposes, the editor
      attaches it without refusing anything, and the review it makes is accepted when the document is saved. */
  lemma DiscoveryAttaches(model: Node, occurrences: seq<Occurrence>) returns (items: seq<Item>)
    requires model.Doc? && WellFormed(model) && Distinct(ControlsOf(model))
    requires Sound(KnownIn([], model)) && SnapshotOk(KnownIn([], model), occurrences) && AllControls(model, occurrences)
    ensures var spots := SpotsIn([], model, 0);
      && Proper(spots) && DistinctSpots(spots) && |items| == |occurrences|
      && forall i | 0 <= i < |items| ::
           AttachOne(spots, occurrences[i]) == Some(items[i]) && Attachable(spots, occurrences[i])
    ensures ReviewOk(items, EntriesOf(model, 0), ByIdentity(ControlsOf(model)))
  {
    hide WellFormed, SpotsIn, EntriesOf, ControlsOf, KnownIn, AttachOne, Attached, ItemOk, Knowns, Entries, SpotHandles,
         ByIdentity, Compatible, OccurrenceOk, Attachable, Becomes, SnapshotOk;
    SnapshotSays(model, occurrences);
    var spots := SpotsIn([], model, 0);
    SpotsAgree([], model, 0);
    SoundSpots(spots);
    DocumentApart(model);
    var homes: seq<nat> := [];
    items := [];
    for i := 0 to |occurrences|
      invariant |items| == |homes| == i
      invariant forall k | 0 <= k < i :: Attached(spots, occurrences[k], homes[k], items[k])
    {
      var m, item := AttachesOne(spots, occurrences[i]);
      items, homes := items + [item], homes + [m];
    }
    AttachedFit(model, spots, occurrences, homes, items);
    forall i | 0 <= i < |items| ensures Attachable(spots, occurrences[i]) { AttachesWhen(spots, occurrences[i]); }
  }

  lemma SnapshotSays(model: Node, occurrences: seq<Occurrence>)
    requires SnapshotOk(KnownIn([], model), occurrences)
    ensures forall i | 0 <= i < |occurrences| :: OccurrenceOk(occurrences[i], KnownIn([], model))
    ensures forall i, k | 0 <= i < k < |occurrences| :: Compatible(occurrences[i], occurrences[k])
  {
    hide OccurrenceOk, Compatible, KnownIn;
  }

  lemma AttachedFit(model: Node, spots: seq<Spot>, occurrences: seq<Occurrence>, homes: seq<nat>, items: seq<Item>)
    requires Proper(spots) && InOrder(Entries(spots)) && Distinct(SpotHandles(spots))
      && |items| == |homes| == |occurrences|
    requires EntriesOf(model, 0) == Entries(spots) && ControlsOf(model) == SpotHandles(spots)
    requires forall i, k | 0 <= i < k < |occurrences| :: Compatible(occurrences[i], occurrences[k])
    requires forall k | 0 <= k < |items| :: Attached(spots, occurrences[k], homes[k], items[k])
    requires AllControls(model, occurrences)
    ensures forall k | 0 <= k < |items| :: AttachOne(spots, occurrences[k]) == Some(items[k])
    ensures ReviewOk(items, EntriesOf(model, 0), ByIdentity(ControlsOf(model)))
  {
    hide WellFormed, EntriesOf, ControlsOf, AttachOne, Attached, ItemOk, Entries, SpotHandles, ByIdentity, Compatible;
    forall k | 0 <= k < |items|
      ensures ItemOk(items[k], Entries(spots), ByIdentity(SpotHandles(spots)))
      ensures AttachOne(spots, occurrences[k]) == Some(items[k])
      ensures occurrences[k].anchor.ControlAnchor? ==> items[k].location == OfControl(occurrences[k].anchor.control)
    {
      AttachedOk(spots, occurrences[k], homes[k], items[k]);
      AttachedIs(spots, occurrences[k], homes[k], items[k]);
    }
    forall i, k | 0 <= i < k < |items|
      ensures !SameControl(items[i], items[k])
      ensures items[i].location.Span? && items[k].location.Span? ==>
        Disjoint((items[i].location.from, items[i].location.to), (items[k].location.from, items[k].location.to))
    {
      AttachedApart(spots, occurrences[i], homes[i], items[i], occurrences[k], homes[k], items[k]);
    }
    SpansDisjoint(items);
    var controls := ByIdentity(SpotHandles(spots));
    ByIdentityHas(SpotHandles(spots));
    forall id | id in controls
      ensures Tracked(items, id)
    {
      var j :| 0 <= j < |SpotHandles(spots)| && SpotHandles(spots)[j].id == id;
      assert SpotHandles(spots)[j] in ControlsOf(model);
      var i :| 0 <= i < |occurrences| && occurrences[i].anchor.ControlAnchor? && occurrences[i].anchor.control == id;
      assert items[i].location == OfControl(id);
    }
  }

  lemma AttachedIs(spots: seq<Spot>, o: Occurrence, m: nat, item: Item)
    requires Proper(spots) && Attached(spots, o, m, item)
    ensures AttachOne(spots, o) == Some(item)
    ensures o.anchor.ControlAnchor? ==> item.location == OfControl(o.anchor.control)
  {
  }
}
