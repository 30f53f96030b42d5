/** What a copy takes along: its field discoveries and its review stay valid in the corresponding document. */
module Copying {
  import opened Common
  import opened DocumentModel
  import opened WorkingIndex
  import opened WorkingSpans
  import opened FieldAnchors
  import opened ReviewDocument
  import opened Rebase
  import opened Correspondence
  import opened Transport

  // ----- corresponding paragraphs stand at the same places

  ghost predicate Twin(a: Spot, b: Spot, pairs: Links) {
    && a.part == b.part && a.position == b.position && a.node.Paragraph? && b.node.Paragraph?
    && Same(a.node, b.node) && Within(Pairs(a.node, b.node), pairs)
  }

  ghost predicate Twins(a: seq<Spot>, b: seq<Spot>, pairs: Links) {
    |a| == |b| && forall i | 0 <= i < |a| :: Twin(a[i], b[i], pairs)
  }

  ghost predicate Matched(ss: seq<Node>, ts: seq<Node>, pairs: Links) {
    |ss| == |ts| && forall i | 0 <= i < |ss| :: Same(ss[i], ts[i]) && Within(Pairs(ss[i], ts[i]), pairs)
  }

  lemma {:induction false} BlockPieces(children: seq<Node>)
    requires forall c | c in children :: !c.Text?
    ensures |PiecesOf(children)| == |children|
    ensures forall i | 0 <= i < |children| :: PiecesOf(children)[i] == Child(children[i])
  {
    hide StyleOf, PiecesOf;
    if children == [] {
      PiecesNone();
    } else {
      var n := |children| - 1;
      BlockPieces(children[..n]);
      PiecesNext(children, n);
      assert children[..n + 1] == children && children[n] in children;
    }
  }

  lemma SameBlock(s: Node, t: Node, part: string, position: nat)
    requires SameAttrs(s, t)
    ensures (IsBlock(s) <==> IsBlock(t)) && (s.Paragraph? <==> t.Paragraph?)
    ensures PartOf(part, s) == PartOf(part, t) && Inside(s, position) == Inside(t, position)
  {
  }

  lemma BlockKids(n: Node)
    requires WellFormed(n) && IsBlock(n)
    ensures forall c | c in n.content :: WellFormed(c) && !c.Text?
    ensures |Pieces(n)| == |n.content| && forall i | 0 <= i < |n.content| :: Pieces(n)[i] == Child(n.content[i])
  {
    hide WellFormed, PiecesOf;
    Kids(n);
    BlockPieces(n.content);
  }

  lemma BlockMatched(s: Node, t: Node, pairs: Links)
    requires WellFormed(s) && WellFormed(t) && Same(s, t) && IsBlock(s) && IsBlock(t) && Within(Pairs(s, t), pairs)
    ensures Matched(s.content, t.content, pairs)
  {
    hide Same, Pairs, WellFormed, Pieces;
    SamePiecesAll(s, t);
    BlockKids(s);
    BlockKids(t);
    forall i | 0 <= i < |s.content|
      ensures Same(s.content[i], t.content[i]) && Within(Pairs(s.content[i], t.content[i]), pairs)
    {
      PairsInside(s, t, i);
    }
  }

  lemma {:induction false} SpotTwins(part: string, s: Node, t: Node, position: nat, pairs: Links)
    requires WellFormed(s) && WellFormed(t) && Same(s, t) && Within(Pairs(s, t), pairs)
    ensures Twins(SpotsIn(part, s, position), SpotsIn(part, t, position), pairs)
    decreases s, 1
  {
    hide Same, Pairs, WellFormed, Pieces, Matched, SameAttrs, PartOf;
    SamePiecesAll(s, t);
    SameBlock(s, t, part, position);
    if IsBlock(s) {
      hide Twins;
      BlockMatched(s, t, pairs);
      BlockKids(s);
      BlockKids(t);
      SpotsAllTwins(PartOf(part, s), s.content, t.content, Inside(s, position), pairs);
    }
  }

  lemma {:induction false} SpotsAllTwins(part: string, ss: seq<Node>, ts: seq<Node>, position: nat, pairs: Links)
    requires Matched(ss, ts, pairs) && (forall c | c in ss :: WellFormed(c)) && (forall c | c in ts :: WellFormed(c))
    ensures Twins(SpotsAll(part, ss, position), SpotsAll(part, ts, position), pairs)
    decreases ss, 0
  {
    hide Same, Pairs, WellFormed, SpotsIn, Twin, Size;
    if ss != [] {
      SpotTwins(part, ss[0], ts[0], position, pairs);
      SameSize(ss[0], ts[0]);
      SpotsAllTwins(part, ss[1..], ts[1..], position + Size(ss[0]), pairs);
    }
  }

  // ----- what is known of them agrees

  lemma EmptyPieces(children: seq<Node>)
    ensures PiecesOf(children) == [] <==> children == []
  {
  }

  lemma ParagraphPieces(s: Node)
    requires WellFormed(s) && s.Paragraph?
    ensures InlinePieces(Pieces(s))
  {
    ParagraphKids(s);
  }

  /** Corresponding paragraphs hold the same text, blocked ranges and positions, and their controls correspond in
      order. */
  lemma ParagraphTwins(s: Node, t: Node, pairs: Links)
    requires WellFormed(s) && WellFormed(t) && s.Paragraph? && t.Paragraph? && Same(s, t) && Within(Pairs(s, t), pairs)
    ensures TextOf(s.content) == TextOf(t.content) && BlockedOf(s.content, 0) == BlockedOf(t.content, 0)
    ensures TwinFieldLists(FieldNodes(s.content), FieldNodes(t.content), pairs)
    ensures Tape(s.content) == Tape(t.content) && (s.content == [] <==> t.content == []) && (s.id, t.id) in pairs
  {
    hide Same, WellFormed, PiecesText, PiecesBlocked, PiecesTape, FieldPieces, TextOf, BlockedOf, FieldNodes, Tape,
      PiecesOf, PairsUpTo;
    SamePiecesAll(s, t);
    ParagraphPieces(s);
    ParagraphPieces(t);
    assert OwnPair(s, t)[0] == (s.id, t.id) && OwnPair(s, t)[0] in Pairs(s, t);
    forall i | 0 <= i < |Pieces(s)| && Pieces(s)[i].Child? && Pieces(t)[i].Child?
      ensures Within(Pairs(Pieces(s)[i].node, Pieces(t)[i].node), pairs)
    {
      hide Pairs;
      PairsInside(s, t, i);
    }
    SameContent(Pieces(s), Pieces(t));
    SameFields(Pieces(s), Pieces(t), pairs);
    ContentByPieces(s.content);
    ContentByPieces(t.content);
    SameTape(s, t);
    EmptyPieces(s.content);
    EmptyPieces(t.content);
  }

  /** The same paragraph on both sides, as field anchors see it. */
  ghost predicate SameKnown(k: Known, l: Known, pairs: Links) {
    && k.part == l.part && k.text == l.text && k.blocked == l.blocked && (k.id, l.id) in pairs
    && |k.controls| == |l.controls|
    && forall i | 0 <= i < |k.controls| ::
         k.controls[i].1 == l.controls[i].1 && (k.controls[i].0, l.controls[i].0) in pairs
  }

  ghost predicate SameKnowns(ks: seq<Known>, ls: seq<Known>, pairs: Links) {
    |ks| == |ls| && forall i | 0 <= i < |ks| :: SameKnown(ks[i], ls[i], pairs)
  }

  lemma FieldsFirst(children: seq<Node>)
    requires children != []
    ensures var c, rest := children[0], children[1..];
      && FieldNodes(children) == (if c.Field? then [c] + FieldNodes(rest) else FieldNodes(rest))
      && ValuesOf(children) == (if c.Field? then [(c.id, Value(c.content))] + ValuesOf(rest) else ValuesOf(rest))
      && FieldHandles(children) == (if c.Field? then [Handle(c.id, c.key, c.alias)] + FieldHandles(rest)
           else FieldHandles(rest))
  {
    hide Value;
  }

  lemma {:induction false} ValuesAre(children: seq<Node>)
    ensures |ValuesOf(children)| == |FieldHandles(children)| == |FieldNodes(children)|
    ensures forall i | 0 <= i < |FieldNodes(children)| ::
      && FieldNodes(children)[i].Field?
      && ValuesOf(children)[i] == (FieldNodes(children)[i].id, Value(FieldNodes(children)[i].content))
      && FieldHandles(children)[i] ==
           Handle(FieldNodes(children)[i].id, FieldNodes(children)[i].key, FieldNodes(children)[i].alias)
  {
    if children == [] {
    } else {
      hide Value, FieldNodes, ValuesOf, FieldHandles;
      ValuesAre(children[1..]);
      FieldsFirst(children);
    }
  }

  lemma KnownTwins(a: Spot, b: Spot, pairs: Links)
    requires Twin(a, b, pairs) && WellFormed(a.node) && WellFormed(b.node)
    ensures SameKnown(KnownOf(a.part, a.node), KnownOf(b.part, b.node), pairs)
  {
    hide Same, Pairs, Value, WellFormed, TextOf, BlockedOf, ValuesOf, FieldNodes, FieldHandles, Tape;
    var ss, ts := a.node.content, b.node.content;
    ParagraphTwins(a.node, b.node, pairs);
    ValuesAre(ss);
    ValuesAre(ts);
    forall i | 0 <= i < |FieldNodes(ss)|
      ensures ValuesOf(ss)[i].1 == ValuesOf(ts)[i].1 && (ValuesOf(ss)[i].0, ValuesOf(ts)[i].0) in pairs
    {
      assert TwinFields(FieldNodes(ss)[i], FieldNodes(ts)[i], pairs);
    }
  }

  lemma {:induction false} KnownsTwins(a: seq<Spot>, b: seq<Spot>, pairs: Links)
    requires Proper(a) && Proper(b) && Twins(a, b, pairs)
    ensures SameKnowns(Knowns(a), Knowns(b), pairs)
  {
    hide Twin, SameKnown, KnownOf, WellFormed;
    if a != [] {
      assert Twin(a[0], b[0], pairs) && a[0] in a && b[0] in b;
      KnownsTwins(a[1..], b[1..], pairs);
      KnownTwins(a[0], b[0], pairs);
    }
  }

  /** Two corresponding documents: the same paragraphs in the same order, parts and places. */
  lemma DocumentTwins(s: Node, t: Node)
    requires s.Doc? && WellFormed(s) && WellFormed(t) && Same(s, t)
    ensures t.Doc? && Twins(SpotsIn([], s, 0), SpotsIn([], t, 0), Pairs(s, t))
    ensures Proper(SpotsIn([], s, 0)) && Proper(SpotsIn([], t, 0))
    ensures SameKnowns(KnownIn([], s), KnownIn([], t), Pairs(s, t))
  {
    hide Same, Pairs, WellFormed, SpotsIn, EntriesOf, KnownIn, ControlsOf, Entries, Knowns, SpotHandles, Twins,
      SameKnowns;
    SamePiecesAll(s, t);
    SpotTwins([], s, t, 0, Pairs(s, t));
    SpotsAgree([], s, 0);
    SpotsAgree([], t, 0);
    KnownsTwins(SpotsIn([], s, 0), SpotsIn([], t, 0), Pairs(s, t));
  }

  // ----- snapshots

  lemma OneFromOther(pairs: Links, p: (Id, Id), q: (Id, Id))
    requires OneToOne(pairs) && p in pairs && q in pairs
    ensures p.0 == q.0 <==> p.1 == q.1
    ensures p.0 in MapOf(pairs) && MapOf(pairs)[p.0] == p.1
  {
    hide MapOf;
    MapOfPairs(pairs);
    var i :| 0 <= i < |pairs| && pairs[i] == p;
    var k :| 0 <= k < |pairs| && pairs[k] == q;
    assert i != k ==> pairs[i].0 != pairs[k].0 && pairs[i].1 != pairs[k].1;
  }

  predicate MayMove(o: Occurrence, identities: map<Id, Id>) {
    o.anchor.paragraph in identities && (o.anchor.ControlAnchor? ==> o.anchor.control in identities)
  }

  /** The occurrence with its identities replaced. */
  function Moved(o: Occurrence, identities: map<Id, Id>): Occurrence
    requires MayMove(o, identities)
  {
    o.(anchor := match o.anchor
                 case ControlAnchor(part, paragraph, control) =>
                   ControlAnchor(part, identities[paragraph], identities[control])
                 case SpanAnchor(part, paragraph, start, end) => SpanAnchor(part, identities[paragraph], start, end))
  }

  /** What a copied occurrence says: the same value, at the same place of the same part, in the corresponding paragraph
      and control. */
  ghost predicate OccurrenceCopied(o: Occurrence, copy: Occurrence, pairs: Links) {
    && copy.value == o.value
    && match o.anchor
       case ControlAnchor(part, paragraph, control) =>
         && copy.anchor.ControlAnchor? && copy.anchor.part == part
         && (paragraph, copy.anchor.paragraph) in pairs && (control, copy.anchor.control) in pairs
       case SpanAnchor(part, paragraph, start, end) =>
         && copy.anchor.SpanAnchor? && copy.anchor.part == part
         && (paragraph, copy.anchor.paragraph) in pairs && copy.anchor.start == start && copy.anchor.end == end
  }

  ghost predicate OccurrencesCopied(occurrences: seq<Occurrence>, copies: seq<Occurrence>, pairs: Links) {
    && |copies| == |occurrences|
    && forall i | 0 <= i < |occurrences| :: OccurrenceCopied(occurrences[i], copies[i], pairs)
  }

  /** What a one-to-one list of pairs maps an identity to is paired with it. */
  lemma MapPairs(pairs: Links, id: Id)
    requires OneToOne(pairs) && id in MapOf(pairs)
    ensures (id, MapOf(pairs)[id]) in pairs
  {
    hide MapOf;
    MapOfPairs(pairs);
    var i :| 0 <= i < |pairs| && pairs[i].0 == id;
    assert pairs[i] == (id, MapOf(pairs)[id]);
  }

  lemma MovedCopies(o: Occurrence, pairs: Links)
    requires OneToOne(pairs) && MayMove(o, MapOf(pairs))
    ensures OccurrenceCopied(o, Moved(o, MapOf(pairs)), pairs)
  {
    hide MapOf, OneToOne;
    MapPairs(pairs, o.anchor.paragraph);
    if o.anchor.ControlAnchor? {
      MapPairs(pairs, o.anchor.control);
    }
  }

  /** The identities of an occurrence are among the pairs. */
  ghost predicate Linked(o: Occurrence, pairs: Links) {
    && (exists p :: p in pairs && p.0 == o.anchor.paragraph)
    && (o.anchor.ControlAnchor? ==> exists p :: p in pairs && p.0 == o.anchor.control)
  }

  lemma LinkedMoves(o: Occurrence, pairs: Links)
    requires OneToOne(pairs) && Linked(o, pairs)
    ensures MayMove(o, MapOf(pairs))
  {
    hide MapOf, OneToOne;
    var p :| p in pairs && p.0 == o.anchor.paragraph;
    OneFromOther(pairs, p, p);
    if o.anchor.ControlAnchor? {
      var q :| q in pairs && q.0 == o.anchor.control;
      OneFromOther(pairs, q, q);
    }
  }

  lemma MovesTo(o: Occurrence, k: Known, l: Known, pairs: Links)
    requires OneToOne(pairs) && SameKnown(k, l, pairs) && AtParagraph(o, k) && Anchored(o, k)
    ensures Linked(o, pairs) && MayMove(o, MapOf(pairs))
    ensures AtParagraph(Moved(o, MapOf(pairs)), l) && Anchored(Moved(o, MapOf(pairs)), l)
  {
    hide MapOf, OneToOne, Clear;
    OneFromOther(pairs, (k.id, l.id), (k.id, l.id));
    if o.anchor.ControlAnchor? {
      var i :| 0 <= i < |k.controls| && k.controls[i] == (o.anchor.control, o.value);
      var p := (k.controls[i].0, l.controls[i].0);
      OneFromOther(pairs, p, p);
      assert l.controls[i] == (MapOf(pairs)[o.anchor.control], o.value);
    }
  }

  lemma MovedOk(o: Occurrence, ks: seq<Known>, ls: seq<Known>, pairs: Links)
    requires OneToOne(pairs) && SameKnowns(ks, ls, pairs) && OccurrenceOk(o, ks)
    ensures Linked(o, pairs) && MayMove(o, MapOf(pairs)) && OccurrenceOk(Moved(o, MapOf(pairs)), ls)
  {
    hide MapOf, OneToOne, SameKnown, AtParagraph, Anchored, Linked, MayMove, Moved;
    var i :| 0 <= i < |ks| && AtParagraph(o, ks[i]) && Anchored(o, ks[i]);
    MovesTo(o, ks[i], ls[i], pairs);
  }

  /** Moving is one to one on anchors, and keeps paragraphs apart. */
  lemma MovedApart(o: Occurrence, p: Occurrence, pairs: Links)
    requires OneToOne(pairs) && Linked(o, pairs) && Linked(p, pairs) && Compatible(o, p)
    ensures MayMove(o, MapOf(pairs)) && MayMove(p, MapOf(pairs))
    ensures Compatible(Moved(o, MapOf(pairs)), Moved(p, MapOf(pairs)))
  {
    hide MapOf, OneToOne;
    LinkedMoves(o, pairs);
    LinkedMoves(p, pairs);
    var a :| a in pairs && a.0 == o.anchor.paragraph;
    var b :| b in pairs && b.0 == p.anchor.paragraph;
    OneFromOther(pairs, a, b);
    OneFromOther(pairs, b, b);
    if o.anchor.ControlAnchor? && p.anchor.ControlAnchor? {
      var c :| c in pairs && c.0 == o.anchor.control;
      var d :| d in pairs && d.0 == p.anchor.control;
      OneFromOther(pairs, c, d);
      OneFromOther(pairs, d, d);
    }
  }

  lemma ValuesMove(k: Known, l: Known, pairs: Links)
    requires OneToOne(pairs) && SameKnown(k, l, pairs) && DistinctValues(k.controls)
    ensures DistinctValues(l.controls)
  {
    hide MapOf, OneToOne;
    forall i, n | 0 <= i < n < |l.controls|
      ensures l.controls[i].0 != l.controls[n].0
    {
      OneFromOther(pairs, (k.controls[i].0, l.controls[i].0), (k.controls[n].0, l.controls[n].0));
    }
  }

  lemma SoundMoves(ks: seq<Known>, ls: seq<Known>, pairs: Links)
    requires OneToOne(pairs) && SameKnowns(ks, ls, pairs) && Sound(ks)
    ensures Sound(ls)
  {
    hide MapOf, OneToOne, DistinctValues;
    forall i | 0 <= i < |ls| ensures ls[i].part != [] && DistinctValues(ls[i].controls) {
      assert SameKnown(ks[i], ls[i], pairs);
      ValuesMove(ks[i], ls[i], pairs);
    }
    forall i, n | 0 <= i < n < |ls| ensures !SameParagraph(ls[i], ls[n]) {
      assert SameKnown(ks[i], ls[i], pairs) && SameKnown(ks[n], ls[n], pairs) && !SameParagraph(ks[i], ks[n]);
      OneFromOther(pairs, (ks[i].id, ls[i].id), (ks[n].id, ls[n].id));
    }
  }

  ghost predicate MovedAll(occurrences: seq<Occurrence>, moved: seq<Occurrence>, identities: map<Id, Id>) {
    && |moved| == |occurrences|
    && forall i | 0 <= i < |moved| ::
         MayMove(occurrences[i], identities) && moved[i] == Moved(occurrences[i], identities)
  }

  /** A snapshot that is valid for a document is valid for every corresponding one, once its identities are replaced. */
  lemma SnapshotMoves(s: Node, t: Node, occurrences: seq<Occurrence>, moved: seq<Occurrence>)
    requires s.Doc? && WellFormed(s) && WellFormed(t) && Same(s, t) && OneToOne(Pairs(s, t))
    requires Sound(KnownIn([], s)) && SnapshotOk(KnownIn([], s), occurrences)
    ensures Sound(KnownIn([], t)) && forall o | o in occurrences :: MayMove(o, MapOf(Pairs(s, t)))
    ensures MovedAll(occurrences, moved, MapOf(Pairs(s, t))) ==> SnapshotOk(KnownIn([], t), moved)
  {
    hide Same, Pairs, WellFormed, KnownIn, MapOf, OneToOne, Sound, OccurrenceOk, Linked, MayMove, Moved, Compatible,
      SameKnowns;
    var pairs := Pairs(s, t);
    DocumentTwins(s, t);
    SoundMoves(KnownIn([], s), KnownIn([], t), pairs);
    forall i | 0 <= i < |occurrences|
      ensures Linked(occurrences[i], pairs) && MayMove(occurrences[i], MapOf(pairs))
      ensures OccurrenceOk(Moved(occurrences[i], MapOf(pairs)), KnownIn([], t))
    {
      MovedOk(occurrences[i], KnownIn([], s), KnownIn([], t), pairs);
    }
    forall i, k | 0 <= i < k < |occurrences|
      ensures Compatible(Moved(occurrences[i], MapOf(pairs)), Moved(occurrences[k], MapOf(pairs)))
    {
      MovedApart(occurrences[i], occurrences[k], pairs);
    }
  }

  /** `rebase_discovery`: validated for the source, renamed, validated again for the target. The second check is reached
      only after the first, and it never fails. */
  method RebaseDiscovery(source: Node, target: Node, identities: map<Id, Id>, occurrences: seq<Occurrence>)
    returns (r: Option<seq<Occurrence>>)
    requires source.Doc? && WellFormed(source) && WellFormed(target)
    requires Same(source, target) && OneToOne(Pairs(source, target)) && identities == MapOf(Pairs(source, target))
    ensures r.Some? <==> Sound(KnownIn([], source)) && SnapshotOk(KnownIn([], source), occurrences)
    ensures r.Some? ==> OccurrencesCopied(occurrences, r.value, Pairs(source, target))
    ensures r.Some? ==> Sound(KnownIn([], target)) && SnapshotOk(KnownIn([], target), r.value)
  {
    hide Same, Pairs, WellFormed, KnownIn, MapOf, OneToOne, Sound, SnapshotOk, Moved, MayMove, OccurrenceCopied;
    var known := Paragraphs(source);
    if known.None? {
      return None;
    }
    var valid := ValidateSnapshot(known.value, occurrences);
    if !valid {
      return None;
    }
    var snapshot: seq<Occurrence> := [];
    SnapshotMoves(source, target, occurrences, snapshot);
    var i := 0;
    while i < |occurrences|
      invariant 0 <= i <= |occurrences| && MovedAll(occurrences[..i], snapshot, identities)
    {
      assert occurrences[i] in occurrences;
      snapshot := snapshot + [Moved(occurrences[i], identities)];
      i := i + 1;
    }
    assert occurrences[..i] == occurrences;
    SnapshotMoves(source, target, occurrences, snapshot);
    forall k | 0 <= k < |occurrences| ensures OccurrenceCopied(occurrences[k], snapshot[k], Pairs(source, target)) {
      MovedCopies(occurrences[k], Pairs(source, target));
    }
    var after := Paragraphs(target);
    assert after.Some?;
    valid := ValidateSnapshot(after.value, snapshot);
    assert valid;
    r := Some(snapshot);
  }
}
