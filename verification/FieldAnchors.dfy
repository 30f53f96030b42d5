/** The simple meaning of field anchors: code-point offsets into the text of one paragraph. */
module FieldAnchors {
  import opened Common
  import opened DocumentModel

  const OBJECT: string := "\U{FFFC}"

  datatype Anchor =
    | ControlAnchor(part: string, paragraph: Id, control: Id)
    | SpanAnchor(part: string, paragraph: Id, start: nat, end: nat)

  datatype Occurrence = Occurrence(anchor: Anchor, value: string)

  type Interval = (nat, nat)

  /** What is known about one paragraph: its text, the values of its controls, and the ranges that are not plain
      text. */
  datatype Known = Known(part: string, id: Id, text: string, controls: seq<(Id, string)>, blocked: seq<Interval>)

  /** The text of a control. */
  function Value(content: seq<Node>): string {
    if content == [] then [] else (if content[0].Text? then content[0].text else []) + Value(content[1..])
  }

  /** The characters one inline contributes; an atom counts as one. */
  function Chars(n: Node): string {
    if n.Text? then n.text else if n.Field? then Value(n.content) else OBJECT
  }

  function TextOf(children: seq<Node>): string {
    if children == [] then [] else Chars(children[0]) + TextOf(children[1..])
  }

  function BlockedOf(children: seq<Node>, offset: nat): seq<Interval> {
    if children == [] then [] else
    var next := offset + |Chars(children[0])|;
    (if children[0].Text? then [] else [(offset, next)]) + BlockedOf(children[1..], next)
  }

  function ValuesOf(children: seq<Node>): seq<(Id, string)> {
    if children == [] then [] else
    (if children[0].Field? then [(children[0].id, Value(children[0].content))] else []) + ValuesOf(children[1..])
  }

  function KnownOf(part: string, n: Node): Known
    requires n.Paragraph?
  {
    Known(part, n.id, TextOf(n.content), ValuesOf(n.content), BlockedOf(n.content, 0))
  }

  predicate IsBlock(n: Node) {
    n.Doc? || n.Section? || n.Table? || n.TableRow? || n.TableCell?
  }

  function PartOf(part: string, n: Node): string {
    if n.Section? then n.part else part
  }

  /** The paragraphs below a node in the order the traversal meets them: last children first. */
  function KnownIn(part: string, n: Node): seq<Known>
    decreases n, 1
  {
    if n.Paragraph? then [KnownOf(part, n)]
    else if IsBlock(n) then KnownAll(PartOf(part, n), n.content)
    else []
  }

  function KnownAll(part: string, ns: seq<Node>): seq<Known>
    decreases ns, 0
  {
    if ns == [] then [] else KnownAll(part, ns[1..]) + KnownIn(part, ns[0])
  }

  predicate DistinctValues(controls: seq<(Id, string)>) {
    forall i, k | 0 <= i < k < |controls| :: controls[i].0 != controls[k].0
  }

  predicate SameParagraph(a: Known, b: Known) {
    a.part == b.part && a.id == b.id
  }

  /** Paragraph identities are usable: no part is empty, none is repeated, no control twice in one paragraph. */
  predicate Sound(known: seq<Known>) {
    && (forall k | 0 <= k < |known| :: known[k].part != [] && DistinctValues(known[k].controls))
    && (forall i, k | 0 <= i < k < |known| :: !SameParagraph(known[i], known[k]))
  }

  // ----- the traversal

  type Frame = (string, Node)

  function RestKnown(stack: seq<Frame>): seq<Known> {
    if stack == [] then [] else
    KnownIn(stack[|stack| - 1].0, stack[|stack| - 1].1) + RestKnown(stack[..|stack| - 1])
  }

  function StackWeight(stack: seq<Frame>): nat {
    if stack == [] then 0 else Count(stack[|stack| - 1].1) + StackWeight(stack[..|stack| - 1])
  }

  function Framed(part: string, ns: seq<Node>): seq<Frame> {
    seq(|ns|, i requires 0 <= i < |ns| => (part, ns[i]))
  }

  lemma {:induction false} KnownAllLast(part: string, ns: seq<Node>)
    requires ns != []
    ensures KnownAll(part, ns) == KnownIn(part, ns[|ns| - 1]) + KnownAll(part, ns[..|ns| - 1])
    ensures CountAll(ns) == Count(ns[|ns| - 1]) + CountAll(ns[..|ns| - 1])
    decreases |ns|
  {
    hide KnownIn, Count;
    if |ns| == 1 {
      assert ns[1..] == [] && ns[..0] == [];
    } else {
      KnownAllLast(part, ns[1..]);
      assert ns[1..][..|ns| - 2] == ns[..|ns| - 1][1..];
    }
  }

  lemma {:induction false} PushKnown(stack: seq<Frame>, part: string, ns: seq<Node>)
    ensures RestKnown(stack + Framed(part, ns)) == KnownAll(part, ns) + RestKnown(stack)
    ensures StackWeight(stack + Framed(part, ns)) == CountAll(ns) + StackWeight(stack)
    decreases |ns|
  {
    hide KnownIn, Count;
    var pushed := stack + Framed(part, ns);
    if ns == [] {
      assert pushed == stack;
    } else {
      assert pushed[|pushed| - 1] == (part, ns[|ns| - 1]);
      assert pushed[..|pushed| - 1] == stack + Framed(part, ns[..|ns| - 1]);
      PushKnown(stack, part, ns[..|ns| - 1]);
      KnownAllLast(part, ns);
    }
  }

  /** What has been collected from the first `i` children completes with what the rest contributes. */
  ghost predicate Examining(children: seq<Node>, i: nat, text: string, controls: seq<(Id, string)>,
                            blocked: seq<Interval>)
    requires i <= |children|
  {
    && text + TextOf(children[i..]) == TextOf(children)
    && controls + ValuesOf(children[i..]) == ValuesOf(children)
    && blocked + BlockedOf(children[i..], |text|) == BlockedOf(children, 0)
  }

  function OwnValue(n: Node): seq<(Id, string)> {
    if n.Field? then [(n.id, Value(n.content))] else []
  }

  function OwnBlocked(n: Node, offset: nat): seq<Interval> {
    if n.Text? then [] else [(offset, offset + |Chars(n)|)]
  }

  lemma ExamineFront(children: seq<Node>, i: nat, at: nat)
    requires i < |children|
    ensures var c, rest := children[i], children[i + 1..];
      && TextOf(children[i..]) == Chars(c) + TextOf(rest) && ValuesOf(children[i..]) == OwnValue(c) + ValuesOf(rest)
      && BlockedOf(children[i..], at) == OwnBlocked(c, at) + BlockedOf(rest, at + |Chars(c)|)
  {
    hide Chars, Value;
    assert children[i..][1..] == children[i + 1..];
  }

  lemma ExamineNext(children: seq<Node>, i: nat, text: string, controls: seq<(Id, string)>, blocked: seq<Interval>)
    requires i < |children| && Examining(children, i, text, controls, blocked)
    ensures var c := children[i];
      && Examining(children, i + 1, text + Chars(c), controls + OwnValue(c), blocked + OwnBlocked(c, |text|))
      && ValuesOf(children) == (controls + OwnValue(c)) + ValuesOf(children[i + 1..])
  {
    hide Chars, OwnValue, OwnBlocked, TextOf, ValuesOf, BlockedOf;
    var c, rest := children[i], children[i + 1..];
    ExamineFront(children, i, |text|);
    Associate(text, Chars(c), TextOf(rest));
    Associate(controls, OwnValue(c), ValuesOf(rest));
    Associate(blocked, OwnBlocked(c, |text|), BlockedOf(rest, |text| + |Chars(c)|));
  }

  lemma ExamineDone(children: seq<Node>, text: string, controls: seq<(Id, string)>, blocked: seq<Interval>)
    requires Examining(children, |children|, text, controls, blocked)
    ensures text == TextOf(children) && controls == ValuesOf(children) && blocked == BlockedOf(children, 0)
  {
  }

  /** The text, controls and blocked ranges of one paragraph, child by child; `None` on a repeated control. */
  method Examine(part: string, n: Node) returns (known: Option<Known>)
    requires n.Paragraph?
    ensures known.Some? <==> DistinctValues(ValuesOf(n.content))
    ensures known.Some? ==> known.value == KnownOf(part, n)
  {
    hide Examining, TextOf, ValuesOf, BlockedOf, DistinctValues;
    var text: string, controls: seq<(Id, string)>, blocked: seq<Interval> := [], [], [];
    ExamineStart(n.content);
    var i := 0;
    while i < |n.content|
      invariant 0 <= i <= |n.content| && Examining(n.content, i, text, controls, blocked) && DistinctValues(controls)
    {
      var child, start := n.content[i], |text|;
      ExamineNext(n.content, i, text, controls, blocked);
      if child.Field? {
        var value := Value(child.content);
        RepeatedValue(controls, (child.id, value), ValuesOf(n.content[i + 1..]));
        if exists k :: 0 <= k < |controls| && controls[k].0 == child.id {
          return None;
        }
        controls := controls + [(child.id, value)];
      } else {
        assert controls + OwnValue(child) == controls;
      }
      text := text + Chars(child);
      if !child.Text? {
        blocked := blocked + [(start, |text|)];
      } else {
        assert blocked + OwnBlocked(child, start) == blocked;
      }
      i := i + 1;
    }
    ExamineDone(n.content, text, controls, blocked);
    known := Some(Known(part, n.id, text, controls, blocked));
  }

  lemma ExamineStart(children: seq<Node>)
    ensures Examining(children, 0, [], [], []) && DistinctValues([])
  {
  }

  lemma RepeatedValue(controls: seq<(Id, string)>, c: (Id, string), more: seq<(Id, string)>)
    requires DistinctValues(controls)
    ensures (exists k :: 0 <= k < |controls| && controls[k].0 == c.0) ==> !DistinctValues((controls + [c]) + more)
    ensures !(exists k :: 0 <= k < |controls| && controls[k].0 == c.0) ==> DistinctValues(controls + [c])
  {
    if k :| 0 <= k < |controls| && controls[k].0 == c.0 {
      var all := (controls + [c]) + more;
      assert all[k].0 == all[|controls|].0;
    }
  }

  lemma SoundParts(a: seq<Known>, k: Known, more: seq<Known>)
    requires Sound(a)
    ensures Sound(a + [k]) <==>
      k.part != [] && DistinctValues(k.controls) && forall i | 0 <= i < |a| :: !SameParagraph(a[i], k)
    ensures !Sound(a + [k]) ==> !Sound(a + ([k] + more))
  {
    hide DistinctValues;
    var one, all := a + [k], a + ([k] + more);
    assert one[|a|] == k;
    assert forall i | 0 <= i < |a| :: one[i] == a[i];
    if Sound(one) {
      forall i | 0 <= i < |a| ensures !SameParagraph(a[i], k) { assert !SameParagraph(one[i], one[|a|]); }
    }
    if Sound(all) {
      assert forall i | 0 <= i < |one| :: one[i] == all[i];
      assert Sound(one);
    }
  }

  /** `paragraphs`: everything a snapshot may refer to, or `None` when identities clash. */
  method Paragraphs(model: Node) returns (r: Option<seq<Known>>)
    ensures r.Some? <==> Sound(KnownIn([], model))
    ensures r.Some? ==> r.value == KnownIn([], model)
  {
    hide KnownIn, Sound, KnownOf, DistinctValues;
    var result: seq<Known> := [];
    var stack: seq<Frame> := [([], model)];
    StackStart(model);
    while stack != []
      invariant result + RestKnown(stack) == KnownIn([], model)
      invariant Sound(result)
      decreases StackWeight(stack)
    {
      var (part, node) := stack[|stack| - 1];
      ghost var rest := stack[..|stack| - 1];
      NextKnown(stack);
      stack := stack[..|stack| - 1];
      part := PartOf(part, node);
      if node.Paragraph? {
        var known := Examine(part, node);
        SoundParts(result, KnownOf(part, node), RestKnown(rest));
        if part == [] || known.None? || exists i :: 0 <= i < |result| && SameParagraph(result[i], known.value) {
          assert result + ([KnownOf(part, node)] + RestKnown(rest)) == KnownIn([], model);
          return None;
        }
        result := result + [known.value];
      } else if IsBlock(node) {
        PushKnown(stack, part, node.content);
        stack := stack + Framed(part, node.content);
      }
    }
    assert result + [] == result;
    r := Some(result);
  }

  lemma StackStart(model: Node)
    ensures RestKnown([([], model)]) == KnownIn([], model) && RestKnown([]) == [] && Sound([])
  {
    var stack: seq<Frame> := [([], model)];
    assert stack[..0] == [];
  }

  lemma NextKnown(stack: seq<Frame>)
    requires stack != []
    ensures var (part, n) := stack[|stack| - 1]; var rest := stack[..|stack| - 1];
      && RestKnown(stack) == (if n.Paragraph? then [KnownOf(part, n)]
                              else if IsBlock(n) then KnownAll(PartOf(part, n), n.content) else []) + RestKnown(rest)
      && StackWeight(stack) > StackWeight(rest)
      && (IsBlock(n) ==> StackWeight(stack) > CountAll(n.content) + StackWeight(rest))
      && (n.Paragraph? ==> KnownOf(part, n).part == part && KnownOf(part, n).controls == ValuesOf(n.content))
  {
  }

  // ----- snapshots

  /** A range is not plain text: it overlaps a blocked one, or an empty control lies in it. */
  predicate Hits(start: nat, end: nat, b: Interval) {
    (start < b.1 && end > b.0) || start <= b.0 == b.1 < end
  }

  predicate Clear(start: nat, end: nat, blocked: seq<Interval>) {
    forall k | 0 <= k < |blocked| :: !Hits(start, end, blocked[k])
  }

  predicate AtParagraph(o: Occurrence, k: Known) {
    o.anchor.part == k.part && o.anchor.paragraph == k.id
  }

  /** The anchor names something in the paragraph, and the value is what is there. */
  predicate Anchored(o: Occurrence, k: Known) {
    match o.anchor
    case ControlAnchor(_, _, control) => (control, o.value) in k.controls
    case SpanAnchor(_, _, start, end) =>
      && start <= end <= |k.text|
      && (start == end ==> k.text == [] && k.blocked == [])
      && Clear(start, end, k.blocked)
      && o.value == k.text[start..end]
  }

  ghost predicate OccurrenceOk(o: Occurrence, known: seq<Known>) {
    exists k :: 0 <= k < |known| && AtParagraph(o, known[k]) && Anchored(o, known[k])
  }

  /** Two occurrences do not claim the same control or overlapping text. */
  predicate Compatible(a: Occurrence, b: Occurrence) {
    a.anchor != b.anchor
    && (a.anchor.SpanAnchor? && b.anchor.SpanAnchor? && a.anchor.part == b.anchor.part
        && a.anchor.paragraph == b.anchor.paragraph
        ==> !(a.anchor.start < b.anchor.end && a.anchor.end > b.anchor.start))
  }

  /** A valid snapshot: every occurrence is anchored, and no two collide. */
  ghost predicate SnapshotOk(known: seq<Known>, occurrences: seq<Occurrence>) {
    && (forall i | 0 <= i < |occurrences| :: OccurrenceOk(occurrences[i], known))
    && (forall i, k | 0 <= i < k < |occurrences| :: Compatible(occurrences[i], occurrences[k]))
  }

  /** The lookup of a paragraph by part and identity. */
  method Find(known: seq<Known>, part: string, id: Id) returns (index: Option<nat>)
    ensures index.Some? ==> index.value < |known| && known[index.value].part == part && known[index.value].id == id
    ensures index.None? ==> forall k | 0 <= k < |known| :: !(known[k].part == part && known[k].id == id)
  {
    var i := 0;
    while i < |known|
      invariant 0 <= i <= |known| && forall k | 0 <= k < i :: !(known[k].part == part && known[k].id == id)
    {
      if known[i].part == part && known[i].id == id {
        return Some(i);
      }
      i := i + 1;
    }
    index := None;
  }

  lemma OnlyParagraph(known: seq<Known>, o: Occurrence, k: nat)
    requires Sound(known) && k < |known| && AtParagraph(o, known[k])
    ensures OccurrenceOk(o, known) <==> Anchored(o, known[k])
  {
    if OccurrenceOk(o, known) {
      var m :| 0 <= m < |known| && AtParagraph(o, known[m]) && Anchored(o, known[m]);
      assert m != k ==> SameParagraph(known[m], known[k]) && SameParagraph(known[k], known[m]);
    }
  }

  /** `validate_snapshot`: occurrence by occurrence, with the keys and spans seen so far. */
  method ValidateSnapshot(known: seq<Known>, occurrences: seq<Occurrence>) returns (ok: bool)
    requires Sound(known)
    ensures ok <==> SnapshotOk(known, occurrences)
  {
    hide Anchored;
    var i := 0;
    while i < |occurrences|
      invariant 0 <= i <= |occurrences|
      invariant forall m | 0 <= m < i :: OccurrenceOk(occurrences[m], known)
      invariant forall m, k | 0 <= m < k < i :: Compatible(occurrences[m], occurrences[k])
    {
      var o := occurrences[i];
      var index := Find(known, o.anchor.part, o.anchor.paragraph);
      if index.None? {
        assert !OccurrenceOk(o, known);
        return false;
      }
      OnlyParagraph(known, o, index.value);
      if !Anchored(o, known[index.value]) {
        return false;
      }
      if exists m :: 0 <= m < i && !Compatible(occurrences[m], o) {
        return false;
      }
      i := i + 1;
    }
    ok := true;
  }
}
