/** The position index of a document: two passes over explicit stacks, refining the recursive definition. */
module WorkingIndex {
  import opened Common
  import opened Utf16
  import opened DocumentModel

  /** One child of a paragraph with the positions it takes, and its units if it is text. */
  datatype Segment = Segment(begin: nat, stop: nat, text: Option<seq<Unit>>)

  datatype Entry = Entry(start: nat, end: nat, segments: seq<Segment>)

  datatype Handle = Handle(id: Id, key: Key, alias: string)

  function SegmentOf(n: Node, begin: nat): Segment {
    Segment(begin, begin + Size(n), if n.Text? then Some(Encode(n.text)) else None)
  }

  function SegmentsOf(children: seq<Node>, begin: nat): seq<Segment> {
    if children == [] then []
      else [SegmentOf(children[0], begin)] + SegmentsOf(children[1..], begin + Size(children[0]))
  }

  function EntryOf(n: Node, position: nat): Entry {
    Entry(Inside(n, position), Inside(n, position) + SizeAll(Content(n)), SegmentsOf(Content(n), Inside(n, position)))
  }

  /** The paragraphs below a node placed at `position`, in document order. */
  function EntriesOf(n: Node, position: nat): seq<Entry>
    decreases n, 1
  {
    (if n.Paragraph? then [EntryOf(n, position)] else [])
    + (if IsContainer(n) then EntriesAll(n.content, Inside(n, position)) else [])
  }

  function EntriesAll(ns: seq<Node>, position: nat): seq<Entry>
    decreases ns, 0
  {
    if ns == [] then [] else EntriesOf(ns[0], position) + EntriesAll(ns[1..], position + Size(ns[0]))
  }

  /** The controls below a node, in document order. */
  function ControlsOf(n: Node): seq<Handle>
    decreases n, 1
  {
    (if n.Field? then [Handle(n.id, n.key, n.alias)] else []) + (if IsContainer(n) then ControlsAll(n.content) else [])
  }

  function ControlsAll(ns: seq<Node>): seq<Handle>
    decreases ns, 0
  {
    if ns == [] then [] else ControlsOf(ns[0]) + ControlsAll(ns[1..])
  }

  /** No control identity occurs twice. */
  predicate Distinct(controls: seq<Handle>) {
    forall i, k | 0 <= i < k < |controls| :: controls[i].id != controls[k].id
  }

  /** The map the second pass fills. */
  function ByIdentity(controls: seq<Handle>): map<Id, Handle> {
    if controls == [] then map[] else
    ByIdentity(controls[..|controls| - 1])[controls[|controls| - 1].id := controls[|controls| - 1]]
  }

  lemma {:induction false} ByIdentityHas(controls: seq<Handle>)
    ensures forall id :: id in ByIdentity(controls) <==> exists i :: 0 <= i < |controls| && controls[i].id == id
    ensures Distinct(controls) ==> forall i | 0 <= i < |controls| :: ByIdentity(controls)[controls[i].id] == controls[i]
  {
    if controls != [] {
      var n := |controls| - 1;
      ByIdentityHas(controls[..n]);
      forall id
        ensures id in ByIdentity(controls) <==> exists i :: 0 <= i < |controls| && controls[i].id == id
      {
        if i :| 0 <= i < |controls| && controls[i].id == id {
          assert i < n ==> controls[..n][i].id == id;
        }
      }
      if Distinct(controls) {
        forall i | 0 <= i < n
          ensures ByIdentity(controls)[controls[i].id] == controls[i]
        {
          assert controls[..n][i] == controls[i];
        }
      }
    }
  }

  // ----- the first pass: sizes

  /** A node on the stack, and whether its children have been pushed. */
  type Frame = (Node, bool)

  function FrameWeight(f: Frame): nat {
    if f.1 then 1 else 2 * Count(f.0)
  }

  function StackWeight(stack: seq<Frame>): nat {
    if stack == [] then 0 else FrameWeight(stack[|stack| - 1]) + StackWeight(stack[..|stack| - 1])
  }

  function Reversed(ns: seq<Node>): seq<Frame> {
    seq(|ns|, i requires 0 <= i < |ns| => (ns[|ns| - 1 - i], false))
  }

  lemma {:induction false} WeightPush(stack: seq<Frame>, ns: seq<Node>)
    ensures StackWeight(stack + Reversed(ns)) == StackWeight(stack) + 2 * CountAll(ns)
  {
    var pushed := stack + Reversed(ns);
    if ns == [] {
      assert pushed == stack;
    } else {
      assert pushed[|pushed| - 1] == (ns[0], false);
      assert pushed[..|pushed| - 1] == stack + Reversed(ns[1..]);
      WeightPush(stack, ns[1..]);
    }
  }

  /** A finished node has its size, and all its children are finished. */
  ghost predicate Finished(sizes: map<Node, nat>, n: Node)
    requires n in sizes
  {
    sizes[n] == Size(n) && WellFormed(n) && forall c | c in Content(n) :: c in sizes
  }

  predicate HoldsOnlyAllowed(n: Node) {
    forall k | 0 <= k < |Content(n)| :: MayHold(n, Content(n)[k])
  }

  /** A node below the top waits for the frames above it. */
  ghost predicate Waiting(sizes: map<Node, nat>, stack: seq<Frame>, i: nat)
    requires i < |stack|
  {
    stack[i].1 ==>
      && IsContainer(stack[i].0)
      && HoldsOnlyAllowed(stack[i].0)
      && (forall c | c in Content(stack[i].0) :: c in sizes || exists j :: i < j < |stack| && stack[j].0 == c)
  }

  ghost predicate Traversing(model: Node, sizes: map<Node, nat>, stack: seq<Frame>) {
    && (forall n | n in sizes :: Finished(sizes, n))
    && (forall i | 0 <= i < |stack| :: Waiting(sizes, stack, i))
    && (model in sizes || exists i :: 0 <= i < |stack| && stack[i].0 == model)
    && (WellFormed(model) ==> forall i | 0 <= i < |stack| :: WellFormed(stack[i].0))
  }

  lemma {:induction false} SizesAdd(sizes: map<Node, nat>, ns: seq<Node>)
    requires forall n | n in sizes :: Finished(sizes, n)
    requires forall c | c in ns :: c in sizes
    ensures SumSizes(sizes, ns) == SizeAll(ns)
  {
    if ns != [] {
      assert Finished(sizes, ns[0]);
      SizesAdd(sizes, ns[1..]);
    }
  }

  function SumSizes(sizes: map<Node, nat>, ns: seq<Node>): nat
    requires forall c | c in ns :: c in sizes
  {
    if ns == [] then 0 else sizes[ns[0]] + SumSizes(sizes, ns[1..])
  }

  /** The top frame leaves the stack and its node is finished. */
  lemma FinishedMore(sizes: map<Node, nat>, n: Node, size: nat)
    requires forall m | m in sizes :: Finished(sizes, m)
    requires size == Size(n) && WellFormed(n) && forall c | c in Content(n) :: c in sizes
    ensures var more := sizes[n := size]; forall m | m in more :: Finished(more, m)
  {
    hide Size, WellFormed;
    var more := sizes[n := size];
    forall m | m in more ensures Finished(more, m) { assert m in sizes ==> Finished(sizes, m); }
  }

  /** What waited for the node on top still waits for the rest only. */
  lemma WaitingLess(sizes: map<Node, nat>, stack: seq<Frame>, size: nat, i: nat)
    requires i < |stack| - 1 && Waiting(sizes, stack, i)
    ensures Waiting(sizes[stack[|stack| - 1].0 := size], stack[..|stack| - 1], i)
  {
    hide HoldsOnlyAllowed;
    var rest, more := stack[..|stack| - 1], sizes[stack[|stack| - 1].0 := size];
    if rest[i].1 {
      forall c | c in Content(rest[i].0) && c !in more ensures exists j :: i < j < |rest| && rest[j].0 == c {
        var j :| i < j < |stack| && stack[j].0 == c;
        assert rest[j].0 == c;
      }
    }
  }

  lemma FinishTop(model: Node, sizes: map<Node, nat>, stack: seq<Frame>, size: nat)
    requires Traversing(model, sizes, stack) && stack != []
    requires var n := stack[|stack| - 1].0; size == Size(n) && WellFormed(n) && forall c | c in Content(n) :: c in sizes
    ensures Traversing(model, sizes[stack[|stack| - 1].0 := size], stack[..|stack| - 1])
  {
    hide Waiting, Finished, WellFormed, Size;
    var top := |stack| - 1;
    var rest, n, more := stack[..top], stack[top].0, sizes[stack[top].0 := size];
    FinishedMore(sizes, n, size);
    forall i | 0 <= i < |rest| ensures Waiting(more, rest, i) { WaitingLess(sizes, stack, size, i); }
    assert forall i | 0 <= i < |rest| :: rest[i] == stack[i];
    if model !in more {
      var i :| 0 <= i < |stack| && stack[i].0 == model;
      assert rest[i].0 == model;
    }
  }

  /** The top frame is opened: it stays, marked, below its children. */
  lemma StillWaiting(sizes: map<Node, nat>, stack: seq<Frame>, next: seq<Frame>, i: nat)
    requires i < |stack| <= |next| && Waiting(sizes, stack, i) && next[i] == stack[i]
    requires forall j | 0 <= j < |stack| :: next[j].0 == stack[j].0
    ensures Waiting(sizes, next, i)
  {
    if next[i].1 {
      forall c | c in Content(next[i].0) && c !in sizes ensures exists j :: i < j < |next| && next[j].0 == c {
        var j :| i < j < |stack| && stack[j].0 == c;
        assert next[j].0 == c;
      }
    }
  }

  lemma OpenedWaiting(sizes: map<Node, nat>, next: seq<Frame>, i: nat)
    requires i < |next| && IsContainer(next[i].0) && HoldsOnlyAllowed(next[i].0)
    requires next[i + 1..] == Reversed(Content(next[i].0))
    ensures Waiting(sizes, next, i)
  {
    var children := Content(next[i].0);
    forall c | c in children ensures exists j :: i < j < |next| && next[j].0 == c {
      var k :| 0 <= k < |children| && children[k] == c;
      assert next[i + 1..][|children| - 1 - k].0 == c;
      assert next[i + 1 + (|children| - 1 - k)].0 == c;
    }
  }

  lemma UnopenedWaiting(sizes: map<Node, nat>, next: seq<Frame>, i: nat)
    requires i < |next| && !next[i].1
    ensures Waiting(sizes, next, i)
  {
  }

  lemma OpenTop(model: Node, sizes: map<Node, nat>, stack: seq<Frame>)
    requires Traversing(model, sizes, stack) && stack != [] && !stack[|stack| - 1].1
    requires IsContainer(stack[|stack| - 1].0)
    requires HoldsOnlyAllowed(stack[|stack| - 1].0)
    ensures var n := stack[|stack| - 1].0;
      Traversing(model, sizes, stack[..|stack| - 1] + [(n, true)] + Reversed(Content(n)))
  {
    hide Waiting, Finished, WellFormed, HoldsOnlyAllowed;
    var top, n := |stack| - 1, stack[|stack| - 1].0;
    var children := Content(n);
    var next := stack[..top] + [(n, true)] + Reversed(children);
    assert forall i | 0 <= i < |stack| :: next[i].0 == stack[i].0;
    forall i | 0 <= i < |next| ensures Waiting(sizes, next, i) {
      if i < top {
        StillWaiting(sizes, stack, next, i);
      } else if i == top {
        OpenedWaiting(sizes, next, i);
      } else {
        UnopenedWaiting(sizes, next, i);
      }
    }
    if model !in sizes {
      var i :| 0 <= i < |stack| && stack[i].0 == model;
      assert next[i].0 == model;
    }
    if WellFormed(model) {
      ContentFits(stack[top].0);
      forall i | 0 <= i < |next| ensures WellFormed(next[i].0) {
        if i <= top {
          assert WellFormed(stack[i].0);
        } else {
          assert next[i].0 == children[|children| - 1 - (i - top - 1)];
        }
      }
    }
  }

  lemma ContentFits(n: Node)
    requires WellFormed(n)
    ensures forall i | 0 <= i < |Content(n)| :: WellFormed(Content(n)[i])
  {
  }

  lemma OpenWeight(stack: seq<Frame>)
    requires stack != [] && !stack[|stack| - 1].1
    ensures var n := stack[|stack| - 1].0;
      StackWeight(stack[..|stack| - 1] + [(n, true)] + Reversed(Content(n))) < StackWeight(stack)
  {
    var top, n := |stack| - 1, stack[|stack| - 1].0;
    var marked := stack[..top] + [(n, true)];
    WeightPush(marked, Content(n));
    assert marked[..top] == stack[..top];
  }

  /** The sizes of all nodes of a well-formed tree; `None` as soon as a node breaks the schema. */
  method MeasureNodes(model: Node) returns (r: Option<map<Node, nat>>)
    ensures r.Some? <==> WellFormed(model)
    ensures r.Some? ==> model in r.value && forall n | n in r.value :: Finished(r.value, n)
  {
    var sizes: map<Node, nat> := map[];
    var stack: seq<Frame> := [(model, false)];
    while stack != []
      invariant Traversing(model, sizes, stack)
      decreases StackWeight(stack)
    {
      var (node, visited) := stack[|stack| - 1];
      var rest := stack[..|stack| - 1];
      ghost var before := stack;
      if visited {
        assert Waiting(sizes, stack, |stack| - 1);
        SizesAdd(sizes, Content(node));
        var size := SumSizes(sizes, Content(node)) + if node.Doc? then 0 else 2;
        FinishedContainer(sizes, node);
        FinishTop(model, sizes, stack, size);
        sizes := sizes[node := size];
        stack := rest;
      } else if node.Text? {
        if node.text == [] {
          return None;
        }
        FinishTop(model, sizes, stack, |Encode(node.text)|);
        sizes := sizes[node := |Encode(node.text)|];
        stack := rest;
      } else if IsLeaf(node) {
        FinishTop(model, sizes, stack, 1);
        sizes := sizes[node := 1];
        stack := rest;
      } else {
        if !HoldsOnlyAllowed(node) {
          return None;
        }
        OpenTop(model, sizes, stack);
        OpenWeight(stack);
        stack := rest + [(node, true)] + Reversed(Content(node));
      }
    }
    r := Some(sizes);
    assert Finished(sizes, model);
  }

  lemma FinishedContainer(sizes: map<Node, nat>, n: Node)
    requires IsContainer(n) && HoldsOnlyAllowed(n)
    requires (forall m | m in sizes :: Finished(sizes, m)) && forall c | c in Content(n) :: c in sizes
    ensures WellFormed(n)
  {
    forall k | 0 <= k < |Content(n)| ensures WellFormed(Content(n)[k]) {
      assert Content(n)[k] in Content(n) && Finished(sizes, Content(n)[k]);
    }
  }

  // ----- the second pass: paragraphs and controls

  type Placed = (Node, nat)

  /** What the frames still on the stack will contribute, the top one first. */
  function RestEntries(stack: seq<Placed>): seq<Entry> {
    if stack == [] then [] else
    EntriesOf(stack[|stack| - 1].0, stack[|stack| - 1].1) + RestEntries(stack[..|stack| - 1])
  }

  function RestControls(stack: seq<Placed>): seq<Handle> {
    if stack == [] then [] else ControlsOf(stack[|stack| - 1].0) + RestControls(stack[..|stack| - 1])
  }

  function PlacedWeight(stack: seq<Placed>): nat {
    if stack == [] then 0 else Count(stack[|stack| - 1].0) + PlacedWeight(stack[..|stack| - 1])
  }

  /** The children of a node with their positions, the last one first. */
  function PlacedChildren(ns: seq<Node>, position: nat): seq<Placed> {
    if ns == [] then [] else PlacedChildren(ns[1..], position + Size(ns[0])) + [(ns[0], position)]
  }

  lemma {:induction false} PlacedAre(ns: seq<Node>, position: nat)
    ensures forall f | f in PlacedChildren(ns, position) :: f.0 in ns
  {
    if ns != [] {
      PlacedAre(ns[1..], position + Size(ns[0]));
    }
  }

  lemma PlacedTop(stack: seq<Placed>, ns: seq<Node>, position: nat)
    requires ns != []
    ensures var pushed := stack + PlacedChildren(ns, position);
      && pushed != [] && pushed[|pushed| - 1] == (ns[0], position)
      && pushed[..|pushed| - 1] == stack + PlacedChildren(ns[1..], position + Size(ns[0]))
  {
  }

  lemma PlacedNone(stack: seq<Placed>, position: nat)
    ensures stack + PlacedChildren([], position) == stack
  {
  }

  lemma {:induction false} EntriesPush(stack: seq<Placed>, ns: seq<Node>, position: nat)
    ensures RestEntries(stack + PlacedChildren(ns, position)) == EntriesAll(ns, position) + RestEntries(stack)
  {
    hide EntriesOf, Size, PlacedChildren;
    if ns == [] {
      PlacedNone(stack, position);
    } else {
      PlacedTop(stack, ns, position);
      var later := position + Size(ns[0]);
      EntriesPush(stack, ns[1..], later);
      Associate(EntriesOf(ns[0], position), EntriesAll(ns[1..], later), RestEntries(stack));
    }
  }

  lemma {:induction false} ControlsPush(stack: seq<Placed>, ns: seq<Node>, position: nat)
    ensures RestControls(stack + PlacedChildren(ns, position)) == ControlsAll(ns) + RestControls(stack)
  {
    hide ControlsOf, Size, PlacedChildren;
    if ns == [] {
      PlacedNone(stack, position);
    } else {
      PlacedTop(stack, ns, position);
      ControlsPush(stack, ns[1..], position + Size(ns[0]));
      Associate(ControlsOf(ns[0]), ControlsAll(ns[1..]), RestControls(stack));
    }
  }

  lemma {:induction false} WeightPlaced(stack: seq<Placed>, ns: seq<Node>, position: nat)
    ensures PlacedWeight(stack + PlacedChildren(ns, position)) == CountAll(ns) + PlacedWeight(stack)
  {
    hide Count;
    if ns == [] {
      assert stack + PlacedChildren(ns, position) == stack;
    } else {
      PlacedTop(stack, ns, position);
      WeightPlaced(stack, ns[1..], position + Size(ns[0]));
    }
  }

  function OwnEntry(n: Node, position: nat): seq<Entry> {
    if n.Paragraph? then [EntryOf(n, position)] else []
  }

  function OwnControl(n: Node): seq<Handle> {
    if n.Field? then [Handle(n.id, n.key, n.alias)] else []
  }

  /** Taking the top frame off and its children on keeps what is to come, but for the frame's own contribution. */
  lemma Expand(stack: seq<Placed>)
    requires stack != []
    ensures var (n, position) := stack[|stack| - 1]; var rest := stack[..|stack| - 1];
      var next := rest + PlacedChildren(Content(n), Inside(n, position));
      && RestEntries(stack) == OwnEntry(n, position) + RestEntries(next)
      && RestControls(stack) == OwnControl(n) + RestControls(next)
      && PlacedWeight(next) < PlacedWeight(stack)
  {
    hide SegmentsOf;
    var (n, position) := stack[|stack| - 1];
    var rest := stack[..|stack| - 1];
    EntriesPush(rest, Content(n), Inside(n, position));
    ControlsPush(rest, Content(n), Inside(n, position));
    WeightPlaced(rest, Content(n), Inside(n, position));
    Associate(OwnEntry(n, position), EntriesAll(Content(n), Inside(n, position)), RestEntries(rest));
    Associate(OwnControl(n), ControlsAll(Content(n)), RestControls(rest));
  }

  /** A repeated identity is found when its second control is met. */
  lemma Repeated(seen: seq<Handle>, c: Handle)
    requires Distinct(seen)
    ensures c.id in ByIdentity(seen) <==> !Distinct(seen + [c])
    ensures ByIdentity(seen + [c]) == ByIdentity(seen)[c.id := c]
  {
    ByIdentityHas(seen);
    assert (seen + [c])[..|seen|] == seen;
    if c.id in ByIdentity(seen) {
      var i :| 0 <= i < |seen| && seen[i].id == c.id;
      assert (seen + [c])[i].id == (seen + [c])[|seen|].id;
    }
  }

  /** The segments of one paragraph, from the sizes of its children. */
  method Segments(children: seq<Node>, sizes: map<Node, nat>, start: nat) returns (segments: seq<Segment>, cursor: nat)
    requires forall c | c in children :: c in sizes && sizes[c] == Size(c)
    ensures segments == SegmentsOf(children, start) && cursor == start + SizeAll(children)
  {
    hide Encode, Size;
    segments, cursor := [], start;
    var i := 0;
    while i < |children|
      invariant 0 <= i <= |children|
      invariant segments + SegmentsOf(children[i..], cursor) == SegmentsOf(children, start)
      invariant cursor + SizeAll(children[i..]) == start + SizeAll(children)
    {
      var child := children[i];
      assert children[i..][1..] == children[i + 1..];
      var size := sizes[child];
      Associate(segments, [SegmentOf(child, cursor)], SegmentsOf(children[i + 1..], cursor + size));
      segments := segments + [Segment(cursor, cursor + size, if child.Text? then Some(Encode(child.text)) else None)];
      cursor := cursor + size;
      i := i + 1;
    }
  }

  lemma Whole(model: Node)
    ensures RestEntries([(model, 0)]) == EntriesOf(model, 0) && RestControls([(model, 0)]) == ControlsOf(model)
    ensures RestEntries([]) == [] && RestControls([]) == [] && ByIdentity([]) == map[]
  {
    assert [(model, 0)][..0] == [];
  }

  ghost predicate Measured(sizes: map<Node, nat>) {
    forall n | n in sizes :: Finished(sizes, n)
  }

  lemma MeasuredAll(sizes: map<Node, nat>)
    requires forall n | n in sizes :: Finished(sizes, n)
    ensures Measured(sizes)
  {
  }

  lemma MeasuredChildren(sizes: map<Node, nat>, n: Node)
    requires Measured(sizes) && n in sizes
    ensures forall c | c in Content(n) :: c in sizes && sizes[c] == Size(c)
  {
    assert Finished(sizes, n);
    forall c | c in Content(n) ensures c in sizes && sizes[c] == Size(c) { assert Finished(sizes, c); }
  }

  /** What the second pass has collected and what it still has to meet make up the whole. */
  ghost predicate Collecting(model: Node, sizes: map<Node, nat>, paragraphs: seq<Entry>, seen: seq<Handle>,
                             stack: seq<Placed>) {
    && (forall f | f in stack :: f.0 in sizes)
    && paragraphs + RestEntries(stack) == EntriesOf(model, 0)
    && seen + RestControls(stack) == ControlsOf(model)
    && Distinct(seen)
  }

  lemma CollectNext(model: Node, sizes: map<Node, nat>, paragraphs: seq<Entry>, seen: seq<Handle>, stack: seq<Placed>)
    requires Measured(sizes) && stack != [] && Collecting(model, sizes, paragraphs, seen, stack)
    ensures var (n, position) := stack[|stack| - 1];
      var next := stack[..|stack| - 1] + PlacedChildren(Content(n), Inside(n, position));
      && PlacedWeight(next) < PlacedWeight(stack)
      && (Distinct(seen + OwnControl(n)) ==>
            Collecting(model, sizes, paragraphs + OwnEntry(n, position), seen + OwnControl(n), next))
      && (!Distinct(seen + OwnControl(n)) ==> !Distinct(ControlsOf(model)))
  {
    hide EntriesOf, ControlsOf, RestEntries, RestControls, PlacedWeight, Measured, OwnEntry, OwnControl;
    var (n, position) := stack[|stack| - 1];
    var next := stack[..|stack| - 1] + PlacedChildren(Content(n), Inside(n, position));
    Expand(stack);
    Associate(paragraphs, OwnEntry(n, position), RestEntries(next));
    Associate(seen, OwnControl(n), RestControls(next));
    PlacedAre(Content(n), Inside(n, position));
    MeasuredChildren(sizes, n);
    if !Distinct(seen + OwnControl(n)) {
      var i, k :| 0 <= i < k < |seen + OwnControl(n)| && (seen + OwnControl(n))[i].id == (seen + OwnControl(n))[k].id;
      assert ControlsOf(model)[i].id == ControlsOf(model)[k].id;
    }
  }

  lemma CollectDone(model: Node, sizes: map<Node, nat>, paragraphs: seq<Entry>, seen: seq<Handle>)
    requires Collecting(model, sizes, paragraphs, seen, [])
    ensures paragraphs == EntriesOf(model, 0) && seen == ControlsOf(model) && Distinct(seen)
  {
  }

  lemma CollectStart(model: Node, sizes: map<Node, nat>)
    requires model in sizes
    ensures Collecting(model, sizes, [], [], [(model, 0)])
  {
    Whole(model);
  }

  /** `index`: the paragraphs with their positions, and the controls by identity. It refuses exactly the trees that
      break the schema or repeat a control. */
  method Index(model: Node) returns (r: Option<(seq<Entry>, map<Id, Handle>)>)
    ensures r.Some? <==> WellFormed(model) && Distinct(ControlsOf(model))
    ensures r.Some? ==> r.value == (EntriesOf(model, 0), ByIdentity(ControlsOf(model)))
  {
    hide Collecting, Measured, EntriesOf, ControlsOf, PlacedWeight, ByIdentity, SegmentsOf, WellFormed, Size, Distinct;
    var measured := MeasureNodes(model);
    if measured.None? {
      return None;
    }
    var sizes := measured.value;
    MeasuredAll(sizes);
    var paragraphs: seq<Entry>, controls: map<Id, Handle> := [], map[];
    ghost var seen: seq<Handle> := [];
    var positions: seq<Placed> := [(model, 0)];
    Whole(model);
    CollectStart(model, sizes);
    while positions != []
      invariant Collecting(model, sizes, paragraphs, seen, positions) && controls == ByIdentity(seen)
      decreases PlacedWeight(positions)
    {
      var (node, position) := positions[|positions| - 1];
      CollectNext(model, sizes, paragraphs, seen, positions);
      assert node in sizes && Distinct(seen) by { Collected(model, sizes, paragraphs, seen, positions); }
      var start := position + if node.Doc? then 0 else 1;
      if node.Paragraph? {
        MeasuredChildren(sizes, node);
        var segments, cursor := Segments(node.content, sizes, start);
        paragraphs := paragraphs + [Entry(start, cursor, segments)];
      } else {
        assert paragraphs + OwnEntry(node, position) == paragraphs;
      }
      if node.Field? {
        var c := Handle(node.id, node.key, node.alias);
        Repeated(seen, c);
        if node.id in controls {
          return None;
        }
        controls := controls[node.id := c];
        seen := seen + [c];
      } else {
        assert seen + OwnControl(node) == seen;
      }
      positions := positions[..|positions| - 1] + PlacedChildren(Content(node), start);
    }
    CollectDone(model, sizes, paragraphs, seen);
    r := Some((paragraphs, controls));
  }

  lemma Collected(model: Node, sizes: map<Node, nat>, paragraphs: seq<Entry>, seen: seq<Handle>, stack: seq<Placed>)
    requires Collecting(model, sizes, paragraphs, seen, stack) && stack != []
    ensures stack[|stack| - 1].0 in sizes && Distinct(seen)
  {
  }
}
