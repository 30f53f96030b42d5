/** The save-time check of a review against its document. */
module WorkingReview {
  import opened DocumentModel
  import opened WorkingIndex
  import opened WorkingSpans

  datatype Location = Span(from: nat, to: nat, text: string) | OfControl(id: Id)

  datatype Item = Item(location: Location, missing: bool, key: Key, alias: string)

  type Range = (nat, nat)

  // ----- the sorted adjacent-pair test

  predicate Before(a: Range, b: Range) {
    a.0 < b.0 || (a.0 == b.0 && a.1 <= b.1)
  }

  predicate Sorted(spans: seq<Range>) {
    forall i, k | 0 <= i < k < |spans| :: Before(spans[i], spans[k])
  }

  function Inserted(spans: seq<Range>, x: Range): seq<Range> {
    if spans == [] then [x]
    else if Before(x, spans[0]) then [x] + spans
    else [spans[0]] + Inserted(spans[1..], x)
  }

  /** `sorted`. */
  function Sort(spans: seq<Range>): seq<Range> {
    if spans == [] then [] else Inserted(Sort(spans[1..]), spans[0])
  }

  lemma {:induction false} InsertedSame(spans: seq<Range>, x: Range)
    ensures multiset(Inserted(spans, x)) == multiset(spans) + multiset{x}
  {
    hide Before;
    if spans != [] {
      InsertedSame(spans[1..], x);
      assert spans == [spans[0]] + spans[1..];
    }
  }

  lemma SortedFront(x: Range, rest: seq<Range>)
    requires Sorted(rest) && forall k | 0 <= k < |rest| :: Before(x, rest[k])
    ensures Sorted([x] + rest)
  {
    hide Before;
  }

  lemma {:induction false} InsertedSorted(spans: seq<Range>, x: Range)
    requires Sorted(spans)
    ensures Sorted(Inserted(spans, x)) && multiset(Inserted(spans, x)) == multiset(spans) + multiset{x}
  {
    InsertedSame(spans, x);
    if spans == [] {
    } else if Before(x, spans[0]) {
      forall k | 0 <= k < |spans| ensures Before(x, spans[k]) { assert k > 0 ==> Before(spans[0], spans[k]); }
      SortedFront(x, spans);
    } else {
      var rest := Inserted(spans[1..], x);
      InsertedSorted(spans[1..], x);
      forall k | 0 <= k < |rest| ensures Before(spans[0], rest[k]) {
        assert rest[k] in multiset(rest);
      }
      SortedFront(spans[0], rest);
    }
  }

  lemma {:induction false} SortSorts(spans: seq<Range>)
    ensures Sorted(Sort(spans)) && multiset(Sort(spans)) == multiset(spans)
  {
    if spans != [] {
      SortSorts(spans[1..]);
      InsertedSorted(Sort(spans[1..]), spans[0]);
      assert spans == [spans[0]] + spans[1..];
    }
  }

  /** Two spans that may stand in one review. */
  predicate Disjoint(a: Range, b: Range) {
    (a.1 <= b.0 || b.1 <= a.0) && a != b
  }

  ghost predicate PairwiseDisjoint(spans: seq<Range>) {
    forall i, k | 0 <= i < k < |spans| :: Disjoint(spans[i], spans[k])
  }

  /** No two neighbours overlap or coincide. */
  predicate NeighboursApart(spans: seq<Range>) {
    forall i | 0 < i < |spans| :: !(spans[i].0 < spans[i - 1].1 || spans[i] == spans[i - 1])
  }

  lemma {:induction false} NeighboursReach(spans: seq<Range>, i: nat, k: nat)
    requires forall r | r in spans :: r.0 <= r.1
    requires NeighboursApart(spans) && i < k < |spans|
    ensures spans[i].1 <= spans[k].0
    ensures spans[i] != spans[k]
    decreases k - i
  {
    assert spans[i] in spans && spans[k] in spans && spans[k - 1] in spans;
    if i + 1 < k {
      NeighboursReach(spans, i, k - 1);
    }
  }

  lemma DisjointOfMultiset(a: seq<Range>, b: seq<Range>)
    requires multiset(a) == multiset(b) && PairwiseDisjoint(a)
    ensures PairwiseDisjoint(b)
  {
    forall i, k | 0 <= i < k < |b|
      ensures Disjoint(b[i], b[k])
    {
      TwoIn(b, i, k);
      if b[i] == b[k] {
        DistinctCount(a, b[i]);
      } else {
        assert b[i] in multiset(a) && b[k] in multiset(a);
        var m :| 0 <= m < |a| && a[m] == b[i];
        var n :| 0 <= n < |a| && a[n] == b[k];
      }
    }
  }

  lemma TwoIn(b: seq<Range>, i: nat, k: nat)
    requires i < k < |b|
    ensures b[i] in multiset(b) && b[k] in multiset(b)
    ensures b[i] == b[k] ==> multiset(b)[b[i]] >= 2
  {
    assert b == b[..i] + [b[i]] + b[i + 1..k] + [b[k]] + b[k + 1..];
  }

  lemma {:induction false} DistinctCount(a: seq<Range>, x: Range)
    requires PairwiseDisjoint(a)
    ensures multiset(a)[x] <= 1
  {
    if a != [] {
      assert a == [a[0]] + a[1..];
      forall i, k | 0 <= i < k < |a[1..]|
        ensures Disjoint(a[1..][i], a[1..][k])
      {
        assert Disjoint(a[i + 1], a[k + 1]);
      }
      DistinctCount(a[1..], x);
      forall k | 0 <= k < |a[1..]| ensures a[1..][k] != a[0] { assert Disjoint(a[0], a[k + 1]); }
    }
  }

  /** On ordered ranges, looking at neighbours after sorting decides pairwise disjointness. */
  lemma NeighboursDecide(spans: seq<Range>)
    requires forall r | r in spans :: r.0 <= r.1
    ensures NeighboursApart(Sort(spans)) <==> PairwiseDisjoint(spans)
  {
    var sorted := Sort(spans);
    SortSorts(spans);
    forall r | r in sorted ensures r.0 <= r.1 { assert r in multiset(sorted); }
    if NeighboursApart(sorted) {
      forall i, k | 0 <= i < k < |sorted| ensures Disjoint(sorted[i], sorted[k]) { NeighboursReach(sorted, i, k); }
      DisjointOfMultiset(sorted, spans);
    }
    if PairwiseDisjoint(spans) {
      DisjointOfMultiset(spans, sorted);
      forall i | 0 < i < |sorted|
        ensures !(sorted[i].0 < sorted[i - 1].1 || sorted[i] == sorted[i - 1])
      {
        assert Disjoint(sorted[i - 1], sorted[i]) && Before(sorted[i - 1], sorted[i]);
        assert sorted[i] in sorted && sorted[i - 1] in sorted;
      }
    }
  }

  // ----- the whole review

  function SpansOf(items: seq<Item>): seq<Range> {
    if items == [] then [] else
    SpansOf(items[..|items| - 1])
      + (if items[|items| - 1].location.Span? && !items[|items| - 1].missing
         then [(items[|items| - 1].location.from, items[|items| - 1].location.to)] else [])
  }

  /** What one item must satisfy on its own. */
  ghost predicate ItemOk(item: Item, paragraphs: seq<Entry>, controls: map<Id, Handle>) {
    match item.location
    case Span(from, to, text) => item.missing || SpanOk(paragraphs, from, to, text)
    case OfControl(id) =>
      && (item.missing <==> id !in controls)
      && (id in controls ==> item.key == controls[id].key && item.alias == controls[id].alias)
  }

  predicate SameControl(a: Item, b: Item) {
    a.location.OfControl? && b.location.OfControl? && a.location.id == b.location.id
  }

  ghost predicate Tracked(items: seq<Item>, id: Id) {
    exists k :: 0 <= k < |items| && items[k].location == OfControl(id)
  }

  /** A review fits its document: its spans are text of one paragraph each and pairwise disjoint, and every control is
      listed exactly once with its own key and label. */
  ghost predicate ReviewOk(items: seq<Item>, paragraphs: seq<Entry>, controls: map<Id, Handle>) {
    && (forall k | 0 <= k < |items| :: ItemOk(items[k], paragraphs, controls))
    && PairwiseDisjoint(SpansOf(items))
    && (forall i, k | 0 <= i < k < |items| :: !SameControl(items[i], items[k]))
    && (forall id | id in controls :: Tracked(items, id))
  }

  lemma {:induction false} SpansAre(items: seq<Item>)
    ensures forall r | r in SpansOf(items) ::
      exists k :: 0 <= k < |items| && items[k].location.Span? && !items[k].missing
                  && r == (items[k].location.from, items[k].location.to)
  {
    if items != [] {
      var n := |items| - 1;
      SpansAre(items[..n]);
      forall r | r in SpansOf(items[..n])
        ensures exists k :: 0 <= k < |items| && items[k].location.Span? && !items[k].missing
                            && r == (items[k].location.from, items[k].location.to)
      {
        var k :| 0 <= k < n && items[..n][k].location.Span? && !items[..n][k].missing
                 && r == (items[..n][k].location.from, items[..n][k].location.to);
        assert items[k] == items[..n][k];
      }
    }
  }

  lemma OrderedSpans(items: seq<Item>, paragraphs: seq<Entry>, controls: map<Id, Handle>)
    requires forall k | 0 <= k < |items| :: ItemOk(items[k], paragraphs, controls)
    ensures forall r | r in SpansOf(items) :: r.0 <= r.1
  {
    hide EntrySpans;
    SpansAre(items);
    forall r | r in SpansOf(items)
      ensures r.0 <= r.1
    {
      var k :| 0 <= k < |items| && items[k].location.Span? && !items[k].missing
               && r == (items[k].location.from, items[k].location.to);
      assert ItemOk(items[k], paragraphs, controls);
      var i :| 0 <= i < |paragraphs| && EntrySpans(paragraphs[i], r.0, r.1, items[k].location.text);
      SpanBounds(paragraphs[i], r.0, r.1, items[k].location.text);
    }
  }

  function Starts(paragraphs: seq<Entry>): seq<nat> {
    seq(|paragraphs|, i requires 0 <= i < |paragraphs| => paragraphs[i].start)
  }

  /** What the item loop has established after `n` items. */
  ghost predicate Checked(items: seq<Item>, n: nat, paragraphs: seq<Entry>, controls: map<Id, Handle>, seen: set<Id>)
    requires n <= |items|
  {
    && (forall k | 0 <= k < n :: ItemOk(items[k], paragraphs, controls))
    && (forall i, k | 0 <= i < k < n :: !SameControl(items[i], items[k]))
    && (forall id :: id in seen <==> exists k :: 0 <= k < n && items[k].location == OfControl(id))
  }

  /** The item loop of `_validate_working`. */
  method CheckItems(items: seq<Item>, paragraphs: seq<Entry>, controls: map<Id, Handle>)
    returns (ok: bool, seen: set<Id>)
    requires Indexed(paragraphs)
    ensures ok ==> Checked(items, |items|, paragraphs, controls, seen)
    ensures !ok ==> !ReviewOk(items, paragraphs, controls)
  {
    hide SpanOk, PairwiseDisjoint, Indexed;
    seen := {};
    var n := 0;
    while n < |items|
      invariant 0 <= n <= |items| && Checked(items, n, paragraphs, controls, seen)
    {
      var item := items[n];
      match item.location {
        case OfControl(id) =>
          if id in seen {
            return false, seen;
          }
          seen := seen + {id};
          if item.missing != (id !in controls) {
            return false, seen;
          }
          if id in controls && (item.alias != controls[id].alias || item.key != controls[id].key) {
            return false, seen;
          }
        case Span(from, to, text) =>
          if !item.missing {
            var fits := ValidateSpan(from, to, text, paragraphs, Starts(paragraphs));
            if !fits {
              return false, seen;
            }
          }
      }
      n := n + 1;
    }
    ok := true;
  }

  /** `_validate_working` accepts exactly the well-formed documents whose review fits them. */
  method ValidateWorking(model: Node, items: seq<Item>) returns (ok: bool)
    requires model.Doc?
    ensures ok <==> WellFormed(model) && Distinct(ControlsOf(model))
                    && ReviewOk(items, EntriesOf(model, 0), ByIdentity(ControlsOf(model)))
  {
    hide WellFormed, Distinct, EntriesOf, ControlsOf, ByIdentity, ItemOk, PairwiseDisjoint, Indexed;
    var indexed := Index(model);
    if indexed.None? {
      return false;
    }
    var (paragraphs, controls) := indexed.value;
    IndexIsIndexed(model);
    var apart := NeighboursApart(Sort(SpansOf(items)));
    var fits, seen := CheckItems(items, paragraphs, controls);
    if fits {
      OrderedSpans(items, paragraphs, controls);
      NeighboursDecide(SpansOf(items));
      assert (forall id | id in controls :: id in seen) <==> (forall id | id in controls :: Tracked(items, id));
    }
    ok := apart && fits && forall id | id in controls :: id in seen;
    if fits && !apart {
      assert !PairwiseDisjoint(SpansOf(items));
    }
  }
}
