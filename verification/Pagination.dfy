/** Page breaks between blocks: the greedy pass is sound, and no other division needs fewer pages. */
module Pagination {

  datatype Block = Block(top: real, bottom: real, forced: bool)

  /** A division into pages: whether each block but the first begins a new page. */
  type Division = seq<bool>

  /** Where the page of block `i` starts; the first page starts at zero. */
  function PageTop(blocks: seq<Block>, d: Division, i: nat): real
    requires i < |blocks| == |d|
  {
    if i == 0 then 0.0 else if d[i] then blocks[i].top else PageTop(blocks, d, i - 1)
  }

  /** Block `i` may stand where the division puts it. */
  predicate Placed(blocks: seq<Block>, height: real, d: Division, i: nat)
    requires i < |blocks| == |d|
  {
    i > 0 ==> d[i] || (!blocks[i].forced && blocks[i].bottom - PageTop(blocks, d, i) <= height)
  }

  /** Forced breaks are honoured, and every block that does not begin a page fits on its page. */
  ghost predicate Valid(blocks: seq<Block>, height: real, d: Division) {
    |d| == |blocks| && forall i | 0 <= i < |blocks| :: Placed(blocks, height, d, i)
  }

  /** Breaks after the first block, up to block `i`. */
  function Breaks(d: Division, i: nat): nat
    requires i < |d|
  {
    if i == 0 then 0 else Breaks(d, i - 1) + if d[i] then 1 else 0
  }

  /** The indices a division starts pages at. */
  function Starts(d: Division): seq<nat> {
    if |d| <= 1 then [] else
    Starts(d[..|d| - 1]) + if d[|d| - 1] then [|d| - 1] else []
  }

  lemma {:induction false} PrefixSame(blocks: seq<Block>, d: Division, e: Division, i: nat)
    requires i < |blocks| == |d| && i < |e| && e <= d
    ensures |e| <= |blocks| && PageTop(blocks, d, i) == PageTop(blocks[..|e|], e, i) && Breaks(d, i) == Breaks(e, i)
  {
    if i > 0 {
      PrefixSame(blocks, d, e, i - 1);
    }
  }

  lemma {:induction false} StartsCount(d: Division)
    requires d != []
    ensures |Starts(d)| == Breaks(d, |d| - 1)
    ensures forall k | 0 <= k < |Starts(d)| :: 0 < Starts(d)[k] < |d| && d[Starts(d)[k]]
    ensures forall j, k | 0 <= j < k < |Starts(d)| :: Starts(d)[j] < Starts(d)[k]
    ensures forall i | 0 < i < |d| && d[i] :: i in Starts(d)
  {
    if |d| > 1 {
      var n := |d| - 1;
      var e := d[..n];
      StartsCount(e);
      BreaksPrefix(d, e, n - 1);
      assert Starts(d) == Starts(e) + if d[n] then [n] else [];
      forall k | 0 <= k < |Starts(d)| ensures 0 < Starts(d)[k] < |d| && d[Starts(d)[k]] {
        assert k < |Starts(e)| ==> Starts(d)[k] == Starts(e)[k];
      }
      forall j, k | 0 <= j < k < |Starts(d)| ensures Starts(d)[j] < Starts(d)[k] {
        assert Starts(d)[j] == Starts(e)[j] < n;
      }
      forall i | 0 < i < |d| && d[i] ensures i in Starts(d) {
        assert i < n ==> e[i] && i in Starts(e);
      }
    }
  }

  lemma {:induction false} BreaksPrefix(d: Division, e: Division, i: nat)
    requires i < |e| && e <= d
    ensures Breaks(d, i) == Breaks(e, i)
  {
    if i > 0 {
      BreaksPrefix(d, e, i - 1);
    }
  }

  /** The greedy division never has more breaks than another one, and where it has as many its
      page starts no earlier. */
  ghost predicate Ahead(blocks: seq<Block>, d: Division, e: Division, i: nat)
    requires i < |blocks| == |d| == |e|
  {
    Breaks(d, i) < Breaks(e, i) || (Breaks(d, i) == Breaks(e, i) && PageTop(blocks, e, i) <= PageTop(blocks, d, i))
  }

  ghost predicate Greedy(blocks: seq<Block>, height: real, d: Division) {
    |d| == |blocks|
    && forall i | 0 < i < |blocks| ::
         d[i] <==> blocks[i].forced || blocks[i].bottom - PageTop(blocks, d, i - 1) > height
  }

  ghost predicate Downward(blocks: seq<Block>) {
    (forall i | 0 <= i < |blocks| :: 0.0 <= blocks[i].top)
    && forall i, k | 0 <= i < k < |blocks| :: blocks[i].top <= blocks[k].top
  }

  lemma {:induction false} TopBounded(blocks: seq<Block>, d: Division, i: nat)
    requires i < |blocks| == |d| && Downward(blocks)
    ensures forall k | i < k < |blocks| :: PageTop(blocks, d, i) <= blocks[k].top
  {
    if i > 0 {
      TopBounded(blocks, d, i - 1);
    }
    assert 0.0 <= blocks[i].top && forall k | i < k < |blocks| :: blocks[i].top <= blocks[k].top;
  }

  lemma {:induction false} StaysAhead(blocks: seq<Block>, height: real, d: Division, e: Division, i: nat)
    requires Greedy(blocks, height, d) && Valid(blocks, height, e) && Downward(blocks) && i < |blocks|
    ensures Ahead(blocks, d, e, i)
  {
    if i > 0 {
      StaysAhead(blocks, height, d, e, i - 1);
      assert Placed(blocks, height, e, i);
      TopBounded(blocks, e, i - 1);
    }
  }

  /** Optimality: every valid division has at least as many pages as the greedy one. */
  lemma {:induction false} NoFewerPages(blocks: seq<Block>, height: real, d: Division, e: Division)
    requires Greedy(blocks, height, d) && Valid(blocks, height, e) && Downward(blocks)
    ensures |Starts(d)| <= |Starts(e)|
  {
    if blocks != [] {
      StaysAhead(blocks, height, d, e, |blocks| - 1);
      StartsCount(d);
      StartsCount(e);
    }
  }

  lemma GreedyValid(blocks: seq<Block>, height: real, d: Division)
    requires Greedy(blocks, height, d)
    ensures Valid(blocks, height, d)
  {
    forall i | 0 <= i < |blocks| ensures Placed(blocks, height, d, i) {}
  }

  lemma StartsNext(d: Division, breaks: bool)
    requires d != []
    ensures Starts(d + [breaks]) == Starts(d) + if breaks then [|d|] else []
  {
    assert (d + [breaks])[..|d|] == d;
  }

  /** What the pass has decided for the first blocks. */
  ghost predicate Decided(blocks: seq<Block>, height: real, d: Division, starts: seq<nat>, pageTop: real) {
    && 0 < |d| <= |blocks| && Greedy(blocks[..|d|], height, d) && starts == Starts(d)
    && pageTop == PageTop(blocks[..|d|], d, |d| - 1)
  }

  lemma DecideNext(blocks: seq<Block>, height: real, d: Division, starts: seq<nat>, pageTop: real)
    requires Decided(blocks, height, d, starts, pageTop) && |d| < |blocks|
    ensures var block := blocks[|d|]; var breaks := block.forced || block.bottom - pageTop > height;
      Decided(blocks, height, d + [breaks], if breaks then starts + [|d|] else starts, if breaks then block.top
        else pageTop)
  {
    hide Greedy, Starts, PageTop;
    var n := |d|;
    var breaks := blocks[n].forced || blocks[n].bottom - pageTop > height;
    assert blocks[..n + 1][..n] == blocks[..n];
    GreedyNext(blocks[..n + 1], height, d, breaks);
    StartsNext(d, breaks);
  }

  lemma DecidedFirst(blocks: seq<Block>, height: real)
    requires blocks != []
    ensures Decided(blocks, height, [false], [], 0.0)
  {
  }

  lemma DecidedAll(blocks: seq<Block>, height: real, d: Division, starts: seq<nat>, pageTop: real)
    requires Decided(blocks, height, d, starts, pageTop) && |d| == |blocks|
    ensures Valid(blocks, height, d) && Greedy(blocks, height, d)
    ensures starts == Starts(d)
    ensures forall k | 0 <= k < |starts| :: 0 < starts[k] < |blocks|
    ensures forall j, k | 0 <= j < k < |starts| :: starts[j] < starts[k]
  {
    assert blocks[..|d|] == blocks;
    GreedyValid(blocks, height, d);
    StartsCount(d);
  }

  lemma NoPages(blocks: seq<Block>, height: real)
    requires blocks == []
    ensures Valid(blocks, height, []) && Starts([]) == []
  {
  }

  /** `pageStarts`: one pass that breaks before a block that is forced or does not fit. */
  method PageStarts(blocks: seq<Block>, height: real) returns (starts: seq<nat>, ghost d: Division)
    ensures Valid(blocks, height, d) && starts == Starts(d)
    ensures forall k | 0 <= k < |starts| :: 0 < starts[k] < |blocks|
    ensures forall j, k | 0 <= j < k < |starts| :: starts[j] < starts[k]
    ensures Downward(blocks) ==> forall e | Valid(blocks, height, e) :: |starts| <= |Starts(e)|
  {
    hide Decided, Starts, PageTop, Greedy, Valid, Downward;
    starts, d := [], [];
    if blocks == [] {
      NoPages(blocks, height);
      return;
    }
    var pageTop := 0.0;
    d := [false];
    DecidedFirst(blocks, height);
    var index := 1;
    while index < |blocks|
      invariant 1 <= index <= |blocks| && |d| == index && Decided(blocks, height, d, starts, pageTop)
    {
      DecideNext(blocks, height, d, starts, pageTop);
      var top := blocks[index].top;
      var breaks := blocks[index].forced || blocks[index].bottom - pageTop > height;
      if breaks {
        starts := starts + [index];
        pageTop := top;
      }
      d := d + [breaks];
      index := index + 1;
    }
    DecidedAll(blocks, height, d, starts, pageTop);
    if Downward(blocks) {
      forall e | Valid(blocks, height, e)
        ensures |starts| <= |Starts(e)|
      {
        NoFewerPages(blocks, height, d, e);
      }
    }
  }

  lemma PageTopLast(blocks: seq<Block>, d: Division)
    requires |blocks| == |d| && |d| > 1
    ensures var n := |d| - 1; PageTop(blocks, d, n) == if d[n] then blocks[n].top else PageTop(blocks, d, n - 1)
  {
  }

  lemma GreedyNext(blocks: seq<Block>, height: real, d: Division, breaks: bool)
    requires |blocks| == |d| + 1 && d != [] && Greedy(blocks[..|d|], height, d)
    requires breaks <==>
      blocks[|d|].forced || blocks[|d|].bottom - PageTop(blocks[..|d|], d, |d| - 1) > height
    ensures Greedy(blocks, height, d + [breaks])
    ensures PageTop(blocks, d + [breaks], |d|) ==
      if breaks then blocks[|d|].top else PageTop(blocks[..|d|], d, |d| - 1)
  {
    hide PageTop, Breaks;
    var next := d + [breaks];
    PageTopLast(blocks, next);
    forall i | 0 < i < |blocks|
      ensures next[i] <==> blocks[i].forced || blocks[i].bottom - PageTop(blocks, next, i - 1) > height
    {
      PrefixSame(blocks, next, d, i - 1);
    }
    PrefixSame(blocks, next, d, |d| - 1);
  }
}
