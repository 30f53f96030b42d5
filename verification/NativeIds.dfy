/** The native identifiers that stand in a document: those of its controls, and those inside what stays locked. */
module NativeIds {
  import opened DocumentModel
  import opened Correspondence
  import opened Ooxml
  import opened XmlEdits
  import opened Identities

  /** What a node itself brings along; `names` are those given to the controls made in the editor. */
  function OwnNatives(elements: map<Id, Xml>, names: map<Id, string>, n: Node): seq<string> {
    match n
    case Field(id, _, _, _) =>
      (match id
       case Control(_, native) => [native]
       case Made(_) => if id in names then [names[id]] else []
       case _ => [])
    case LockedInline(id, _, _) => if id in elements then Natives(elements[id]) else []
    case _ => []
  }

  function NodeNatives(elements: map<Id, Xml>, names: map<Id, string>, n: Node): seq<string>
    decreases n, 1
  {
    OwnNatives(elements, names, n) + if IsContainer(n) then NodesNatives(elements, names, n.content) else []
  }

  function NodesNatives(elements: map<Id, Xml>, names: map<Id, string>, ns: seq<Node>): seq<string>
    decreases ns, 0
  {
    if ns == [] then []
    else NodesNatives(elements, names, ns[..|ns| - 1]) + NodeNatives(elements, names, ns[|ns| - 1])
  }

  lemma {:induction false} NativesConcat(elements: map<Id, Xml>, names: map<Id, string>, a: seq<Node>, b: seq<Node>)
    ensures NodesNatives(elements, names, a + b) == NodesNatives(elements, names, a) + NodesNatives(elements, names, b)
    decreases |b|
  {
    hide NodeNatives;
    if b == [] {
      assert a + b == a;
    } else {
      var n := |b| - 1;
      assert (a + b)[..|a + b| - 1] == a + b[..n];
      NativesConcat(elements, names, a, b[..n]);
    }
  }

  lemma NativesNext(elements: map<Id, Xml>, names: map<Id, string>, ns: seq<Node>, i: nat)
    requires i < |ns|
    ensures NodesNatives(elements, names, ns[..i + 1]) == NodesNatives(elements, names, ns[..i]) +
      NodeNatives(elements, names, ns[i])
  {
    hide NodeNatives;
    assert ns[..i + 1][..i] == ns[..i];
  }

  lemma OneNatives(elements: map<Id, Xml>, names: map<Id, string>, n: Node)
    ensures NodesNatives(elements, names, [n]) == NodeNatives(elements, names, n)
      && NodesNatives(elements, names, []) == []
  {
    assert [n][..0] == [];
  }

  lemma {:induction false} TextNatives(elements: map<Id, Xml>, names: map<Id, string>, ns: seq<Node>)
    requires AllText(ns)
    ensures NodesNatives(elements, names, ns) == []
  {
    if ns != [] {
      assert ns[|ns| - 1] in ns;
      TextNatives(elements, names, ns[..|ns| - 1]);
    }
  }

  /** Runs have none. */
  lemma {:induction false} RunsNatives(xs: seq<Xml>)
    requires OnlyRuns(xs)
    ensures NativesAll(xs) == []
  {
    if xs != [] {
      var n := |xs| - 1;
      assert xs[n] in xs;
      RunsNatives(xs[..n]);
    }
  }

  // ----- by identity

  function FlatMap(own: Id -> seq<string>, ids: seq<Id>): seq<string> {
    if ids == [] then [] else FlatMap(own, ids[..|ids| - 1]) + own(ids[|ids| - 1])
  }

  lemma {:induction false} FlatConcat(own: Id -> seq<string>, a: seq<Id>, b: seq<Id>)
    ensures FlatMap(own, a + b) == FlatMap(own, a) + FlatMap(own, b)
    decreases |b|
  {
    if b == [] {
      assert a + b == a;
    } else {
      var n := |b| - 1;
      assert (a + b)[..|a + b| - 1] == a + b[..n];
      FlatConcat(own, a, b[..n]);
    }
  }

  lemma {:induction false} FlatHas(own: Id -> seq<string>, ids: seq<Id>, s: string)
    ensures s in FlatMap(own, ids) <==> exists id :: id in ids && s in own(id)
  {
    if ids != [] {
      var n := |ids| - 1;
      FlatHas(own, ids[..n], s);
      assert ids == ids[..n] + [ids[n]];
    }
  }

  /** Different identities bring along different identifiers, and none one twice. */
  ghost predicate Apart(own: Id -> seq<string>, ids: seq<Id>) {
    && (forall id | id in ids :: NoRepeats(own(id)))
    && (forall i, k, s | i in ids && k in ids && i != k && s in own(i) :: s !in own(k))
  }

  lemma {:induction false} FlatApart(own: Id -> seq<string>, ids: seq<Id>)
    requires NoRepeats(ids) && NoRepeats(FlatMap(own, ids))
    ensures Apart(own, ids)
  {
    hide NoRepeats;
    if ids != [] {
      var n := |ids| - 1;
      assert ids == ids[..n] + [ids[n]];
      NoRepeatsConcat(ids[..n], [ids[n]]);
      NoRepeatsConcat(FlatMap(own, ids[..n]), own(ids[n]));
      FlatApart(own, ids[..n]);
      forall i, k, s | i in ids && k in ids && i != k && s in own(i) ensures s !in own(k) {
        FlatHas(own, ids[..n], s);
      }
    }
  }

  lemma {:induction false} ApartFlat(own: Id -> seq<string>, ids: seq<Id>)
    requires NoRepeats(ids) && Apart(own, ids)
    ensures NoRepeats(FlatMap(own, ids))
  {
    hide NoRepeats;
    if ids == [] {
      NoneRepeat<string>();
    } else {
      var n := |ids| - 1;
      assert ids == ids[..n] + [ids[n]];
      NoRepeatsConcat(ids[..n], [ids[n]]);
      assert forall id | id in ids[..n] :: id in ids;
      ApartFlat(own, ids[..n]);
      forall s | s in FlatMap(own, ids[..n]) ensures s !in own(ids[n]) { FlatHas(own, ids[..n], s); }
      NoRepeatsConcat(FlatMap(own, ids[..n]), own(ids[n]));
    }
  }

  lemma NoneRepeat<T>()
    ensures NoRepeats<T>([])
  {
  }

  /** Every node of the tree has one of our identities, and brings along what that says. */
  ghost predicate Owned(elements: map<Id, Xml>, names: map<Id, string>, own: Id -> seq<string>, ours: Id -> bool,
                        n: Node)
    decreases n
  {
    && OwnNatives(elements, names, n) == (if IdOf(n).Some? then own(IdOf(n).value) else [])
    && (IdOf(n).Some? ==> ours(IdOf(n).value))
    && forall i | 0 <= i < |Content(n)| :: Owned(elements, names, own, ours, Content(n)[i])
  }

  ghost predicate OwnedAll(elements: map<Id, Xml>, names: map<Id, string>, own: Id -> seq<string>, ours: Id -> bool,
                           ns: seq<Node>) {
    forall i | 0 <= i < |ns| :: Owned(elements, names, own, ours, ns[i])
  }

  lemma {:induction false} NativesByIdentity(elements: map<Id, Xml>, names: map<Id, string>, own: Id -> seq<string>,
                                             ours: Id -> bool, n: Node)
    requires Owned(elements, names, own, ours, n)
    ensures NodeNatives(elements, names, n) == FlatMap(own, IdsOf(n)) && forall id | id in IdsOf(n) :: ours(id)
    decreases n, 1
  {
    hide OwnNatives;
    var inner := if IsContainer(n) then IdsAll(n.content) else [];
    if IsContainer(n) {
      forall i | 0 <= i < |n.content|
        ensures Owned(elements, names, own, ours, n.content[i])
      {
        assert Content(n)[i] == n.content[i];
      }
      AllByIdentity(elements, names, own, ours, n.content);
    }
    OwnFlat(own, n);
    FlatConcat(own, OwnId(n), inner);
  }

  lemma OwnFlat(own: Id -> seq<string>, n: Node)
    ensures FlatMap(own, OwnId(n)) == if IdOf(n).Some? then own(IdOf(n).value) else []
    ensures FlatMap(own, []) == []
  {
    if IdOf(n).Some? {
      var id := IdOf(n).value;
      assert [id][..0] == [] && FlatMap(own, [id]) == FlatMap(own, [id][..0]) + own(id);
    }
  }

  /** The native identifiers of a document, read off its identities. */
  lemma {:induction false} AllByIdentity(elements: map<Id, Xml>, names: map<Id, string>, own: Id -> seq<string>,
                                         ours: Id -> bool, ns: seq<Node>)
    requires OwnedAll(elements, names, own, ours, ns)
    ensures NodesNatives(elements, names, ns) == FlatMap(own, IdsAll(ns)) && forall id | id in IdsAll(ns) :: ours(id)
    decreases ns, 0
  {
    hide Owned, IdsOf, NodeNatives;
    if ns != [] {
      var n := |ns| - 1;
      AllByIdentity(elements, names, own, ours, ns[..n]);
      NativesByIdentity(elements, names, own, ours, ns[n]);
      FlatConcat(own, IdsAll(ns[..n]), IdsOf(ns[n]));
    }
  }
}
