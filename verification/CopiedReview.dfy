/** A copied review: bound to the new identities, it passes the save check of the copy. */
module CopiedReview {
  import opened DocumentModel
  import opened WorkingIndex
  import opened WorkingSpans
  import opened WorkingReview
  import opened FieldAnchors
  import opened ReviewDocument
  import opened ReviewTheorem
  import opened Correspondence
  import opened Transport
  import opened Copying

  // ----- controls correspond

  ghost predicate TwinHandle(h: Handle, g: Handle, pairs: Links) {
    h.key == g.key && h.alias == g.alias && (h.id, g.id) in pairs
  }

  ghost predicate TwinHandles(a: seq<Handle>, b: seq<Handle>, pairs: Links) {
    |a| == |b| && forall i | 0 <= i < |a| :: TwinHandle(a[i], b[i], pairs)
  }

  lemma ParagraphHandles(a: Spot, b: Spot, pairs: Links)
    requires Twin(a, b, pairs) && WellFormed(a.node) && WellFormed(b.node)
    ensures TwinHandles(FieldHandles(a.node.content), FieldHandles(b.node.content), pairs)
  {
    hide Same, Pairs, Value, WellFormed, TextOf, BlockedOf, ValuesOf, FieldNodes, FieldHandles, Tape;
    var ss, ts := a.node.content, b.node.content;
    ParagraphTwins(a.node, b.node, pairs);
    ValuesAre(ss);
    ValuesAre(ts);
    forall i | 0 <= i < |FieldNodes(ss)|
      ensures TwinHandle(FieldHandles(ss)[i], FieldHandles(ts)[i], pairs)
    {
      assert TwinFields(FieldNodes(ss)[i], FieldNodes(ts)[i], pairs);
    }
  }

  lemma {:induction false} HandlesTwin(a: seq<Spot>, b: seq<Spot>, pairs: Links)
    requires Proper(a) && Proper(b) && Twins(a, b, pairs)
    ensures TwinHandles(SpotHandles(a), SpotHandles(b), pairs)
  {
    hide WellFormed, FieldHandles, TwinHandle, Same, Pairs;
    if a != [] {
      assert Twin(a[0], b[0], pairs) && a[0] in a && b[0] in b;
      ParagraphHandles(a[0], b[0], pairs);
      HandlesTwin(a[1..], b[1..], pairs);
    }
  }

  lemma TwinsDistinct(a: seq<Handle>, b: seq<Handle>, pairs: Links)
    requires OneToOne(pairs) && TwinHandles(a, b, pairs) && Distinct(a)
    ensures Distinct(b)
  {
    hide OneToOne, MapOf;
    forall i, k | 0 <= i < k < |b| ensures b[i].id != b[k].id {
      assert TwinHandle(a[i], b[i], pairs) && TwinHandle(a[k], b[k], pairs);
      OneFromOther(pairs, (a[i].id, b[i].id), (a[k].id, b[k].id));
    }
  }

  // ----- spans correspond

  lemma SpanTwins(a: Spot, b: Spot, pairs: Links, from: nat, to: nat, text: string)
    requires Twin(a, b, pairs) && WellFormed(a.node) && WellFormed(b.node)
    ensures EntrySpans(EntryOf(a.node, a.position), from, to, text) <==>
      EntrySpans(EntryOf(b.node, b.position), from, to, text)
  {
    hide WellFormed, Same, Pairs, TextOf, BlockedOf, FieldNodes, Tape, EntrySpans, EntryOf;
    ParagraphTwins(a.node, b.node, pairs);
    SameSpan(EntryOf(a.node, a.position), a.node, a.position, from, to, text);
    SameSpan(EntryOf(b.node, b.position), b.node, b.position, from, to, text);
  }

  /** A span fits one document exactly when it fits the other. */
  lemma SpansTwin(a: seq<Spot>, b: seq<Spot>, pairs: Links, from: nat, to: nat, text: string)
    requires Proper(a) && Proper(b) && Twins(a, b, pairs)
    ensures SpanOk(Entries(a), from, to, text) <==> SpanOk(Entries(b), from, to, text)
  {
    hide WellFormed, Entries, EntrySpans, EntryOf, Twin;
    EntriesList(a);
    EntriesList(b);
    forall i | 0 <= i < |a|
      ensures EntrySpans(Entries(a)[i], from, to, text) <==> EntrySpans(Entries(b)[i], from, to, text)
    {
      assert Twin(a[i], b[i], pairs) && a[i] in a && b[i] in b;
      assert a[i].node.Paragraph? && b[i].node.Paragraph? && WellFormed(a[i].node) && WellFormed(b[i].node);
      SpanTwins(a[i], b[i], pairs, from, to, text);
    }
  }

  // ----- binding

  predicate MayBind(item: Item, identities: map<Id, Id>, controls: map<Id, Handle>) {
    item.location.OfControl? && !item.missing ==>
      item.location.id in identities && identities[item.location.id] in controls
  }

  /** One item bound to the copy: a live control gets its new identity, key and label; a missing one an identity that no
      live control can have. */
  function Bound(item: Item, version: nat, identities: map<Id, Id>, controls: map<Id, Handle>): Item
    requires MayBind(item, identities, controls)
  {
    if item.location.Span? then item
    else if item.missing then item.(location := OfControl(Gone(version, item.location.id)))
    else
      var id := identities[item.location.id];
      item.(location := OfControl(id), key := controls[id].key, alias := controls[id].alias)
  }

  ghost predicate BoundAll(items: seq<Item>, bound: seq<Item>, version: nat, identities: map<Id, Id>,
                           controls: map<Id, Handle>) {
    && |bound| == |items|
    && forall i | 0 <= i < |bound| ::
         MayBind(items[i], identities, controls) && bound[i] == Bound(items[i], version, identities, controls)
  }

  /** The two documents' controls, by identity. */
  ghost predicate Carried(cs: map<Id, Handle>, ct: map<Id, Handle>, m: map<Id, Id>) {
    && (forall id | id in cs ::
         id in m && m[id] in ct && ct[m[id]].key == cs[id].key && ct[m[id]].alias == cs[id].alias)
    && (forall id, other | id in cs && other in cs && id != other :: m[id] != m[other])
    && (forall id | id in ct :: exists left :: left in cs && left in m && m[left] == id)
    && (forall id | id in ct :: !id.Gone?)
  }

  lemma ControlsCarried(a: seq<Handle>, b: seq<Handle>, pairs: Links)
    requires OneToOne(pairs) && TwinHandles(a, b, pairs) && Distinct(a) && Distinct(b)
    requires forall h | h in b :: !h.id.Gone?
    ensures Carried(ByIdentity(a), ByIdentity(b), MapOf(pairs))
  {
    hide OneToOne, MapOf, ByIdentity, Distinct, TwinHandle;
    var cs, ct, m := ByIdentity(a), ByIdentity(b), MapOf(pairs);
    ByIdentityHas(a);
    ByIdentityHas(b);
    forall i | 0 <= i < |a|
      ensures a[i].id in m && m[a[i].id] == b[i].id && a[i].key == b[i].key && a[i].alias == b[i].alias
    {
      TwinMaps(a[i], b[i], pairs);
    }
    forall id | id in cs
      ensures id in m && m[id] in ct && ct[m[id]].key == cs[id].key && ct[m[id]].alias == cs[id].alias
    {
      var i :| 0 <= i < |a| && a[i].id == id;
      assert ct[b[i].id] == b[i];
    }
    CarriedApart(a, b, pairs);
    forall id | id in ct
      ensures !id.Gone? && exists left :: left in cs && left in m && m[left] == id
    {
      var i :| 0 <= i < |b| && b[i].id == id;
      assert b[i] in b && a[i].id in cs;
    }
  }

  /** Different controls go to different ones. */
  lemma CarriedApart(a: seq<Handle>, b: seq<Handle>, pairs: Links)
    requires OneToOne(pairs) && TwinHandles(a, b, pairs) && Distinct(a)
    requires forall i | 0 <= i < |a| :: a[i].id in MapOf(pairs) && MapOf(pairs)[a[i].id] == b[i].id
    ensures var cs, m := ByIdentity(a), MapOf(pairs);
      forall id, other | id in cs && other in cs && id != other :: id in m && other in m && m[id] != m[other]
  {
    hide OneToOne, MapOf, ByIdentity, Distinct, TwinHandle;
    ByIdentityHas(a);
    var cs, m := ByIdentity(a), MapOf(pairs);
    forall id, other | id in cs && other in cs && id != other
      ensures id in m && other in m && m[id] != m[other]
    {
      var i :| 0 <= i < |a| && a[i].id == id;
      var k :| 0 <= k < |a| && a[k].id == other;
      assert TwinHandle(a[i], b[i], pairs) && TwinHandle(a[k], b[k], pairs);
      TwinsDiffer(a[i], b[i], a[k], b[k], pairs);
    }
  }

  lemma TwinMaps(h: Handle, g: Handle, pairs: Links)
    requires OneToOne(pairs) && TwinHandle(h, g, pairs)
    ensures h.id in MapOf(pairs) && MapOf(pairs)[h.id] == g.id && h.key == g.key && h.alias == g.alias
  {
    hide OneToOne, MapOf;
    OneFromOther(pairs, (h.id, g.id), (h.id, g.id));
  }

  lemma TwinsDiffer(h: Handle, g: Handle, i: Handle, j: Handle, pairs: Links)
    requires OneToOne(pairs) && TwinHandle(h, g, pairs) && TwinHandle(i, j, pairs) && h.id != i.id
    ensures g.id != j.id
  {
    hide OneToOne, MapOf;
    OneFromOther(pairs, (h.id, g.id), (i.id, j.id));
  }

  lemma BoundOk(item: Item, version: nat, es: seq<Entry>, et: seq<Entry>, cs: map<Id, Handle>, ct: map<Id, Handle>,
                m: map<Id, Id>)
    requires ItemOk(item, es, cs) && Carried(cs, ct, m)
    requires item.location.Span? ==>
      (SpanOk(es, item.location.from, item.location.to, item.location.text) <==>
       SpanOk(et, item.location.from, item.location.to, item.location.text))
    ensures MayBind(item, m, ct) && ItemOk(Bound(item, version, m, ct), et, ct)
  {
    hide SpanOk;
  }

  lemma BoundApart(a: Item, b: Item, version: nat, es: seq<Entry>, cs: map<Id, Handle>, ct: map<Id, Handle>,
                   m: map<Id, Id>)
    requires ItemOk(a, es, cs) && ItemOk(b, es, cs) && Carried(cs, ct, m) && !SameControl(a, b)
    requires MayBind(a, m, ct) && MayBind(b, m, ct)
    ensures !SameControl(Bound(a, version, m, ct), Bound(b, version, m, ct))
  {
    hide SpanOk;
  }

  lemma {:induction false} BoundSpans(items: seq<Item>, bound: seq<Item>, version: nat, m: map<Id, Id>,
                                      ct: map<Id, Handle>)
    requires BoundAll(items, bound, version, m, ct)
    ensures SpansOf(bound) == SpansOf(items)
  {
    if items != [] {
      BoundSpans(items[..|items| - 1], bound[..|bound| - 1], version, m, ct);
    }
  }

  lemma BoundTracks(items: seq<Item>, bound: seq<Item>, version: nat, es: seq<Entry>, cs: map<Id, Handle>,
                    ct: map<Id, Handle>, m: map<Id, Id>, id: Id)
    requires BoundAll(items, bound, version, m, ct) && Carried(cs, ct, m) && id in ct
    requires forall k | 0 <= k < |items| :: ItemOk(items[k], es, cs)
    requires forall left | left in cs :: Tracked(items, left)
    ensures Tracked(bound, id)
  {
    hide SpanOk;
    var left :| left in cs && left in m && m[left] == id;
    assert Tracked(items, left);
    var k :| 0 <= k < |items| && items[k].location == OfControl(left);
    assert ItemOk(items[k], es, cs);
    assert bound[k].location == OfControl(id);
  }

  /** A review that fits a document fits the corresponding one after binding, and binding never fails: live controls
      stay tracked exactly once, lost ones stay lost, and every span covers the same text at the same positions. */
  lemma ReviewMoves(s: Node, t: Node, items: seq<Item>, bound: seq<Item>, version: nat)
    requires s.Doc? && WellFormed(s) && WellFormed(t) && Same(s, t) && OneToOne(Pairs(s, t)) && Distinct(ControlsOf(s))
    requires forall h | h in ControlsOf(t) :: !h.id.Gone?
    requires ReviewOk(items, EntriesOf(s, 0), ByIdentity(ControlsOf(s)))
    ensures var m, ct := MapOf(Pairs(s, t)), ByIdentity(ControlsOf(t));
      && Distinct(ControlsOf(t)) && (forall item | item in items :: MayBind(item, m, ct))
      && (BoundAll(items, bound, version, m, ct) ==> ReviewOk(bound, EntriesOf(t, 0), ct))
  {
    hide Same, Pairs, WellFormed, EntriesOf, KnownIn, ControlsOf, MapOf, OneToOne, ByIdentity, Distinct, SpotsIn,
      Entries, SpotHandles, Knowns, Twins, TwinHandles, SameKnowns, Carried, ItemOk, MayBind, Bound, PairwiseDisjoint,
      Tracked, SameControl, Proper, SpanOk, SpansOf;
    var pairs, a, b := Pairs(s, t), SpotsIn([], s, 0), SpotsIn([], t, 0);
    var es, et, cs, ct, m :=
      EntriesOf(s, 0), EntriesOf(t, 0), ByIdentity(ControlsOf(s)), ByIdentity(ControlsOf(t)), MapOf(pairs);
    DocumentTwins(s, t);
    SpotsAgree([], s, 0);
    SpotsAgree([], t, 0);
    HandlesTwin(a, b, pairs);
    TwinsDistinct(ControlsOf(s), ControlsOf(t), pairs);
    ControlsCarried(ControlsOf(s), ControlsOf(t), pairs);
    forall k | 0 <= k < |items|
      ensures MayBind(items[k], m, ct) && ItemOk(Bound(items[k], version, m, ct), et, ct)
    {
      if items[k].location.Span? {
        SpansTwin(a, b, pairs, items[k].location.from, items[k].location.to, items[k].location.text);
      }
      BoundOk(items[k], version, es, et, cs, ct, m);
    }
    if BoundAll(items, bound, version, m, ct) {
      BoundSpans(items, bound, version, m, ct);
      forall i, k | 0 <= i < k < |bound| ensures !SameControl(bound[i], bound[k]) {
        BoundApart(items[i], items[k], version, es, cs, ct, m);
      }
      forall id | id in ct ensures Tracked(bound, id) {
        BoundTracks(items, bound, version, es, cs, ct, m, id);
      }
    }
  }

  /** What a copied item says. A span is left as it is; a live control is the corresponding one, under the key and label
      that one has in the copy; a missing one is named anew and otherwise left as it is. */
  ghost predicate ItemCopied(item: Item, copy: Item, version: nat, pairs: Links, controls: seq<Handle>) {
    match item.location
    case Span(_, _, _) => copy == item
    case OfControl(id) =>
      && copy.missing == item.missing && copy.location.OfControl?
      && if item.missing then copy.location.id == Gone(version, id) && copy.key == item.key && copy.alias == item.alias
         else (id, copy.location.id) in pairs && Handle(copy.location.id, copy.key, copy.alias) in controls
  }

  ghost predicate ItemsCopied(items: seq<Item>, copies: seq<Item>, version: nat, pairs: Links, controls: seq<Handle>) {
    |copies| == |items| && forall i | 0 <= i < |items| :: ItemCopied(items[i], copies[i], version, pairs, controls)
  }

  lemma BoundCopies(item: Item, version: nat, pairs: Links, controls: seq<Handle>)
    requires OneToOne(pairs) && Distinct(controls) && MayBind(item, MapOf(pairs), ByIdentity(controls))
    ensures ItemCopied(item, Bound(item, version, MapOf(pairs), ByIdentity(controls)), version, pairs, controls)
  {
    hide MapOf, OneToOne, ByIdentity, Distinct;
    if item.location.OfControl? && !item.missing {
      var identity := MapOf(pairs)[item.location.id];
      MapPairs(pairs, item.location.id);
      ByIdentityHas(controls);
      var i :| 0 <= i < |controls| && controls[i].id == identity;
      assert ByIdentity(controls)[identity] == controls[i];
    }
  }

  /** `PreparedCopy.bind`: item by item. What it returns would pass `_validate_working` on the copy. */
  method Bind(document: Node, model: Node, items: seq<Item>, version: nat, identities: map<Id, Id>,
              controls: map<Id, Handle>)
    returns (bound: seq<Item>)
    requires document.Doc? && WellFormed(document) && WellFormed(model) && Distinct(ControlsOf(document))
    requires Same(document, model) && OneToOne(Pairs(document, model)) && identities == MapOf(Pairs(document, model))
    requires controls == ByIdentity(ControlsOf(model)) && forall h | h in ControlsOf(model) :: !h.id.Gone?
    requires ReviewOk(items, EntriesOf(document, 0), ByIdentity(ControlsOf(document)))
    ensures ItemsCopied(items, bound, version, Pairs(document, model), ControlsOf(model))
    ensures Distinct(ControlsOf(model)) && ReviewOk(bound, EntriesOf(model, 0), controls)
  {
    hide Same, Pairs, WellFormed, EntriesOf, ControlsOf, MapOf, OneToOne, ByIdentity, Distinct, ReviewOk, ItemCopied;
    bound := [];
    ReviewMoves(document, model, items, bound, version);
    var i := 0;
    while i < |items|
      invariant 0 <= i <= |items| && BoundAll(items[..i], bound, version, identities, controls)
    {
      assert items[i] in items && MayBind(items[i], identities, controls);
      var item := items[i];
      if item.location.OfControl? {
        if item.missing {
          item := item.(location := OfControl(Gone(version, item.location.id)));
        } else {
          var current := controls[identities[item.location.id]];
          item :=
            item.(location := OfControl(identities[item.location.id]), key := current.key, alias := current.alias);
        }
      }
      bound := bound + [item];
      i := i + 1;
    }
    assert items[..i] == items;
    ReviewMoves(document, model, items, bound, version);
    forall k | 0 <= k < |items|
      ensures ItemCopied(items[k], bound[k], version, Pairs(document, model), ControlsOf(model))
    {
      BoundCopies(items[k], version, Pairs(document, model), ControlsOf(model));
    }
  }
}
