/** A document through its life: saved, processed and copied, each time together with the package kept beside it. */
module Lifecycle {
  import opened Common
  import opened DocumentModel
  import opened WorkingIndex
  import opened WorkingReview
  import opened FieldAnchors
  import opened ReviewDocument
  import opened ReviewTheorem
  import opened Discovery
  import opened Rebase
  import opened Correspondence
  import opened Transport
  import opened Copying
  import opened CopiedReview
  import opened FreshIds
  import opened Ooxml
  import opened Identities
  import opened DocxPackage
  import opened DocxExport
  import opened Reread
  import opened ImportSchema
  import opened RoundTrip

  // ----- packages and the documents they are kept with

  /** The reader of archives takes no nameless part, and each name once. */
  predicate Archive(parts: seq<Part>) {
    NoRepeats(Names(parts)) && forall k | 0 <= k < |parts| :: parts[k].name != []
  }

  /** The document is what the package holds, up to identities, fills and run boundaries, and repeats no identity. */
  ghost predicate Matches(document: Node, parts: seq<Part>) {
    && (forall k | 0 <= k < |parts| :: Importable(parts[k]) && Parent(parts[k]).Some?)
    && Same(document, ModelOf(parts)) && NoRepeats(IdsOf(document))
  }

  /** Matching is what `correspondence` finds out. */
  lemma MatchPairs(document: Node, parts: seq<Part>)
    requires Archive(parts) && forall k | 0 <= k < |parts| :: Importable(parts[k]) && Parent(parts[k]).Some?
    ensures Matches(document, parts) <==>
      Same(document, ModelOf(parts)) && OneToOne(Pairs(document, ModelOf(parts)))
    ensures Matches(document, parts) ==> Distinct(ControlsOf(document))
  {
    hide NoRepeats, SectionOf, IdsOf, Importable, Parent, Same, Pairs, OneToOne, Distinct, ControlsOf;
    ImportIsDistinct(parts);
    if Same(document, ModelOf(parts)) {
      DistinctIsOneToOne(document, ModelOf(parts));
    }
    ControlsDistinct(document);
  }

  /** A package and its own import match: an upload, or a copy just made. */
  lemma ImportMatches(parts: seq<Part>)
    requires Archive(parts) && forall k | 0 <= k < |parts| :: Importable(parts[k])
    ensures (forall k | 0 <= k < |parts| :: Parent(parts[k]).Some?) && Matches(ModelOf(parts), parts)
  {
    hide NoRepeats, SectionOf, IdsOf, Importable, Parent, Same, RendersPart;
    ImportIsDistinct(parts);
    forall k | 0 <= k < |parts| ensures RendersPart(SectionOf(parts[k]), parts[k]) { UnchangedPart(parts[k]); }
    DocumentCorresponds(ModelOf(parts).content, parts);
  }

  /** If the document keeps the editor's schema, so does its package. */
  lemma MatchFits(document: Node, parts: seq<Part>)
    requires Matches(document, parts) && WellFormed(document)
    ensures WellFormed(ModelOf(parts)) && forall k | 0 <= k < |parts| :: RegularPart(parts[k])
  {
    hide Importable, Parent, SectionOf, Same, NoRepeats, IdsOf, WellFormed, FilledTexts, RegularPart;
    ImportFits(parts);
    SameFits(document, ModelOf(parts));
  }

  /** The controls of a package's import are distinct, and no lost control's identity is among theirs. */
  lemma ImportedControls(parts: seq<Part>)
    requires NoRepeats(Names(parts)) && forall k | 0 <= k < |parts| :: Importable(parts[k]) && Parent(parts[k]).Some?
    ensures Distinct(ControlsOf(ModelOf(parts))) && forall h | h in ControlsOf(ModelOf(parts)) :: !h.id.Gone?
  {
    hide NoRepeats, SectionOf, IdsAll, IdsOf, Importable, Distinct, ControlsOf, Parent;
    var model := ModelOf(parts);
    ImportIsDistinct(parts);
    ControlsDistinct(model);
    DocumentIds(model);
    SectionsIssue(parts, model.content, |parts|);
    assert model.content[..|parts|] == model.content;
    forall h | h in ControlsOf(model) ensures !h.id.Gone? { assert HomeOf(h.id).Some?; }
  }

  lemma DocumentIds(n: Node)
    requires n.Doc?
    ensures IdsOf(n) == IdsAll(n.content)
  {
    hide IdsAll;
    assert [] + IdsAll(n.content) == IdsAll(n.content);
  }

  // ----- paragraphs do not clash

  /** The paragraphs below a node have identities of their own, and so have the controls in each. */
  ghost predicate Unmixed(known: seq<Known>, ids: seq<Id>) {
    && (forall k | 0 <= k < |known| :: known[k].id in ids && DistinctValues(known[k].controls))
    && (forall i, k | 0 <= i < k < |known| :: known[i].id != known[k].id)
  }

  lemma UnmixedConcat(a: seq<Known>, b: seq<Known>, x: seq<Id>, y: seq<Id>)
    requires Unmixed(a, x) && Unmixed(b, y) && forall id | id in x :: id !in y
    ensures Unmixed(b + a, x + y)
  {
    hide DistinctValues;
  }

  lemma {:induction false} ValuesDistinct(ns: seq<Node>)
    ensures forall v | v in ValuesOf(ns) :: v.0 in IdsAll(ns)
    ensures NoRepeats(IdsAll(ns)) ==> DistinctValues(ValuesOf(ns))
  {
    hide NoRepeats, IdsOf, IdsAll, Value;
    if ns != [] {
      ValuesDistinct(ns[1..]);
      FirstIds(ns);
      OwnIsFirst(ns[0]);
      NoRepeatsConcat(IdsOf(ns[0]), IdsAll(ns[1..]));
    }
  }

  lemma FirstIds(ns: seq<Node>)
    requires ns != []
    ensures IdsAll(ns) == IdsOf(ns[0]) + IdsAll(ns[1..])
  {
    hide IdsOf, IdsAll;
    assert ns == [ns[0]] + ns[1..];
    IdsConcat([ns[0]], ns[1..]);
    OneIds(ns[0]);
  }

  lemma OwnIsFirst(n: Node)
    ensures IdOf(n).Some? ==> IdOf(n).value in IdsOf(n)
    ensures IsContainer(n) ==> IdsOf(n) == OwnId(n) + IdsAll(n.content)
  {
    hide IdsAll;
  }

  lemma {:induction false} KnownUnmixed(part: string, n: Node)
    requires NoRepeats(IdsOf(n))
    ensures Unmixed(KnownIn(part, n), IdsOf(n))
    decreases n, 1
  {
    hide NoRepeats, IdsOf, IdsAll, KnownAll, TextOf, BlockedOf, ValuesOf, DistinctValues;
    OwnIsFirst(n);
    if n.Paragraph? || IsBlock(n) {
      NoRepeatsConcat(OwnId(n), IdsAll(n.content));
      if n.Paragraph? {
        ValuesDistinct(n.content);
      } else {
        AllUnmixed(PartOf(part, n), n.content);
      }
    }
  }

  lemma {:induction false} AllUnmixed(part: string, ns: seq<Node>)
    requires NoRepeats(IdsAll(ns))
    ensures Unmixed(KnownAll(part, ns), IdsAll(ns))
    decreases ns, 0
  {
    hide NoRepeats, IdsOf, IdsAll, KnownIn, Unmixed;
    if ns == [] {
      NothingKnown(part);
    } else {
      FirstIds(ns);
      NoRepeatsConcat(IdsOf(ns[0]), IdsAll(ns[1..]));
      KnownUnmixed(part, ns[0]);
      AllUnmixed(part, ns[1..]);
      UnmixedConcat(KnownIn(part, ns[0]), KnownAll(part, ns[1..]), IdsOf(ns[0]), IdsAll(ns[1..]));
    }
  }

  lemma NothingKnown(part: string)
    ensures KnownAll(part, []) == [] && Unmixed([], IdsAll([]))
  {
  }

  /** Below a section of a named part no paragraph is without one. */
  lemma {:induction false} KnownNamed(part: string, n: Node)
    requires WellFormed(n) && !n.Doc? && (if n.Section? then n.part != [] else part != [])
    ensures forall k | k in KnownIn(part, n) :: k.part != []
    decreases n, 1
  {
    hide WellFormed, KnownAll, KnownOf;
    if n.Paragraph? {
      PartIsKept(part, n);
    } else if IsBlock(n) {
      ContainerFits(n);
      AllNamed(PartOf(part, n), n.content);
    }
  }

  lemma PartIsKept(part: string, n: Node)
    requires n.Paragraph?
    ensures KnownOf(part, n).part == part
  {
  }

  lemma {:induction false} AllNamed(part: string, ns: seq<Node>)
    requires forall n | n in ns :: WellFormed(n) && !n.Doc? && (if n.Section? then n.part != [] else part != [])
    ensures forall k | k in KnownAll(part, ns) :: k.part != []
    decreases ns, 0
  {
    hide WellFormed, KnownIn;
    if ns != [] {
      KnownNamed(part, ns[0]);
      AllNamed(part, ns[1..]);
    }
  }

  /** The sections of a matching document are the package's parts. */
  lemma SectionsNamed(document: Node, parts: seq<Part>)
    requires Matches(document, parts) && Archive(parts) && WellFormed(document)
    ensures document.Doc? && forall c | c in document.content :: c.Section? && c.part != []
  {
    hide Importable, Parent, SectionOf, Same, NoRepeats, IdsOf, WellFormed, Pieces, PiecesOf;
    var model := ModelOf(parts);
    SamePiecesAll(document, model);
    ContainerFits(document);
    PiecesAre(document);
    PiecesAre(model);
    ChildrenArePieces(document.content);
    forall c | c in document.content ensures c.Section? && c.part != [] {
      assert MayHold(document, c);
      var d := ChildAcross(document, model, c);
      SamePiecesAll(c, d);
      SectionIsPart(parts, d);
    }
  }

  lemma ChildAcross(s: Node, t: Node, c: Node) returns (d: Node)
    requires SameAll(Pieces(s), Pieces(t)) && Child(c) in Pieces(s)
    ensures Same(c, d) && d in Content(t)
  {
    hide Same, Pieces;
    var i :| 0 <= i < |Pieces(s)| && Pieces(s)[i] == Child(c);
    assert SamePiece(Pieces(s)[i], Pieces(t)[i]) && Pieces(t)[i] in Pieces(t);
    d := Pieces(t)[i].node;
  }

  lemma SectionIsPart(parts: seq<Part>, n: Node)
    requires forall k | 0 <= k < |parts| :: Parent(parts[k]).Some? && parts[k].name != []
    requires n in Content(ModelOf(parts))
    ensures n.Section? && n.part != []
  {
    hide Parent, BlocksOf;
    var model := ModelOf(parts);
    var k :| 0 <= k < |model.content| && model.content[k] == n;
    SectionNamed(parts[k]);
  }

  /** In a document that matches a package no two paragraphs clash. */
  lemma MatchIsSound(document: Node, parts: seq<Part>)
    requires Matches(document, parts) && Archive(parts) && WellFormed(document)
    ensures Sound(KnownIn([], document))
  {
    hide Importable, Parent, SectionOf, Same, NoRepeats, IdsOf, WellFormed, KnownIn, KnownAll, DistinctValues;
    KnownUnmixed([], document);
    SectionsNamed(document, parts);
    ContainerFits(document);
    AllNamed([], document.content);
    DocumentKnown(document);
    var known := KnownIn([], document);
    forall k | 0 <= k < |known| ensures known[k].part != [] { assert known[k] in known; }
  }

  lemma DocumentKnown(n: Node)
    requires n.Doc?
    ensures KnownIn([], n) == KnownAll([], n.content)
  {
    hide KnownAll;
  }

  // ----- validating

  /** A document that may be saved: it keeps the editor's schema, repeats no control, and its review, if any, fits
      it. */
  ghost predicate Validated(document: Node, review: Option<seq<Item>>) {
    && document.Doc? && WellFormed(document) && Distinct(ControlsOf(document))
    && (review.Some? ==> ReviewOk(review.value, EntriesOf(document, 0), ByIdentity(ControlsOf(document))))
  }

  lemma ValidatedFits(document: Node, review: Option<seq<Item>>)
    requires Validated(document, review)
    ensures document.Doc? && WellFormed(document)
  {
    hide WellFormed, Distinct, ReviewOk;
  }

  method Validate(document: Node, review: Option<seq<Item>>) returns (ok: bool)
    ensures ok <==> Validated(document, review)
  {
    hide WellFormed, Distinct, ControlsOf, EntriesOf, ByIdentity, ReviewOk;
    if !document.Doc? {
      return false;
    }
    if review.None? {
      var indexed := Index(document);
      return indexed.Some?;
    }
    ok := ValidateWorking(document, review.value);
  }

  /** The package is read and the document matched to it: the identities of the one by those of the other. */
  method Match(document: Node, parts: seq<Part>) returns (r: Option<(Node, map<Id, Id>)>)
    requires Archive(parts) && document.Doc?
    ensures r.Some? <==> WellFormed(document) && Matches(document, parts)
    ensures r.Some? ==> r.value.0 == ModelOf(parts) && r.value.1 == MapOf(Pairs(document, r.value.0))
  {
    hide Importable, Parent, SectionOf, Same, Pairs, OneToOne, WellFormed, Distinct, ControlsOf, NoRepeats, IdsOf,
      MapOf, TracedAll, BringsItsOwn, LockedAll;
    var package := new DocxPackage();
    var model := package.Load(parts);
    if model.None? {
      return None;
    }
    forall k | 0 <= k < |parts| ensures Parent(parts[k]).Some? { ImportableHas(parts[k]); }
    MatchPairs(document, parts);
    var identities := Correspond(document, model.value);
    r := if identities.Some? then Some((model.value, identities.value)) else None;
  }

  // ----- processing

  /** The discoveries in a document, if there are any, are valid for it. */
  ghost predicate Discovered(document: Node, found: Option<seq<Occurrence>>) {
    found.Some? ==> Sound(KnownIn([], document)) && SnapshotOk(KnownIn([], document), found.value)
  }

  /** `inspect_file`: a document is matched to its package, then searched. It fails exactly where matching does: no two
      paragraphs of a matching document clash, and every snapshot passes its check. An upload is processed exactly if
      the tables of its package are regular. */
  method Inspect(document: Node, parts: seq<Part>, p: Patterns) returns (r: Option<seq<Occurrence>>)
    requires Archive(parts) && document.Doc? && Sensible(p)
    ensures r.Some? <==> WellFormed(document) && Matches(document, parts)
    ensures r.Some? ==> Discovered(document, r) && AllControls(document, r.value)
    ensures r.Some? ==>
      Proper(SpotsIn([], document, 0)) && Complete(SpotsIn([], document, 0), |SpotsIn([], document, 0)|, p, r.value)
    ensures
      (forall k | 0 <= k < |parts| :: Importable(parts[k]) && Parent(parts[k]).Some?) && document == ModelOf(parts) ==>
      (r.Some? <==> forall k | 0 <= k < |parts| :: RegularPart(parts[k]))
  {
    hide Importable, Parent, SectionOf, Matches, WellFormed, RegularPart, SpotsIn, KnownIn, Knowns, ControlsOf,
      Sensible, Proposed, Complete, SnapshotOk, AllControls, Sound, DistinctSpots, Archive, MapOf, Pairs;
    if (forall k | 0 <= k < |parts| :: Importable(parts[k]) && Parent(parts[k]).Some?) && document == ModelOf(parts) {
      ImportMatches(parts);
      ImportFits(parts);
    }
    var matched := Match(document, parts);
    if matched.None? {
      return None;
    }
    MatchIsSound(document, parts);
    var spots := SpotsIn([], document, 0);
    SpotsAgree([], document, 0);
    SoundSpots(spots);
    SoundValues(spots);
    var occurrences := Discover(spots, p);
    ProposedIsValid(document, occurrences);
    var known := Paragraphs(document);
    var valid := ValidateSnapshot(known.value, occurrences);
    assert valid;
    r := Some(occurrences);
  }

  // ----- copying

  /** What a copy starts from: the package's own import, and how the source's identities map to its. */
  datatype PreparedCopy = PreparedCopy(model: Node, identities: map<Id, Id>, controls: map<Id, Handle>)

  /** `prepare`: a validated document is matched to the package saved with it. Nothing else can fail: the copy can
      always be indexed. */
  method Prepare(document: Node, review: Option<seq<Item>>, parts: seq<Part>) returns (r: Option<PreparedCopy>)
    requires Archive(parts)
    ensures r.Some? <==> Validated(document, review) && Matches(document, parts)
    ensures r.Some? ==>
      && r.value.model == ModelOf(parts) && r.value.identities == MapOf(Pairs(document, r.value.model))
      && r.value.controls == ByIdentity(ControlsOf(r.value.model)) && WellFormed(r.value.model)
  {
    hide Importable, Parent, SectionOf, Same, Pairs, WellFormed, Distinct, ControlsOf, EntriesOf, ByIdentity, ReviewOk,
      NoRepeats, IdsOf, MapOf;
    var valid := Validate(document, review);
    if !valid {
      return None;
    }
    var matched := Match(document, parts);
    if matched.None? {
      return None;
    }
    var (model, identities) := matched.value;
    MatchFits(document, parts);
    ImportedControls(parts);
    var indexed := Index(model);
    assert indexed.Some?;
    r := Some(PreparedCopy(model, identities, indexed.value.1));
  }

  /** A copy: its document, and the review and the discoveries it takes along. */
  datatype Copy = Copy(model: Node, review: Option<seq<Item>>, found: Option<seq<Occurrence>>)

  /** Item by item and occurrence by occurrence, what the source had, under the copy's identities. */
  ghost predicate TakenAlong(document: Node, review: Option<seq<Item>>, found: Option<seq<Occurrence>>, version: nat,
                             copy: Copy) {
    && (copy.review.Some? <==> review.Some?) && (copy.found.Some? <==> found.Some?)
    && var pairs := Pairs(document, copy.model);
    && (review.Some? ==> ItemsCopied(review.value, copy.review.value, version, pairs, ControlsOf(copy.model)))
    && (found.Some? ==> OccurrencesCopied(found.value, copy.found.value, pairs))
  }

  /** A copy made whole: prepared, its review bound, its discoveries renamed. It succeeds exactly for a validated
      document that matches its package and whose discoveries are valid, and the copy is again such a document with such
      discoveries, matching the same package: it can be saved, processed and copied in its turn. */
  method CopyDocument(document: Node, review: Option<seq<Item>>, found: Option<seq<Occurrence>>, version: nat,
                      parts: seq<Part>)
    returns (r: Option<Copy>)
    requires Archive(parts)
    ensures r.Some? <==> Validated(document, review) && Matches(document, parts) && Discovered(document, found)
    ensures r.Some? ==> r.value.model == ModelOf(parts) && TakenAlong(document, review, found, version, r.value)
    ensures r.Some? ==>
      Validated(r.value.model, r.value.review) && Matches(r.value.model, parts)
        && Discovered(r.value.model, r.value.found)
  {
    hide Importable, Parent, SectionOf, Same, Pairs, OneToOne, WellFormed, Distinct, ControlsOf, EntriesOf, ByIdentity,
      ReviewOk, NoRepeats, IdsOf, MapOf, Sound, SnapshotOk, KnownIn, ItemsCopied, OccurrencesCopied;
    var prepared := Prepare(document, review, parts);
    if prepared.None? {
      return None;
    }
    var PreparedCopy(model, identities, controls) := prepared.value;
    MatchPairs(document, parts);
    ImportedControls(parts);
    ImportMatches(parts);
    var bound: Option<seq<Item>> := None;
    if review.Some? {
      var items := Bind(document, model, review.value, version, identities, controls);
      bound := Some(items);
    }
    if found.None? {
      return Some(Copy(model, bound, None));
    }
    var moved := RebaseDiscovery(document, model, identities, found.value);
    r := if moved.Some? then Some(Copy(model, bound, moved)) else None;
  }

  // ----- saving

  /** What has been saved matches the package saved with it. */
  lemma SavedMatches(document: Node, parts: seq<Part>, saved: seq<Part>)
    requires Returns(document, parts, saved) && WellFormed(document) && Archive(parts)
    ensures Matches(document, saved) && Archive(saved) && forall k | 0 <= k < |saved| :: RegularPart(saved[k])
  {
    hide Importable, Parent, SectionOf, Same, Pairs, OneToOne, NoRepeats, IdsOf, WellFormed, RegularPart;
    forall k | 0 <= k < |saved|
      ensures saved[k].name != []
    {
      assert saved[k].name == Names(saved)[k] == parts[k].name;
    }
    MatchPairs(document, saved);
    MatchFits(document, saved);
  }

  /** A document through its life: it is saved exactly if it is validated, its controls hold values of their types, as
      `typed` tells, and it can be written; and whatever has been saved can be processed, and copied with all that was
      found in it. */
  method SaveProcessCopy(writer: DocxExport, document: Node, review: Option<seq<Item>>, parts: seq<Part>,
                         roots: seq<Part>, unsupported: seq<Id>, typed: bool, p: Patterns, version: nat)
    returns (saved: Option<seq<Part>>, found: Option<seq<Occurrence>>, copied: Option<Copy>)
    requires writer.Valid() && Archive(parts)
      && forall k | 0 <= k < |parts| :: Importable(parts[k]) && parts[k] in roots
    requires Sourced(writer.elements, writer.known, writer.marks, parts) && Sensible(p)
    requires |PartValues(roots, NativeId, Val)| + Count(document) < MODULUS
      && |UpperValues(roots)| + Count(document) < MODULUS
    modifies writer
    ensures saved.Some? <==> Validated(document, review) && typed && Acceptable(writer, document, parts, unsupported)
    ensures saved.Some? ==>
      Matches(document, saved.value) && forall k | 0 <= k < |saved.value| :: RegularPart(saved.value[k])
    ensures (found.Some? <==> saved.Some?) && (copied.Some? <==> saved.Some?)
    ensures saved.Some? ==>
      && Discovered(document, found) && AllControls(document, found.value)
      && TakenAlong(document, review, found, version, copied.value)
      && Validated(copied.value.model, copied.value.review) && Discovered(copied.value.model, copied.value.found)
  {
    hide Importable, Parent, SectionOf, Same, Pairs, OneToOne, Validated, Matches, Discovered, AllControls, NoRepeats,
      Filed, Harmless, Sourced, PartValues, UpperValues, Count, NewNames, Identified, FittingTexts, Acceptable,
      Unchanged, RegularPart, TakenAlong, WellFormed, Sensible, Returns, Complete, SpotsIn, Names;
    saved, found, copied := None, None, None;
    var valid := Validate(document, review);
    if !valid || !typed {
      return;
    }
    ValidatedFits(document, review);
    saved := Render(writer, document, parts, roots, unsupported);
    if saved.Some? {
      SavedMatches(document, parts, saved.value);
      found := Inspect(document, saved.value, p);
      copied := CopyDocument(document, review, found, version, saved.value);
    }
  }
}
