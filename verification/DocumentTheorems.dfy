/** What the document service promises: chains without gaps, fenced editing, safe files, pruning within the policy. */
module DocumentTheorems {
  import opened Common
  import opened DocumentTables
  import opened DocumentInvariant
  import opened DocumentSteps

  // ----- history

  /** Going back from any version, every smaller number is met. */
  lemma {:induction false} Ancestor(s: State, v: Uuid, k: nat) returns (w: Uuid)
    requires RowsOk(s) && v in s.versions && 1 <= k <= s.versions[v].number
    ensures w in s.versions && s.versions[w].document == s.versions[v].document && s.versions[w].number == k
    decreases s.versions[v].number
  {
    if s.versions[v].number == k {
      w := v;
    } else {
      assert VersionOk(s, v);
      w := Ancestor(s, s.versions[v].parent.value, k);
    }
  }

  ghost predicate HasNumber(s: State, d: Uuid, k: nat) {
    exists v :: v in s.versions && s.versions[v].document == d && s.versions[v].number == k
  }

  /** The place of one version in its document's history of `n` revisions. */
  ghost predicate InChain(s: State, d: Uuid, v: Uuid, n: nat)
    requires d in s.documents && v in s.versions
  {
    var row, doc := s.versions[v], s.documents[d];
    && 1 <= row.number <= n
    && (row.number == n <==> v == doc.current)
    && (row.number == 1 <==> row.parent == None)
    && (row.number == 1 <==> row.file == doc.original)
    && (row.parent.Some? ==>
          row.parent.value in s.versions && s.versions[row.parent.value].document == d
          && s.versions[row.parent.value].number == row.number - 1)
  }

  lemma VersionInChain(s: State, d: Uuid, v: Uuid)
    requires RowsOk(s) && d in s.documents && v in s.versions && s.versions[v].document == d
    ensures s.documents[d].current in s.versions && s.versions[s.documents[d].current].document == d
    ensures InChain(s, d, v, s.versions[s.documents[d].current].number)
  {
    assert DocumentOk(s, d) && VersionOk(s, v);
    assert s.versions[v].parent.Some? ==> VersionOk(s, s.versions[v].parent.value);
    assert VersionOk(s, VersionOf(s.documents[d].original)) && VersionOk(s, s.documents[d].current);
  }

  /** A document's versions are numbered 1 to n without gap or repetition, each the child of the one before, and the
      current one is the last: no committed revision is ever overwritten. */
  lemma HistoryIsChain(t: State, d: Uuid)
    requires Reachable(t) && d in t.documents
    ensures t.documents[d].current in t.versions
    ensures var n := t.versions[t.documents[d].current].number;
      && (forall v | v in t.versions && t.versions[v].document == d :: InChain(t, d, v, n))
      && (forall v, w | v in t.versions && w in t.versions && t.versions[v].document == d && t.versions[w].document == d
            && t.versions[v].number == t.versions[w].number :: v == w)
      && (forall k {:trigger HasNumber(t, d, k)} | 1 <= k <= n :: HasNumber(t, d, k))
  {
    hide InChain, VersionOk, SafeOk, JobsOk, LeasesOk, CommitsOk, ClaimsOk;
    ReachableInv(t);
    CurrentOf(t, d);
    var n := t.versions[t.documents[d].current].number;
    forall v | v in t.versions && t.versions[v].document == d ensures InChain(t, d, v, n) { VersionInChain(t, d, v); }
    forall k {:trigger HasNumber(t, d, k)} | 1 <= k <= n ensures HasNumber(t, d, k) {
      var w := Ancestor(t, t.documents[d].current, k);
    }
  }

  // ----- editing leases

  /** A lease always stands for the document's current revision. */
  lemma LeaseTracksCurrent(t: State, d: Uuid)
    requires Reachable(t) && d in t.leases
    ensures d in t.documents && t.documents[d].state == Active && t.leases[d].source == t.documents[d].current
  {
    ReachableInv(t);
    assert LeaseOk(t, d);
  }

  /** The generation has been handed out and no longer holds the document, or has expired. */
  predicate Retired(s: State, d: Uuid, generation: Uuid) {
    && generation < s.issued
    && (d in s.leases && s.leases[d].generation == generation ==> s.leases[d].expires <= s.clock)
  }

  /** A document's lease after a step is the earlier one, prolonged only while it was live, or carries a generation
      issued by that step. */
  ghost predicate FreshLease(s: State, t: State, d: Uuid) {
    && s.issued <= t.issued && s.clock <= t.clock
    && (d in t.leases ==>
          || t.leases[d].generation >= s.issued
          || (d in s.leases && t.leases[d].generation == s.leases[d].generation
              && (t.leases[d].expires == s.leases[d].expires || s.leases[d].expires > s.clock)))
  }

  lemma RowsLeases(s: State, a: Action, d: Uuid)
    requires a.UploadAction? || a.CopyAction? || a.CommitAction? || a.SubmitAction?
    ensures FreshLease(s, Apply(s, a), d)
  {
    hide Intent, CopyIntent, Restorable, Invalidated;
    match a
    case UploadAction(owner) => IntentLeases(Created(s, owner), owner, DocumentOf(s.issued), VersionOf(s.issued));
    case CopyAction(owner, source, v) =>
      CopyLeases(Created(s, owner), owner, source, v, DocumentOf(s.issued), VersionOf(s.issued));
    case SubmitAction(owner, document) =>
      if document in s.documents {
        IntentLeases(s, owner, document, s.documents[document].current);
      }
    case CommitAction(owner, document, h, from) =>
      if Commit(s, owner, document, h, from).Ok? {
        IntentLeases(Advanced(s, owner, document, h, from), owner, document, VersionOf(s.issued));
      }
  }

  lemma IntentLeases(s: State, owner: Uuid, d: Uuid, v: Uuid)
    ensures Intent(s, owner, d, v).Ok? ==>
      var t := Intent(s, owner, d, v).value; t.leases == s.leases && t.clock == s.clock && s.issued <= t.issued
  {
    hide FindJob, ActiveJobs, Requeued;
  }

  lemma CopyLeases(s: State, owner: Uuid, source: Uuid, from: Uuid, d: Uuid, v: Uuid)
    ensures CopyIntent(s, owner, source, from, d, v).Ok? ==>
      var t := CopyIntent(s, owner, source, from, d, v).value;
        t.leases == s.leases && t.clock == s.clock && s.issued <= t.issued
  {
    hide FindJob, Intent;
    IntentLeases(s, owner, d, v);
  }

  lemma StateLeases(s: State, a: Action, d: Uuid)
    requires a.TrashAction? || a.UntrashAction? || a.EmptyAction? || a.PurgeAction? || a.FinishDeleteAction?
      || a.PruneAction? || a.ConfigureAction? || a.UserAction? || a.TickAction?
    ensures FreshLease(s, Apply(s, a), d)
  {
    hide Retained, SharedFile, SharedCandidate, Eligible;
  }

  lemma LeasesComeFresh(s: State, a: Action, d: Uuid)
    ensures FreshLease(s, Apply(s, a), d)
  {
    if a.LeaseChange? {
      hide Readable;
    } else if a.UploadAction? || a.CopyAction? || a.CommitAction? || a.SubmitAction? {
      hide Apply;
      RowsLeases(s, a, d);
    } else if a.ClaimAction? || a.FinishAction? || a.ExpireAction? || a.LostAction? {
    } else {
      hide Apply;
      StateLeases(s, a, d);
    }
  }

  lemma {:induction false} RetiredStays(s: State, actions: seq<Action>, d: Uuid, generation: Uuid)
    requires Retired(s, d, generation)
    ensures Retired(Run(s, actions), d, generation)
    decreases |actions|
  {
    hide Apply;
    if actions != [] {
      LeasesComeFresh(s, actions[0], d);
      RetiredStays(Apply(s, actions[0]), actions[1..], d, generation);
    }
  }

  /** A replaced, released or expired generation never renews or commits again, whatever happens in between. */
  lemma RetiredIsPowerless(s: State, actions: seq<Action>, d: Uuid, owner: Uuid, h: Holder, alive: bool,
                           from: Option<Uuid>)
    requires h.generation.Some? && Retired(s, d, h.generation.value)
    ensures var t := Run(s, actions);
      ChangeLease(t, owner, d, Renew, h, alive).Err? && Commit(t, owner, d, h, from).Err?
  {
    RetiredStays(s, actions, d, h.generation.value);
  }

  /** Taking over, releasing and trashing retire the generation that held the document. */
  lemma Retires(s: State, a: Action, d: Uuid)
    requires Inv(s) && d in s.leases
    requires d !in Apply(s, a).leases || Apply(s, a).leases[d].generation != s.leases[d].generation
    ensures Retired(Apply(s, a), d, s.leases[d].generation)
  {
    hide Apply, RowsOk, SafeOk, JobsOk, ClaimsOk, CommitsOk;
    assert LeaseOk(s, d);
    LeasesComeFresh(s, a, d);
  }

  /** Any commit between two commits of one generation used that generation too: nobody's edit is interleaved. */
  lemma NoInterleavedCommit(t: State, i: nat, j: nat, k: nat)
    requires Reachable(t) && i < j < k < |t.commits|
    requires t.commits[i].document == t.commits[j].document == t.commits[k].document
    requires t.commits[i].generation == t.commits[k].generation
    ensures t.commits[j].generation == t.commits[i].generation
  {
    ReachableInv(t);
  }

  /** A commit succeeds only for the editor holding the lease on the revision it replaces, and makes that revision the
      parent of the new current one. */
  lemma CommitByHolder(s: State, owner: Uuid, d: Uuid, h: Holder, from: Option<Uuid>)
    requires Commit(s, owner, d, h, from).Ok?
    ensures d in s.leases && h.generation == Some(s.leases[d].generation) && s.leases[d].expires > s.clock
    ensures var t := Commit(s, owner, d, h, from).value;
      && d in t.documents && t.documents[d].current !in s.versions.Keys - {VersionOf(s.issued)}
      && t.documents[d].current in t.versions
      && t.versions[t.documents[d].current].parent == Some(s.documents[d].current)
      && t.versions[t.documents[d].current].restoredFrom == from
      && d in t.leases && t.leases[d].source == t.documents[d].current
      && t.leases[d].generation == s.leases[d].generation
      && t.commits == s.commits + [CommitRecord(d, s.leases[d].generation, t.documents[d].current)]
  {
    hide FindJob, ActiveJobs;
  }

  // ----- files

  /** A file belongs to exactly one version. */
  lemma OneVersionPerFile(t: State, f: Uuid)
    requires Reachable(t) && f in t.files
    ensures VersionOf(f) in t.versions && t.versions[VersionOf(f)].file == f
    ensures forall v | v in t.versions && t.versions[v].file == f :: v == VersionOf(f)
  {
    ReachableInv(t);
    assert FileOk(t, f) && VersionOk(t, VersionOf(f));
    assert forall v | v in t.versions :: VersionOk(t, v);
  }

  predicate FileReady(s: State, v: Uuid) {
    v in s.versions && s.versions[v].file in s.files && s.files[s.versions[v].file].state == Ready
  }

  lemma LivingVersion(s: State, d: Uuid, v: Uuid)
    requires RowsOk(s) && SafeOk(s) && d in s.documents && v in s.versions && s.versions[v].document == d
    ensures s.versions[v].file in s.files
    ensures s.documents[d].state == Deleted ==> !FileReady(s, v)
    ensures s.documents[d].state != Deleted && (s.versions[v].number == 1 || v == s.documents[d].current) ==>
      FileReady(s, v)
  {
    assert VersionOk(s, v) && VersionSafe(s, v);
  }

  /** A document that is not deleted has its original and its current file; a deleted one has none. */
  lemma LivingFilesReady(t: State, d: Uuid)
    requires Reachable(t) && d in t.documents
    ensures t.documents[d].state != Deleted ==>
      && FileReady(t, t.documents[d].current)
      && t.documents[d].original in t.files && t.files[t.documents[d].original].state == Ready
    ensures t.documents[d].state == Deleted ==>
      forall v | v in t.versions && t.versions[v].document == d :: t.versions[v].file in t.files && !FileReady(t, v)
  {
    hide VersionOk, SafeOk, JobsOk, LeasesOk, CommitsOk, ClaimsOk;
    ReachableInv(t);
    assert DocumentOk(t, d);
    var first := VersionOf(t.documents[d].original);
    LivingVersion(t, d, t.documents[d].current);
    LivingVersion(t, d, first);
    assert t.versions[first].file == t.documents[d].original by { VersionFile(t, first); }
    forall v | v in t.versions && t.versions[v].document == d
      ensures t.versions[v].file in t.files && (t.documents[d].state == Deleted ==> !FileReady(t, v))
    {
      LivingVersion(t, d, v);
    }
  }

  /** The guards against shared files never fire. */
  lemma GuardsNeverFire(t: State, owner: Uuid, d: Uuid, c: Candidate)
    requires Reachable(t) && d in t.documents && t.documents[d].owner == owner
    ensures !SharedFile(t, owner, d) && Purge(t, owner, d, false, false).Ok?
    ensures t.keepLatest.Some? && Eligible(t, t.keepLatest.value, c) && c.document == t.versions[c.version].document
            ==> !SharedCandidate(t, c)
  {
    ReachableInv(t);
    NothingShared(t, owner, d);
    if t.keepLatest.Some? && Eligible(t, t.keepLatest.value, c) && c.document == t.versions[c.version].document {
      assert VersionOk(t, c.version);
      forall e | e in t.documents && e != c.document ensures t.documents[e].original != c.file {
        assert DocumentOk(t, e);
      }
      forall v | v in t.versions && t.versions[v].file == c.file ensures v == c.version { assert VersionOk(t, v); }
    }
  }

  // ----- retention

  /** Pruning so far has respected a policy of keeping `keep` revisions. */
  ghost predicate Kept(s: State, keep: nat) {
    forall v {:trigger KeptVersion(s, keep, v)} | v in s.versions :: KeptVersion(s, keep, v)
  }

  ghost predicate KeptVersion(s: State, keep: nat, v: Uuid)
    requires v in s.versions
  {
    var row := s.versions[v];
    row.document in s.documents && s.documents[row.document].state != Deleted
    && s.documents[row.document].current in s.versions && row.file in s.files
    && (row.number == 1 || row.number + keep > s.versions[s.documents[row.document].current].number)
    ==> s.files[row.file].state == Ready
  }

  predicate AtLeast(policy: Option<nat>, keep: nat) {
    policy.None? || policy.value >= keep
  }

  lemma SameFilesKept(s: State, t: State, keep: nat)
    requires Inv(s) && Kept(s, keep) && t.files == s.files && SameRows(s, t)
    requires forall d | d in s.documents :: s.documents[d].state == Deleted ==> t.documents[d].state == Deleted
    ensures Kept(t, keep)
  {
    hide SafeOk, LeasesOk, JobsOk, ClaimsOk, CommitsOk;
    forall v | v in t.versions
      ensures KeptVersion(t, keep, v)
    {
      assert KeptVersion(s, keep, v) && VersionOk(s, v);
    }
  }

  lemma CreatedKept(s: State, owner: Uuid, keep: nat)
    requires Inv(s) && Kept(s, keep)
    ensures Kept(Created(s, owner), keep)
  {
    hide SafeOk, LeasesOk, JobsOk, ClaimsOk, CommitsOk;
    var t := Created(s, owner);
    Unused(s);
    KnownDocuments(s);
    forall v | v in t.versions
      ensures KeptVersion(t, keep, v)
    {
      if v in s.versions {
        assert KeptVersion(s, keep, v) && VersionOk(s, v);
      }
    }
  }

  lemma AdvancedKept(s: State, owner: Uuid, d: Uuid, h: Holder, from: Option<Uuid>, keep: nat)
    requires Inv(s) && Kept(s, keep) && Committing(s, owner, d, h)
    ensures Kept(Advanced(s, owner, d, h, from), keep)
  {
    hide SafeOk, LeasesOk, JobsOk, ClaimsOk, CommitsOk;
    var t := Advanced(s, owner, d, h, from);
    Unused(s);
    forall v | v in t.versions
      ensures KeptVersion(t, keep, v)
    {
      if v in s.versions {
        assert KeptVersion(s, keep, v) && VersionOk(s, v);
      }
    }
  }

  lemma PruneKept(s: State, c: Candidate, keep: nat)
    requires Inv(s) && Kept(s, keep) && AtLeast(s.keepLatest, keep) && Prune(s, c).Ok?
    ensures Kept(Prune(s, c).value, keep)
  {
    hide SafeOk, LeasesOk, JobsOk, ClaimsOk, CommitsOk, SharedCandidate;
    var t := Prune(s, c).value;
    forall v | v in t.versions
      ensures KeptVersion(t, keep, v)
    {
      assert KeptVersion(s, keep, v) && VersionOk(s, v);
      assert c.version in s.versions ==> VersionOk(s, c.version);
    }
  }

  lemma EraseKept(s: State, owner: Uuid, d: Uuid, keep: nat)
    requires Inv(s) && Kept(s, keep) && d in s.documents && s.documents[d].owner == owner
    ensures Kept(Erased(s, owner, d), keep)
  {
    hide SafeOk, LeasesOk, JobsOk, ClaimsOk, CommitsOk, Retained;
    var t := Erased(s, owner, d);
    forall v | v in t.versions
      ensures KeptVersion(t, keep, v)
    {
      assert KeptVersion(s, keep, v) && VersionOk(s, v);
      OwnFiles(s, owner, d, v);
    }
  }

  lemma FinishKept(s: State, f: Uuid, keep: nat)
    requires Inv(s) && Kept(s, keep)
    ensures Kept(FinishDelete(s, f), keep)
  {
    hide SafeOk, LeasesOk, JobsOk, ClaimsOk, CommitsOk;
    var t := FinishDelete(s, f);
    forall v | v in t.versions
      ensures KeptVersion(t, keep, v)
    {
      assert KeptVersion(s, keep, v) && VersionOk(s, v);
    }
  }

  lemma IntentKept(s: State, owner: Uuid, d: Uuid, v: Uuid, keep: nat)
    requires Inv(s) && Kept(s, keep) && Intent(s, owner, d, v).Ok?
    ensures Kept(Intent(s, owner, d, v).value, keep)
  {
    hide ActiveJobs, FindJob, RowsOk, SafeOk, LeasesOk, JobsOk, ClaimsOk, CommitsOk;
    SameFilesKept(s, Intent(s, owner, d, v).value, keep);
  }

  lemma CommitKept(s: State, owner: Uuid, d: Uuid, h: Holder, from: Option<Uuid>, keep: nat)
    requires Inv(s) && Kept(s, keep) && Commit(s, owner, d, h, from).Ok?
    ensures Kept(Commit(s, owner, d, h, from).value, keep)
  {
    hide Intent, Restorable, Kept, RowsOk, SafeOk, LeasesOk, JobsOk, ClaimsOk, CommitsOk;
    AdvancedKept(s, owner, d, h, from, keep);
    AdvancedInv(s, owner, d, h, from);
    IntentKept(Advanced(s, owner, d, h, from), owner, d, VersionOf(s.issued), keep);
  }

  lemma AdvancedInv(s: State, owner: Uuid, d: Uuid, h: Holder, from: Option<Uuid>)
    requires Inv(s) && Committing(s, owner, d, h)
    ensures Inv(Advanced(s, owner, d, h, from))
  {
    hide RowsOk, SafeOk, LeasesOk, JobsOk, ClaimsOk, CommitsOk;
    AdvancedRows(s, owner, d, h, from);
    AdvancedJobs(s, owner, d, h, from);
    AdvancedLeases(s, owner, d, h, from);
  }

  lemma CreationKept(s: State, a: Action, keep: nat)
    requires Inv(s) && Kept(s, keep) && (a.UploadAction? || a.CopyAction?)
    ensures Kept(Apply(s, a), keep)
  {
    hide Intent, FindJob, Kept, RowsOk, SafeOk, LeasesOk, JobsOk, ClaimsOk, CommitsOk;
    var t, created := Apply(s, a), Created(s, a.owner);
    if t != s {
      CreatedKept(s, a.owner, keep);
      CreatedStep(s, a.owner);
      if Intent(created, a.owner, DocumentOf(s.issued), VersionOf(s.issued)).Ok? {
        IntentKept(created, a.owner, DocumentOf(s.issued), VersionOf(s.issued), keep);
      }
      if t.files == created.files && t.documents == created.documents && SameRows(created, t) {
        SameFilesKept(created, t, keep);
      }
    }
  }

  /** Actions after which the same files exist in the same states. */
  predicate FileQuiet(a: Action) {
    !(a.UploadAction? || a.CopyAction? || a.CommitAction? || a.PurgeAction? || a.FinishDeleteAction? || a.PruneAction?)
  }

  ghost predicate SameFiles(s: State, t: State) {
    && t.files == s.files && SameRows(s, t)
    && forall d | d in s.documents :: s.documents[d].state == Deleted ==> t.documents[d].state == Deleted
  }

  lemma QuietJobs(s: State, a: Action)
    requires a.SubmitAction? || a.ClaimAction? || a.FinishAction? || a.ExpireAction? || a.LostAction?
    ensures SameFiles(s, Apply(s, a))
  {
    hide SameFiles, Submit, Claim, Finish, Expire, Lost;
    SameFilesSelf(s);
    if a.SubmitAction? {
      SubmitFiles(s, a.owner, a.document);
    } else {
      WorkFiles(s, a);
    }
  }

  lemma SubmitFiles(s: State, owner: Uuid, d: Uuid)
    ensures Submit(s, owner, d).Ok? ==> SameFiles(s, Submit(s, owner, d).value)
  {
    hide FindJob, ActiveJobs, Requeued;
  }

  lemma WorkFiles(s: State, a: Action)
    requires a.ClaimAction? || a.FinishAction? || a.ExpireAction? || a.LostAction?
    ensures SameFiles(s, Apply(s, a))
  {
    hide StaleJob, SameFiles;
    JobFiles(s, Apply(s, a));
  }

  lemma JobFiles(s: State, t: State)
    requires t == s.(jobs := t.jobs, claims := t.claims)
    ensures SameFiles(s, t)
  {
  }

  lemma QuietTrash(s: State, a: Action)
    requires a.TrashAction? || a.UntrashAction? || a.EmptyAction?
    ensures SameFiles(s, Apply(s, a))
  {
    hide SameFiles, Trash, Untrash, EmptyTrash;
    SameFilesSelf(s);
    match a
    case TrashAction(owner, d) => TrashFiles(s, owner, d);
    case UntrashAction(owner, d) => UntrashFiles(s, owner, d);
    case EmptyAction(owner) => EmptyFiles(s, owner);
  }

  lemma SameFilesSelf(s: State)
    ensures SameFiles(s, s)
  {
  }

  lemma TrashFiles(s: State, owner: Uuid, d: Uuid)
    ensures Trash(s, owner, d).Ok? ==> SameFiles(s, Trash(s, owner, d).value)
  {
  }

  lemma UntrashFiles(s: State, owner: Uuid, d: Uuid)
    ensures Untrash(s, owner, d).Ok? ==> SameFiles(s, Untrash(s, owner, d).value)
  {
  }

  lemma EmptyFiles(s: State, owner: Uuid)
    ensures EmptyTrash(s, owner).Ok? ==> SameFiles(s, EmptyTrash(s, owner).value)
  {
  }

  lemma QuietFiles(s: State, a: Action)
    requires FileQuiet(a)
    ensures SameFiles(s, Apply(s, a))
  {
    if a.SubmitAction? || a.ClaimAction? || a.FinishAction? || a.ExpireAction? || a.LostAction? {
      hide Apply, SameFiles;
      QuietJobs(s, a);
    } else if a.TrashAction? || a.UntrashAction? || a.EmptyAction? {
      hide Apply, SameFiles;
      QuietTrash(s, a);
    } else {
      hide Readable;
    }
  }

  /** One step keeps the promise as long as the policy never asks for less. */
  lemma KeptStep(s: State, a: Action, keep: nat)
    requires Inv(s) && Kept(s, keep) && AtLeast(s.keepLatest, keep)
    ensures Kept(Apply(s, a), keep)
  {
    hide Inv, Kept, Erased, Commit, Prune, FinishDelete, SharedFile;
    if FileQuiet(a) {
      QuietFiles(s, a);
      hide Apply;
      SameFilesKept(s, Apply(s, a), keep);
    } else if a.UploadAction? || a.CopyAction? {
      CreationKept(s, a, keep);
    } else if a.CommitAction? {
      if Commit(s, a.owner, a.document, a.holder, a.restoredFrom).Ok? {
        CommitKept(s, a.owner, a.document, a.holder, a.restoredFrom, keep);
      }
    } else if a.PurgeAction? {
      if Apply(s, a) != s { EraseKept(s, a.owner, a.document, keep); }
    } else if a.PruneAction? {
      if Prune(s, a.candidate).Ok? { PruneKept(s, a.candidate, keep); }
    } else {
      FinishKept(s, a.file, keep);
    }
  }

  predicate Configured(a: Action, keep: nat) {
    a.ConfigureAction? ==> AtLeast(a.keepLatest, keep)
  }

  lemma PolicyStep(s: State, a: Action, keep: nat)
    requires AtLeast(s.keepLatest, keep) && Configured(a, keep)
    ensures AtLeast(Apply(s, a).keepLatest, keep)
  {
    if a.UploadAction? || a.CopyAction? || a.SubmitAction? || a.CommitAction? {
      hide Apply, AtLeast;
      RowsPolicy(s, a);
    } else {
      hide Retained, SharedFile, SharedCandidate, Eligible, Readable, AtLeast, StaleJob;
    }
  }

  lemma RowsPolicy(s: State, a: Action)
    requires a.UploadAction? || a.CopyAction? || a.SubmitAction? || a.CommitAction?
    ensures Apply(s, a).keepLatest == s.keepLatest
  {
    hide FindJob, ActiveJobs, Restorable, Requeued, Invalidated, HolderRefusal;
  }

  /** While the policy keeps at least `keep` revisions, the first version and the last `keep` ones of every document
      that is not deleted stay readable, whatever is saved, restored, trashed, purged and pruned meanwhile. */
  lemma {:induction false} PruningRespectsPolicy(s: State, actions: seq<Action>, keep: nat)
    requires Inv(s) && Kept(s, keep) && AtLeast(s.keepLatest, keep)
    requires forall i | 0 <= i < |actions| :: Configured(actions[i], keep)
    ensures Kept(Run(s, actions), keep)
    decreases |actions|
  {
    hide Inv, Kept, Apply;
    if actions != [] {
      ApplyStep(s, actions[0]);
      KeptStep(s, actions[0], keep);
      PolicyStep(s, actions[0], keep);
      PruningRespectsPolicy(Apply(s, actions[0]), actions[1..], keep);
    }
  }

  // ----- permanent deletion

  /** Deletion is for good. */
  lemma DeletedStep(s: State, a: Action, d: Uuid)
    requires Inv(s) && d in s.documents && s.documents[d].state == Deleted
    ensures d in Apply(s, a).documents && Apply(s, a).documents[d].state == Deleted
  {
    hide SafeOk, LeasesOk, JobsOk, ClaimsOk, CommitsOk, RowsOk, Apply;
    if FileQuiet(a) {
      QuietFiles(s, a);
    } else {
      DeletedMoves(s, a, d);
    }
  }

  lemma DeletedMoves(s: State, a: Action, d: Uuid)
    requires RowsOk(s) && d in s.documents && s.documents[d].state == Deleted
    requires !FileQuiet(a)
    ensures d in Apply(s, a).documents && Apply(s, a).documents[d].state == Deleted
  {
    Unused(s);
    if a.UploadAction? || a.CopyAction? || a.CommitAction? {
      hide Apply, RowsOk;
      DeletedRows(s, a, d);
    } else {
      hide RowsOk, Retained, SharedFile, SharedCandidate, Eligible;
    }
  }

  lemma DeletedRows(s: State, a: Action, d: Uuid)
    requires d in s.documents && s.documents[d].state == Deleted && d < s.issued
    requires a.UploadAction? || a.CopyAction? || a.CommitAction?
    ensures d in Apply(s, a).documents && Apply(s, a).documents[d].state == Deleted
  {
    hide FindJob, ActiveJobs, Restorable, Invalidated, Requeued;
  }

  lemma {:induction false} DeletedForever(s: State, actions: seq<Action>, d: Uuid)
    requires Inv(s) && d in s.documents && s.documents[d].state == Deleted
    ensures var t := Run(s, actions);
      && d in t.documents && t.documents[d].state == Deleted && d !in t.leases
      && forall v | v in t.versions && t.versions[v].document == d ::
           t.versions[v].file in t.files && t.files[t.versions[v].file].state != Ready
    decreases |actions|
  {
    hide Apply, DocumentOk, JobsOk, ClaimsOk, CommitsOk;
    if actions != [] {
      ApplyStep(s, actions[0]);
      DeletedStep(s, actions[0], d);
      DeletedForever(Apply(s, actions[0]), actions[1..], d);
    } else {
      assert d in s.leases ==> LeaseOk(s, d);
      forall v | v in s.versions && s.versions[v].document == d ensures VersionOk(s, v) && VersionSafe(s, v) {}
    }
  }
}
