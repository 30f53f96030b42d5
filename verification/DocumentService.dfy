/** The document and job services as an object whose methods change the tables row by row. A method's contract ties it
    to its transaction, about which the theorems on runs speak, and says what its caller gets from a sound state. */
module DocumentService {
  import opened Common
  import opened DocumentTables
  import opened DocumentInvariant
  import opened DocumentSteps
  import opened DocumentTheorems
  import opened DocumentContracts

  /** Some run of transactions leads from one state of the tables to the other. */
  ghost predicate Leads(s: State, t: State) {
    exists actions :: Run(s, actions) == t
  }

  lemma {:induction false} RunConcat(s: State, a: seq<Action>, b: seq<Action>)
    ensures Run(s, a + b) == Run(Run(s, a), b)
    decreases |a|
  {
    hide Apply;
    if a == [] {
      assert a + b == b;
    } else {
      assert (a + b)[1..] == a[1..] + b;
      RunConcat(Apply(s, a[0]), a[1..], b);
    }
  }

  lemma LeadsBoth(s: State, u: State, t: State)
    requires Leads(s, u) && Leads(u, t)
    ensures Leads(s, t)
  {
    var a :| Run(s, a) == u;
    var b :| Run(u, b) == t;
    RunConcat(s, a, b);
  }

  lemma LeadsOn(s: State, u: State, a: Action)
    requires Leads(s, u)
    ensures Leads(s, Apply(u, a))
  {
    hide Apply;
    assert Run(u, [a]) == Run(Apply(u, a), []);
    LeadsBoth(s, u, Apply(u, a));
  }

  lemma LeadsNowhere(s: State)
    ensures Leads(s, s)
  {
    assert Run(s, []) == s;
  }

  lemma IntentSound(s: State, owner: Uuid, document: Uuid, version: Uuid)
    requires Inv(s) && document in s.documents && s.documents[document].owner == owner
      && s.documents[document].current == version
    ensures var r := DocumentTables.Intent(s, owner, document, version);
      Inv(OrElse(r, s)) && IntentGives(s, OrElse(r, s), owner, document, version, RefusalOf(r))
  {
    hide RowsOk, SafeOk, LeasesOk, JobsOk, ClaimsOk, CommitsOk, DocumentTables.Intent, IntentGives;
    IntentContract(s, owner, document, version);
    if DocumentTables.Intent(s, owner, document, version).Ok? {
      IntentStep(s, owner, document, version);
    }
  }

  lemma AdvancedCurrent(s: State, owner: Uuid, d: Uuid, h: Holder, from: Option<Uuid>)
    requires Committing(s, owner, d, h)
    ensures var t := Advanced(s, owner, d, h, from);
      d in t.documents && t.documents[d].owner == owner && t.documents[d].current == VersionOf(s.issued)
  {
  }

  lemma CreatedCurrent(s: State, owner: Uuid)
    ensures var t, d := Created(s, owner), DocumentOf(s.issued);
      && d in t.documents && t.documents[d].owner == owner && t.documents[d].current == VersionOf(s.issued)
      && t == s.(documents := t.documents, versions := t.versions, files := t.files, issued := t.issued)
      && (forall e | e in s.documents && e != d :: e in t.documents && t.documents[e] == s.documents[e])
  {
  }

  class Workspace {
    var users: set<Uuid>
    var documents: map<Uuid, Document>
    var versions: map<Uuid, Version>
    var leases: map<Uuid, Lease>
    var files: map<Uuid, File>
    var jobs: map<Uuid, Job>
    var keepLatest: Option<nat>
    var clock: nat
    var issued: nat
    var commits: seq<CommitRecord>
    var claims: seq<ClaimRecord>

    constructor ()
      ensures Init(Tables()) && Valid()
    {
      users, documents, versions, leases, files, jobs := {}, map[], map[], map[], map[], map[];
      keepLatest, clock, issued, commits, claims := None, 0, 0, [], [];
      new;
      InitInv(Tables());
    }

    function Tables(): State
      reads this
    {
      State(users, documents, versions, leases, files, jobs, keepLatest, clock, issued, commits, claims)
    }

    ghost predicate Valid()
      reads this
    {
      Inv(Tables())
    }

    // ----- processing intents

    /** `intent`, inside the transaction of a caller that has the document's row. */
    method Intent(owner: Uuid, document: Uuid, version: Uuid) returns (refusal: Option<Refusal>)
      requires Valid()
      requires document in documents && documents[document].owner == owner && documents[document].current == version
      modifies this`jobs, this`issued
      ensures refusal == RefusalOf(DocumentTables.Intent(old(Tables()), owner, document, version))
      ensures Tables() == OrElse(DocumentTables.Intent(old(Tables()), owner, document, version), old(Tables()))
      ensures Valid() && IntentGives(old(Tables()), Tables(), owner, document, version, refusal)
    {
      hide Inv, IntentGives, ActiveJobs;
      IntentSound(Tables(), owner, document, version);
      var existing := FindJob(jobs, document, version, issued);
      if existing.Some? {
        var row := jobs[existing.value];
        if row.status != Failed && !(row.status == Succeeded && !row.snapshot) {
          return None;
        }
      }
      if |ActiveJobs(jobs, owner)| >= ACTIVE_JOBS {
        return Some(RateLimited);
      }
      if existing.Some? {
        jobs := jobs[existing.value := Requeued(jobs[existing.value])];
      } else {
        jobs := jobs[issued := Job(document, owner, version, Queued, 1, 3, None, false)];
        issued := issued + 1;
      }
      refusal := None;
    }

    method Submit(owner: Uuid, document: Uuid) returns (refusal: Option<Refusal>)
      requires Valid()
      modifies this`jobs, this`issued
      ensures refusal == RefusalOf(DocumentTables.Submit(old(Tables()), owner, document))
      ensures Tables() == Apply(old(Tables()), SubmitAction(owner, document))
      ensures Valid()
      ensures if old(MayEdit(Tables(), owner, document))
              then IntentGives(old(Tables()), Tables(), owner, document, documents[document].current, refusal)
              else
                && Tables() == old(Tables())
                && refusal == Some(if owner in old(users) then NotFound else Unauthenticated)
    {
      hide Inv, IntentGives, DocumentTables.Intent;
      if owner !in users {
        return Some(Unauthenticated);
      }
      if document !in documents || documents[document].owner != owner || documents[document].state != Active {
        return Some(NotFound);
      }
      refusal := Intent(owner, document, documents[document].current);
    }

    // ----- uploads and copies

    /** The rows a stored original adds. */
    method Create(owner: Uuid) returns (document: Uuid)
      modifies this`documents, this`versions, this`files, this`issued
      ensures Tables() == Created(old(Tables()), owner) && document == DocumentOf(old(issued))
    {
      var file := issued;
      document := DocumentOf(file);
      files := files[file := File(owner, Ready)];
      documents := documents[document := Document(owner, file, VersionOf(file), Active)];
      versions := versions[VersionOf(file) := Version(document, owner, file, 1, None, None, false)];
      issued := issued + 3;
    }

    /** The upload inside a store's transaction. */
    method Upload(owner: Uuid) returns (r: Result<Uuid, Refusal>)
      requires Valid()
      modifies this`documents, this`versions, this`files, this`jobs, this`issued
      ensures Tables() == Apply(old(Tables()), UploadAction(owner))
      ensures Valid() && UploadGives(old(Tables()), Tables(), owner, r)
    {
      hide Inv, UploadGives, IntentGives, DocumentTables.Intent, Created;
      ApplyStep(Tables(), UploadAction(owner));
      UploadContract(Tables(), owner);
      CreatedStep(Tables(), owner);
      if owner !in users {
        return Err(Unauthenticated);
      }
      var before := Tables();
      CreatedCurrent(before, owner);
      var document := Create(owner);
      var refusal := Intent(owner, document, documents[document].current);
      if refusal.Some? {
        RollbackCreation(before);
        return Err(refusal.value);
      }
      r := Ok(document);
    }

    /** The copy inside a store's transaction: what was found in the source is taken along. */
    method Copy(owner: Uuid, source: Uuid, from: Uuid) returns (r: Result<Uuid, Refusal>)
      requires Valid()
      modifies this`documents, this`versions, this`files, this`jobs, this`issued
      ensures Tables() == Apply(old(Tables()), CopyAction(owner, source, from))
      ensures Valid() && CopyGives(old(Tables()), Tables(), owner, source, from, r)
    {
      hide Inv, CopyGives, IntentGives, DocumentTables.Intent, Created, FindJob;
      ApplyStep(Tables(), CopyAction(owner, source, from));
      CopyContract(Tables(), owner, source, from);
      CreatedStep(Tables(), owner);
      if owner !in users {
        return Err(Unauthenticated);
      }
      if source !in documents || documents[source].owner != owner || documents[source].state != Active {
        return Err(NotFound);
      }
      if documents[source].current != from {
        return Err(Conflict);
      }
      var before := Tables();
      CreatedCurrent(before, owner);
      var document := Create(owner);
      var existing := FindJob(jobs, source, from, issued);
      if existing.Some? && jobs[existing.value].owner == owner && jobs[existing.value].status == Succeeded
         && jobs[existing.value].snapshot {
        jobs := jobs[issued := Job(document, owner, documents[document].current, Succeeded, 1, 3, None, true)];
        issued := issued + 1;
        return Ok(document);
      }
      var refusal := Intent(owner, document, documents[document].current);
      if refusal.Some? {
        RollbackCreation(before);
        return Err(refusal.value);
      }
      r := Ok(document);
    }

    method RollbackCreation(before: State)
      requires before == Tables().(documents := before.documents, versions := before.versions, files := before.files,
        jobs := before.jobs, issued := before.issued)
      modifies this`documents, this`versions, this`files, this`jobs, this`issued
      ensures Tables() == before
    {
      documents, versions, files, jobs, issued :=
        before.documents, before.versions, before.files, before.jobs, before.issued;
    }

    // ----- editing leases

    method ChangeLease(owner: Uuid, document: Uuid, action: LeaseAction, h: Holder, alive: bool)
      returns (refusal: Option<Refusal>)
      requires Valid()
      modifies this`leases, this`issued
      ensures refusal == RefusalOf(DocumentTables.ChangeLease(old(Tables()), owner, document, action, h, alive))
      ensures Tables() == Apply(old(Tables()), LeaseChange(owner, document, action, h, alive))
      ensures Valid() && LeaseGives(old(Tables()), Tables(), owner, document, action, h, alive, refusal)
    {
      hide Inv, LeaseGives, Readable;
      ApplyStep(Tables(), LeaseChange(owner, document, action, h, alive));
      LeaseContract(Tables(), owner, document, action, h, alive);
      if owner !in users {
        return Some(Unauthenticated);
      }
      if document !in documents || documents[document].owner != owner || documents[document].state != Active {
        return Some(NotFound);
      }
      var held := document in leases;
      var same := held && leases[document].session == h.session && leases[document].client == h.client;
      var current := same && h.generation == Some(leases[document].generation) && leases[document].source == h.source;
      if action == Release {
        if current {
          leases := leases - {document};
        }
        return None;
      }
      if documents[document].current != h.source {
        return Some(RevisionConflict);
      }
      if !Readable(Tables(), document) {
        return Some(NotFound);
      }
      var live := held && leases[document].expires > clock && alive;
      if action == Renew && (!live || !current) {
        return Some(LeaseLost);
      }
      if action == Acquire && live && !same {
        return Some(LeaseBusy);
      }
      var generation := issued;
      if live && same && leases[document].source == h.source {
        generation := leases[document].generation;
      } else {
        issued := issued + 1;
      }
      leases := leases[document := Lease(owner, h.source, h.session, h.client, generation, clock + LEASE_SECONDS)];
      refusal := None;
    }

    // ----- saving and restoring

    method CheckHolder(owner: Uuid, document: Uuid, h: Holder) returns (refusal: Option<Refusal>)
      ensures refusal == HolderRefusal(Tables(), owner, document, h)
    {
      if owner !in users {
        return Some(Unauthenticated);
      }
      if document !in documents || documents[document].owner != owner || documents[document].state != Active {
        return Some(NotFound);
      }
      if documents[document].current != h.source {
        return Some(RevisionConflict);
      }
      if document !in leases {
        return Some(LeaseLost);
      }
      var lease := leases[document];
      if lease.expires <= clock || lease.source != h.source || lease.session != h.session || lease.client != h.client
         || Some(lease.generation) != h.generation {
        return Some(LeaseLost);
      }
      refusal := None;
    }

    /** The rows of a new revision. */
    method Advance(owner: Uuid, document: Uuid, h: Holder, restoredFrom: Option<Uuid>)
      requires document in documents && document in leases && h.source in versions
      modifies this`documents, this`versions, this`leases, this`files, this`jobs, this`issued, this`commits
      ensures Tables() == Advanced(old(Tables()), owner, document, h, restoredFrom)
    {
      var file, version, lease := issued, VersionOf(issued), leases[document];
      files, versions, documents, leases, jobs, commits, issued :=
        files[file := File(owner, Ready)],
        versions[version := Version(document, owner, file, versions[h.source].number + 1, Some(h.source), restoredFrom,
          false)],
        documents[document := documents[document].(current := version)],
        leases[document := lease.(source := version)],
        Invalidated(jobs, document),
        commits + [CommitRecord(document, lease.generation, version)],
        issued + 3;
    }

    /** The commit inside a store's transaction: a refusal from `Intent` rolls all of it back. */
    method Commit(owner: Uuid, document: Uuid, h: Holder, restoredFrom: Option<Uuid>) returns (refusal: Option<Refusal>)
      requires Valid()
      modifies this`documents, this`versions, this`leases, this`files, this`jobs, this`issued, this`commits
      ensures refusal == RefusalOf(DocumentTables.Commit(old(Tables()), owner, document, h, restoredFrom))
      ensures Tables() == Apply(old(Tables()), CommitAction(owner, document, h, restoredFrom))
      ensures Valid() && CommitGives(old(Tables()), Tables(), owner, document, h, restoredFrom, refusal)
    {
      hide Inv, CommitGives, IntentGives, Advanced, DocumentTables.Intent, Restorable;
      ApplyStep(Tables(), CommitAction(owner, document, h, restoredFrom));
      CommitContract(Tables(), owner, document, h, restoredFrom);
      refusal := CheckHolder(owner, document, h);
      if refusal.Some? {
        return;
      }
      if restoredFrom.Some? && !Restorable(Tables(), owner, document, restoredFrom.value) {
        return Some(NotFound);
      }
      if h.source !in versions {
        return Some(NotFound);
      }
      var before := Tables();
      AdvancedInv(before, owner, document, h, restoredFrom);
      AdvancedCurrent(before, owner, document, h, restoredFrom);
      Advance(owner, document, h, restoredFrom);
      refusal := Intent(owner, document, VersionOf(before.issued));
      if refusal.Some? {
        Rollback(before);
      }
    }

    /** Undo an open transaction that raised. */
    method Rollback(before: State)
      requires before == Tables().(documents := before.documents, versions := before.versions, leases := before.leases,
        files := before.files, jobs := before.jobs, issued := before.issued, commits := before.commits)
      modifies this`documents, this`versions, this`leases, this`files, this`jobs, this`issued, this`commits
      ensures Tables() == before
    {
      documents, versions, leases, files, jobs, issued, commits :=
        before.documents, before.versions, before.leases, before.files, before.jobs, before.issued, before.commits;
    }

    // ----- trash and deletion

    method Trash(owner: Uuid, document: Uuid) returns (refusal: Option<Refusal>)
      requires Valid()
      modifies this`documents, this`leases
      ensures refusal == RefusalOf(DocumentTables.Trash(old(Tables()), owner, document))
      ensures Tables() == Apply(old(Tables()), TrashAction(owner, document))
      ensures Valid() && TrashGives(old(Tables()), Tables(), owner, document, refusal)
    {
      hide Inv, TrashGives;
      ApplyStep(Tables(), TrashAction(owner, document));
      TrashContract(Tables(), owner, document);
      refusal := Owned(Tables(), owner, document);
      if refusal.None? && documents[document].state == Active {
        documents := documents[document := documents[document].(state := Trashed(clock + TRASH_SECONDS))];
        leases := leases - {document};
      }
    }

    method Untrash(owner: Uuid, document: Uuid) returns (refusal: Option<Refusal>)
      requires Valid()
      modifies this`documents
      ensures refusal == RefusalOf(DocumentTables.Untrash(old(Tables()), owner, document))
      ensures Tables() == Apply(old(Tables()), UntrashAction(owner, document))
      ensures Valid() && UntrashGives(old(Tables()), Tables(), owner, document, refusal)
    {
      hide Inv, UntrashGives;
      ApplyStep(Tables(), UntrashAction(owner, document));
      UntrashContract(Tables(), owner, document);
      refusal := Owned(Tables(), owner, document);
      if refusal.None? && documents[document].state.Trashed? {
        if documents[document].state.purgeAfter <= clock {
          return Some(Conflict);
        }
        documents := documents[document := documents[document].(state := Active)];
      }
    }

    /** The rows a permanent deletion clears and marks. */
    method Erase(owner: Uuid, document: Uuid)
      requires document in documents
      modifies this`documents, this`versions, this`leases, this`files, this`jobs
      ensures Tables() == Erased(old(Tables()), owner, document)
    {
      hide JobsErased, VersionsErased, FilesMarked;
      files := FilesMarked(Tables(), owner, document);
      versions := VersionsErased(versions, document);
      jobs := JobsErased(jobs, document);
      leases := leases - {document};
      documents := documents[document := documents[document].(state := Deleted)];
    }

    method Purge(owner: Uuid, document: Uuid, expiredOnly: bool, user: bool) returns (refusal: Option<Refusal>)
      requires Valid()
      modifies this`documents, this`versions, this`leases, this`files, this`jobs
      ensures refusal == RefusalOf(DocumentTables.Purge(old(Tables()), owner, document, expiredOnly, user))
      ensures Tables() == Apply(old(Tables()), PurgeAction(owner, document, expiredOnly, user))
      ensures Valid() && PurgeGives(old(Tables()), Tables(), owner, document, expiredOnly, user, refusal)
    {
      hide Inv, PurgeGives, SharedFile, Erased;
      ApplyStep(Tables(), PurgeAction(owner, document, expiredOnly, user));
      PurgeContract(Tables(), owner, document, expiredOnly, user);
      if user && owner !in users {
        return Some(Unauthenticated);
      }
      if document !in documents || documents[document].owner != owner {
        return Some(NotFound);
      }
      var state := documents[document].state;
      if expiredOnly && (!state.Trashed? || state.purgeAfter > clock) {
        return None;
      }
      if SharedFile(Tables(), owner, document) {
        return Some(Conflict);
      }
      if state != Deleted {
        Erase(owner, document);
      }
      refusal := None;
    }

    /** The loops of `expire` and `empty`: every document of the list in its own transaction. */
    method PurgeExpired(targets: seq<(Uuid, Uuid)>)
      requires Valid()
      modifies this`documents, this`versions, this`leases, this`files, this`jobs
      ensures Valid() && Leads(old(Tables()), Tables())
      ensures BatchPurged(old(Tables()), Tables(), targets)
    {
      hide Inv, Apply, BatchPurged, PurgeGives, Leads;
      NonePurged(Tables());
      LeadsNowhere(Tables());
      var i := 0;
      while i < |targets|
        invariant 0 <= i <= |targets| && Valid() && Leads(old(Tables()), Tables())
        invariant BatchPurged(old(Tables()), Tables(), targets[..i])
      {
        ghost var before := Tables();
        var refusal := Purge(targets[i].0, targets[i].1, true, false);
        PurgedOneMore(old(Tables()), before, Tables(), targets[..i], targets[i].0, targets[i].1, refusal);
        LeadsOn(old(Tables()), before, PurgeAction(targets[i].0, targets[i].1, true, false));
        assert targets[..i + 1] == targets[..i] + [targets[i]];
        i := i + 1;
      }
      assert targets[..i] == targets;
    }

    /** `empty`: one transaction makes the owner's trash overdue, the documents of the batch follow one by one. */
    method EmptyTrash(owner: Uuid, batch: seq<Uuid>) returns (refusal: Option<Refusal>)
      requires Valid()
      modifies this`documents, this`versions, this`leases, this`files, this`jobs
      ensures Valid() && Leads(old(Tables()), Tables())
      ensures EmptyGives(old(Tables()), Tables(), owner, batch, refusal)
    {
      hide Inv, BatchPurged, Leads, Emptied;
      LeadsNowhere(Tables());
      if owner !in users {
        return Some(Unauthenticated);
      }
      ApplyStep(Tables(), EmptyAction(owner));
      LeadsOn(Tables(), Tables(), EmptyAction(owner));
      documents := map d | d in documents ::
        if documents[d].owner == owner && documents[d].state.Trashed? then documents[d].(state := Trashed(clock))
        else documents[d];
      ghost var emptied := Tables();
      PurgeExpired(Targets(owner, batch));
      EmptyContract(old(Tables()), emptied, Tables(), owner, batch);
      LeadsBoth(old(Tables()), emptied, Tables());
      refusal := None;
    }

    // ----- pruning

    method Authorize(c: Candidate) returns (refusal: Option<Refusal>)
      requires Valid()
      modifies this`versions, this`files, this`jobs
      ensures refusal == RefusalOf(DocumentTables.Prune(old(Tables()), c))
      ensures Tables() == Apply(old(Tables()), PruneAction(c))
      ensures Valid() && PruneGives(old(Tables()), Tables(), c, refusal)
    {
      hide Inv, PruneGives, SharedCandidate;
      ApplyStep(Tables(), PruneAction(c));
      PruneContract(Tables(), c);
      if c.file !in files || files[c.file].owner != c.owner {
        return Some(NotFound);
      }
      if files[c.file].state != Ready {
        return None;
      }
      if c.document !in documents || documents[c.document].owner != c.owner || keepLatest.None? {
        return Some(ProtectedVersion);
      }
      if !Eligible(Tables(), keepLatest.value, c) || SharedCandidate(Tables(), c) {
        return Some(ProtectedVersion);
      }
      versions := versions[c.version := versions[c.version].(erased := true)];
      jobs := map j | j in jobs ::
        if jobs[j].source == c.version then jobs[j].(snapshot := false, status := Stale, leaseUntil := None)
          else jobs[j];
      files := files[c.file := files[c.file].(state := PendingDelete)];
      refusal := None;
    }

    /** `prune`: the batch was selected earlier, so every candidate is authorized again. */
    method Prune(batch: seq<Candidate>)
      requires Valid()
      modifies this`versions, this`files, this`jobs
      ensures Valid() && Leads(old(Tables()), Tables())
      ensures BatchPruned(old(Tables()), Tables(), batch)
      ensures forall keep: nat | Kept(old(Tables()), keep) && AtLeast(keepLatest, keep) :: Kept(Tables(), keep)
    {
      hide Inv, Apply, BatchPruned, PruneGives, Leads, Kept;
      NonePruned(Tables());
      LeadsNowhere(Tables());
      var i := 0;
      while i < |batch|
        invariant 0 <= i <= |batch| && Valid() && Leads(old(Tables()), Tables())
        invariant BatchPruned(old(Tables()), Tables(), batch[..i])
      {
        ghost var before := Tables();
        var refusal := Authorize(batch[i]);
        PrunedOneMore(old(Tables()), before, Tables(), batch[..i], batch[i], refusal);
        LeadsOn(old(Tables()), before, PruneAction(batch[i]));
        assert batch[..i + 1] == batch[..i] + [batch[i]];
        i := i + 1;
      }
      assert batch[..i] == batch;
      forall keep: nat | Kept(old(Tables()), keep) && AtLeast(keepLatest, keep)
        ensures Kept(Tables(), keep)
      {
        BatchKept(old(Tables()), Tables(), batch, keep);
      }
    }

    // ----- workers and the dispatcher

    method Claim(id: Uuid, attempt: nat) returns (granted: bool)
      requires Valid()
      modifies this`jobs, this`claims
      ensures (Tables(), granted) == DocumentTables.Claim(old(Tables()), id, attempt)
      ensures Valid() && ClaimGives(old(Tables()), Tables(), id, attempt, granted)
    {
      hide Inv, ClaimGives, StaleJob;
      ClaimStep(Tables(), id, attempt);
      ClaimContract(Tables(), id, attempt);
      if id !in jobs || jobs[id].attempt != attempt || jobs[id].status != Queued {
        return false;
      }
      var job := jobs[id];
      if StaleJob(Tables(), job) {
        jobs := jobs[id := job.(status := Stale, leaseUntil := None)];
        return false;
      }
      jobs := jobs[id := job.(status := Running, leaseUntil := Some(clock + JOB_LEASE_SECONDS))];
      claims := claims + [ClaimRecord(id, attempt)];
      granted := true;
    }

    method Finish(id: Uuid, attempt: nat, done: bool)
      requires Valid()
      modifies this`jobs
      ensures Tables() == DocumentTables.Finish(old(Tables()), id, attempt, done)
      ensures Valid() && FinishGives(old(Tables()), Tables(), id, attempt, done)
    {
      hide Inv, FinishGives, StaleJob;
      FinishStep(Tables(), id, attempt, done);
      FinishContract(Tables(), id, attempt, done);
      if id !in jobs || jobs[id].attempt != attempt || jobs[id].status != Running {
        return;
      }
      var job := jobs[id];
      if job.leaseUntil.None? || job.leaseUntil.value <= clock {
        return;
      }
      var stale := StaleJob(Tables(), job);
      job := job.(leaseUntil := None);
      if stale {
        job := job.(status := Stale);
      } else if done {
        job := job.(status := Succeeded, snapshot := true);
      } else if attempt < job.retryUntil {
        job := job.(status := Queued, attempt := attempt + 1);
      } else {
        job := job.(status := Failed);
      }
      jobs := jobs[id := job];
    }

    /** `advance`, on a job the queue has lost: another attempt, or the end. */
    method Retry(id: Uuid) returns (retry: bool)
      requires Valid() && id in jobs && jobs[id].status == Queued
      modifies this`jobs
      ensures Tables() == Lost(old(Tables()), id, old(jobs[id].attempt))
      ensures Valid() && DispatchedOne(old(Tables()), Tables(), id, true)
      ensures jobs.Keys == old(jobs.Keys)
      ensures retry <==> jobs[id].status != Failed
    {
      hide Inv, DispatchedOne;
      LostStep(Tables(), id, jobs[id].attempt);
      LostOne(Tables(), id);
      var job := jobs[id];
      retry := job.attempt < job.retryUntil;
      job := job.(status := if retry then Queued else Failed, attempt := if retry then job.attempt + 1 else job.attempt,
                  leaseUntil := None);
      jobs := jobs[id := job];
    }

    /** The dispatcher meets a running job; `failed` says that its last attempt is over. */
    method Recover(id: Uuid) returns (failed: bool)
      requires Valid() && id in jobs
      modifies this`jobs
      ensures Tables() == Expire(old(Tables()), id)
      ensures Valid() && DispatchedOne(old(Tables()), Tables(), id, false)
      ensures jobs.Keys == old(jobs.Keys)
      ensures failed <==> jobs[id].status == Failed && old(jobs[id].status) != Failed
    {
      hide Inv, DispatchedOne;
      ExpireStep(Tables(), id);
      ExpireOne(Tables(), id);
      failed := false;
      if jobs[id].status == Running && jobs[id].leaseUntil.Some? && jobs[id].leaseUntil.value < clock {
        var job := jobs[id];
        if job.attempt >= job.retryUntil {
          jobs := jobs[id := job.(status := Failed, leaseUntil := None)];
          failed := true;
        } else {
          jobs := jobs[id := job.(status := Queued, attempt := job.attempt + 1, leaseUntil := None)];
        }
      }
    }

    /** `dispatch`: the list pairs each job with whether the queue has lost it. */
    method Dispatch(batch: seq<(Uuid, bool)>) returns (failed: nat)
      requires Valid()
      modifies this`jobs
      ensures Valid() && Leads(old(Tables()), Tables())
      ensures Dispatched(old(Tables()), Tables(), batch, failed)
    {
      hide Inv, Apply, Dispatched, DispatchedOne, Leads;
      NoneDispatched(Tables());
      LeadsNowhere(Tables());
      failed := 0;
      var i := 0;
      while i < |batch|
        invariant 0 <= i <= |batch| && Valid() && Leads(old(Tables()), Tables())
        invariant Dispatched(old(Tables()), Tables(), batch[..i], failed)
      {
        var before := Tables();
        var failure := DispatchJob(batch[i].0, batch[i].1);
        DispatchedOneMore(old(Tables()), before, Tables(), batch[..i], failed, batch[i].0, batch[i].1);
        LeadsBoth(old(Tables()), before, Tables());
        assert batch[..i + 1] == batch[..i] + [(batch[i].0, batch[i].1)];
        failed := if failure then failed + 1 else failed;
        i := i + 1;
      }
      assert batch[..i] == batch;
    }

    /** One round of the dispatcher's loop. */
    method DispatchJob(id: Uuid, lost: bool) returns (failed: bool)
      requires Valid()
      modifies this`jobs
      ensures Valid() && Leads(old(Tables()), Tables())
      ensures DispatchedOne(old(Tables()), Tables(), id, lost)
      ensures jobs.Keys == old(jobs.Keys)
      ensures failed <==> id in jobs && jobs[id].status == Failed && old(jobs)[id].status != Failed
    {
      hide Inv, Leads, DispatchedOne, Lost;
      LeadsNowhere(Tables());
      if id !in jobs {
        ExpireOne(Tables(), id);
        ExpiredThenLost(Tables(), Tables(), Tables(), id, lost);
        return false;
      }
      failed := Recover(id);
      ghost var recovered := Tables();
      LeadsOn(old(Tables()), old(Tables()), ExpireAction(id));
      if lost && jobs[id].status == Queued {
        LeadsOn(old(Tables()), recovered, LostAction(id, jobs[id].attempt));
        var retry := Retry(id);
        failed := !retry;
      }
      ExpiredThenLost(old(Tables()), recovered, Tables(), id, lost);
    }
  }
}
