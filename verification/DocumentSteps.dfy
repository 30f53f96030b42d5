/** Every transaction of the document and job services keeps the invariant. */
module DocumentSteps {
  import opened Common
  import opened DocumentTables
  import opened DocumentInvariant

  // ----- framing

  ghost predicate SameDocument(a: Document, b: Document) {
    b.owner == a.owner && b.original == a.original && b.current == a.current
  }

  ghost predicate SameVersion(a: Version, b: Version) {
    b == a.(erased := b.erased)
  }

  /** Identities, chains and ownership are as before; states and erasures may differ. */
  ghost predicate SameRows(s: State, t: State) {
    && t.documents.Keys == s.documents.Keys && t.versions.Keys == s.versions.Keys && t.files.Keys == s.files.Keys
    && (forall d | d in s.documents :: SameDocument(s.documents[d], t.documents[d]))
    && (forall v | v in s.versions :: SameVersion(s.versions[v], t.versions[v]))
    && (forall f | f in s.files :: t.files[f].owner == s.files[f].owner)
    && s.issued <= t.issued
  }

  lemma RowsKept(s: State, t: State)
    requires RowsOk(s) && SameRows(s, t)
    ensures RowsOk(t)
  {
    forall d | d in t.documents ensures DocumentOk(t, d) { assert DocumentOk(s, d); }
    forall v | v in t.versions ensures VersionOk(t, v) { assert VersionOk(s, v); }
    forall f | f in t.files ensures FileOk(t, f) { assert FileOk(s, f); }
  }

  ghost predicate SameJobIdentity(job: Job, next: Job) {
    next.document == job.document && next.owner == job.owner && next.source == job.source
  }

  /** A job re-enters the queue only under a higher attempt. */
  ghost predicate JobForward(job: Job, next: Job) {
    && SameJobIdentity(job, next)
    && (next.attempt > job.attempt || (next.attempt == job.attempt && (job.status != Queued ==> next.status != Queued)))
  }

  ghost predicate JobsForward(jobs: map<Uuid, Job>, next: map<Uuid, Job>) {
    forall j {:trigger jobs[j]} {:trigger next[j]} | j in jobs :: j in next && JobForward(jobs[j], next[j])
  }

  lemma ClaimsKept(s: State, t: State)
    requires ClaimsOk(s) && t.claims == s.claims && JobsForward(s.jobs, t.jobs)
    ensures ClaimsOk(t)
  {
    forall c | c in t.claims
      ensures ClaimSpent(t, c)
    {
      assert ClaimSpent(s, c);
      assert JobForward(s.jobs[c.job], t.jobs[c.job]);
    }
  }

  /** Jobs only leave the active states. */
  ghost predicate Calmer(jobs: map<Uuid, Job>, next: map<Uuid, Job>) {
    && next.Keys == jobs.Keys
    && forall j | j in jobs :: SameJobIdentity(jobs[j], next[j]) && (IsActive(next[j]) ==> IsActive(jobs[j]))
  }

  lemma CalmerJobs(s: State, t: State)
    requires JobsOk(s) && Calmer(s.jobs, t.jobs)
    requires forall j | j in t.jobs :: JobOk(t, j)
    ensures JobsOk(t)
  {
    forall o
      ensures WithinCap(t.jobs, o)
    {
      assert WithinCap(s.jobs, o);
      SubsetCard(ActiveJobs(t.jobs, o), ActiveJobs(s.jobs, o));
    }
  }

  /** The tables of documents, versions, files and leases are untouched. */
  ghost predicate JobsOnly(s: State, t: State) {
    && t.documents == s.documents && t.versions == s.versions && t.files == s.files && t.leases == s.leases
    && t.commits == s.commits && t.keepLatest == s.keepLatest && s.issued <= t.issued
  }

  lemma OthersKept(s: State, t: State)
    requires Inv(s) && JobsOnly(s, t)
    ensures RowsOk(t) && SafeOk(t) && LeasesOk(t) && CommitsOk(t)
  {
    hide JobsOk, ClaimsOk, Fenced, Exclusive;
    RowsKept(s, t);
    forall v | v in t.versions ensures VersionSafe(t, v) { assert VersionSafe(s, v); }
    forall d | d in t.leases ensures LeaseOk(t, d) { assert LeaseOk(s, d); }
    forall d | d in t.leases ensures HeldOk(t, d) { assert HeldOk(s, d); }
  }

  // ----- one job

  lemma JobsSame(s: State, t: State, id: Uuid)
    requires JobsOk(s) && JobsOnly(s, t) && id in t.jobs
    requires forall j | j in s.jobs && j != id :: j in t.jobs && t.jobs[j] == s.jobs[j]
    requires t.jobs.Keys == s.jobs.Keys + {id}
    requires JobOk(t, id)
    ensures forall j | j in t.jobs :: JobOk(t, j)
  {
    forall j | j in t.jobs
      ensures JobOk(t, j)
    {
      if j != id {
        assert JobOk(s, j);
      }
    }
  }

  lemma CapKept(jobs: map<Uuid, Job>, id: Uuid, job: Job, owner: Uuid)
    requires WithinCap(jobs, owner)
    requires id in jobs ==> jobs[id].owner == job.owner
    requires IsActive(job) ==> (id in jobs && IsActive(jobs[id])) || |ActiveJobs(jobs, job.owner)| < ACTIVE_JOBS
    ensures WithinCap(jobs[id := job], owner)
  {
    var before, after := ActiveJobs(jobs, owner), ActiveJobs(jobs[id := job], owner);
    if after <= before {
      SubsetCard(after, before);
    } else {
      SubsetCard(after, before + {id});
      assert job.owner == owner && IsActive(job) && id !in before;
    }
  }

  /** One job row is written: a new one, or an existing one under its identity. */
  lemma JobWritten(s: State, t: State, id: Uuid, job: Job)
    requires JobsOk(s) && JobsOnly(s, t) && t.jobs == s.jobs[id := job] && JobOk(t, id)
    requires id in s.jobs ==> SameJobIdentity(s.jobs[id], job)
    requires id !in s.jobs ==>
      forall j | j in s.jobs :: !(s.jobs[j].document == job.document && s.jobs[j].source == job.source)
    requires IsActive(job) ==> (id in s.jobs && IsActive(s.jobs[id])) || |ActiveJobs(s.jobs, job.owner)| < ACTIVE_JOBS
    ensures JobsOk(t)
  {
    hide JobOk, ActiveJobs;
    JobsSame(s, t, id);
    forall o
      ensures WithinCap(t.jobs, o)
    {
      assert WithinCap(s.jobs, o);
      CapKept(s.jobs, id, job, o);
    }
  }

  lemma FoundJob(s: State, document: Uuid, source: Uuid)
    requires JobsOk(s)
    ensures FindJob(s.jobs, document, source, s.issued).None? ==>
      forall j | j in s.jobs :: !(s.jobs[j].document == document && s.jobs[j].source == source)
  {
    assert forall j | j in s.jobs :: JobOk(s, j);
  }

  /** `intent` on a document's current revision. */
  lemma IntentStep(s: State, owner: Uuid, document: Uuid, version: Uuid)
    requires Inv(s) && Intent(s, owner, document, version).Ok?
    requires document in s.documents && s.documents[document].owner == owner && s.documents[document].current == version
    ensures Inv(Intent(s, owner, document, version).value)
  {
    hide RowsOk, SafeOk, LeasesOk, CommitsOk, ActiveJobs;
    var t := Intent(s, owner, document, version).value;
    if t != s {
      OthersKept(s, t);
      assert version in s.versions && s.versions[version].document == document by { CurrentOf(s, document); }
      IntentJobs(s, owner, document, version);
    }
  }

  lemma CurrentOf(s: State, d: Uuid)
    requires RowsOk(s) && d in s.documents
    ensures s.documents[d].current in s.versions && s.versions[s.documents[d].current].document == d
  {
    assert DocumentOk(s, d);
  }

  lemma IntentJobs(s: State, owner: Uuid, document: Uuid, version: Uuid)
    requires JobsOk(s) && ClaimsOk(s) && Intent(s, owner, document, version).Ok?
    requires document in s.documents && s.documents[document].owner == owner && s.documents[document].current == version
    requires version in s.versions && s.versions[version].document == document
    ensures var t := Intent(s, owner, document, version).value; JobsOk(t) && ClaimsOk(t)
  {
    hide ActiveJobs;
    var t := Intent(s, owner, document, version).value;
    var existing := FindJob(s.jobs, document, version, s.issued);
    FoundJob(s, document, version);
    if t != s {
      var id := if existing.Some? then existing.value else s.issued;
      assert id in s.jobs ==> JobOk(s, id);
      assert s.issued !in s.jobs by { assert s.issued in s.jobs ==> JobOk(s, s.issued); }
      JobWritten(s, t, id, t.jobs[id]);
      ClaimsKept(s, t);
    }
  }

  lemma SubmitStep(s: State, owner: Uuid, document: Uuid)
    requires Inv(s) && Submit(s, owner, document).Ok?
    ensures Inv(Submit(s, owner, document).value)
  {
    hide Inv, Intent;
    IntentStep(s, owner, document, s.documents[document].current);
  }

  /** A worker or the dispatcher changes one job. */
  lemma WorkStep(s: State, t: State, id: Uuid, job: Job)
    requires Inv(s) && JobsOnly(s, t) && id in s.jobs && t.jobs == s.jobs[id := job]
    requires JobForward(s.jobs[id], job) && JobShape(job) && (IsActive(job) ==> IsActive(s.jobs[id]))
    requires ClaimsOk(t)
    ensures Inv(t)
  {
    hide RowsOk, SafeOk, LeasesOk, CommitsOk, ClaimsOk, ActiveJobs;
    OthersKept(s, t);
    assert JobOk(s, id);
    JobWritten(s, t, id, job);
  }

  lemma ShapeOf(s: State, id: Uuid)
    requires Inv(s) && id in s.jobs
    ensures JobShape(s.jobs[id])
  {
    assert JobOk(s, id);
  }

  lemma ClaimStep(s: State, id: Uuid, attempt: nat)
    requires Inv(s)
    ensures Inv(Claim(s, id, attempt).0)
  {
    hide Inv;
    var t := Claim(s, id, attempt).0;
    if t != s {
      ShapeOf(s, id);
      ClaimRecorded(s, id, attempt);
      WorkStep(s, t, id, t.jobs[id]);
    }
  }

  lemma ClaimRecorded(s: State, id: Uuid, attempt: nat)
    requires Inv(s)
    ensures ClaimsOk(Claim(s, id, attempt).0)
  {
    hide RowsOk, SafeOk, LeasesOk, CommitsOk, JobsOk;
    var (t, granted) := Claim(s, id, attempt);
    if granted {
      var was := s.(jobs := t.jobs);
      ClaimsKept(s, was);
      assert ClaimSpent(s, ClaimRecord(id, attempt)) ==> false;
      forall c | c in t.claims
        ensures ClaimSpent(t, c)
      {
        assert c in s.claims ==> ClaimSpent(was, c);
      }
    } else {
      ClaimsKept(s, t);
    }
  }

  lemma FinishStep(s: State, id: Uuid, attempt: nat, done: bool)
    requires Inv(s)
    ensures Inv(Finish(s, id, attempt, done))
  {
    hide Inv;
    var t := Finish(s, id, attempt, done);
    if t != s {
      ShapeOf(s, id);
      ClaimsOf(s);
      ClaimsKept(s, t);
      WorkStep(s, t, id, t.jobs[id]);
    }
  }

  lemma ExpireStep(s: State, id: Uuid)
    requires Inv(s)
    ensures Inv(Expire(s, id))
  {
    hide Inv;
    var t := Expire(s, id);
    if t != s {
      ShapeOf(s, id);
      ClaimsOf(s);
      ClaimsKept(s, t);
      WorkStep(s, t, id, t.jobs[id]);
    }
  }

  lemma LostStep(s: State, id: Uuid, attempt: nat)
    requires Inv(s)
    ensures Inv(Lost(s, id, attempt))
  {
    hide Inv;
    var t := Lost(s, id, attempt);
    if t != s {
      ShapeOf(s, id);
      ClaimsOf(s);
      ClaimsKept(s, t);
      WorkStep(s, t, id, t.jobs[id]);
    }
  }

  lemma ClaimsOf(s: State)
    requires Inv(s)
    ensures ClaimsOk(s)
  {
  }

  // ----- leases

  lemma LeaseOnly(s: State, t: State, document: Uuid)
    requires Inv(s) && t == s.(leases := t.leases, issued := t.issued) && s.issued <= t.issued
    requires forall d | d in t.leases && d != document :: d in s.leases && t.leases[d] == s.leases[d]
    requires document in t.leases ==> LeaseOk(t, document) && HeldOk(t, document)
    ensures Inv(t)
  {
    hide Fenced, Exclusive;
    RowsKept(s, t);
    forall v | v in t.versions ensures VersionSafe(t, v) { assert VersionSafe(s, v); }
    forall d | d in t.leases ensures LeaseOk(t, d) { assert d != document ==> LeaseOk(s, d); }
    forall d | d in t.leases ensures HeldOk(t, d) { assert d != document ==> HeldOk(s, d); }
    forall j | j in t.jobs ensures JobOk(t, j) { assert JobOk(s, j); }
    CalmerJobs(s, t);
    ClaimsKept(s, t);
  }

  /** A generation nobody committed with yet. */
  lemma FreshGeneration(commits: seq<CommitRecord>, d: Uuid, generation: Uuid)
    requires forall c | c in commits :: c.generation < generation
    ensures Exclusive(commits, d, generation)
  {
  }

  lemma LeaseStep(s: State, owner: Uuid, document: Uuid, action: LeaseAction, h: Holder, alive: bool)
    requires Inv(s) && ChangeLease(s, owner, document, action, h, alive).Ok?
    ensures Inv(ChangeLease(s, owner, document, action, h, alive).value)
  {
    hide RowsOk, SafeOk, JobsOk, ClaimsOk, Exclusive, Fenced, Readable;
    var t := ChangeLease(s, owner, document, action, h, alive).value;
    if document in t.leases {
      assert document in s.leases ==> LeaseOk(s, document) && HeldOk(s, document);
      if t.issued > s.issued {
        FreshGeneration(s.commits, document, s.issued);
      }
    }
    LeaseOnly(s, t, document);
  }

  // ----- trash

  /** Only document states change, no living document's lease survives leaving the active state. */
  lemma StateStep(s: State, t: State)
    requires Inv(s) && t == s.(documents := t.documents, leases := t.leases)
    requires t.documents.Keys == s.documents.Keys
    requires forall d | d in s.documents :: SameDocument(s.documents[d], t.documents[d])
    requires forall d | d in s.documents :: s.documents[d].state == Deleted <==> t.documents[d].state == Deleted
    requires forall d | d in t.leases ::
      d in s.leases && t.leases[d] == s.leases[d] && d in t.documents && t.documents[d].state == Active
    ensures Inv(t)
  {
    hide Fenced, Exclusive;
    RowsKept(s, t);
    forall v | v in t.versions ensures VersionSafe(t, v) { assert VersionSafe(s, v) && VersionOk(s, v); }
    forall d | d in t.leases ensures LeaseOk(t, d) { assert LeaseOk(s, d); }
    forall d | d in t.leases ensures HeldOk(t, d) { assert HeldOk(s, d); }
    forall j | j in t.jobs ensures JobOk(t, j) { assert JobOk(s, j); }
    CalmerJobs(s, t);
    ClaimsKept(s, t);
  }

  lemma Leased(s: State)
    requires Inv(s)
    ensures forall d | d in s.leases :: d in s.documents && s.documents[d].state == Active
  {
    hide RowsOk, SafeOk, JobsOk, ClaimsOk, CommitsOk;
    forall d | d in s.leases ensures d in s.documents && s.documents[d].state == Active { assert LeaseOk(s, d); }
  }

  lemma TrashStep(s: State, owner: Uuid, document: Uuid)
    requires Inv(s) && Trash(s, owner, document).Ok?
    ensures Inv(Trash(s, owner, document).value)
  {
    hide Inv;
    Leased(s);
    if Trash(s, owner, document).value != s {
      StateStep(s, Trash(s, owner, document).value);
    }
  }

  lemma UntrashStep(s: State, owner: Uuid, document: Uuid)
    requires Inv(s) && Untrash(s, owner, document).Ok?
    ensures Inv(Untrash(s, owner, document).value)
  {
    hide Inv;
    Leased(s);
    if Untrash(s, owner, document).value != s {
      StateStep(s, Untrash(s, owner, document).value);
    }
  }

  lemma EmptyStep(s: State, owner: Uuid)
    requires Inv(s) && EmptyTrash(s, owner).Ok?
    ensures Inv(EmptyTrash(s, owner).value)
  {
    hide Inv;
    Leased(s);
    StateStep(s, EmptyTrash(s, owner).value);
  }

  // ----- deletion and pruning

  lemma EraseRows(s: State, owner: Uuid, document: Uuid)
    requires RowsOk(s) && SafeOk(s) && document in s.documents && s.documents[document].owner == owner
    ensures RowsOk(Erased(s, owner, document)) && SafeOk(Erased(s, owner, document))
  {
    var t := Erased(s, owner, document);
    RowsKept(s, t);
    forall v | v in t.versions
      ensures VersionSafe(t, v)
    {
      assert VersionSafe(s, v) && VersionOk(s, v);
      OwnFiles(s, owner, document, v);
    }
  }

  /** The files a purge marks are exactly the document's own. */
  lemma OwnFiles(s: State, owner: Uuid, document: Uuid, v: Uuid)
    requires RowsOk(s) && document in s.documents && s.documents[document].owner == owner && v in s.versions
    ensures Retained(s, owner, document, s.versions[v].file) <==> s.versions[v].document == document
  {
    assert VersionOk(s, v) && DocumentOk(s, document);
    if Retained(s, owner, document, s.versions[v].file) && s.versions[v].file != s.documents[document].original {
      var w :| w in s.versions && s.versions[w].document == document && s.versions[w].file == s.versions[v].file;
      assert VersionOk(s, w);
    }
  }

  /** No two documents ever share a file, so the guard of `purge` never fires. */
  lemma NothingShared(s: State, owner: Uuid, document: Uuid)
    requires RowsOk(s) && document in s.documents && s.documents[document].owner == owner
    ensures !SharedFile(s, owner, document)
  {
    forall d | d in s.documents && d != document
      ensures !Retained(s, owner, document, s.documents[d].original)
    {
      assert DocumentOk(s, d);
      assert VersionOk(s, VersionOf(s.documents[d].original));
      OwnFiles(s, owner, document, VersionOf(s.documents[d].original));
    }
    forall v | v in s.versions && s.versions[v].document != document
      ensures !Retained(s, owner, document, s.versions[v].file)
    {
      OwnFiles(s, owner, document, v);
    }
  }

  lemma EraseStep(s: State, owner: Uuid, document: Uuid)
    requires Inv(s) && document in s.documents && s.documents[document].owner == owner
    ensures Inv(Erased(s, owner, document))
  {
    hide Fenced, Exclusive, RowsOk, SafeOk, Retained;
    var t := Erased(s, owner, document);
    EraseRows(s, owner, document);
    forall d | d in t.leases ensures LeaseOk(t, d) && HeldOk(t, d) { assert LeaseOk(s, d) && HeldOk(s, d); }
    forall j | j in t.jobs ensures JobOk(t, j) { assert JobOk(s, j); }
    CalmerJobs(s, t);
    ClaimsKept(s, t);
  }

  lemma PurgeStep(s: State, owner: Uuid, document: Uuid, expiredOnly: bool, user: bool)
    requires Inv(s) && Purge(s, owner, document, expiredOnly, user).Ok?
    ensures Inv(Purge(s, owner, document, expiredOnly, user).value)
  {
    hide Inv, Erased, SharedFile;
    if Purge(s, owner, document, expiredOnly, user).value != s {
      EraseStep(s, owner, document);
    }
  }

  /** One file changes state, and it is not one a living document must keep. */
  lemma FileStep(s: State, t: State, file: Uuid)
    requires RowsOk(s) && SafeOk(s) && SameRows(s, t) && file in s.files
    requires t.documents == s.documents
    requires t.files == s.files[file := s.files[file].(state := t.files[file].state)] && t.files[file].state != Ready
    requires s.files[file].state != Ready || var v := VersionOf(file);
      v in s.versions && s.versions[v].document in s.documents && s.versions[v].number != 1
      && v != s.documents[s.versions[v].document].current
    ensures RowsOk(t) && SafeOk(t)
  {
    RowsKept(s, t);
    forall v | v in t.versions
      ensures VersionSafe(t, v)
    {
      assert VersionSafe(s, v) && VersionOk(s, v);
    }
  }

  lemma FinishDeleteStep(s: State, file: Uuid)
    requires Inv(s)
    ensures Inv(FinishDelete(s, file))
  {
    hide Fenced, Exclusive, RowsOk, SafeOk;
    var t := FinishDelete(s, file);
    if t != s {
      FileStep(s, t, file);
      forall d | d in t.leases ensures LeaseOk(t, d) && HeldOk(t, d) { assert LeaseOk(s, d) && HeldOk(s, d); }
      forall j | j in t.jobs ensures JobOk(t, j) { assert JobOk(s, j); }
      CalmerJobs(s, t);
      ClaimsKept(s, t);
    }
  }

  lemma PruneStep(s: State, c: Candidate)
    requires Inv(s) && Prune(s, c).Ok?
    ensures Inv(Prune(s, c).value)
  {
    hide Fenced, Exclusive, RowsOk, SafeOk, SharedCandidate;
    var t := Prune(s, c).value;
    if t != s {
      assert VersionOf(c.file) == c.version by { VersionFile(s, c.version); }
      FileStep(s, t, c.file);
      forall d | d in t.leases ensures LeaseOk(t, d) && HeldOk(t, d) { assert LeaseOk(s, d) && HeldOk(s, d); }
      forall j | j in t.jobs ensures JobOk(t, j) { assert JobOk(s, j); }
      CalmerJobs(s, t);
      ClaimsKept(s, t);
    }
  }

  lemma VersionFile(s: State, v: Uuid)
    requires RowsOk(s) && v in s.versions
    ensures VersionOf(s.versions[v].file) == v
  {
    assert VersionOk(s, v);
  }

  // ----- creation and revision

  lemma Unused(s: State)
    requires RowsOk(s)
    ensures forall d | d in s.documents :: d < s.issued
    ensures forall v | v in s.versions :: v < s.issued
    ensures forall f | f in s.files :: f < s.issued
  {
    assert forall d | d in s.documents :: DocumentOk(s, d);
    assert forall v | v in s.versions :: VersionOk(s, v);
    assert forall f | f in s.files :: FileOk(s, f);
  }

  lemma KnownDocuments(s: State)
    requires RowsOk(s)
    ensures forall v | v in s.versions :: s.versions[v].document < s.issued && s.versions[v].document in s.documents
  {
    Unused(s);
    forall v | v in s.versions ensures s.versions[v].document in s.documents { assert VersionOk(s, v); }
  }

  lemma CreatedVersions(s: State, owner: Uuid)
    requires RowsOk(s) && SafeOk(s)
    ensures var t := Created(s, owner); forall v | v in t.versions :: VersionOk(t, v) && VersionSafe(t, v)
  {
    var t := Created(s, owner);
    Unused(s);
    KnownDocuments(s);
    forall v | v in t.versions
      ensures VersionOk(t, v) && VersionSafe(t, v)
    {
      assert v in s.versions ==> VersionOk(s, v) && VersionSafe(s, v);
    }
  }

  lemma CreatedRows(s: State, owner: Uuid)
    requires RowsOk(s) && SafeOk(s)
    ensures RowsOk(Created(s, owner)) && SafeOk(Created(s, owner))
  {
    hide VersionSafe, VersionOk, NumbersUnique;
    var t := Created(s, owner);
    Unused(s);
    CreatedVersions(s, owner);
    CreatedNumbers(s, owner);
    forall d | d in t.documents ensures DocumentOk(t, d) { assert d in s.documents ==> DocumentOk(s, d); }
    forall f | f in t.files ensures FileOk(t, f) { assert f in s.files ==> FileOk(s, f); }
  }

  lemma CreatedNumbers(s: State, owner: Uuid)
    requires RowsOk(s)
    ensures NumbersUnique(Created(s, owner))
  {
    KnownDocuments(s);
    assert NumbersUnique(s);
  }

  lemma CreatedStep(s: State, owner: Uuid)
    requires Inv(s)
    ensures Inv(Created(s, owner))
  {
    hide Fenced, Exclusive, RowsOk, SafeOk;
    var t := Created(s, owner);
    CreatedRows(s, owner);
    Unused(s);
    forall d | d in t.leases ensures LeaseOk(t, d) && HeldOk(t, d) { assert LeaseOk(s, d) && HeldOk(s, d); }
    forall j | j in t.jobs ensures JobOk(t, j) { assert JobOk(s, j); }
    CalmerJobs(s, t);
    ClaimsKept(s, t);
  }

  lemma UploadStep(s: State, owner: Uuid)
    requires Inv(s) && Upload(s, owner).Ok?
    ensures Inv(Upload(s, owner).value)
  {
    hide Inv, Intent;
    CreatedStep(s, owner);
    IntentStep(Created(s, owner), owner, DocumentOf(s.issued), VersionOf(s.issued));
  }

  /** A copied discovery is a finished job for a revision that has none. */
  lemma CopiedJob(s: State, owner: Uuid, document: Uuid, version: Uuid)
    requires Inv(s) && document in s.documents && s.documents[document].owner == owner
    requires s.documents[document].current == version
    requires forall j | j in s.jobs :: s.jobs[j].document != document
    ensures Inv(s.(jobs := s.jobs[s.issued := Job(document, owner, version, Succeeded, 1, 3, None, true)],
      issued := s.issued + 1))
  {
    hide RowsOk, SafeOk, LeasesOk, CommitsOk, ActiveJobs;
    var t :=
      s.(jobs := s.jobs[s.issued := Job(document, owner, version, Succeeded, 1, 3, None, true)],
        issued := s.issued + 1);
    OthersKept(s, t);
    CurrentOf(s, document);
    assert s.issued !in s.jobs by { assert s.issued in s.jobs ==> JobOk(s, s.issued); }
    JobWritten(s, t, s.issued, t.jobs[s.issued]);
    ClaimsKept(s, t);
  }

  lemma JobsOfKnown(s: State)
    requires Inv(s)
    ensures forall j | j in s.jobs :: s.jobs[j].document < s.issued
  {
    Unused(s);
    forall j | j in s.jobs ensures s.jobs[j].document < s.issued { assert JobOk(s, j); }
  }

  lemma CopyStep(s: State, owner: Uuid, source: Uuid, sourceVersion: Uuid)
    requires Inv(s) && Copy(s, owner, source, sourceVersion).Ok?
    ensures Inv(Copy(s, owner, source, sourceVersion).value)
  {
    hide Inv, Intent, FindJob;
    CreatedStep(s, owner);
    JobsOfKnown(s);
    var created := Created(s, owner);
    if Copy(s, owner, source, sourceVersion) == Intent(created, owner, DocumentOf(s.issued), VersionOf(s.issued)) {
      IntentStep(created, owner, DocumentOf(s.issued), VersionOf(s.issued));
    } else {
      CopiedJob(created, owner, DocumentOf(s.issued), VersionOf(s.issued));
    }
  }

  /** `h.source` is the current version of an active document of `owner`. */
  ghost predicate Committing(s: State, owner: Uuid, document: Uuid, h: Holder) {
    && document in s.documents && s.documents[document].owner == owner && s.documents[document].state == Active
    && document in s.leases && h.source in s.versions && s.documents[document].current == h.source
  }

  lemma AdvancedVersions(s: State, owner: Uuid, document: Uuid, h: Holder, restoredFrom: Option<Uuid>)
    requires RowsOk(s) && SafeOk(s) && Committing(s, owner, document, h)
    ensures var t := Advanced(s, owner, document, h, restoredFrom);
      forall v | v in t.versions :: VersionOk(t, v) && VersionSafe(t, v)
  {
    var t := Advanced(s, owner, document, h, restoredFrom);
    Unused(s);
    assert DocumentOk(s, document);
    forall v | v in t.versions
      ensures VersionOk(t, v) && VersionSafe(t, v)
    {
      assert v in s.versions ==> VersionOk(s, v) && VersionSafe(s, v);
    }
  }

  lemma AdvancedNumbers(s: State, owner: Uuid, document: Uuid, h: Holder, restoredFrom: Option<Uuid>)
    requires RowsOk(s) && Committing(s, owner, document, h)
    ensures NumbersUnique(Advanced(s, owner, document, h, restoredFrom))
  {
    assert NumbersUnique(s);
    forall v | v in s.versions && s.versions[v].document == document
      ensures s.versions[v].number <= s.versions[h.source].number
    {
      assert VersionOk(s, v);
    }
  }

  lemma AdvancedRows(s: State, owner: Uuid, document: Uuid, h: Holder, restoredFrom: Option<Uuid>)
    requires RowsOk(s) && SafeOk(s) && Committing(s, owner, document, h)
    ensures var t := Advanced(s, owner, document, h, restoredFrom); RowsOk(t) && SafeOk(t)
  {
    hide VersionSafe, VersionOk;
    var t := Advanced(s, owner, document, h, restoredFrom);
    Unused(s);
    AdvancedVersions(s, owner, document, h, restoredFrom);
    AdvancedNumbers(s, owner, document, h, restoredFrom);
    forall d | d in t.documents ensures DocumentOk(t, d) { assert DocumentOk(s, d) && DocumentOk(s, document); }
    forall f | f in t.files ensures FileOk(t, f) { assert f in s.files ==> FileOk(s, f); }
  }

  lemma AdvancedJobs(s: State, owner: Uuid, document: Uuid, h: Holder, restoredFrom: Option<Uuid>)
    requires JobsOk(s) && ClaimsOk(s) && RowsOk(s) && document in s.documents && s.documents[document].owner == owner
    requires document in s.leases && h.source in s.versions
    ensures var t := Advanced(s, owner, document, h, restoredFrom); JobsOk(t) && ClaimsOk(t)
  {
    hide RowsOk;
    var t := Advanced(s, owner, document, h, restoredFrom);
    Unused(s);
    forall j | j in t.jobs ensures JobOk(t, j) { assert JobOk(s, j); }
    CalmerJobs(s, t);
    ClaimsKept(s, t);
  }

  /** The holder's next commit keeps everyone else out between any two of its commits. */
  lemma FenceExtends(commits: seq<CommitRecord>, c: CommitRecord)
    requires Fenced(commits) && Exclusive(commits, c.document, c.generation)
    ensures Fenced(commits + [c]) && Exclusive(commits + [c], c.document, c.generation)
  {
  }

  lemma AdvancedLeases(s: State, owner: Uuid, document: Uuid, h: Holder, restoredFrom: Option<Uuid>)
    requires RowsOk(s) && LeasesOk(s) && CommitsOk(s) && document in s.documents && document in s.leases
      && h.source in s.versions
    ensures var t := Advanced(s, owner, document, h, restoredFrom); LeasesOk(t) && CommitsOk(t)
  {
    hide RowsOk, Fenced;
    var t := Advanced(s, owner, document, h, restoredFrom);
    var c := CommitRecord(document, s.leases[document].generation, VersionOf(s.issued));
    assert HeldOk(s, document) && LeaseOk(s, document);
    FenceExtends(s.commits, c);
    forall d | d in t.leases ensures LeaseOk(t, d) { assert LeaseOk(s, d); }
    forall d | d in t.leases ensures HeldOk(t, d) { assert HeldOk(s, d); }
  }

  lemma CommitStep(s: State, owner: Uuid, document: Uuid, h: Holder, restoredFrom: Option<Uuid>)
    requires Inv(s) && Commit(s, owner, document, h, restoredFrom).Ok?
    ensures Inv(Commit(s, owner, document, h, restoredFrom).value)
  {
    hide RowsOk, SafeOk, LeasesOk, JobsOk, ClaimsOk, CommitsOk, Intent, Restorable;
    AdvancedRows(s, owner, document, h, restoredFrom);
    AdvancedJobs(s, owner, document, h, restoredFrom);
    AdvancedLeases(s, owner, document, h, restoredFrom);
    IntentStep(Advanced(s, owner, document, h, restoredFrom), owner, document, VersionOf(s.issued));
  }

  // ----- runs

  lemma SettingsStep(s: State, t: State)
    requires Inv(s) && t == s.(users := t.users, keepLatest := t.keepLatest, clock := t.clock)
      && t.keepLatest != Some(0)
    ensures Inv(t)
  {
    hide Fenced, Exclusive;
    RowsKept(s, t);
    forall v | v in t.versions ensures VersionSafe(t, v) { assert VersionSafe(s, v); }
    forall d | d in t.leases ensures LeaseOk(t, d) && HeldOk(t, d) { assert LeaseOk(s, d) && HeldOk(s, d); }
    forall j | j in t.jobs ensures JobOk(t, j) { assert JobOk(s, j); }
    CalmerJobs(s, t);
    ClaimsKept(s, t);
  }

  lemma KeepOf(s: State)
    requires Inv(s)
    ensures s.keepLatest != Some(0)
  {
  }

  /** Whatever transaction runs next, the invariant survives. */
  lemma ApplyStep(s: State, a: Action)
    requires Inv(s)
    ensures Inv(Apply(s, a))
  {
    hide Inv, Upload, Copy, ChangeLease, Commit, Trash, Untrash, EmptyTrash, Purge, FinishDelete, Prune, Submit, Claim,
         Finish, Expire, Lost;
    KeepOf(s);
    match a
    case UploadAction(owner) => if Upload(s, owner).Ok? { UploadStep(s, owner); }
    case CopyAction(owner, source, version) =>
      if Copy(s, owner, source, version).Ok? { CopyStep(s, owner, source, version); }
    case LeaseChange(owner, document, change, holder, alive) =>
      if ChangeLease(s, owner, document, change, holder, alive).Ok? {
        LeaseStep(s, owner, document, change, holder, alive);
      }
    case CommitAction(owner, document, holder, from) =>
      if Commit(s, owner, document, holder, from).Ok? { CommitStep(s, owner, document, holder, from); }
    case TrashAction(owner, document) => if Trash(s, owner, document).Ok? { TrashStep(s, owner, document); }
    case UntrashAction(owner, document) => if Untrash(s, owner, document).Ok? { UntrashStep(s, owner, document); }
    case EmptyAction(owner) => if EmptyTrash(s, owner).Ok? { EmptyStep(s, owner); }
    case PurgeAction(owner, document, expiredOnly, user) =>
      if Purge(s, owner, document, expiredOnly, user).Ok? { PurgeStep(s, owner, document, expiredOnly, user); }
    case FinishDeleteAction(file) => FinishDeleteStep(s, file);
    case PruneAction(c) => if Prune(s, c).Ok? { PruneStep(s, c); }
    case SubmitAction(owner, document) => if Submit(s, owner, document).Ok? { SubmitStep(s, owner, document); }
    case ClaimAction(job, attempt) => ClaimStep(s, job, attempt);
    case FinishAction(job, attempt, done) => FinishStep(s, job, attempt, done);
    case ExpireAction(job) => ExpireStep(s, job);
    case LostAction(job, attempt) => LostStep(s, job, attempt);
    case _ => SettingsStep(s, Apply(s, a));
  }

  lemma InitInv(s: State)
    requires Init(s)
    ensures Inv(s)
  {
    forall o ensures WithinCap(s.jobs, o) { assert ActiveJobs(s.jobs, o) == {}; }
  }

  /** Every state of every run satisfies the invariant. */
  lemma {:induction false} RunInv(s: State, actions: seq<Action>)
    requires Inv(s)
    ensures Inv(Run(s, actions))
    decreases |actions|
  {
    hide Inv, Apply;
    if actions != [] {
      ApplyStep(s, actions[0]);
      RunInv(Apply(s, actions[0]), actions[1..]);
    }
  }

  ghost predicate Reachable(t: State) {
    exists s, actions :: Init(s) && Run(s, actions) == t
  }

  lemma ReachableInv(t: State)
    requires Reachable(t)
    ensures Inv(t)
  {
    var s, actions :| Init(s) && Run(s, actions) == t;
    InitInv(s);
    RunInv(s, actions);
  }
}
