/** What a caller of a document or job operation may rely on, stated on the tables before and after the call without
    naming the transaction that ran. */
module DocumentContracts {
  import opened Common
  import opened DocumentTables
  import opened DocumentInvariant
  import opened DocumentSteps
  import opened DocumentTheorems
  import opened JobTheorems

  function RefusalOf(r: Result<State, Refusal>): Option<Refusal> {
    match r case Ok(_) => None case Err(e) => Some(e)
  }

  /** The document is `owner`'s and is being worked on. */
  predicate MayEdit(s: State, owner: Uuid, d: Uuid) {
    owner in s.users && d in s.documents && s.documents[d].owner == owner && s.documents[d].state == Active
  }

  /** The document is `owner`'s and not deleted for good. */
  predicate MayMove(s: State, owner: Uuid, d: Uuid) {
    owner in s.users && d in s.documents && s.documents[d].owner == owner && s.documents[d].state != Deleted
  }

  // ----- processing intents

  predicate JobFor(job: Job, document: Uuid, source: Uuid) {
    job.document == document && job.source == source
  }

  /** Waiting, at work, or done with its result still there. */
  predicate IsUsable(job: Job) {
    job.status != Failed && (job.status == Succeeded ==> job.snapshot)
  }

  ghost predicate HasUsable(s: State, document: Uuid, source: Uuid) {
    exists j :: j in s.jobs && JobFor(s.jobs[j], document, source) && IsUsable(s.jobs[j])
  }

  /** Back in the queue under the next attempt, with three attempts from there. */
  ghost predicate Renewed(job: Job, next: Job) {
    && SameJobIdentity(job, next) && next.status == Queued && next.leaseUntil == None
    && next.attempt == job.attempt + 1 && next.retryUntil == next.attempt + 2
  }

  /** A new job, with three attempts. */
  ghost predicate NewJob(job: Job, owner: Uuid, document: Uuid, source: Uuid) {
    && JobFor(job, document, source) && job.owner == owner && job.status == Queued && job.leaseUntil == None
    && job.attempt == 1 && job.retryUntil == 3
  }

  /** Afterwards the revision has a usable job unless its owner has too many jobs already. A usable job is left as it
      is, an unusable one gets three more attempts, and no other job is touched. */
  ghost predicate IntentGives(s: State, t: State, owner: Uuid, document: Uuid, source: Uuid, refusal: Option<Refusal>) {
    && (refusal.None? <==> HasUsable(s, document, source) || |ActiveJobs(s.jobs, owner)| < ACTIVE_JOBS)
    && (refusal.Some? ==> refusal.value == RateLimited)
    && (refusal.Some? || HasUsable(s, document, source) ==> t == s)
    && (refusal.None? ==> HasUsable(t, document, source))
    && t == s.(jobs := t.jobs, issued := t.issued)
    && (forall j | j in s.jobs :: j in t.jobs
          && (t.jobs[j] == s.jobs[j] || (JobFor(s.jobs[j], document, source) && Renewed(s.jobs[j], t.jobs[j]))))
    && (forall j | j in t.jobs && j !in s.jobs :: NewJob(t.jobs[j], owner, document, source))
  }

  /** The job found is the only one of the revision. */
  lemma OnlyJob(s: State, document: Uuid, source: Uuid)
    requires JobsOk(s)
    ensures s.issued !in s.jobs
    ensures var found := FindJob(s.jobs, document, source, s.issued);
      forall j | j in s.jobs && JobFor(s.jobs[j], document, source) :: found == Some(j)
  {
    FoundJob(s, document, source);
    assert s.issued in s.jobs ==> JobOk(s, s.issued);
  }

  lemma IntentContract(s: State, owner: Uuid, document: Uuid, source: Uuid)
    requires JobsOk(s)
    ensures var r := Intent(s, owner, document, source);
      IntentGives(s, OrElse(r, s), owner, document, source, RefusalOf(r))
  {
    hide ActiveJobs, JobsOk;
    var existing := FindJob(s.jobs, document, source, s.issued);
    OnlyJob(s, document, source);
    var t := OrElse(Intent(s, owner, document, source), s);
    if t != s {
      var id := if existing.Some? then existing.value else s.issued;
      assert id in t.jobs && JobFor(t.jobs[id], document, source) && IsUsable(t.jobs[id]);
    }
  }

  // ----- uploads and copies

  /** One document more, with one revision of its own and one ready file, and nothing else but its job. */
  ghost predicate OneDocument(s: State, t: State, owner: Uuid, d: Uuid) {
    && d !in s.documents && d in t.documents
    && var v, file := t.documents[d].current, t.documents[d].original;
    && v !in s.versions && file !in s.files
    && t == s.(documents := s.documents[d := Document(owner, file, v, Active)],
         versions := s.versions[v := Version(d, owner, file, 1, None, None, false)],
         files := s.files[file := File(owner, Ready)], jobs := t.jobs, issued := t.issued)
  }

  /** The only new job, `job`, is that of the new document's revision. */
  ghost predicate OneJob(s: State, t: State, job: Job) {
    exists j: Uuid :: j !in s.jobs && t.jobs == s.jobs[j := job]
  }

  function Waiting(owner: Uuid, d: Uuid, v: Uuid): Job {
    Job(d, owner, v, Queued, 1, 3, None, false)
  }

  /** An upload makes a document whose revision waits to be processed. */
  ghost predicate UploadGives(s: State, t: State, owner: Uuid, r: Result<Uuid, Refusal>) {
    match r
    case Err(Unauthenticated) => t == s && owner !in s.users
    case Err(RateLimited) => t == s && owner in s.users && |ActiveJobs(s.jobs, owner)| >= ACTIVE_JOBS
    case Err(_) => false
    case Ok(d) =>
      && owner in s.users && |ActiveJobs(s.jobs, owner)| < ACTIVE_JOBS
      && OneDocument(s, t, owner, d) && OneJob(s, t, Waiting(owner, d, t.documents[d].current))
  }

  /** The revision was processed, and what was found is still there. */
  ghost predicate Discovered(s: State, document: Uuid, source: Uuid) {
    exists j ::
      j in s.jobs && JobFor(s.jobs[j], document, source) && s.jobs[j].status == Succeeded && s.jobs[j].snapshot
  }

  /** A copy of a processed revision is processed already, even for an owner with too many jobs; that of any other
      waits to be. */
  ghost predicate CopyGives(s: State, t: State, owner: Uuid, source: Uuid, from: Uuid, r: Result<Uuid, Refusal>) {
    match r
    case Err(Unauthenticated) => t == s && owner !in s.users
    case Err(NotFound) => t == s && owner in s.users && !MayEdit(s, owner, source)
    case Err(Conflict) => t == s && MayEdit(s, owner, source) && s.documents[source].current != from
    case Err(RateLimited) =>
      && t == s && MayEdit(s, owner, source) && s.documents[source].current == from
      && !Discovered(s, source, from) && |ActiveJobs(s.jobs, owner)| >= ACTIVE_JOBS
    case Err(_) => false
    case Ok(d) =>
      && MayEdit(s, owner, source) && s.documents[source].current == from && OneDocument(s, t, owner, d)
      && var v := t.documents[d].current;
      && if Discovered(s, source, from) then OneJob(s, t, Job(d, owner, v, Succeeded, 1, 3, None, true))
         else |ActiveJobs(s.jobs, owner)| < ACTIVE_JOBS && OneJob(s, t, Waiting(owner, d, v))
  }

  lemma JobsBelow(s: State)
    requires Inv(s)
    ensures forall j | j in s.jobs :: j < s.issued && s.jobs[j].document in s.documents
    ensures forall j | j in s.jobs :: s.jobs[j].owner == s.documents[s.jobs[j].document].owner
    ensures forall d | d in s.documents :: d < s.issued
    ensures forall v | v in s.versions :: v < s.issued
    ensures forall f | f in s.files :: f < s.issued
  {
    hide SafeOk, LeasesOk, ClaimsOk, CommitsOk;
    Unused(s);
    assert forall j | j in s.jobs :: JobOk(s, j);
  }

  lemma CreatedDocument(s: State, t: State, owner: Uuid, job: Job)
    requires Inv(s) && t == Created(s, owner).(jobs := s.jobs[s.issued + 3 := job], issued := s.issued + 4)
    ensures OneDocument(s, t, owner, DocumentOf(s.issued)) && OneJob(s, t, job)
  {
    hide Inv;
    JobsBelow(s);
    var j := s.issued + 3;
    assert j !in s.jobs && t.jobs == s.jobs[j := job];
  }

  /** A new revision has no job, so the intent makes one or is refused. */
  lemma FirstIntent(s: State, owner: Uuid)
    requires Inv(s)
    ensures var u, d, v := Created(s, owner), DocumentOf(s.issued), VersionOf(s.issued);
      Intent(u, owner, d, v) ==
        if |ActiveJobs(s.jobs, owner)| >= ACTIVE_JOBS then Err(RateLimited)
        else Ok(u.(jobs := s.jobs[s.issued + 3 := Waiting(owner, d, v)], issued := s.issued + 4))
  {
    hide Inv, ActiveJobs;
    JobsBelow(s);
  }

  lemma UploadContract(s: State, owner: Uuid)
    requires Inv(s)
    ensures var r := Upload(s, owner);
      UploadGives(s, OrElse(r, s), owner, if r.Ok? then Ok(DocumentOf(s.issued)) else Err(r.error))
  {
    hide Inv, ActiveJobs, Intent, OneDocument, OneJob;
    FirstIntent(s, owner);
    if Upload(s, owner).Ok? {
      CreatedDocument(s, Upload(s, owner).value, owner, Waiting(owner, DocumentOf(s.issued), VersionOf(s.issued)));
    }
  }

  lemma DiscoveredFound(s: State, owner: Uuid, source: Uuid, from: Uuid)
    requires Inv(s) && MayEdit(s, owner, source)
    ensures var existing := FindJob(s.jobs, source, from, s.issued + 3);
      Discovered(s, source, from) <==>
        existing.Some? && s.jobs[existing.value].owner == owner && s.jobs[existing.value].status == Succeeded
        && s.jobs[existing.value].snapshot
  {
    hide SafeOk, LeasesOk, ClaimsOk, CommitsOk, RowsOk;
    JobsBelow(s);
    assert JobsUnique(s);
  }

  lemma CopyContract(s: State, owner: Uuid, source: Uuid, from: Uuid)
    requires Inv(s)
    ensures var r := Copy(s, owner, source, from);
      CopyGives(s, OrElse(r, s), owner, source, from, if r.Ok? then Ok(DocumentOf(s.issued)) else Err(r.error))
  {
    hide Inv, ActiveJobs, Intent, FindJob, OneDocument, OneJob, Discovered;
    FirstIntent(s, owner);
    var d, v := DocumentOf(s.issued), VersionOf(s.issued);
    if MayEdit(s, owner, source) {
      DiscoveredFound(s, owner, source, from);
    }
    var r := Copy(s, owner, source, from);
    if r.Ok? {
      CreatedDocument(s, r.value, owner,
        if Discovered(s, source, from) then Job(d, owner, v, Succeeded, 1, 3, None, true) else Waiting(owner, d, v));
    }
  }

  // ----- editing leases

  /** No lease ever carried the generation, and nobody committed with it. */
  ghost predicate NeverUsed(s: State, generation: Uuid) {
    && generation >= s.issued
    && (forall d | d in s.leases :: s.leases[d].generation != generation)
    && (forall c | c in s.commits :: c.generation != generation)
  }

  /** A lease stands: its time is not over, and its holder's session is still valid. */
  predicate Held(s: State, d: Uuid, alive: bool) {
    d in s.leases && s.leases[d].expires > s.clock && alive
  }

  /** The lease is this tab's. */
  predicate Ours(s: State, d: Uuid, h: Holder) {
    d in s.leases && s.leases[d].session == h.session && s.leases[d].client == h.client
  }

  /** The tab shows the very generation and revision the lease is for. */
  predicate Shown(s: State, d: Uuid, h: Holder) {
    Ours(s, d, h) && h.generation == Some(s.leases[d].generation) && h.source == s.leases[d].source
  }

  /** The holder has the document for a minute. A tab that still has the lease keeps its generation, and every other
      holder gets one that nobody ever had. */
  ghost predicate LeaseGranted(s: State, t: State, owner: Uuid, d: Uuid, h: Holder, alive: bool)
    requires d in t.documents
  {
    && d in t.leases
    && var l := t.leases[d];
    && l.owner == owner && l.source == h.source == t.documents[d].current
    && l.session == h.session && l.client == h.client && l.expires == s.clock + LEASE_SECONDS
    && (if Held(s, d, alive) && Ours(s, d, h) then l.generation == s.leases[d].generation
        else NeverUsed(s, l.generation))
  }

  /** Each action succeeds exactly when it should, and is refused for exactly one reason. */
  ghost predicate LeaseAnswer(s: State, owner: Uuid, d: Uuid, action: LeaseAction, h: Holder, alive: bool,
                              refusal: Option<Refusal>)
  {
    match refusal
    case Some(Unauthenticated) => owner !in s.users
    case Some(NotFound) => owner in s.users && !MayEdit(s, owner, d)
    case Some(RevisionConflict) => MayEdit(s, owner, d) && action != Release && s.documents[d].current != h.source
    case Some(LeaseLost) =>
      && MayEdit(s, owner, d) && s.documents[d].current == h.source
      && action == Renew && !(Held(s, d, alive) && Shown(s, d, h))
    case Some(LeaseBusy) =>
      && MayEdit(s, owner, d) && s.documents[d].current == h.source
      && action == Acquire && Held(s, d, alive) && !Ours(s, d, h)
    case Some(_) => false
    case None =>
      && MayEdit(s, owner, d) && (action != Release ==> s.documents[d].current == h.source)
      && (action == Renew ==> Held(s, d, alive) && Shown(s, d, h))
      && (action == Acquire ==> Held(s, d, alive) ==> Ours(s, d, h))
  }

  ghost predicate LeaseAlone(s: State, t: State, d: Uuid) {
    && t == s.(leases := t.leases, issued := t.issued)
    && t.leases.Keys - {d} == s.leases.Keys - {d}
    && forall e | e in s.leases && e != d :: e in t.leases && t.leases[e] == s.leases[e]
  }

  ghost predicate LeaseGives(s: State, t: State, owner: Uuid, d: Uuid, action: LeaseAction, h: Holder, alive: bool,
                             refusal: Option<Refusal>)
  {
    && LeaseAlone(s, t, d)
    && LeaseAnswer(s, owner, d, action, h, alive, refusal)
    && (refusal.Some? ==> t == s)
    // Nobody takes over from a live holder.
    && (Held(s, d, alive) && !Ours(s, d, h) ==> t == s)
    && (refusal.None? && action != Release ==> d in t.documents && LeaseGranted(s, t, owner, d, h, alive))
    && (refusal.None? && action == Renew ==> h.generation == Some(t.leases[d].generation))
    && (refusal.None? && action == Release ==> if Shown(s, d, h) then d !in t.leases else t == s)
    // Whoever lost the lease by this stays out for good.
    && (d in s.leases && (d in t.leases ==> t.leases[d].generation != s.leases[d].generation)
        ==> Retired(t, d, s.leases[d].generation))
  }

  lemma GenerationsKnown(s: State)
    requires Inv(s)
    ensures NeverUsed(s, s.issued)
    ensures forall d | d in s.leases :: s.leases[d].generation < s.issued
  {
    hide RowsOk, SafeOk, JobsOk, ClaimsOk, Fenced, Exclusive;
    forall d | d in s.leases ensures s.leases[d].generation < s.issued { assert LeaseOk(s, d); }
  }

  lemma ActiveReadable(s: State, d: Uuid)
    requires Inv(s) && d in s.documents && s.documents[d].state != Deleted
    ensures Readable(s, d)
  {
    hide LeasesOk, JobsOk, ClaimsOk, CommitsOk;
    assert DocumentOk(s, d);
    LivingVersion(s, d, s.documents[d].current);
  }

  lemma LeasedCurrent(s: State, d: Uuid)
    requires Inv(s)
    ensures d in s.leases ==> d in s.documents && s.leases[d].source == s.documents[d].current
  {
    hide RowsOk, SafeOk, JobsOk, ClaimsOk, CommitsOk;
    assert d in s.leases ==> LeaseOk(s, d);
  }

  lemma LeaseContract(s: State, owner: Uuid, d: Uuid, action: LeaseAction, h: Holder, alive: bool)
    requires Inv(s)
    ensures var r := ChangeLease(s, owner, d, action, h, alive);
      LeaseGives(s, OrElse(r, s), owner, d, action, h, alive, RefusalOf(r))
  {
    hide Inv, Readable, NeverUsed;
    GenerationsKnown(s);
    LeasedCurrent(s, d);
    if MayEdit(s, owner, d) {
      ActiveReadable(s, d);
    }
  }

  // ----- saving and restoring

  /** The editor may replace the current revision: its lease stands, on that revision, under the generation it shows. */
  predicate Holding(s: State, owner: Uuid, d: Uuid, h: Holder) {
    && MayEdit(s, owner, d) && s.documents[d].current == h.source
    && Held(s, d, true) && Shown(s, d, h)
  }

  /** The revision is one of the document, and its file is still there. */
  predicate CanRestore(s: State, owner: Uuid, d: Uuid, v: Uuid) {
    v in s.versions && s.versions[v].document == d && s.versions[v].owner == owner && FileReady(s, v)
  }

  /** The owner's jobs that go on if everything queued or at work for document `d` is stopped. */
  function OtherWork(s: State, owner: Uuid, d: Uuid): set<Uuid> {
    set j | j in ActiveJobs(s.jobs, owner) && s.jobs[j].document != d
  }

  /** One revision more: the child of the one replaced, under the next number, with its own ready file. */
  ghost predicate OneRevision(s: State, t: State, owner: Uuid, d: Uuid, from: Option<Uuid>)
    requires d in s.documents && s.documents[d].current in s.versions
  {
    && d in t.documents
    && var v, was := t.documents[d].current, s.documents[d].current;
    && v !in s.versions && t.versions.Keys == s.versions.Keys + {v}
    && (forall w | w in s.versions :: t.versions[w] == s.versions[w])
    && var row := t.versions[v];
    && row.document == d && row.owner == owner && row.number == s.versions[was].number + 1
    && row.parent == Some(was) && row.restoredFrom == from && !row.erased
    && row.file !in s.files && t.files == s.files[row.file := File(owner, Ready)]
  }

  /** The document points at the new revision, its lease follows, and no other document or lease changes. */
  ghost predicate PointsAtNew(s: State, t: State, d: Uuid)
    requires d in s.documents && d in s.leases && d in t.documents
  {
    && t.documents == s.documents[d := s.documents[d].(current := t.documents[d].current)]
    && t.leases == s.leases[d := s.leases[d].(source := t.documents[d].current)]
    && t.commits == s.commits + [CommitRecord(d, s.leases[d].generation, t.documents[d].current)]
  }

  /** Work on older revisions is stale, the new one has a job, and other documents' jobs go on. */
  ghost predicate WorkFollows(s: State, t: State, d: Uuid)
    requires d in t.documents
  {
    && (forall j | j in t.jobs && t.jobs[j].document == d && IsActive(t.jobs[j]) ::
         t.jobs[j].source == t.documents[d].current)
    && HasUsable(t, d, t.documents[d].current)
    && (forall j | j in s.jobs :: j in t.jobs
          && (t.jobs[j] == s.jobs[j]
              || (s.jobs[j].document == d && IsActive(s.jobs[j])
                   && t.jobs[j] == s.jobs[j].(status := Stale, leaseUntil := None))))
  }

  ghost predicate CommitGives(s: State, t: State, owner: Uuid, d: Uuid, h: Holder, from: Option<Uuid>,
                              refusal: Option<Refusal>) {
    && CommitAnswer(s, owner, d, h, from, refusal)
    && (refusal.Some? ==> t == s)
    && (refusal.None? ==> Committed(s, t, owner, d, from))
  }

  /** A commit succeeds exactly for the holder of the lease, with room for the new revision's job, and is refused for
      exactly one reason. */
  ghost predicate CommitAnswer(s: State, owner: Uuid, d: Uuid, h: Holder, from: Option<Uuid>,
                               refusal: Option<Refusal>) {
    var restores := from.Some? ==> CanRestore(s, owner, d, from.value);
    match refusal
    case Some(Unauthenticated) => owner !in s.users
    case Some(NotFound) => owner in s.users && (!MayEdit(s, owner, d) || (Holding(s, owner, d, h) && !restores))
    case Some(RevisionConflict) => MayEdit(s, owner, d) && s.documents[d].current != h.source
    case Some(LeaseLost) =>
      MayEdit(s, owner, d) && s.documents[d].current == h.source && !Holding(s, owner, d, h)
    case Some(RateLimited) => Holding(s, owner, d, h) && restores && |OtherWork(s, owner, d)| >= ACTIVE_JOBS
    case Some(_) => false
    case None => Holding(s, owner, d, h) && restores && |OtherWork(s, owner, d)| < ACTIVE_JOBS
  }

  lemma InvalidatedWork(s: State, owner: Uuid, d: Uuid)
    ensures ActiveJobs(Invalidated(s.jobs, d), owner) == OtherWork(s, owner, d)
  {
  }

  ghost predicate Committed(s: State, t: State, owner: Uuid, d: Uuid, from: Option<Uuid>) {
    && d in s.documents && s.documents[d].current in s.versions && d in s.leases
    && OneRevision(s, t, owner, d, from) && PointsAtNew(s, t, d) && WorkFollows(s, t, d)
    && t.users == s.users && t.keepLatest == s.keepLatest && t.clock == s.clock && t.claims == s.claims
  }

  /** Nobody has a job for a revision that does not exist yet. */
  lemma NoJobYet(s: State, d: Uuid, version: Uuid)
    requires JobsOk(s) && RowsOk(s) && version >= s.issued
    ensures !HasUsable(s.(jobs := Invalidated(s.jobs, d)), d, version)
  {
    Unused(s);
    forall j | j in s.jobs ensures s.jobs[j].source < s.issued { assert JobOk(s, j); }
  }

  lemma AdvancedRevision(s: State, owner: Uuid, d: Uuid, h: Holder, from: Option<Uuid>)
    requires RowsOk(s) && Committing(s, owner, d, h)
    ensures var t := Advanced(s, owner, d, h, from); OneRevision(s, t, owner, d, from) && PointsAtNew(s, t, d)
  {
    Unused(s);
  }

  lemma CommitWork(s: State, t: State, owner: Uuid, d: Uuid, h: Holder, from: Option<Uuid>)
    requires Inv(s) && Inv(t) && Committing(s, owner, d, h)
    requires Intent(Advanced(s, owner, d, h, from), owner, d, VersionOf(s.issued)) == Ok(t)
    requires IntentGives(Advanced(s, owner, d, h, from), t, owner, d, VersionOf(s.issued), None)
    requires !HasUsable(Advanced(s, owner, d, h, from), d, VersionOf(s.issued))
    ensures WorkFollows(s, t, d)
  {
    hide RowsOk, SafeOk, LeasesOk, ClaimsOk, CommitsOk, Intent, HasUsable;
    var u := Advanced(s, owner, d, h, from);
    Unused(s);
    forall j | j in s.jobs ensures s.jobs[j].source < s.issued { assert JobOk(s, j) && s.jobs[j].source in s.versions; }
    forall j | j in t.jobs && t.jobs[j].document == d && IsActive(t.jobs[j])
      ensures t.jobs[j].source == t.documents[d].current
    {
      assert JobOk(t, j);
    }
  }

  lemma RestorableReady(s: State, owner: Uuid, d: Uuid, from: Option<Uuid>)
    ensures from.Some? ==> (Restorable(s, owner, d, from.value) <==> CanRestore(s, owner, d, from.value))
  {
  }

  lemma CommitContract(s: State, owner: Uuid, d: Uuid, h: Holder, from: Option<Uuid>)
    requires Inv(s)
    ensures var r := Commit(s, owner, d, h, from); CommitGives(s, OrElse(r, s), owner, d, h, from, RefusalOf(r))
  {
    hide RowsOk, SafeOk, LeasesOk, JobsOk, ClaimsOk, CommitsOk, Intent, Restorable, CanRestore, Advanced, Invalidated,
      ActiveJobs, OtherWork, HasUsable, OneRevision, PointsAtNew, WorkFollows, IntentGives;
    RestorableReady(s, owner, d, from);
    InvalidatedWork(s, owner, d);
    if Holding(s, owner, d, h) && (from.Some? ==> CanRestore(s, owner, d, from.value)) {
      CurrentOf(s, d);
      var u := Advanced(s, owner, d, h, from);
      AdvancedInv(s, owner, d, h, from);
      AdvancedRevision(s, owner, d, h, from);
      NoJobYet(s, d, VersionOf(s.issued));
      IntentContract(u, owner, d, VersionOf(s.issued));
      CommitIntent(s, owner, d, h, from);
      if Intent(u, owner, d, VersionOf(s.issued)).Ok? {
        CommitStep(s, owner, d, h, from);
        CommitWork(s, Intent(u, owner, d, VersionOf(s.issued)).value, owner, d, h, from);
      }
    }
  }

  /** What the intent at the end of a commit adds to the advanced tables. */
  lemma CommitIntent(s: State, owner: Uuid, d: Uuid, h: Holder, from: Option<Uuid>)
    requires Committing(s, owner, d, h)
    requires !HasUsable(s.(jobs := Invalidated(s.jobs, d)), d, VersionOf(s.issued))
    requires var u := Advanced(s, owner, d, h, from); OneRevision(s, u, owner, d, from) && PointsAtNew(s, u, d)
    requires var u := Advanced(s, owner, d, h, from); var r := Intent(u, owner, d, VersionOf(s.issued));
      IntentGives(u, OrElse(r, u), owner, d, VersionOf(s.issued), RefusalOf(r))
    ensures var u := Advanced(s, owner, d, h, from); var r := Intent(u, owner, d, VersionOf(s.issued));
      && !HasUsable(u, d, VersionOf(s.issued))
      && (r.Ok? <==> |ActiveJobs(Invalidated(s.jobs, d), owner)| < ACTIVE_JOBS)
      && (r.Err? ==> r.error == RateLimited)
      && (r.Ok? ==> OneRevision(s, r.value, owner, d, from) && PointsAtNew(s, r.value, d)
                    && r.value.users == s.users && r.value.keepLatest == s.keepLatest && r.value.clock == s.clock
                    && r.value.claims == s.claims)
  {
    hide Intent, ActiveJobs, Invalidated;
  }

  // ----- trash

  predicate Due(s: State, d: Uuid) {
    d in s.documents && s.documents[d].state.Trashed? && s.documents[d].state.purgeAfter <= s.clock
  }

  /** A move to or from the trash is refused to nobody the document belongs to. */
  ghost predicate MoveRefused(s: State, owner: Uuid, d: Uuid, refusal: Refusal) {
    match refusal
    case Unauthenticated => owner !in s.users
    case NotFound => owner in s.users && !MayMove(s, owner, d)
    case _ => false
  }

  ghost predicate TrashGives(s: State, t: State, owner: Uuid, d: Uuid, refusal: Option<Refusal>) {
    && (refusal.None? <==> MayMove(s, owner, d))
    && (refusal.Some? ==> t == s && MoveRefused(s, owner, d, refusal.value))
    // A document that is in the trash already keeps its deadline.
    && (refusal.None? && s.documents[d].state != Active ==> t == s)
    && (refusal.None? && s.documents[d].state == Active ==>
          && t.documents == s.documents[d := s.documents[d].(state := Trashed(s.clock + TRASH_SECONDS))]
          && d !in t.leases && (d in s.leases ==> Retired(t, d, s.leases[d].generation))
          && LeaseAlone(s.(documents := t.documents), t, d))
  }

  lemma TrashContract(s: State, owner: Uuid, d: Uuid)
    requires Inv(s)
    ensures var r := Trash(s, owner, d); TrashGives(s, OrElse(r, s), owner, d, RefusalOf(r))
  {
    hide Inv;
    GenerationsKnown(s);
  }

  /** What comes back from the trash can be opened: its current revision was kept. */
  ghost predicate UntrashGives(s: State, t: State, owner: Uuid, d: Uuid, refusal: Option<Refusal>) {
    && (refusal.None? <==> MayMove(s, owner, d) && !Due(s, d))
    && (refusal == Some(Conflict) <==> MayMove(s, owner, d) && Due(s, d))
    && (refusal.Some? ==> t == s && (refusal == Some(Conflict) || MoveRefused(s, owner, d, refusal.value)))
    && (refusal.None? ==> t == s.(documents := s.documents[d := s.documents[d].(state := Active)])
                          && Readable(t, d) && d in t.documents && VersionOf(t.documents[d].original) in t.versions
                          && FileReady(t, VersionOf(t.documents[d].original)))
  }

  lemma UntrashContract(s: State, owner: Uuid, d: Uuid)
    requires Inv(s)
    ensures var r := Untrash(s, owner, d); UntrashGives(s, OrElse(r, s), owner, d, RefusalOf(r))
  {
    hide RowsOk, SafeOk, LeasesOk, JobsOk, ClaimsOk, CommitsOk;
    if MayMove(s, owner, d) {
      ActiveReadable(s, d);
      OriginalReady(s, d);
    }
  }

  lemma OriginalReady(s: State, d: Uuid)
    requires RowsOk(s) && SafeOk(s) && d in s.documents && s.documents[d].state != Deleted
    ensures VersionOf(s.documents[d].original) in s.versions && FileReady(s, VersionOf(s.documents[d].original))
  {
    assert DocumentOk(s, d);
    LivingVersion(s, d, VersionOf(s.documents[d].original));
  }

  // ----- permanent deletion

  ghost predicate VersionKept(s: State, t: State, v: Uuid)
    requires v in s.versions
  {
    && v in t.versions && t.versions[v] == s.versions[v]
    && (s.versions[v].file in s.files ==>
          s.versions[v].file in t.files && t.files[s.versions[v].file] == s.files[s.versions[v].file])
  }

  /** The document, its lease, its versions with their files and its jobs are as before. */
  ghost predicate DocumentKept(s: State, t: State, d: Uuid)
    requires d in s.documents
  {
    && d in t.documents && t.documents[d] == s.documents[d]
    && (d in t.leases <==> d in s.leases) && (d in s.leases ==> t.leases[d] == s.leases[d])
    && (forall v {:trigger VersionKept(s, t, v)} | v in s.versions && s.versions[v].document == d ::
         VersionKept(s, t, v))
    && (forall j | j in s.jobs && s.jobs[j].document == d :: j in t.jobs && t.jobs[j] == s.jobs[j])
  }

  /** Nothing of the document can be read, edited or worked on any more. */
  ghost predicate Unreachable(t: State, d: Uuid) {
    && d in t.documents && t.documents[d].state == Deleted && d !in t.leases
    && (forall v {:trigger FileReady(t, v)} | v in t.versions && t.versions[v].document == d :: !FileReady(t, v))
  }

  /** What was kept about its contents is cleared too. */
  ghost predicate Cleared(t: State, d: Uuid) {
    && (forall v | v in t.versions && t.versions[v].document == d :: t.versions[v].erased)
    && (forall j | j in t.jobs && t.jobs[j].document == d :: !t.jobs[j].snapshot)
  }

  /** What was ready is marked for deletion, so that storage will find it and uncharge it. */
  ghost predicate LeftToStorage(s: State, t: State, d: Uuid) {
    forall v | v in s.versions && s.versions[v].document == d && FileReady(s, v) ::
      var file := s.versions[v].file; file in t.files && t.files[file] == s.files[file].(state := PendingDelete)
  }

  /** Identities, chains, ownership and the tables a deletion has no business with. */
  ghost predicate Elsewhere(s: State, t: State) {
    && SameRows(s, t) && Calmer(s.jobs, t.jobs)
    && t.users == s.users && t.keepLatest == s.keepLatest && t.clock == s.clock && t.issued == s.issued
    && t.commits == s.commits && t.claims == s.claims
  }

  /** Never refused as shared; the document is gone unless only an overdue one was asked for; every other document is
      untouched. */
  ghost predicate PurgeGives(s: State, t: State, owner: Uuid, d: Uuid, expiredOnly: bool, user: bool,
                             refusal: Option<Refusal>) {
    && (match refusal
        case Some(Unauthenticated) => user && owner !in s.users
        case Some(NotFound) => (user ==> owner in s.users) && !(d in s.documents && s.documents[d].owner == owner)
        case Some(_) => false
        case None => (user ==> owner in s.users) && d in s.documents && s.documents[d].owner == owner)
    && (refusal.Some? ==> t == s)
    && (refusal.None? ==>
          if expiredOnly && !Due(s, d) then t == s
          else Unreachable(t, d) && (s.documents[d].state != Deleted ==> Cleared(t, d) && LeftToStorage(s, t, d)))
    && Elsewhere(s, t)
    && (forall e {:trigger DocumentKept(s, t, e)} | e in s.documents && e != d :: DocumentKept(s, t, e))
  }

  lemma DeletedUnreachable(s: State, d: Uuid)
    requires Inv(s) && d in s.documents && s.documents[d].state == Deleted
    ensures Unreachable(s, d)
  {
    hide JobsOk, ClaimsOk, CommitsOk;
    assert d in s.leases ==> LeaseOk(s, d);
    forall v | v in s.versions && s.versions[v].document == d ensures !FileReady(s, v) { LivingVersion(s, d, v); }
  }

  lemma ErasedOthers(s: State, owner: Uuid, d: Uuid)
    requires Inv(s) && d in s.documents && s.documents[d].owner == owner
    ensures var t := Erased(s, owner, d); forall e | e in s.documents && e != d :: DocumentKept(s, t, e)
  {
    hide RowsOk, SafeOk, LeasesOk, JobsOk, ClaimsOk, CommitsOk, Retained;
    var t := Erased(s, owner, d);
    forall e | e in s.documents && e != d
      ensures DocumentKept(s, t, e)
    {
      forall v | v in s.versions && s.versions[v].document == e
        ensures VersionKept(s, t, v)
      {
        OwnFiles(s, owner, d, v);
      }
    }
  }

  lemma ErasedElsewhere(s: State, owner: Uuid, d: Uuid)
    requires d in s.documents
    ensures Elsewhere(s, Erased(s, owner, d)) && Cleared(Erased(s, owner, d), d)
    ensures d in Erased(s, owner, d).documents && Erased(s, owner, d).documents[d].state == Deleted
  {
    hide Retained;
  }

  lemma ErasedFiles(s: State, owner: Uuid, d: Uuid)
    requires RowsOk(s) && d in s.documents && s.documents[d].owner == owner
    ensures LeftToStorage(s, Erased(s, owner, d), d)
  {
    forall v | v in s.versions && s.versions[v].document == d && FileReady(s, v)
      ensures Retained(s, owner, d, s.versions[v].file)
    {
      assert VersionOk(s, v);
    }
  }

  lemma PurgeContract(s: State, owner: Uuid, d: Uuid, expiredOnly: bool, user: bool)
    requires Inv(s)
    ensures var r := Purge(s, owner, d, expiredOnly, user);
      PurgeGives(s, OrElse(r, s), owner, d, expiredOnly, user, RefusalOf(r))
  {
    hide Inv, SharedFile, Erased, Unreachable, Cleared, LeftToStorage, DocumentKept, Elsewhere;
    forall e | e in s.documents ensures DocumentKept(s, s, e) { KeptSelf(s, e); }
    ElsewhereSelf(s);
    if d in s.documents && s.documents[d].owner == owner {
      assert !SharedFile(s, owner, d) by { RowsOf(s); NothingShared(s, owner, d); }
      ErasedOthers(s, owner, d);
      ErasedElsewhere(s, owner, d);
      ErasedFiles(s, owner, d) by { RowsOf(s); }
      if s.documents[d].state == Deleted {
        DeletedUnreachable(s, d);
      } else {
        EraseStep(s, owner, d);
        DeletedUnreachable(Erased(s, owner, d), d);
      }
    }
  }

  lemma RowsOf(s: State)
    requires Inv(s)
    ensures RowsOk(s)
  {
  }

  lemma ElsewhereSelf(s: State)
    ensures Elsewhere(s, s)
  {
  }

  lemma KeptSelf(s: State, d: Uuid)
    requires d in s.documents
    ensures DocumentKept(s, s, d)
  {
  }

  /** After a batch exactly its overdue documents are gone and every other document is as it was. */
  ghost predicate BatchPurged(s: State, t: State, targets: seq<(Uuid, Uuid)>) {
    && Elsewhere(s, t)
    && forall d {:trigger DocumentKept(s, t, d)} {:trigger Unreachable(t, d)} | d in s.documents ::
         if Due(s, d) && (s.documents[d].owner, d) in targets then Unreachable(t, d) && Cleared(t, d)
         else DocumentKept(s, t, d)
  }

  lemma NonePurged(s: State)
    ensures BatchPurged(s, s, [])
  {
  }

  lemma KeptTrans(s: State, u: State, t: State, d: Uuid)
    requires d in s.documents && DocumentKept(s, u, d) && DocumentKept(u, t, d)
    ensures DocumentKept(s, t, d)
  {
    forall v | v in s.versions && s.versions[v].document == d ensures VersionKept(s, t, v) {
      assert VersionKept(s, u, v) && VersionKept(u, t, v);
    }
  }

  lemma GoneStays(u: State, t: State, d: Uuid)
    requires d in u.documents && DocumentKept(u, t, d) && Elsewhere(u, t) && Unreachable(u, d) && Cleared(u, d)
    requires forall v | v in u.versions :: u.versions[v].file in u.files
    ensures Unreachable(t, d) && Cleared(t, d)
  {
    forall v | v in t.versions && t.versions[v].document == d ensures !FileReady(t, v) && t.versions[v].erased {
      assert VersionKept(u, t, v) && !FileReady(u, v);
    }
  }

  lemma FilesKnown(s: State)
    requires Inv(s)
    ensures forall v | v in s.versions :: s.versions[v].file in s.files
  {
    hide SafeOk, LeasesOk, JobsOk, ClaimsOk, CommitsOk;
    forall v | v in s.versions ensures s.versions[v].file in s.files { assert VersionOk(s, v); }
  }

  lemma PurgedOneMore(s: State, u: State, t: State, targets: seq<(Uuid, Uuid)>, owner: Uuid, d: Uuid,
                      refusal: Option<Refusal>)
    requires BatchPurged(s, u, targets) && Inv(u) && PurgeGives(u, t, owner, d, true, false, refusal)
    ensures BatchPurged(s, t, targets + [(owner, d)])
  {
    hide Inv, DocumentKept, Unreachable, Cleared;
    FilesKnown(u);
    assert Elsewhere(s, t);
    forall e | e in s.documents
      ensures if Due(s, e) && (s.documents[e].owner, e) in targets + [(owner, d)] then Unreachable(t, e)
        && Cleared(t, e)
              else DocumentKept(s, t, e)
    {
      PurgedAnother(s, u, t, targets, owner, d, refusal, e);
    }
  }

  lemma PurgedAnother(s: State, u: State, t: State, targets: seq<(Uuid, Uuid)>, owner: Uuid, d: Uuid,
                      refusal: Option<Refusal>, e: Uuid)
    requires BatchPurged(s, u, targets) && PurgeGives(u, t, owner, d, true, false, refusal) && e in s.documents
    requires forall v | v in u.versions :: u.versions[v].file in u.files
    ensures if Due(s, e) && (s.documents[e].owner, e) in targets + [(owner, d)] then Unreachable(t, e) && Cleared(t, e)
            else DocumentKept(s, t, e)
  {
    hide Unreachable, Cleared, VersionKept;
    if Due(s, e) && (s.documents[e].owner, e) in targets {
      assert Unreachable(u, e) && Cleared(u, e);
      DeletedNotDue(u, e);
      if e == d { KeptSelf(u, e); } else { assert DocumentKept(u, t, e); }
      GoneStays(u, t, e);
    } else {
      assert DocumentKept(s, u, e);
      if e != d {
        assert DocumentKept(u, t, e);
        KeptTrans(s, u, t, e);
      }
    }
  }

  lemma DeletedNotDue(u: State, d: Uuid)
    requires Unreachable(u, d)
    ensures !Due(u, d)
  {
  }

  /** Emptying the trash makes every trashed document of the owner overdue and takes those of the batch away at once;
      a document that was not in the owner's trash is untouched. */
  ghost predicate EmptyGives(s: State, t: State, owner: Uuid, batch: seq<Uuid>, refusal: Option<Refusal>) {
    && (refusal.None? <==> owner in s.users)
    && (refusal.Some? ==> t == s && refusal == Some(Unauthenticated))
    && (refusal.None? ==> Emptied(s, t, owner, batch))
  }

  ghost predicate Emptied(s: State, t: State, owner: Uuid, batch: seq<Uuid>) {
    && Elsewhere(s, t)
    && forall d {:trigger DocumentKept(s, t, d)} {:trigger Unreachable(t, d)} | d in s.documents ::
         if s.documents[d].owner == owner && s.documents[d].state.Trashed?
         then if d in batch then Unreachable(t, d) && Cleared(t, d) else Due(t, d)
         else DocumentKept(s, t, d)
  }

  function Targets(owner: Uuid, batch: seq<Uuid>): seq<(Uuid, Uuid)> {
    seq(|batch|, i requires 0 <= i < |batch| => (owner, batch[i]))
  }

  lemma EmptyContract(s: State, u: State, t: State, owner: Uuid, batch: seq<Uuid>)
    requires Inv(s) && owner in s.users && DocumentTables.EmptyTrash(s, owner) == Ok(u)
    requires BatchPurged(u, t, Targets(owner, batch))
    ensures EmptyGives(s, t, owner, batch, None)
  {
    hide Inv, DocumentKept, Unreachable, Cleared;
    assert Elsewhere(s, t);
    forall d | d in s.documents
      ensures if s.documents[d].owner == owner && s.documents[d].state.Trashed?
              then if d in batch then Unreachable(t, d) && Cleared(t, d) else Due(t, d)
              else DocumentKept(s, t, d)
    {
      EmptiedOne(s, u, t, owner, batch, d);
    }
  }

  lemma EmptiedOne(s: State, u: State, t: State, owner: Uuid, batch: seq<Uuid>, d: Uuid)
    requires owner in s.users && DocumentTables.EmptyTrash(s, owner) == Ok(u) && d in s.documents
    requires BatchPurged(u, t, Targets(owner, batch))
    ensures if s.documents[d].owner == owner && s.documents[d].state.Trashed?
            then if d in batch then Unreachable(t, d) && Cleared(t, d) else Due(t, d)
            else DocumentKept(s, t, d)
  {
    hide Unreachable, Cleared, VersionKept;
    var targets := Targets(owner, batch);
    if d in batch {
      var i :| 0 <= i < |batch| && batch[i] == d;
      assert targets[i] == (owner, d);
    }
    assert (owner, d) in targets ==> d in batch;
    if s.documents[d].owner == owner && s.documents[d].state.Trashed? {
      assert Due(u, d);
      assert d !in batch ==> DocumentKept(u, t, d);
    } else {
      assert DocumentKept(u, t, d);
      forall v | v in s.versions && s.versions[v].document == d
        ensures VersionKept(s, t, v)
      {
        KeptAcross(s, u, t, d, v);
      }
    }
  }

  lemma KeptAcross(s: State, u: State, t: State, d: Uuid, v: Uuid)
    requires u.versions == s.versions && u.files == s.files && d in u.documents && DocumentKept(u, t, d)
    requires v in s.versions && s.versions[v].document == d
    ensures VersionKept(s, t, v)
  {
    assert VersionKept(u, t, v);
  }

  // ----- pruning

  /** What the policy lets go: an older revision of an active document, not its first, with at least the kept number of
      revisions after it, and its file still there. */
  predicate Prunable(s: State, c: Candidate) {
    && s.keepLatest.Some? && FileReady(s, c.version)
    && var row := s.versions[c.version];
    && row.file == c.file && row.document == c.document && row.owner == c.owner
    && c.document in s.documents && s.documents[c.document].state == Active
    && s.documents[c.document].current in s.versions
    && 1 < row.number && row.number + s.keepLatest.value <= s.versions[s.documents[c.document].current].number
  }

  /** The revision is marked: its contents are cleared, its file goes, and work on it stops. */
  ghost predicate Marked(s: State, t: State, v: Uuid)
    requires v in s.versions
  {
    && v in t.versions && t.versions[v] == s.versions[v].(erased := true)
    && t.versions[v].file in s.files
    && t.versions[v].file in t.files
    && t.files[t.versions[v].file] == s.files[t.versions[v].file].(state := PendingDelete)
    && forall j | j in s.jobs && s.jobs[j].source == v ::
         j in t.jobs && t.jobs[j] == s.jobs[j].(status := Stale, leaseUntil := None, snapshot := false)
  }

  /** Documents and leases stay; so does every job but those of the revisions in `gone`. */
  ghost predicate RevisionsOnly(s: State, t: State, gone: iset<Uuid>) {
    && Elsewhere(s, t) && t.documents == s.documents && t.leases == s.leases
    && forall j | j in s.jobs && s.jobs[j].source !in gone :: j in t.jobs && t.jobs[j] == s.jobs[j]
  }

  /** The policy a candidate was selected under is checked again: a prunable revision is marked, anything else is left
      alone, and what a policy of `keep` revisions retains stays readable. */
  ghost predicate PruneGives(s: State, t: State, c: Candidate, refusal: Option<Refusal>) {
    && (refusal == Some(NotFound) <==> c.file !in s.files || s.files[c.file].owner != c.owner)
    && (refusal.Some? ==> refusal.value == NotFound || refusal.value == ProtectedVersion)
    && (if Prunable(s, c) then refusal.None? && Marked(s, t, c.version) else t == s)
    && (refusal == Some(ProtectedVersion) <==>
          c.file in s.files && s.files[c.file].owner == c.owner && s.files[c.file].state == Ready && !Prunable(s, c))
    && RevisionsOnly(s, t, iset{c.version})
    && (forall v {:trigger VersionKept(s, t, v)} | v in s.versions && v != c.version :: VersionKept(s, t, v))
  }

  /** Nobody else names the file of a prunable revision, and it is neither the first nor the current one. */
  lemma PrunableAccepted(s: State, c: Candidate)
    requires Inv(s) && s.keepLatest.Some?
    ensures Prunable(s, c) <==>
      && c.file in s.files && s.files[c.file].owner == c.owner && s.files[c.file].state == Ready
      && c.document in s.documents && s.documents[c.document].owner == c.owner
      && Eligible(s, s.keepLatest.value, c) && !SharedCandidate(s, c)
  {
    hide SafeOk, LeasesOk, JobsOk, ClaimsOk, CommitsOk;
    if c.version in s.versions && s.versions[c.version].file == c.file {
      assert VersionOk(s, c.version);
      forall d | d in s.documents ensures VersionOf(s.documents[d].original) in s.versions && DocumentOk(s, d) {
        assert DocumentOk(s, d);
      }
      forall v | v in s.versions && s.versions[v].file == c.file ensures v == c.version { assert VersionOk(s, v); }
    }
  }

  /** Two versions never share a file. */
  lemma FilesApart(s: State, v: Uuid)
    requires Inv(s) && v in s.versions
    ensures s.versions[v].file in s.files
    ensures forall w | w in s.versions && w != v :: s.versions[w].file != s.versions[v].file
  {
    hide SafeOk, LeasesOk, JobsOk, ClaimsOk, CommitsOk;
    assert VersionOk(s, v);
    forall w | w in s.versions && w != v ensures s.versions[w].file != s.versions[v].file { assert VersionOk(s, w); }
  }

  lemma PruneContract(s: State, c: Candidate)
    requires Inv(s)
    ensures var r := DocumentTables.Prune(s, c); PruneGives(s, OrElse(r, s), c, RefusalOf(r))
  {
    hide RowsOk, SafeOk, LeasesOk, JobsOk, ClaimsOk, CommitsOk, Eligible, SharedCandidate, Prunable;
    if s.keepLatest.Some? {
      PrunableAccepted(s, c);
    }
    PrunableParts(s, c);
    if Prunable(s, c) {
      FilesApart(s, c.version);
    }
  }

  lemma PrunableParts(s: State, c: Candidate)
    ensures Prunable(s, c) ==> s.keepLatest.Some? && c.version in s.versions && s.versions[c.version].file == c.file
                               && s.versions[c.version].owner == c.owner
  {
  }

  ghost predicate Chosen(s: State, batch: seq<Candidate>, v: Uuid) {
    exists c :: c in batch && c.version == v && Prunable(s, c)
  }

  /** After a batch, exactly the revisions that were prunable when it began are marked. */
  ghost predicate BatchPruned(s: State, t: State, batch: seq<Candidate>) {
    && RevisionsOnly(s, t, iset v | Chosen(s, batch, v))
    && forall v {:trigger Chosen(s, batch, v)} {:trigger VersionKept(s, t, v)} | v in s.versions ::
         if Chosen(s, batch, v) then Marked(s, t, v) else VersionKept(s, t, v)
  }

  lemma NonePruned(s: State)
    ensures BatchPruned(s, s, [])
  {
    forall v ensures !Chosen(s, [], v) {}
  }

  lemma PrunableBefore(s: State, u: State, batch: seq<Candidate>, c: Candidate)
    requires Inv(s) && BatchPruned(s, u, batch)
    ensures Prunable(u, c) <==> Prunable(s, c) && !Chosen(s, batch, c.version)
  {
    hide Inv, Chosen;
    FilesKnown(s);
    if c.version in s.versions {
      assert if Chosen(s, batch, c.version) then Marked(s, u, c.version) else VersionKept(s, u, c.version);
    }
  }

  lemma ChosenGrows(s: State, batch: seq<Candidate>, c: Candidate, v: Uuid)
    ensures Chosen(s, batch + [c], v) <==> Chosen(s, batch, v) || (c.version == v && Prunable(s, c))
  {
    hide Prunable;
    if Chosen(s, batch, v) {
      var x :| x in batch && x.version == v && Prunable(s, x);
      assert x in batch + [c];
    }
    if c.version == v && Prunable(s, c) {
      assert c in batch + [c];
    }
  }

  lemma PrunedOne(s: State, u: State, t: State, batch: seq<Candidate>, c: Candidate, refusal: Option<Refusal>, v: Uuid)
    requires Inv(s) && BatchPruned(s, u, batch) && PruneGives(u, t, c, refusal) && v in s.versions
    ensures if Chosen(s, batch + [c], v) then Marked(s, t, v) else VersionKept(s, t, v)
  {
    hide Inv, Chosen, Prunable;
    PrunableBefore(s, u, batch, c);
    ChosenGrows(s, batch, c, v);
    FilesKnown(s);
    assert if Chosen(s, batch, v) then Marked(s, u, v) else VersionKept(s, u, v);
    assert v != c.version ==> VersionKept(u, t, v);
  }

  lemma PrunedOneMore(s: State, u: State, t: State, batch: seq<Candidate>, c: Candidate, refusal: Option<Refusal>)
    requires Inv(s) && BatchPruned(s, u, batch) && PruneGives(u, t, c, refusal)
    ensures BatchPruned(s, t, batch + [c])
  {
    hide Inv, Chosen, Prunable, Marked, VersionKept;
    PrunableBefore(s, u, batch, c);
    forall v | v in s.versions
      ensures if Chosen(s, batch + [c], v) then Marked(s, t, v) else VersionKept(s, t, v)
    {
      PrunedOne(s, u, t, batch, c, refusal, v);
    }
    forall v ensures Chosen(s, batch + [c], v) <==> Chosen(s, batch, v) || (c.version == v && Prunable(s, c)) {
      ChosenGrows(s, batch, c, v);
    }
  }

  /** Readers of what a policy keeps notice nothing. */
  lemma BatchKept(s: State, t: State, batch: seq<Candidate>, keep: nat)
    requires Inv(s) && BatchPruned(s, t, batch) && Kept(s, keep) && AtLeast(s.keepLatest, keep)
    ensures Kept(t, keep)
  {
    hide Inv;
    FilesKnown(s);
    forall v | v in t.versions
      ensures KeptVersion(t, keep, v)
    {
      assert KeptVersion(s, keep, v);
      if !Chosen(s, batch, v) {
        assert VersionKept(s, t, v);
      }
    }
  }

  // ----- workers

  /** Only job `id` may change. */
  ghost predicate JobAlone(s: State, t: State, id: Uuid) {
    && t == s.(jobs := t.jobs, claims := t.claims)
    && t.jobs.Keys == s.jobs.Keys
    && forall j | j in s.jobs && j != id :: t.jobs[j] == s.jobs[j]
  }

  /** The job is for the current revision of a document somebody works on. */
  predicate Worthwhile(s: State, job: Job) {
    && job.owner in s.users && job.document in s.documents
    && s.documents[job.document].state == Active && s.documents[job.document].current == job.source
  }

  /** The attempt is given to a worker exactly when it waits for a revision still worth working on, and then for the
      first time; otherwise it is recorded for nobody. */
  ghost predicate ClaimGives(s: State, t: State, id: Uuid, attempt: nat, granted: bool) {
    && JobAlone(s, t, id)
    && (granted <==>
         id in s.jobs && s.jobs[id].attempt == attempt && s.jobs[id].status == Queued && Worthwhile(s, s.jobs[id]))
    && (granted ==>
          && multiset(s.claims)[ClaimRecord(id, attempt)] == 0 && multiset(t.claims)[ClaimRecord(id, attempt)] == 1
          && t.jobs[id] == s.jobs[id].(status := Running, leaseUntil := Some(s.clock + JOB_LEASE_SECONDS)))
    && (!granted ==>
          && t.claims == s.claims
          && (if id in s.jobs && s.jobs[id].attempt == attempt && s.jobs[id].status == Queued
              then t.jobs[id] == s.jobs[id].(status := Stale, leaseUntil := None) else t == s))
    // A second worker that asks for the same attempt gets nothing.
    && Claim(t, id, attempt).1 == false
  }

  lemma ClaimContract(s: State, id: Uuid, attempt: nat)
    requires Inv(s)
    ensures ClaimGives(s, Claim(s, id, attempt).0, id, attempt, Claim(s, id, attempt).1)
  {
    hide Inv;
    if Claim(s, id, attempt).1 {
      NotClaimed(s, id, attempt);
    }
  }

  lemma NotClaimed(s: State, id: Uuid, attempt: nat)
    requires Inv(s) && id in s.jobs && s.jobs[id].attempt == attempt && s.jobs[id].status == Queued
    ensures multiset(s.claims)[ClaimRecord(id, attempt)] == 0
  {
    hide RowsOk, SafeOk, LeasesOk, CommitsOk, JobsOk;
    var record := ClaimRecord(id, attempt);
    assert record in s.claims ==> ClaimSpent(s, record);
    assert record !in multiset(s.claims);
  }

  /** The worker that holds the attempt, its time not over. */
  predicate AtWork(s: State, id: Uuid, attempt: nat) {
    && id in s.jobs && s.jobs[id].attempt == attempt && s.jobs[id].status == Running
    && s.jobs[id].leaseUntil.Some? && s.jobs[id].leaseUntil.value > s.clock
  }

  /** Only the worker at work is heard, and only once: its report ends the attempt and brings the job nearer to its end.
      Without success there is one more attempt, the next one, until the last. */
  ghost predicate FinishGives(s: State, t: State, id: Uuid, attempt: nat, done: bool) {
    && JobAlone(s, t, id) && t.claims == s.claims
    && (!AtWork(s, id, attempt) ==> t == s)
    && (AtWork(s, id, attempt) ==>
          && Descends(s.jobs[id], t.jobs[id]) && t.jobs[id].leaseUntil.None? && Ended(t, id, attempt)
          && (t.jobs[id].status == Stale <==> !Worthwhile(s, s.jobs[id]))
          && (t.jobs[id].status == Succeeded <==> done && Worthwhile(s, s.jobs[id]))
          && (t.jobs[id].status == Queued <==>
                !done && Worthwhile(s, s.jobs[id]) && attempt < s.jobs[id].retryUntil)
          && (t.jobs[id].status == Failed <==>
                !done && Worthwhile(s, s.jobs[id]) && attempt == s.jobs[id].retryUntil)
          && t.jobs[id].attempt == (if t.jobs[id].status == Queued then attempt + 1 else attempt)
          && t.jobs[id].snapshot == (t.jobs[id].status == Succeeded || s.jobs[id].snapshot)
          && SameJobIdentity(s.jobs[id], t.jobs[id]))
  }

  /** What a result does to the tables: one job at most. */
  lemma FinishChanges(s: State, id: Uuid, attempt: nat, done: bool)
    ensures var t := Finish(s, id, attempt, done);
      t == s || (id in s.jobs && id in t.jobs && t == WithJob(s, id, t.jobs[id]))
  {
  }

  lemma FinishContract(s: State, id: Uuid, attempt: nat, done: bool)
    requires Inv(s)
    ensures FinishGives(s, Finish(s, id, attempt, done), id, attempt, done)
  {
    hide Inv;
    KnownJobs(s);
    FinishChanges(s, id, attempt, done);
  }

  // ----- the dispatcher

  ghost function NewlyFailed(s: State, t: State): set<Uuid> {
    set j | j in t.jobs && t.jobs[j].status == Failed && j in s.jobs && s.jobs[j].status != Failed
  }

  predicate Overdue(s: State, id: Uuid) {
    id in s.jobs && s.jobs[id].status == Running && s.jobs[id].leaseUntil.Some? && s.jobs[id].leaseUntil.value < s.clock
  }

  ghost predicate Onward(job: Job, next: Job) {
    next == job
    || (IsActive(job) && Descends(job, next) && !next.leaseUntil.Some?
         && (next.status == Queued || next.status == Failed))
  }

  /** `lapses` attempts of the job came to nothing: each leads to the next, and the last one is the end. */
  predicate Lapsed(job: Job, next: Job, lapses: nat) {
    next == if lapses == 0 then job
            else if job.attempt + lapses <= job.retryUntil
            then job.(status := Queued, attempt := job.attempt + lapses, leaseUntil := None)
            else job.(status := Failed, attempt := job.retryUntil, leaseUntil := None)
  }

  /** The attempts a round of the dispatcher ends: one of a worker whose time is over, and every one that was lost. */
  function Lapses(s: State, id: Uuid, seen: bool, losses: nat): nat {
    if seen && Overdue(s, id) then 1 + losses else if id in s.jobs && s.jobs[id].status == Queued then losses else 0
  }

  ghost function LossesOf(batch: seq<(Uuid, bool)>, id: Uuid): nat {
    multiset(batch)[(id, true)]
  }

  ghost predicate Seen(batch: seq<(Uuid, bool)>, id: Uuid) {
    (id, true) in batch || (id, false) in batch
  }

  /** Every job has used up exactly the attempts of workers whose time is over and those the queue lost: it waits under
      the attempt that follows, or has failed after its last one. No worker of the batch whose time is over keeps its
      job, jobs outside the batch are as before, and the count is that of the jobs that have failed. */
  ghost predicate Dispatched(s: State, t: State, batch: seq<(Uuid, bool)>, failed: nat) {
    && t == s.(jobs := t.jobs) && t.jobs.Keys == s.jobs.Keys
    && (forall j | j in s.jobs :: Onward(s.jobs[j], t.jobs[j]) && DispatchedTo(s, t, batch, j))
    && (forall b | b in batch :: !Overdue(t, b.0))
    && failed == |NewlyFailed(s, t)|
  }

  ghost predicate DispatchedTo(s: State, t: State, batch: seq<(Uuid, bool)>, j: Uuid)
    requires j in s.jobs && j in t.jobs
  {
    Lapsed(s.jobs[j], t.jobs[j], Lapses(s, j, Seen(batch, j), LossesOf(batch, j)))
  }

  /** What happens to one job on the dispatcher's way. */
  ghost predicate DispatchedOne(u: State, t: State, id: Uuid, lost: bool) {
    && t == u.(jobs := t.jobs) && t.jobs.Keys == u.jobs.Keys
    && (forall j | j in u.jobs && j != id :: t.jobs[j] == u.jobs[j])
    && (id in u.jobs ==>
          && Onward(u.jobs[id], t.jobs[id]) && !Overdue(t, id)
          && Lapsed(u.jobs[id], t.jobs[id], Lapses(u, id, true, if lost then 1 else 0)))
  }

  lemma NoneDispatched(s: State)
    ensures Dispatched(s, s, [], 0)
  {
    assert NewlyFailed(s, s) == {};
  }

  lemma ExpireOne(s: State, id: Uuid)
    requires Inv(s)
    ensures DispatchedOne(s, Expire(s, id), id, false)
  {
    hide Inv;
    KnownJobs(s);
  }

  lemma LostOne(s: State, id: Uuid)
    requires Inv(s) && id in s.jobs && !Overdue(s, id)
    ensures var t := Lost(s, id, s.jobs[id].attempt);
      DispatchedOne(s, t, id, s.jobs[id].status == Queued)
  {
    hide Inv;
    KnownJobs(s);
  }

  lemma OnwardTrans(a: Job, b: Job, c: Job)
    requires Onward(a, b) && Onward(b, c)
    ensures Onward(a, c)
  {
  }

  /** The expired lease first, then the queue. */
  lemma ExpiredThenLost(s: State, u: State, t: State, id: Uuid, lost: bool)
    requires DispatchedOne(s, u, id, false)
    requires id in u.jobs && u.jobs[id].status == Queued && lost ==> DispatchedOne(u, t, id, true)
    requires !(id in u.jobs && u.jobs[id].status == Queued && lost) ==> t == u
    requires id in s.jobs && s.jobs[id].status == Queued ==> u == s
    ensures DispatchedOne(s, t, id, lost)
  {
    hide Descends;
    if id in s.jobs && u.jobs[id].status == Queued && lost {
      OnwardTrans(s.jobs[id], u.jobs[id], t.jobs[id]);
    }
  }

  lemma DispatchedJob(s: State, u: State, t: State, batch: seq<(Uuid, bool)>, failed: nat, id: Uuid, lost: bool,
                      j: Uuid)
    requires Dispatched(s, u, batch, failed) && DispatchedOne(u, t, id, lost) && j in s.jobs
    ensures Onward(s.jobs[j], t.jobs[j]) && (!Overdue(u, j) ==> !Overdue(t, j))
  {
    hide Descends;
    if j == id {
      OnwardTrans(s.jobs[j], u.jobs[j], t.jobs[j]);
    }
  }

  lemma FailedStep(s: State, u: State, t: State, id: Uuid, lost: bool)
    requires s.jobs.Keys == u.jobs.Keys && DispatchedOne(u, t, id, lost)
    requires id in s.jobs ==> Onward(s.jobs[id], u.jobs[id])
    ensures |NewlyFailed(s, t)| == |NewlyFailed(s, u)|
      + (if id in u.jobs && u.jobs[id].status != Failed && t.jobs[id].status == Failed then 1 else 0)
  {
    hide Onward, Overdue;
    if id in s.jobs {
      FailedForGood(s.jobs[id], u.jobs[id]);
      FailedForGood(u.jobs[id], t.jobs[id]);
      OthersFailed(s, u, t, id);
      assert id in NewlyFailed(s, t) <==> t.jobs[id].status == Failed && s.jobs[id].status != Failed;
      if u.jobs[id].status != Failed && t.jobs[id].status == Failed {
        assert NewlyFailed(s, t) == NewlyFailed(s, u) + {id};
      } else {
        assert NewlyFailed(s, t) == NewlyFailed(s, u);
      }
    } else {
      assert t.jobs == u.jobs;
    }
  }

  lemma OthersFailed(s: State, u: State, t: State, id: Uuid)
    requires s.jobs.Keys == u.jobs.Keys == t.jobs.Keys
    requires forall j | j in u.jobs && j != id :: t.jobs[j] == u.jobs[j]
    ensures forall j | j != id :: j in NewlyFailed(s, t) <==> j in NewlyFailed(s, u)
  {
  }

  lemma FailedForGood(job: Job, next: Job)
    requires Onward(job, next)
    ensures job.status == Failed ==> next.status == Failed
  {
    hide Descends;
  }

  lemma LossesGrow(batch: seq<(Uuid, bool)>, id: Uuid, lost: bool, j: Uuid)
    ensures LossesOf(batch + [(id, lost)], j) == LossesOf(batch, j) + (if j == id && lost then 1 else 0)
    ensures Seen(batch + [(id, lost)], j) <==> Seen(batch, j) || j == id
    ensures !Seen(batch, j) ==> LossesOf(batch, j) == 0
  {
    assert (id, lost) in batch + [(id, lost)];
    assert LossesOf(batch, j) > 0 ==> (j, true) in multiset(batch);
  }

  /** A further round continues where the ones before left the job. */
  lemma DispatchedToMore(s: State, u: State, t: State, batch: seq<(Uuid, bool)>, failed: nat, id: Uuid, lost: bool,
                         j: Uuid)
    requires Dispatched(s, u, batch, failed) && DispatchedOne(u, t, id, lost) && j in s.jobs
    ensures DispatchedTo(s, t, batch + [(id, lost)], j)
  {
    hide Onward, LossesOf, Seen;
    LossesGrow(batch, id, lost, j);
    if Seen(batch, j) {
      SeenRested(s, u, batch, failed, j);
    }
  }

  lemma SeenRested(s: State, u: State, batch: seq<(Uuid, bool)>, failed: nat, j: Uuid)
    requires Dispatched(s, u, batch, failed) && Seen(batch, j)
    ensures !Overdue(u, j)
  {
    hide DispatchedTo, Onward, Overdue;
    var b := if (j, true) in batch then (j, true) else (j, false);
    assert b in batch && !Overdue(u, b.0);
  }

  lemma DispatchedOneMore(s: State, u: State, t: State, batch: seq<(Uuid, bool)>, failed: nat, id: Uuid, lost: bool)
    requires Dispatched(s, u, batch, failed) && DispatchedOne(u, t, id, lost)
    ensures var now := failed +
      (if id in u.jobs && u.jobs[id].status != Failed && t.jobs[id].status == Failed then 1 else 0);
      Dispatched(s, t, batch + [(id, lost)], now)
  {
    hide Onward, Overdue, DispatchedTo, Lapsed, Lapses;
    var b := batch + [(id, lost)];
    FailedStep(s, u, t, id, lost);
    forall j | j in s.jobs
      ensures Onward(s.jobs[j], t.jobs[j]) && DispatchedTo(s, t, b, j) && (!Overdue(u, j) ==> !Overdue(t, j))
    {
      DispatchedJob(s, u, t, batch, failed, id, lost, j);
      DispatchedToMore(s, u, t, batch, failed, id, lost, j);
    }
    forall x | x in b ensures !Overdue(t, x.0) { NotOverdue(s, u, t, batch, id, x); }
  }

  lemma NotOverdue(s: State, u: State, t: State, batch: seq<(Uuid, bool)>, id: Uuid, x: (Uuid, bool))
    requires t.jobs.Keys == u.jobs.Keys == s.jobs.Keys
    requires x in batch ==> !Overdue(u, x.0)
    requires x.0 in s.jobs && !Overdue(u, x.0) ==> !Overdue(t, x.0)
    requires id in s.jobs ==> !Overdue(t, id)
    requires x in batch || x.0 == id
    ensures !Overdue(t, x.0)
  {
  }
}
