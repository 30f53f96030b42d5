/** Documents, versions, editing leases, retained files and processing jobs: every transaction of the document and job
    services as a function on the tables. A transaction that raises returns its refusal, and nothing is committed. */
module DocumentTables {
  import opened Common

  /** Random identifiers come from the supply `State.issued`. The identifiers the program derives by name from a
      file's identifier are fixed offsets of it. */
  type Uuid = nat

  const LEASE_SECONDS: nat := 60
  const JOB_LEASE_SECONDS: nat := 45
  const TRASH_SECONDS: nat := 30 * 24 * 60 * 60
  const ACTIVE_JOBS: nat := 5

  datatype DocumentState = Active | Trashed(purgeAfter: nat) | Deleted

  datatype Document = Document(owner: Uuid, original: Uuid, current: Uuid, state: DocumentState)

  /** `erased` says that the model and review of the row were cleared. */
  datatype Version = Version(
    document: Uuid, owner: Uuid, file: Uuid, number: nat, parent: Option<Uuid>, restoredFrom: Option<Uuid>,
      erased: bool)

  /** An editing lease; `generation` is its `lease_id`. */
  datatype Lease = Lease(owner: Uuid, source: Uuid, session: nat, client: nat, generation: Uuid, expires: nat)

  datatype FileState = Ready | PendingDelete | Gone

  datatype File = File(owner: Uuid, state: FileState)

  datatype JobStatus = Queued | Running | Succeeded | Failed | Stale

  datatype Job = Job(
    document: Uuid, owner: Uuid, source: Uuid, status: JobStatus, attempt: nat, retryUntil: nat,
    leaseUntil: Option<nat>, snapshot: bool)

  /** `commits` and `claims` record what was granted; no code reads them. */
  datatype State = State(
    users: set<Uuid>, documents: map<Uuid, Document>, versions: map<Uuid, Version>, leases: map<Uuid, Lease>,
    files: map<Uuid, File>, jobs: map<Uuid, Job>, keepLatest: Option<nat>, clock: nat, issued: nat,
    commits: seq<CommitRecord>, claims: seq<ClaimRecord>)

  datatype CommitRecord = CommitRecord(document: Uuid, generation: Uuid, version: Uuid)

  datatype ClaimRecord = ClaimRecord(job: Uuid, attempt: nat)

  datatype Refusal =
    | Unauthenticated | NotFound | Conflict | RevisionConflict | LeaseLost | LeaseBusy | RateLimited | ProtectedVersion

  datatype LeaseAction = Acquire | Renew | Release

  /** What an editor presents: the revision it edits, its session and tab, and the generation it was given. */
  datatype Holder = Holder(source: Uuid, session: nat, client: nat, generation: Option<Uuid>)

  function DocumentOf(file: Uuid): Uuid { file + 2 }

  function VersionOf(file: Uuid): Uuid { file + 1 }

  predicate IsActive(job: Job) {
    job.status == Queued || job.status == Running
  }

  function ActiveJobs(jobs: map<Uuid, Job>, owner: Uuid): set<Uuid> {
    set j | j in jobs && jobs[j].owner == owner && IsActive(jobs[j])
  }

  /** The job of one revision, by its unique key. */
  function FindJob(jobs: map<Uuid, Job>, document: Uuid, source: Uuid, below: nat): (found: Option<Uuid>)
    ensures found.Some? ==>
      found.value < below && found.value in jobs
      && jobs[found.value].document == document && jobs[found.value].source == source
    ensures found.None? ==>
      forall j | j in jobs && j < below :: !(jobs[j].document == document && jobs[j].source == source)
  {
    if below == 0 then None
    else if below - 1 in jobs && jobs[below - 1].document == document && jobs[below - 1].source == source
    then Some(below - 1)
    else FindJob(jobs, document, source, below - 1)
  }

  // ----- processing intents

  function Requeued(job: Job): Job {
    job.(status := Queued, attempt := job.attempt + 1, retryUntil := job.attempt + 3, leaseUntil := None,
      snapshot := false)
  }

  /** `intent`: a processing job for a revision, unless it has a usable one. */
  function Intent(s: State, owner: Uuid, document: Uuid, version: Uuid): Result<State, Refusal> {
    var existing := FindJob(s.jobs, document, version, s.issued);
    if existing.Some? && !(s.jobs[existing.value].status == Failed
                           || (s.jobs[existing.value].status == Succeeded && !s.jobs[existing.value].snapshot))
                                then Ok(s)
    else if |ActiveJobs(s.jobs, owner)| >= ACTIVE_JOBS then Err(RateLimited)
    else if existing.Some? then
      Ok(s.(jobs := s.jobs[existing.value := Requeued(s.jobs[existing.value])]))
    else
      Ok(s.(jobs := s.jobs[s.issued := Job(document, owner, version, Queued, 1, 3, None, false)],
        issued := s.issued + 1))
  }

  function Submit(s: State, owner: Uuid, document: Uuid): Result<State, Refusal> {
    if owner !in s.users then Err(Unauthenticated) else
    if document !in s.documents || s.documents[document].owner != owner || s.documents[document].state != Active
    then Err(NotFound)
    else Intent(s, owner, document, s.documents[document].current)
  }

  // ----- creation

  /** The rows a stored original adds: file, document and first version. */
  function Created(s: State, owner: Uuid): State {
    var file := s.issued;
    s.(files := s.files[file := File(owner, Ready)],
       documents := s.documents[DocumentOf(file) := Document(owner, file, VersionOf(file), Active)],
       versions := s.versions[VersionOf(file) := Version(DocumentOf(file), owner, file, 1, None, None, false)],
       issued := s.issued + 3)
  }

  function Upload(s: State, owner: Uuid): Result<State, Refusal> {
    if owner !in s.users then Err(Unauthenticated)
    else Intent(Created(s, owner), owner, DocumentOf(s.issued), VersionOf(s.issued))
  }

  function CopyIntent(s: State, owner: Uuid, source: Uuid, sourceVersion: Uuid, document: Uuid, version: Uuid)
    : Result<State, Refusal>
  {
    var existing := FindJob(s.jobs, source, sourceVersion, s.issued);
    if existing.Some? && s.jobs[existing.value].owner == owner && s.jobs[existing.value].status == Succeeded
       && s.jobs[existing.value].snapshot
    then Ok(s.(jobs := s.jobs[s.issued := Job(document, owner, version, Succeeded, 1, 3, None, true)],
      issued := s.issued + 1))
    else Intent(s, owner, document, version)
  }

  function Copy(s: State, owner: Uuid, source: Uuid, sourceVersion: Uuid): Result<State, Refusal> {
    if owner !in s.users then Err(Unauthenticated) else
    if source !in s.documents || s.documents[source].owner != owner || s.documents[source].state != Active
    then Err(NotFound)
    else if s.documents[source].current != sourceVersion then Err(Conflict)
    else CopyIntent(Created(s, owner), owner, source, sourceVersion, DocumentOf(s.issued), VersionOf(s.issued))
  }

  // ----- editing leases

  /** The row still stands for a live holder; `alive` says whether the holder's session is still valid. */
  predicate Live(s: State, document: Uuid, alive: bool) {
    document in s.leases && s.leases[document].expires > s.clock && alive
  }

  predicate SameHolder(s: State, document: Uuid, h: Holder) {
    document in s.leases && s.leases[document].session == h.session && s.leases[document].client == h.client
  }

  predicate SameGeneration(s: State, document: Uuid, h: Holder) {
    && SameHolder(s, document, h)
    && h.generation == Some(s.leases[document].generation) && s.leases[document].source == h.source
  }

  function WithLease(s: State, owner: Uuid, document: Uuid, h: Holder, generation: Uuid): State {
    s.(leases := s.leases[document := Lease(owner, h.source, h.session, h.client, generation, s.clock + LEASE_SECONDS)])
  }

  /** `change`; `h.generation` is absent exactly when the action is `Acquire`. */
  function ChangeLease(s: State, owner: Uuid, document: Uuid, action: LeaseAction, h: Holder, alive: bool)
    : Result<State, Refusal>
  {
    if owner !in s.users then Err(Unauthenticated) else
    if document !in s.documents || s.documents[document].owner != owner || s.documents[document].state != Active
    then Err(NotFound) else
    var same, generation := SameHolder(s, document, h), SameGeneration(s, document, h);
    if action == Release then
      Ok(if generation then s.(leases := s.leases - {document}) else s)
    else if s.documents[document].current != h.source then Err(RevisionConflict)
    else if !Readable(s, document) then Err(NotFound)
    else
      var live := Live(s, document, alive);
      if action == Renew && (!live || !generation) then Err(LeaseLost)
      else if action == Acquire && live && !same then Err(LeaseBusy)
      else if live && same && s.leases[document].source == h.source
      then Ok(WithLease(s, owner, document, h, s.leases[document].generation))
      else Ok(WithLease(s, owner, document, h, s.issued).(issued := s.issued + 1))
  }

  /** The current revision's file is ready. */
  predicate Readable(s: State, document: Uuid) {
    && document in s.documents && s.documents[document].current in s.versions
    && s.versions[s.documents[document].current].file in s.files
    && s.files[s.versions[s.documents[document].current].file].state == Ready
  }

  // ----- saving and restoring

  /** `holder`: the checks under which a revision may be committed. */
  function HolderRefusal(s: State, owner: Uuid, document: Uuid, h: Holder): Option<Refusal> {
    if owner !in s.users then Some(Unauthenticated) else
    if document !in s.documents || s.documents[document].owner != owner || s.documents[document].state != Active
    then Some(NotFound)
    else if s.documents[document].current != h.source then Some(RevisionConflict)
    else if document !in s.leases || s.leases[document].expires <= s.clock || !SameGeneration(s, document, h)
    then Some(LeaseLost)
    else None
  }

  predicate Restorable(s: State, owner: Uuid, document: Uuid, selected: Uuid) {
    && selected in s.versions && s.versions[selected].document == document && s.versions[selected].owner == owner
    && s.versions[selected].file in s.files && s.files[s.versions[selected].file].state == Ready
  }

  /** The new revision and everything that must follow it: current pointer, lease source, jobs made stale. */
  function Advanced(s: State, owner: Uuid, document: Uuid, h: Holder, restoredFrom: Option<Uuid>): State
    requires document in s.documents && document in s.leases && h.source in s.versions
  {
    var file := s.issued;
    var version := VersionOf(file);
    s.(files := s.files[file := File(owner, Ready)],
       versions := s.versions[version := Version(document, owner, file, s.versions[h.source].number + 1, Some(h.source),
                                                 restoredFrom, false)],
       documents := s.documents[document := s.documents[document].(current := version)],
       leases := s.leases[document := s.leases[document].(source := version)],
       jobs := Invalidated(s.jobs, document),
       commits := s.commits + [CommitRecord(document, s.leases[document].generation, version)],
       issued := s.issued + 3)
  }

  function Invalidated(jobs: map<Uuid, Job>, document: Uuid): map<Uuid, Job> {
    map j | j in jobs ::
      if jobs[j].document == document && IsActive(jobs[j]) then jobs[j].(status := Stale, leaseUntil := None)
        else jobs[j]
  }

  /** `commit`, a save when `restoredFrom` is absent and a restore otherwise. */
  function Commit(s: State, owner: Uuid, document: Uuid, h: Holder,
                  restoredFrom: Option<Uuid>): Result<State, Refusal> {
    var refusal := HolderRefusal(s, owner, document, h);
    if refusal.Some? then Err(refusal.value) else
    if restoredFrom.Some? && !Restorable(s, owner, document, restoredFrom.value) then Err(NotFound) else
    if h.source !in s.versions then Err(NotFound) else
    Intent(Advanced(s, owner, document, h, restoredFrom), owner, document, VersionOf(s.issued))
  }

  // ----- trash

  function Owned(s: State, owner: Uuid, document: Uuid): Option<Refusal> {
    if owner !in s.users then Some(Unauthenticated) else
    if document !in s.documents || s.documents[document].owner != owner || s.documents[document].state == Deleted
    then Some(NotFound) else None
  }

  function WithState(s: State, document: Uuid, state: DocumentState): State
    requires document in s.documents
  {
    s.(documents := s.documents[document := s.documents[document].(state := state)])
  }

  function Trash(s: State, owner: Uuid, document: Uuid): Result<State, Refusal> {
    var refusal := Owned(s, owner, document);
    if refusal.Some? then Err(refusal.value) else
    if s.documents[document].state != Active then Ok(s) else
    Ok(WithState(s, document, Trashed(s.clock + TRASH_SECONDS)).(leases := s.leases - {document}))
  }

  function Untrash(s: State, owner: Uuid, document: Uuid): Result<State, Refusal> {
    var refusal := Owned(s, owner, document);
    if refusal.Some? then Err(refusal.value) else
    if !s.documents[document].state.Trashed? then Ok(s) else
    if s.documents[document].state.purgeAfter <= s.clock then Err(Conflict) else
    Ok(WithState(s, document, Active))
  }

  /** The first transaction of `empty`; the purges it starts are separate transactions. */
  function EmptyTrash(s: State, owner: Uuid): Result<State, Refusal> {
    if owner !in s.users then Err(Unauthenticated) else
    Ok(s.(documents := map d | d in s.documents ::
            if s.documents[d].owner == owner && s.documents[d].state.Trashed?
            then s.documents[d].(state := Trashed(s.clock)) else s.documents[d]))
  }

  // ----- permanent deletion

  /** The files of `owner` that only this document's rows should name. */
  predicate Retained(s: State, owner: Uuid, document: Uuid, file: Uuid) {
    && document in s.documents && file in s.files && s.files[file].owner == owner
    && (file == s.documents[document].original
        || exists v :: v in s.versions && s.versions[v].document == document && s.versions[v].file == file)
  }

  /** Another document names a file of this one. */
  predicate SharedFile(s: State, owner: Uuid, document: Uuid) {
    || (exists d :: d in s.documents && d != document && Retained(s, owner, document, s.documents[d].original))
    || (exists v :: v in s.versions && s.versions[v].document != document
                    && Retained(s, owner, document, s.versions[v].file))
  }

  function Erased(s: State, owner: Uuid, document: Uuid): State
    requires document in s.documents
  {
    WithState(s, document, Deleted).(
      leases := s.leases - {document}, jobs := JobsErased(s.jobs, document),
      versions := VersionsErased(s.versions, document),
      files := FilesMarked(s, owner, document))
  }

  function JobsErased(jobs: map<Uuid, Job>, document: Uuid): map<Uuid, Job> {
    map j | j in jobs :: if jobs[j].document == document then jobs[j].(snapshot := false) else jobs[j]
  }

  function VersionsErased(versions: map<Uuid, Version>, document: Uuid): map<Uuid, Version> {
    map v | v in versions :: if versions[v].document == document then versions[v].(erased := true) else versions[v]
  }

  function FilesMarked(s: State, owner: Uuid, document: Uuid): map<Uuid, File> {
    map f | f in s.files ::
      if Retained(s, owner, document, f) && s.files[f].state == Ready then s.files[f].(state := PendingDelete)
        else s.files[f]
  }

  /** The marking transaction of `purge`; `user` is set when a person asked for it. */
  function Purge(s: State, owner: Uuid, document: Uuid, expiredOnly: bool, user: bool): Result<State, Refusal> {
    if user && owner !in s.users then Err(Unauthenticated) else
    if document !in s.documents || s.documents[document].owner != owner then Err(NotFound) else
    var state := s.documents[document].state;
    if expiredOnly && (!state.Trashed? || state.purgeAfter > s.clock) then Ok(s) else
    if SharedFile(s, owner, document) then Err(Conflict) else
    if state == Deleted then Ok(s) else Ok(Erased(s, owner, document))
  }

  /** Storage finished removing a file that was marked for deletion. */
  function FinishDelete(s: State, file: Uuid): State {
    if file in s.files && s.files[file].state == PendingDelete
    then s.(files := s.files[file := s.files[file].(state := Gone)]) else s
  }

  // ----- pruning

  /** A row `prune` selected earlier, possibly out of date by now. */
  datatype Candidate = Candidate(version: Uuid, document: Uuid, owner: Uuid, file: Uuid)

  /** `candidates`: what the policy lets go. */
  predicate Eligible(s: State, keep: nat, c: Candidate) {
    && c.version in s.versions
    && var v := s.versions[c.version];
    && v.file == c.file
    && v.document in s.documents && s.documents[v.document].state == Active
    && s.documents[v.document].current in s.versions
    && c.file in s.files && s.files[c.file].state == Ready
    && v.number > 1 && c.version != s.documents[v.document].current && c.file != s.documents[v.document].original
    && v.number + keep <= s.versions[s.documents[v.document].current].number
  }

  predicate SharedCandidate(s: State, c: Candidate) {
    || (exists d :: d in s.documents && d != c.document && s.documents[d].original == c.file)
    || (exists v ::
         v in s.versions && s.versions[v].file == c.file && (s.versions[v].document != c.document || v != c.version))
  }

  /** The marking transaction of a pruning deletion: everything is checked again where it takes effect. */
  function Prune(s: State, c: Candidate): Result<State, Refusal> {
    if c.file !in s.files || s.files[c.file].owner != c.owner then Err(NotFound)
    else if s.files[c.file].state != Ready then Ok(s)
    else if c.document !in s.documents || s.documents[c.document].owner != c.owner || s.keepLatest.None?
    then Err(ProtectedVersion)
    else if !Eligible(s, s.keepLatest.value, c) || SharedCandidate(s, c) then Err(ProtectedVersion)
    else Ok(s.(versions := s.versions[c.version := s.versions[c.version].(erased := true)],
               jobs := map j | j in s.jobs ::
                 if s.jobs[j].source == c.version
                 then s.jobs[j].(snapshot := false, status := Stale, leaseUntil := None) else s.jobs[j],
               files := s.files[c.file := s.files[c.file].(state := PendingDelete)]))
  }

  // ----- job processing

  predicate StaleJob(s: State, job: Job) {
    !(job.owner in s.users && job.document in s.documents && s.documents[job.document].state == Active
      && s.documents[job.document].current == job.source)
  }

  function WithJob(s: State, id: Uuid, job: Job): State {
    s.(jobs := s.jobs[id := job])
  }

  /** `claim`: whether the worker got the job. */
  function Claim(s: State, id: Uuid, attempt: nat): (State, bool) {
    if id !in s.jobs || s.jobs[id].attempt != attempt || s.jobs[id].status != Queued then (s, false) else
    var job := s.jobs[id];
    if StaleJob(s, job) then (WithJob(s, id, job.(status := Stale, leaseUntil := None)), false) else
    (WithJob(s, id, job.(status := Running, leaseUntil := Some(s.clock + JOB_LEASE_SECONDS)))
       .(claims := s.claims + [ClaimRecord(id, attempt)]), true)
  }

  /** `finish`; `done` is whether inspection produced a snapshot. */
  function Finish(s: State, id: Uuid, attempt: nat, done: bool): State {
    if id !in s.jobs || s.jobs[id].attempt != attempt || s.jobs[id].status != Running then s else
    var job := s.jobs[id];
    if job.leaseUntil.None? || job.leaseUntil.value <= s.clock then s else
    var released := job.(leaseUntil := None);
    WithJob(s, id,
      if StaleJob(s, job) then released.(status := Stale)
      else if done then released.(status := Succeeded, snapshot := true)
      else if attempt < job.retryUntil then released.(status := Queued, attempt := attempt + 1)
      else released.(status := Failed))
  }

  /** The dispatcher meets a running job whose lease is over. */
  function Expire(s: State, id: Uuid): State {
    if id !in s.jobs || s.jobs[id].status != Running || s.jobs[id].leaseUntil.None?
      || s.jobs[id].leaseUntil.value >= s.clock
    then s else
    var job := s.jobs[id];
    WithJob(s, id, if job.attempt >= job.retryUntil then job.(status := Failed, leaseUntil := None)
                   else job.(status := Queued, attempt := job.attempt + 1, leaseUntil := None))
  }

  /** The dispatcher finds that the queue lost a queued job: `advance`. */
  function Lost(s: State, id: Uuid, attempt: nat): State {
    if id !in s.jobs || s.jobs[id].status != Queued || s.jobs[id].attempt != attempt then s else
    var job := s.jobs[id];
    WithJob(s, id, if job.attempt < job.retryUntil then job.(attempt := job.attempt + 1, leaseUntil := None)
                   else job.(status := Failed, leaseUntil := None))
  }

  // ----- runs

  datatype Action =
    | UploadAction(owner: Uuid)
    | CopyAction(owner: Uuid, source: Uuid, sourceVersion: Uuid)
    | LeaseChange(owner: Uuid, document: Uuid, change: LeaseAction, holder: Holder, alive: bool)
    | CommitAction(owner: Uuid, document: Uuid, holder: Holder, restoredFrom: Option<Uuid>)
    | TrashAction(owner: Uuid, document: Uuid)
    | UntrashAction(owner: Uuid, document: Uuid)
    | EmptyAction(owner: Uuid)
    | PurgeAction(owner: Uuid, document: Uuid, expiredOnly: bool, user: bool)
    | FinishDeleteAction(file: Uuid)
    | PruneAction(candidate: Candidate)
    | SubmitAction(owner: Uuid, document: Uuid)
    | ClaimAction(job: Uuid, attempt: nat)
    | FinishAction(job: Uuid, attempt: nat, done: bool)
    | ExpireAction(job: Uuid)
    | LostAction(job: Uuid, attempt: nat)
    | ConfigureAction(keepLatest: Option<nat>)
    | UserAction(owner: Uuid, active: bool)
    | TickAction(seconds: nat)

  function OrElse(r: Result<State, Refusal>, s: State): State {
    match r case Ok(t) => t case Err(_) => s
  }

  function Apply(s: State, a: Action): State {
    match a
    case UploadAction(owner) => OrElse(Upload(s, owner), s)
    case CopyAction(owner, source, sourceVersion) => OrElse(Copy(s, owner, source, sourceVersion), s)
    case LeaseChange(owner, document, change, holder, alive) =>
      OrElse(ChangeLease(s, owner, document, change, holder, alive), s)
    case CommitAction(owner, document, holder, restoredFrom) =>
      OrElse(Commit(s, owner, document, holder, restoredFrom), s)
    case TrashAction(owner, document) => OrElse(Trash(s, owner, document), s)
    case UntrashAction(owner, document) => OrElse(Untrash(s, owner, document), s)
    case EmptyAction(owner) => OrElse(EmptyTrash(s, owner), s)
    case PurgeAction(owner, document, expiredOnly, user) => OrElse(Purge(s, owner, document, expiredOnly, user), s)
    case FinishDeleteAction(file) => FinishDelete(s, file)
    case PruneAction(candidate) => OrElse(Prune(s, candidate), s)
    case SubmitAction(owner, document) => OrElse(Submit(s, owner, document), s)
    case ClaimAction(job, attempt) => Claim(s, job, attempt).0
    case FinishAction(job, attempt, done) => Finish(s, job, attempt, done)
    case ExpireAction(job) => Expire(s, job)
    case LostAction(job, attempt) => Lost(s, job, attempt)
    // A policy keeps at least one revision; anything else fails validation.
    case ConfigureAction(keep) => if keep == Some(0) then s else s.(keepLatest := keep)
    case UserAction(owner, active) => s.(users := if active then s.users + {owner} else s.users - {owner})
    case TickAction(seconds) => s.(clock := s.clock + seconds)
  }

  function Run(s: State, actions: seq<Action>): State
    decreases |actions|
  {
    if actions == [] then s else Run(Apply(s, actions[0]), actions[1..])
  }

  predicate Init(s: State) {
    && s.documents == map[] && s.versions == map[] && s.leases == map[] && s.files == map[] && s.jobs == map[]
    && s.commits == [] && s.claims == [] && s.keepLatest != Some(0)
  }
}
