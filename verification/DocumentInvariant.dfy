/** What every reachable state of the document and job tables satisfies. */
module DocumentInvariant {
  import opened Common
  import opened DocumentTables

  ghost predicate DocumentOk(s: State, d: Uuid)
    requires d in s.documents
  {
    var doc := s.documents[d];
    && d < s.issued && DocumentOf(doc.original) == d
    && VersionOf(doc.original) in s.versions && s.versions[VersionOf(doc.original)].document == d
    && s.versions[VersionOf(doc.original)].number == 1
    && doc.current in s.versions && s.versions[doc.current].document == d
  }

  /** A version is one link of its document's chain. */
  ghost predicate VersionOk(s: State, v: Uuid)
    requires v in s.versions
  {
    var row := s.versions[v];
    && v < s.issued && VersionOf(row.file) == v
    && row.file in s.files && s.files[row.file].owner == row.owner
    && row.document in s.documents && s.documents[row.document].owner == row.owner
    && s.documents[row.document].current in s.versions
    && 1 <= row.number <= s.versions[s.documents[row.document].current].number
    && ParentOk(s, row)
  }

  ghost predicate ParentOk(s: State, row: Version) {
    match row.parent
    case None => row.number == 1
    case Some(p) => p in s.versions && s.versions[p].document == row.document && s.versions[p].number + 1 == row.number
  }

  /** No document has two versions of one number. */
  ghost predicate NumbersUnique(s: State) {
    forall v, w | v in s.versions && w in s.versions && s.versions[v].document == s.versions[w].document
      && s.versions[v].number == s.versions[w].number :: v == w
  }

  ghost predicate FileOk(s: State, f: Uuid) {
    f < s.issued && VersionOf(f) in s.versions
  }

  /** A living document keeps its first and its current file; a deleted one keeps none. */
  ghost predicate VersionSafe(s: State, v: Uuid)
    requires v in s.versions
  {
    var row := s.versions[v];
    row.document in s.documents && row.file in s.files ==>
      var doc := s.documents[row.document];
      && (doc.state == Deleted ==> s.files[row.file].state != Ready)
      && (doc.state != Deleted && (row.number == 1 || v == doc.current) ==> s.files[row.file].state == Ready)
  }

  ghost predicate LeaseOk(s: State, d: Uuid)
    requires d in s.leases
  {
    && d in s.documents && s.documents[d].state == Active
    && s.leases[d].source == s.documents[d].current
    && s.leases[d].owner == s.documents[d].owner
    && s.leases[d].generation < s.issued
  }

  ghost predicate JobOk(s: State, j: Uuid)
    requires j in s.jobs
  {
    var job := s.jobs[j];
    && j < s.issued
    && job.document in s.documents && s.documents[job.document].owner == job.owner
    && job.source in s.versions && s.versions[job.source].document == job.document
    && JobShape(job)
    && (IsActive(job) ==> job.source == s.documents[job.document].current)
  }

  ghost predicate JobShape(job: Job) {
    && (job.status == Running <==> job.leaseUntil.Some?)
    && 1 <= job.attempt <= job.retryUntil <= job.attempt + 2
  }

  ghost predicate JobsUnique(s: State) {
    forall j, k | j in s.jobs && k in s.jobs && s.jobs[j].document == s.jobs[k].document
      && s.jobs[j].source == s.jobs[k].source :: j == k
  }

  ghost predicate WithinCap(jobs: map<Uuid, Job>, owner: Uuid) {
    |ActiveJobs(jobs, owner)| <= ACTIVE_JOBS
  }

  ghost predicate RowsOk(s: State) {
    && (forall d {:trigger DocumentOk(s, d)} | d in s.documents :: DocumentOk(s, d))
    && (forall v {:trigger VersionOk(s, v)} | v in s.versions :: VersionOk(s, v))
    && (forall f {:trigger FileOk(s, f)} | f in s.files :: FileOk(s, f))
    && NumbersUnique(s)
  }

  ghost predicate SafeOk(s: State) {
    forall v {:trigger VersionSafe(s, v)} | v in s.versions :: VersionSafe(s, v)
  }

  ghost predicate LeasesOk(s: State) {
    forall d {:trigger LeaseOk(s, d)} | d in s.leases :: LeaseOk(s, d)
  }

  ghost predicate JobsOk(s: State) {
    && (forall j {:trigger JobOk(s, j)} | j in s.jobs :: JobOk(s, j))
    && JobsUnique(s)
    && (forall o {:trigger WithinCap(s.jobs, o)} :: WithinCap(s.jobs, o))
  }

  // ----- what was granted

  /** A claim that was granted: its job has moved past that attempt, or has left the queue with it. */
  ghost predicate ClaimSpent(s: State, c: ClaimRecord) {
    && c.job in s.jobs
    && (c.attempt < s.jobs[c.job].attempt || (c.attempt == s.jobs[c.job].attempt && s.jobs[c.job].status != Queued))
  }

  ghost predicate Distinct(claims: seq<ClaimRecord>) {
    forall i, k | 0 <= i < k < |claims| :: claims[i] != claims[k]
  }

  ghost predicate ClaimsOk(s: State) {
    && (forall c {:trigger ClaimSpent(s, c)} | c in s.claims :: ClaimSpent(s, c))
    && Distinct(s.claims)
  }

  /** Between two commits of one generation nobody else committed. */
  ghost predicate Fenced(commits: seq<CommitRecord>) {
    forall i, j, k | 0 <= i < j < k < |commits| && commits[i].document == commits[j].document == commits[k].document
      && commits[i].generation == commits[k].generation :: commits[j].generation == commits[i].generation
  }

  /** Since the holder of `d` first committed, nobody else did. */
  ghost predicate Exclusive(commits: seq<CommitRecord>, d: Uuid, generation: Uuid) {
    forall i, j | 0 <= i < j < |commits| && commits[i].document == commits[j].document == d
      && commits[i].generation == generation :: commits[j].generation == generation
  }

  ghost predicate HeldOk(s: State, d: Uuid)
    requires d in s.leases
  {
    Exclusive(s.commits, d, s.leases[d].generation)
  }

  ghost predicate CommitsOk(s: State) {
    && Fenced(s.commits)
    && (forall c | c in s.commits :: c.generation < s.issued)
    && (forall d {:trigger HeldOk(s, d)} | d in s.leases :: HeldOk(s, d))
  }

  ghost predicate Inv(s: State) {
    && RowsOk(s)
    && SafeOk(s)
    && LeasesOk(s)
    && JobsOk(s)
    && ClaimsOk(s)
    && CommitsOk(s)
    && s.keepLatest != Some(0)
  }
}
