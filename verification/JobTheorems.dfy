/** What the job protocol promises: attempts fence late workers, work ends, and active jobs follow the revision. */
module JobTheorems {
  import opened Common
  import opened DocumentTables
  import opened DocumentInvariant
  import opened DocumentSteps
  import opened DocumentTheorems

  function Rank(status: JobStatus): nat {
    match status
    case Queued => 2
    case Running => 1
    case _ => 0
  }

  /** Within one attempt a job only moves from the queue to a worker to an end, and the worker's time is never
      prolonged. */
  ghost predicate JobDown(job: Job, next: Job) {
    && SameJobIdentity(job, next)
    && job.retryUntil <= next.retryUntil
    && (next.attempt > job.attempt
        || (next.attempt == job.attempt && Rank(next.status) <= Rank(job.status)
            && (job.status == next.status == Running ==> next.leaseUntil == job.leaseUntil)))
  }

  ghost predicate JobsDown(jobs: map<Uuid, Job>, next: map<Uuid, Job>) {
    forall j {:trigger jobs[j]} {:trigger next[j]} | j in jobs :: j in next && JobDown(jobs[j], next[j])
  }

  /** New claims are for a job's current attempt. */
  ghost predicate ClaimsGrow(s: State, t: State) {
    t.claims == s.claims
    || exists c :: t.claims == s.claims + [c] && c.job in s.jobs && c.attempt == s.jobs[c.job].attempt
  }

  ghost predicate Progress(s: State, t: State) {
    JobsDown(s.jobs, t.jobs) && ClaimsGrow(s, t)
  }

  lemma IntentProgress(s: State, owner: Uuid, document: Uuid, version: Uuid)
    requires forall j | j in s.jobs :: j < s.issued && JobShape(s.jobs[j])
    requires Intent(s, owner, document, version).Ok?
    ensures Progress(s, Intent(s, owner, document, version).value)
  {
    hide ActiveJobs;
  }

  lemma KnownJobs(s: State)
    requires Inv(s)
    ensures forall j | j in s.jobs :: j < s.issued && JobShape(s.jobs[j])
  {
    hide RowsOk, SafeOk, LeasesOk, ClaimsOk, CommitsOk;
    forall j | j in s.jobs ensures j < s.issued && JobShape(s.jobs[j]) { assert JobOk(s, j); }
  }

  lemma CreationProgress(s: State, a: Action)
    requires Inv(s) && (a.UploadAction? || a.CopyAction? || a.SubmitAction? || a.CommitAction?)
    ensures Progress(s, Apply(s, a))
  {
    hide Inv, Intent, FindJob, Restorable;
    KnownJobs(s);
    match a
    case UploadAction(owner) =>
      var created := Created(s, owner);
      if Intent(created, owner, DocumentOf(s.issued), VersionOf(s.issued)).Ok? {
        IntentProgress(created, owner, DocumentOf(s.issued), VersionOf(s.issued));
      }
    case CopyAction(owner, source, v) =>
      var created := Created(s, owner);
      if Intent(created, owner, DocumentOf(s.issued), VersionOf(s.issued)).Ok? {
        IntentProgress(created, owner, DocumentOf(s.issued), VersionOf(s.issued));
      }
    case SubmitAction(owner, d) =>
      if Submit(s, owner, d).Ok? { IntentProgress(s, owner, d, s.documents[d].current); }
    case CommitAction(owner, d, h, from) =>
      if Commit(s, owner, d, h, from).Ok? { CommitProgress(s, owner, d, h, from); }
  }

  lemma CommitProgress(s: State, owner: Uuid, d: Uuid, h: Holder, from: Option<Uuid>)
    requires forall j | j in s.jobs :: j < s.issued && JobShape(s.jobs[j])
    requires Commit(s, owner, d, h, from).Ok?
    ensures Progress(s, Commit(s, owner, d, h, from).value)
  {
    hide Intent, Restorable;
    var advanced := Advanced(s, owner, d, h, from);
    assert JobsDown(s.jobs, advanced.jobs);
    forall j | j in advanced.jobs ensures j < advanced.issued && JobShape(advanced.jobs[j]) {}
    IntentProgress(advanced, owner, d, VersionOf(s.issued));
    DownTrans(s.jobs, advanced.jobs, Commit(s, owner, d, h, from).value.jobs);
  }

  lemma DownTrans(a: map<Uuid, Job>, b: map<Uuid, Job>, c: map<Uuid, Job>)
    requires JobsDown(a, b) && JobsDown(b, c)
    ensures JobsDown(a, c)
  {
    forall j | j in a ensures j in c && JobDown(a[j], c[j]) { assert JobDown(a[j], b[j]) && JobDown(b[j], c[j]); }
  }

  predicate Works(a: Action) {
    a.ClaimAction? || a.FinishAction? || a.ExpireAction? || a.LostAction?
  }

  lemma StepProgress(s: State, a: Action)
    requires Inv(s)
    ensures Progress(s, Apply(s, a))
  {
    hide Inv;
    if a.UploadAction? || a.CopyAction? || a.SubmitAction? || a.CommitAction? {
      hide Apply, Progress;
      CreationProgress(s, a);
    } else if Works(a) {
      hide Progress;
      WorkProgress(s, a);
    } else {
      hide Retained, SharedFile, SharedCandidate, Eligible, Readable;
    }
  }

  lemma OneDown(jobs: map<Uuid, Job>, id: Uuid, job: Job)
    requires id in jobs && JobDown(jobs[id], job)
    ensures JobsDown(jobs, jobs[id := job])
  {
  }

  lemma NoneDown(jobs: map<Uuid, Job>)
    ensures JobsDown(jobs, jobs)
  {
  }

  lemma WorkProgress(s: State, a: Action)
    requires Inv(s) && Works(a)
    ensures Progress(s, Apply(s, a))
  {
    hide Inv, Claim;
    KnownJobs(s);
    NoneDown(s.jobs);
    if a.ClaimAction? {
      ClaimProgress(s, a.job, a.attempt);
    } else {
      QuietProgress(s, a);
    }
  }

  lemma ClaimProgress(s: State, id: Uuid, attempt: nat)
    requires forall j | j in s.jobs :: j < s.issued && JobShape(s.jobs[j])
    ensures Progress(s, Claim(s, id, attempt).0)
  {
    hide StaleJob, JobsDown;
    NoneDown(s.jobs);
    var (t, granted) := Claim(s, id, attempt);
    if t.jobs != s.jobs {
      OneDown(s.jobs, id, t.jobs[id]);
    }
    assert granted ==> t.claims == s.claims + [ClaimRecord(id, attempt)];
  }

  lemma QuietProgress(s: State, a: Action)
    requires forall j | j in s.jobs :: j < s.issued && JobShape(s.jobs[j])
    requires Works(a) && !a.ClaimAction?
    ensures Progress(s, Apply(s, a))
  {
    hide StaleJob, JobsDown, Finish, Expire, Lost;
    NoneDown(s.jobs);
    match a
    case FinishAction(job, attempt, done) => FinishDown(s, job, attempt, done);
    case ExpireAction(job) => ExpireDown(s, job);
    case LostAction(job, attempt) => LostDown(s, job, attempt);
  }

  lemma FinishDown(s: State, id: Uuid, attempt: nat, done: bool)
    requires id in s.jobs ==> JobShape(s.jobs[id])
    ensures JobsDown(s.jobs, Finish(s, id, attempt, done).jobs) && Finish(s, id, attempt, done).claims == s.claims
  {
    hide StaleJob, JobsDown;
    NoneDown(s.jobs);
    if Finish(s, id, attempt, done) != s {
      OneDown(s.jobs, id, Finish(s, id, attempt, done).jobs[id]);
    }
  }

  lemma ExpireDown(s: State, id: Uuid)
    requires id in s.jobs ==> JobShape(s.jobs[id])
    ensures JobsDown(s.jobs, Expire(s, id).jobs) && Expire(s, id).claims == s.claims
  {
    hide JobsDown;
    NoneDown(s.jobs);
    if Expire(s, id) != s {
      OneDown(s.jobs, id, Expire(s, id).jobs[id]);
    }
  }

  lemma LostDown(s: State, id: Uuid, attempt: nat)
    requires id in s.jobs ==> JobShape(s.jobs[id])
    ensures JobsDown(s.jobs, Lost(s, id, attempt).jobs) && Lost(s, id, attempt).claims == s.claims
  {
    hide JobsDown;
    NoneDown(s.jobs);
    if Lost(s, id, attempt) != s {
      OneDown(s.jobs, id, Lost(s, id, attempt).jobs[id]);
    }
  }

  // ----- fencing

  /** The attempt has ended: the job is past it or finished with it, or its worker's time is over. */
  predicate Ended(s: State, id: Uuid, attempt: nat) {
    && id in s.jobs
    && var job := s.jobs[id];
       || job.attempt > attempt
       || (job.attempt == attempt && !IsActive(job))
       || (job.attempt == attempt && job.status == Running && job.leaseUntil.Some? && job.leaseUntil.value <= s.clock)
  }

  lemma ClockAdvances(s: State, a: Action)
    ensures s.clock <= Apply(s, a).clock
  {
    hide Apply;
    LeasesComeFresh(s, a, 0);
  }

  lemma {:induction false} EndedStays(s: State, actions: seq<Action>, id: Uuid, attempt: nat)
    requires Inv(s) && Ended(s, id, attempt)
    ensures Ended(Run(s, actions), id, attempt)
    decreases |actions|
  {
    hide Inv, Apply;
    if actions != [] {
      ApplyStep(s, actions[0]);
      StepProgress(s, actions[0]);
      ClockAdvances(s, actions[0]);
      assert JobDown(s.jobs[id], Apply(s, actions[0]).jobs[id]);
      EndedStays(Apply(s, actions[0]), actions[1..], id, attempt);
    }
  }

  /** A worker that comes back after its attempt ended changes nothing, however late it comes. */
  lemma LateWorkerChangesNothing(s: State, actions: seq<Action>, id: Uuid, attempt: nat, done: bool)
    requires Reachable(s) && Ended(s, id, attempt)
    ensures var t := Run(s, actions);
      Finish(t, id, attempt, done) == t && Claim(t, id, attempt) == (t, false) && Lost(t, id, attempt) == t
  {
    hide Inv;
    ReachableInv(s);
    EndedStays(s, actions, id, attempt);
  }

  /** No attempt of a job is ever given to two workers. */
  lemma ClaimedOnce(t: State, i: nat, k: nat)
    requires Reachable(t) && i < k < |t.claims|
    ensures t.claims[i] != t.claims[k]
  {
    ReachableInv(t);
  }

  // ----- termination

  /** The job has fewer attempts left, or is nearer to the end of this one. */
  ghost predicate Descends(job: Job, next: Job) {
    && next.retryUntil == job.retryUntil && next.attempt <= next.retryUntil
    && (next.retryUntil - next.attempt < job.retryUntil - job.attempt
        || (next.attempt == job.attempt && Rank(next.status) < Rank(job.status)))
  }

  lemma ClaimDescends(s: State, id: Uuid, attempt: nat, j: Uuid)
    requires j in s.jobs && JobShape(s.jobs[j])
    ensures var t := Claim(s, id, attempt).0; j in t.jobs && (t.jobs[j] == s.jobs[j] || Descends(s.jobs[j], t.jobs[j]))
  {
    hide StaleJob;
  }

  lemma FinishDescends(s: State, id: Uuid, attempt: nat, done: bool, j: Uuid)
    requires j in s.jobs && JobShape(s.jobs[j])
    ensures var t := Finish(s, id, attempt, done);
      j in t.jobs && (t.jobs[j] == s.jobs[j] || Descends(s.jobs[j], t.jobs[j]))
  {
    hide StaleJob;
  }

  /** Every change a worker or the dispatcher makes to a job brings it nearer to its end. */
  lemma WorkDescends(s: State, a: Action, j: Uuid)
    requires Inv(s) && Works(a) && j in s.jobs
    ensures j in Apply(s, a).jobs && (Apply(s, a).jobs[j] == s.jobs[j] || Descends(s.jobs[j], Apply(s, a).jobs[j]))
  {
    hide Inv, Claim, Finish;
    KnownJobs(s);
    if a.ClaimAction? {
      ClaimDescends(s, a.job, a.attempt, j);
    } else if a.FinishAction? {
      FinishDescends(s, a.job, a.attempt, a.done, j);
    }
  }

  function Attempts(claims: seq<ClaimRecord>, id: Uuid): set<nat> {
    if claims == [] then {} else
    Attempts(claims[..|claims| - 1], id)
      + (if claims[|claims| - 1].job == id then {claims[|claims| - 1].attempt} else {})
  }

  /** How often the job was given to a worker. */
  function ClaimCount(claims: seq<ClaimRecord>, id: Uuid): nat {
    if claims == [] then 0 else
    ClaimCount(claims[..|claims| - 1], id) + if claims[|claims| - 1].job == id then 1 else 0
  }

  lemma {:induction false} AttemptsAreClaims(claims: seq<ClaimRecord>, id: Uuid)
    ensures forall a :: a in Attempts(claims, id) <==> ClaimRecord(id, a) in claims
  {
    if claims != [] {
      var n := |claims| - 1;
      AttemptsAreClaims(claims[..n], id);
      assert claims == claims[..n] + [claims[n]];
      forall a ensures a in Attempts(claims, id) <==> ClaimRecord(id, a) in claims {
        assert ClaimRecord(id, a) in claims <==> ClaimRecord(id, a) in claims[..n] || ClaimRecord(id, a) == claims[n];
      }
    }
  }

  lemma {:induction false} CountIsCard(claims: seq<ClaimRecord>, id: Uuid)
    requires Distinct(claims)
    ensures ClaimCount(claims, id) == |Attempts(claims, id)|
  {
    if claims != [] {
      var n := |claims| - 1;
      CountIsCard(claims[..n], id);
      AttemptsAreClaims(claims[..n], id);
      assert claims[n].job == id ==> claims[n].attempt !in Attempts(claims[..n], id);
    }
  }

  /** A set of numbers within bounds is no larger than the range. */
  lemma {:induction false} RangeCard(a: set<nat>, lo: nat, hi: nat)
    requires forall x | x in a :: lo <= x <= hi
    requires lo <= hi + 1
    ensures |a| <= hi + 1 - lo
    decreases hi + 1 - lo
  {
    if lo == hi + 1 {
      assert a == {};
    } else {
      RangeCard(a - {lo}, lo + 1, hi);
      assert a <= (a - {lo}) + {lo};
      SubsetCard(a, (a - {lo}) + {lo});
    }
  }

  lemma {:induction false} ClaimsDuring(s: State, actions: seq<Action>, id: Uuid)
    requires Inv(s) && id in s.jobs
    ensures var t := Run(s, actions);
      && |s.claims| <= |t.claims| && id in t.jobs && s.jobs[id].attempt <= t.jobs[id].attempt
      && s.jobs[id].retryUntil <= t.jobs[id].retryUntil
      && forall i | |s.claims| <= i < |t.claims| && t.claims[i].job == id :: s.jobs[id].attempt <= t.claims[i].attempt
    decreases |actions|
  {
    hide Inv, Apply;
    if actions != [] {
      var u := Apply(s, actions[0]);
      ApplyStep(s, actions[0]);
      StepProgress(s, actions[0]);
      assert JobDown(s.jobs[id], u.jobs[id]);
      ClaimsDuring(u, actions[1..], id);
      ClaimsSuffix(u, actions[1..]);
    }
  }

  lemma {:induction false} ClaimsSuffix(s: State, actions: seq<Action>)
    requires Inv(s)
    ensures s.claims <= Run(s, actions).claims
    decreases |actions|
  {
    hide Inv, Apply;
    if actions != [] {
      ApplyStep(s, actions[0]);
      StepProgress(s, actions[0]);
      ClaimsSuffix(Apply(s, actions[0]), actions[1..]);
    }
  }

  /** Unless somebody submits it again (which alone raises `retryUntil`), a job is worked on at most as often as it has
      attempts left: three times at the very most. */
  lemma AtMostThreeClaims(s: State, actions: seq<Action>, id: Uuid)
    requires Reachable(s) && id in s.jobs
    requires id in Run(s, actions).jobs ==> Run(s, actions).jobs[id].retryUntil == s.jobs[id].retryUntil
    ensures var t := Run(s, actions);
      && |s.claims| <= |t.claims|
      && var granted := ClaimCount(t.claims[|s.claims|..], id);
         granted <= s.jobs[id].retryUntil + 1 - s.jobs[id].attempt && granted <= 3
  {
    hide RowsOk, SafeOk, LeasesOk, CommitsOk, Run;
    ReachableInv(s);
    RunInv(s, actions);
    ClaimsDuring(s, actions, id);
    var t := Run(s, actions);
    var recent := t.claims[|s.claims|..];
    assert JobOk(s, id) && JobOk(t, id);
    AttemptsAreClaims(recent, id);
    CountIsCard(recent, id);
    forall a | a in Attempts(recent, id)
      ensures s.jobs[id].attempt <= a <= s.jobs[id].retryUntil
    {
      assert ClaimRecord(id, a) in t.claims && ClaimSpent(t, ClaimRecord(id, a));
    }
    RangeCard(Attempts(recent, id), s.jobs[id].attempt, s.jobs[id].retryUntil);
  }

  // ----- the current revision

  /** Queued and running jobs are for their document's current revision: one to a document, five to an owner. A job is
      running exactly while it has a lease. */
  lemma ActiveJobsFollowRevision(t: State, j: Uuid, k: Uuid)
    requires Reachable(t) && j in t.jobs && k in t.jobs
    ensures IsActive(t.jobs[j]) ==> t.jobs[j].document in t.documents
                                    && t.documents[t.jobs[j].document].current == t.jobs[j].source
    ensures IsActive(t.jobs[j]) && IsActive(t.jobs[k]) && t.jobs[j].document == t.jobs[k].document ==> j == k
    ensures |ActiveJobs(t.jobs, t.jobs[j].owner)| <= 5
    ensures t.jobs[j].status == Running <==> t.jobs[j].leaseUntil.Some?
    ensures 1 <= t.jobs[j].attempt <= t.jobs[j].retryUntil <= t.jobs[j].attempt + 2
  {
    hide RowsOk, SafeOk, LeasesOk, CommitsOk, ClaimsOk;
    ReachableInv(t);
    assert JobOk(t, j) && JobOk(t, k) && WithinCap(t.jobs, t.jobs[j].owner);
  }

  ghost predicate NoNewSuccess(s: State, t: State) {
    forall j | j in s.jobs && j in t.jobs && t.jobs[j].status == Succeeded :: s.jobs[j].status == Succeeded
  }

  lemma IntentSucceedsNothing(s: State, owner: Uuid, document: Uuid, version: Uuid)
    requires Intent(s, owner, document, version).Ok?
    ensures NoNewSuccess(s, Intent(s, owner, document, version).value)
    ensures s.jobs.Keys <= Intent(s, owner, document, version).value.jobs.Keys
  {
    hide ActiveJobs;
  }

  lemma CreationSucceedsNothing(s: State, a: Action)
    requires Inv(s) && (a.UploadAction? || a.CopyAction? || a.SubmitAction? || a.CommitAction?)
    ensures NoNewSuccess(s, Apply(s, a))
  {
    hide Inv, Intent, FindJob, Restorable;
    KnownJobs(s);
    if a.UploadAction? || a.CopyAction? {
      if Intent(Created(s, a.owner), a.owner, DocumentOf(s.issued), VersionOf(s.issued)).Ok? {
        IntentSucceedsNothing(Created(s, a.owner), a.owner, DocumentOf(s.issued), VersionOf(s.issued));
      }
    } else if a.SubmitAction? {
      if Submit(s, a.owner, a.document).Ok? {
        IntentSucceedsNothing(s, a.owner, a.document, s.documents[a.document].current);
      }
    } else if Commit(s, a.owner, a.document, a.holder, a.restoredFrom).Ok? {
      IntentSucceedsNothing(Advanced(s, a.owner, a.document, a.holder, a.restoredFrom), a.owner, a.document,
        VersionOf(s.issued));
    }
  }

  /** Processing succeeds only for the current revision of an active document of an active owner, and only for the
      worker whose lease is running. */
  lemma SucceedsOnlyCurrent(s: State, a: Action, j: Uuid)
    requires Inv(s) && j in s.jobs && s.jobs[j].status != Succeeded
    requires j in Apply(s, a).jobs && Apply(s, a).jobs[j].status == Succeeded
    ensures a.FinishAction? && a.job == j && a.done && a.attempt == s.jobs[j].attempt
    ensures s.jobs[j].status == Running && s.jobs[j].leaseUntil.Some? && s.jobs[j].leaseUntil.value > s.clock
    ensures !StaleJob(s, s.jobs[j])
  {
    hide Inv;
    if a.UploadAction? || a.CopyAction? || a.SubmitAction? || a.CommitAction? {
      hide Apply;
      CreationSucceedsNothing(s, a);
    } else if Works(a) {
      hide StaleJob;
    } else {
      hide Retained, SharedFile, SharedCandidate, Eligible, Readable;
    }
  }
}
