/** What one step may do to the tables: identities never change, terminal states are final, files only move towards
    deletion, and charges never grow past a limit. */
module StorageHistory {
  import opened Common
  import opened StorageTables
  import opened StorageFiles
  import opened StorageMachine
  import opened StorageInvariant
  import opened StorageFrame
  import opened StorageSteps
  import opened StorageRuns

  function Rank(state: FileState): nat {
    match state
    case InStaging => 0
    case Ready => 1
    case PendingDelete => 2
    case Deleted => 3
  }

  ghost predicate RowForward(row: Reservation, next: Reservation) {
    && SameIdentity(row, next)
    && next.fingerprint == row.fingerprint && next.purpose == row.purpose && next.expected == row.expected
    && (!Active(row.state) ==> next.state == row.state)
  }

  /** The life of an operation. A recoverer may mark a new operation for clean-up and crash; its own store, which had
      not taken the lock yet, then goes on with it. */
  predicate Succeeds(state: ReservationState, next: ReservationState) {
    match next
    case Reserved => state == Reserved
    case Writing => state == Reserved || state == Writing || state == CleanupPending
    case Staged => Active(state)
    case CleanupPending => Active(state)
    case Committed => state == Staged || state == Committed
    case Aborted => state == CleanupPending || state == Aborted
  }

  /** Every operation is where it was or one step further in its life; one that is new is reserved. */
  ghost predicate Ordered(rows: map<Uuid, Reservation>, next: map<Uuid, Reservation>) {
    && (forall o | o in rows && o in next :: Succeeds(rows[o].state, next[o].state))
    && (forall o | o in next && o !in rows :: next[o].state == Reserved)
  }

  ghost predicate FileForward(row: FileRow, next: FileRow) {
    SameFile(row, next) && Rank(row.state) <= Rank(next.state)
  }

  ghost predicate RowsForward(rows: map<Uuid, Reservation>, next: map<Uuid, Reservation>) {
    forall o | o in rows :: o in next && RowForward(rows[o], next[o])
  }

  ghost predicate FilesForward(rows: map<Uuid, FileRow>, next: map<Uuid, FileRow>) {
    forall f | f in rows :: f in next && FileForward(rows[f], next[f])
  }

  /** No row is lost, renamed or revived. */
  ghost predicate Forward(db: Db, next: Db) {
    && RowsForward(db.reservations, next.reservations)
    && FilesForward(db.files, next.files)
    && db.effects <= next.effects
  }

  ghost predicate Settled(db: Db, account: Account, next: Account) {
    Total(next) <= Total(account) || Total(next) <= LimitOf(db, next)
  }

  /** Each account's total and the global allocation either do not grow or end within their ceiling. */
  ghost predicate Thrifty(db: Db, next: Db, policy: Policy) {
    && next.accounts.Keys == db.accounts.Keys
    && (forall a | a in db.accounts :: Settled(next, db.accounts[a], next.accounts[a]))
    && (ActiveAllocation(next) <= ActiveAllocation(db) || ActiveAllocation(next) <= policy.stagingBytes)
  }

  ghost predicate Lawful(db: Db, next: Db, policy: Policy) {
    Forward(db, next) && Ordered(db.reservations, next.reservations) && Thrifty(db, next, policy)
  }

  lemma SameLawful(db: Db, policy: Policy)
    ensures Lawful(db, db, policy)
  {
  }

  lemma OrderedSame(rows: map<Uuid, Reservation>)
    ensures Ordered(rows, rows)
  {
  }

  lemma OrderedAt(rows: map<Uuid, Reservation>, o: Uuid, row: Reservation)
    requires if o in rows then Succeeds(rows[o].state, row.state) else row.state == Reserved
    ensures Ordered(rows, rows[o := row])
  {
  }

  lemma RowsAt(rows: map<Uuid, Reservation>, o: Uuid, row: Reservation)
    requires o in rows && RowForward(rows[o], row)
    ensures RowsForward(rows, rows[o := row])
  {
  }

  lemma AllocationMoves(db: Db, next: Db, o: Uuid)
    requires o < db.issued && next.issued == db.issued && OnlyKey(db.reservations, next.reservations, o)
    ensures ActiveAllocation(next) == ActiveAllocation(db) - AllocatedOf(db)(o) + AllocatedOf(next)(o)
  {
    SumUpdate(AllocatedOf(db), AllocatedOf(next), db.issued, o);
  }

  function AllocationOf(row: Reservation): int {
    if Active(row.state) then row.allocation else 0
  }

  /** What a transaction on operation `o` must show to be lawful. */
  ghost predicate LawfulAt(db: Db, next: Db, o: Uuid, row: Reservation, policy: Policy) {
    && o in db.reservations && o < db.issued && next.issued == db.issued
    && next.reservations == db.reservations[o := row] && RowForward(db.reservations[o], row)
    && Succeeds(db.reservations[o].state, row.state)
    && (AllocationOf(row) <= AllocationOf(db.reservations[o])
        || ActiveAllocation(db) + AllocationOf(row) - AllocationOf(db.reservations[o]) <= policy.stagingBytes)
    && db.effects <= next.effects
  }

  lemma AtLawful(db: Db, next: Db, o: Uuid, row: Reservation, policy: Policy, owner: Uuid)
    requires LawfulAt(db, next, o, row, policy) && FilesForward(db.files, next.files)
    requires next.accounts.Keys == db.accounts.Keys && OnlyKey(db.accounts, next.accounts, owner)
    requires owner in db.accounts ==> Settled(next, db.accounts[owner], next.accounts[owner])
    ensures Lawful(db, next, policy)
  {
    hide FilesForward, RowsForward, RowForward, Ordered, Succeeds;
    AllocationMoves(db, next, o);
    RowsAt(db.reservations, o, row);
    OrderedAt(db.reservations, o, row);
  }

  // ----- the transactions

  lemma BeginAdmitted(db: Db, policy: Policy, clock: nat, free: nat, req: Request)
    requires Begin(db, policy, clock, free, req).0 != db
    ensures var next := Begin(db, policy, clock, free, req).0;
      && db.issued in next.reservations && Inserted(db, next, req, next.reservations[db.issued])
      && Total(next.accounts[req.owner]) <= LimitOf(next, next.accounts[req.owner])
      && ActiveAllocation(db) + next.reservations[db.issued].allocation <= policy.stagingBytes
  {
  }

  lemma BeginLawful(db: Db, policy: Policy, clock: nat, free: nat, req: Request)
    requires RowsOk(db)
    ensures Lawful(db, Begin(db, policy, clock, free, req).0, policy)
  {
    hide RowsOk, Begin, Ordered, ActiveAllocation;
    Issued(db);
    var next := Begin(db, policy, clock, free, req).0;
    if next == db {
      SameLawful(db, policy);
    } else {
      BeginAdmitted(db, policy, clock, free, req);
      OrderedAt(db.reservations, db.issued, next.reservations[db.issued]);
      InsertedAllocation(db, next, req, next.reservations[db.issued]);
    }
  }

  lemma InsertedAllocation(db: Db, next: Db, req: Request, row: Reservation)
    requires Inserted(db, next, req, row) && forall id | id in db.reservations :: id < db.issued
    ensures ActiveAllocation(next) == ActiveAllocation(db) + row.allocation
  {
    SumExtend(AllocatedOf(db), db.issued, next.issued);
    SumUpdate(AllocatedOf(db), AllocatedOf(next), next.issued, db.issued);
  }

  lemma AdvanceLawful(db: Db, policy: Policy, clock: nat, free: nat, op: Handle, size: nat, written: bool)
    requires RowsOk(db) && Advance(db, policy, clock, free, op, size, written).Ok?
    requires written ==> op.id in db.reservations && size <= db.reservations[op.id].allocation
    requires op.id in db.reservations && db.reservations[op.id].state != Staged
    ensures Lawful(db, Advance(db, policy, clock, free, op, size, written).value, policy)
  {
    hide RowsOk, Lawful;
    Issued(db);
    var next := Advance(db, policy, clock, free, op, size, written).value;
    AtLawful(db, next, op.id, next.reservations[op.id], policy, op.owner);
  }

  lemma InsertLawful(db: Db, op: Handle, size: nat, digest: Digest, policy: Policy)
    requires RowsOk(db) && InsertStaged(db, op, size, digest).Ok? && op.fileId !in db.files
    ensures Lawful(db, InsertStaged(db, op, size, digest).value, policy)
  {
    hide RowsOk, Lawful;
    Issued(db);
    var next := InsertStaged(db, op, size, digest).value;
    AtLawful(db, next, op.id, next.reservations[op.id], policy, op.owner);
  }

  lemma CommitLawful(db: Db, op: Handle, size: nat, policy: Policy)
    requires RowsOk(db) && op.owner in db.accounts && op.id in db.reservations && op.fileId in db.files
    requires db.reservations[op.id].state == Staged && db.files[op.fileId].state == InStaging
    requires size <= db.reservations[op.id].allocation
    ensures Lawful(db, PublishCommit(db, op, size), policy)
  {
    hide RowsOk, Lawful;
    Issued(db);
    var next := PublishCommit(db, op, size);
    AtLawful(db, next, op.id, next.reservations[op.id], policy, op.owner);
  }

  lemma CleanMarkLawful(db: Db, op: Handle, policy: Policy)
    requires RowsOk(db) && CleanMark(db, op).Ok?
    ensures Lawful(db, CleanMark(db, op).value.0, policy)
  {
    hide RowsOk, Lawful;
    Issued(db);
    var next := CleanMark(db, op).value.0;
    assert next.reservations[op.id := next.reservations[op.id]] == next.reservations;
    AtLawful(db, next, op.id, next.reservations[op.id], policy, op.owner);
  }

  lemma CleanAbortLawful(db: Db, op: Handle, policy: Policy)
    requires RowsOk(db) && CleanAbort(db, op).Ok? && db.reservations[op.id].state == CleanupPending
    ensures Lawful(db, CleanAbort(db, op).value, policy)
  {
    hide RowsOk, Lawful;
    Issued(db);
    var next := CleanAbort(db, op).value;
    AtLawful(db, next, op.id, next.reservations[op.id], policy, op.owner);
  }

  lemma DeleteMarkLawful(db: Db, owner: Uuid, file: Uuid, authorized: bool, policy: Policy)
    requires DeleteMark(db, owner, file, authorized).Ok?
    ensures Lawful(db, DeleteMark(db, owner, file, authorized).value.0, policy)
  {
    hide Ordered;
    OrderedSame(db.reservations);
    var next := DeleteMark(db, owner, file, authorized).value.0;
    SumCongruent(AllocatedOf(db), AllocatedOf(next), db.issued);
  }

  lemma DeleteFinishLawful(db: Db, owner: Uuid, file: Uuid, size: nat, policy: Policy)
    requires DeleteFinish(db, owner, file, size).Ok?
    ensures Lawful(db, DeleteFinish(db, owner, file, size).value, policy)
  {
    hide Ordered;
    OrderedSame(db.reservations);
    var next := DeleteFinish(db, owner, file, size).value;
    SumCongruent(AllocatedOf(db), AllocatedOf(next), db.issued);
  }

  lemma PurgeLawful(db: Db, chosen: set<Uuid>, policy: Policy)
    ensures Lawful(db, PurgeMark(db, chosen), policy)
  {
    hide Ordered;
    OrderedSame(db.reservations);
    SumCongruent(AllocatedOf(db), AllocatedOf(PurgeMark(db, chosen)), db.issued);
  }

  lemma ConfigureLawful(db: Db, next: Db, policy: Policy)
    requires next == db.(defaultLimit := next.defaultLimit, accounts := next.accounts)
    requires next.accounts.Keys == db.accounts.Keys
      && forall a | a in db.accounts :: Total(next.accounts[a]) == Total(db.accounts[a])
    ensures Lawful(db, next, policy)
  {
    hide Ordered;
    OrderedSame(db.reservations);
    SumCongruent(AllocatedOf(db), AllocatedOf(next), db.issued);
  }

  // ----- the steps

  /** Points whose step leaves the tables alone. */
  predicate Quiet(at: Point) {
    !(at.NextPart? || at.PartWritten? || at.Inserting? || at.Committing? || at.CleanMarking? || at.CleanAborting?
      || at.DeleteMarking? || at.Uncharging?)
  }

  lemma QuietStore(s: Sys, p: Pid, pr: Proc, env: Env)
    requires pr.Working? && Quiet(pr.at) && (Guarded(pr.at) || pr.at.TakingLock? || pr.at.Replaying?)
    ensures StepWork(s, p, pr, env).db == s.db
  {
    hide CreateStaging, Append, Publish, PublishCheck;
  }

  lemma QuietRest(s: Sys, p: Pid, pr: Proc, env: Env)
    requires pr.Working? && Quiet(pr.at) && !(Guarded(pr.at) || pr.at.TakingLock? || pr.at.Replaying?)
    ensures StepWork(s, p, pr, env).db == s.db
  {
    hide CleanCommitted, CleanPublished;
  }

  lemma QuietStep(s: Sys, p: Pid, pr: Proc, env: Env)
    requires pr.Working? && Quiet(pr.at)
    ensures StepWork(s, p, pr, env).db == s.db
  {
    hide StepWork, Quiet;
    if Guarded(pr.at) || pr.at.TakingLock? || pr.at.Replaying? {
      QuietStore(s, p, pr, env);
    } else {
      QuietRest(s, p, pr, env);
    }
  }

  lemma PartWithin(c: Cell, data: Bytes, ino: nat)
    requires CellInv(c) && c.row.state == Writing && Streaming(c, ino, data)
    ensures |data| <= c.row.allocation
  {
  }

  lemma StagedFile(c: Cell, data: Bytes)
    requires CellInv(c) && ReadyToPublish(c, data)
    ensures |data| <= c.row.allocation && c.file.Some? && c.file.value.state == InStaging
  {
  }

  lemma LoudStep(s: Sys, p: Pid, env: Env)
    requires Inv(s) && p in s.procs && s.procs[p].Working? && !Quiet(s.procs[p].at)
    ensures Lawful(s.db, StepWork(s, p, s.procs[p], env).db, s.policy)
  {
    hide Inv, Lawful, PointInv, CellInv, RowsOk, LinksOk;
    SameLawful(s.db, s.policy);
    PoisedBy(s, p);
    var pr, op := s.procs[p], s.procs[p].op;
    match pr.at
    case NextPart(req, ino, data, rest) => NextPartLawful(s, p, env);
    case PartWritten(req, ino, data, rest) => PartWrittenLawful(s, p, env);
    case Inserting(req, data) => InsertingLawful(s, p);
    case Committing(req, data) => CommittingLawful(s, p, env);
    case CleanMarking(why) => if CleanMark(s.db, op).Ok? { CleanMarkLawful(s.db, op, s.policy); }
    case CleanAborting(why) => CleanAbortingLawful(s, p, env);
    case DeleteMarking =>
      if DeleteMark(s.db, op.owner, op.fileId, env.authorized).Ok? {
        DeleteMarkLawful(s.db, op.owner, op.fileId, env.authorized, s.policy);
      }
    case Uncharging(size) =>
      if op.owner in s.db.accounts { DeleteFinishLawful(s.db, op.owner, op.fileId, size, s.policy); }
    case _ =>
  }

  lemma NextPartLawful(s: Sys, p: Pid, env: Env)
    requires Poised(s, p) && s.procs[p].at.NextPart?
    ensures Lawful(s.db, StepWork(s, p, s.procs[p], env).db, s.policy)
  {
    hide Lawful, CellInv, RowsOk, LinksOk;
    SameLawful(s.db, s.policy);
    var at := s.procs[p].at;
    var size := |at.data| + |PartOf(at.rest)|;
    if Advance(s.db, s.policy, s.clock, env.free, s.procs[p].op, size, false).Ok? {
      AdvanceLawful(s.db, s.policy, s.clock, env.free, s.procs[p].op, size, false);
    }
  }

  lemma PartWrittenLawful(s: Sys, p: Pid, env: Env)
    requires Poised(s, p) && s.procs[p].at.PartWritten?
    ensures Lawful(s.db, StepWork(s, p, s.procs[p], env).db, s.policy)
  {
    hide Lawful, CellInv, RowsOk, LinksOk;
    SameLawful(s.db, s.policy);
    var at := s.procs[p].at;
    PartWithin(CellOf(s.db, s.fs, s.procs[p].op.id), at.data, at.ino);
    if Advance(s.db, s.policy, s.clock, env.free, s.procs[p].op, |at.data|, true).Ok? {
      AdvanceLawful(s.db, s.policy, s.clock, env.free, s.procs[p].op, |at.data|, true);
    }
  }

  lemma InsertingLawful(s: Sys, p: Pid)
    requires Poised(s, p) && s.procs[p].at.Inserting?
    ensures Lawful(s.db, StepInsert(s, p, s.procs[p], s.procs[p].at.req, s.procs[p].at.data).db, s.policy)
  {
    hide Lawful, CellInv, RowsOk, LinksOk;
    SameLawful(s.db, s.policy);
    var data := s.procs[p].at.data;
    if InsertStaged(s.db, s.procs[p].op, |data|, Sha256(data)).Ok? {
      InsertLawful(s.db, s.procs[p].op, |data|, Sha256(data), s.policy);
    }
  }

  lemma CommittingLawful(s: Sys, p: Pid, env: Env)
    requires Poised(s, p) && s.procs[p].at.Committing?
    ensures Lawful(s.db, StepWork(s, p, s.procs[p], env).db, s.policy)
  {
    hide Lawful, CellInv, RowsOk, LinksOk, PublishCommit;
    SameLawful(s.db, s.policy);
    var op, data := s.procs[p].op, s.procs[p].at.data;
    StagedFile(CellOf(s.db, s.fs, op.id), data);
    if op.owner in s.db.accounts && op.id in s.db.reservations && op.fileId in s.db.files {
      CommitLawful(s.db, op, |data|, s.policy);
    }
  }

  lemma CleanAbortingLawful(s: Sys, p: Pid, env: Env)
    requires Poised(s, p) && s.procs[p].at.CleanAborting?
    ensures Lawful(s.db, StepWork(s, p, s.procs[p], env).db, s.policy)
  {
    hide Lawful, CellInv, RowsOk, LinksOk;
    SameLawful(s.db, s.policy);
    if CleanAbort(s.db, s.procs[p].op).Ok? {
      CleanAbortLawful(s.db, s.procs[p].op, s.policy);
    }
  }

  // ----- what the steps charge

  /** The advance after a write covers bytes that are allocated already, so it charges nothing. */
  lemma WrittenChargesNothing(s: Sys, p: Pid, free: nat)
    requires Inv(s) && p in s.procs && s.procs[p].Working? && s.procs[p].at.PartWritten?
    ensures var r := Advance(s.db, s.policy, s.clock, free, s.procs[p].op, |s.procs[p].at.data|, true);
      r.Ok? && r.value.accounts == s.db.accounts && ActiveAllocation(r.value) == ActiveAllocation(s.db)
  {
    hide Inv, CellInv, LinksOk, RowsOk, Advance;
    PoisedBy(s, p);
    var op, at := s.procs[p].op, s.procs[p].at;
    PartWithin(CellOf(s.db, s.fs, op.id), at.data, at.ino);
    Issued(s.db);
    assert op.owner in s.db.accounts by { OwnerKnown(s.db, op.id); }
    AdvanceWithin(s.db, s.policy, s.clock, free, op, |at.data|);
  }

  lemma OwnerKnown(db: Db, o: Uuid)
    requires RowsOk(db) && o in db.reservations
    ensures db.reservations[o].owner in db.accounts
  {
  }

  lemma AdvanceWithin(db: Db, policy: Policy, clock: nat, free: nat, op: Handle, size: nat)
    requires op.owner in db.accounts && Operable(db, op) && op.id < db.issued
      && size <= db.reservations[op.id].allocation
    ensures var r := Advance(db, policy, clock, free, op, size, true);
      r.Ok? && r.value.accounts == db.accounts && ActiveAllocation(r.value) == ActiveAllocation(db)
  {
    hide ActiveAllocation;
    AllocationMoves(db, Advance(db, policy, clock, free, op, size, true).value, op.id);
  }

  /** A commit turns an allocation into a charge for the file, which is never larger: the owner's total does not
      grow. */
  lemma CommitNeverRaises(s: Sys, p: Pid)
    requires Inv(s) && p in s.procs && s.procs[p].Working? && s.procs[p].at.Committing?
    ensures var op, size := s.procs[p].op, |s.procs[p].at.data|;
      && op.owner in s.db.accounts && op.id in s.db.reservations && op.fileId in s.db.files
      && size <= s.db.reservations[op.id].allocation
      && var next := PublishCommit(s.db, op, size);
         Total(next.accounts[op.owner]) == Total(s.db.accounts[op.owner]) + size - s.db.reservations[op.id].allocation
  {
    hide Inv, CellInv, LinksOk;
    PoisedBy(s, p);
    StagedFile(CellOf(s.db, s.fs, s.procs[p].op.id), s.procs[p].at.data);
  }

  lemma CallLawful(s: Sys, p: Pid, call: Call, env: Env)
    requires RowsOk(s.db)
    ensures Lawful(s.db, StepCall(s, p, call, env).db, s.policy)
  {
    hide Lawful, RowsOk, Begin;
    SameLawful(s.db, s.policy);
    if call.StoreCall? {
      BeginLawful(s.db, s.policy, s.clock, env.free, call.req);
    }
  }

  /** Whatever happens next is lawful. */
  lemma ApplyLawful(s: Sys, a: Action)
    requires Inv(s)
    ensures Lawful(s.db, Apply(s, a).db, s.policy) && Apply(s, a).policy == s.policy
  {
    hide Inv, Lawful, StepWork, StepCall, PurgeMark;
    SameLawful(s.db, s.policy);
    PolicyKept(s, a);
    match a
    case Go(p, env) =>
      if p in s.procs && s.procs[p].Starting? {
        RowsOf(s);
        CallLawful(s, p, s.procs[p].call, env);
      } else if p in s.procs {
        if Quiet(s.procs[p].at) { QuietStep(s, p, s.procs[p], env); } else { LoudStep(s, p, env); }
      }
    case Purge(chosen) => PurgeLawful(s.db, chosen, s.policy);
    case ConfigureDefault(amount) => ConfigureLawful(s.db, SetDefault(s.db, amount), s.policy);
    case ConfigureOverride(owner, limit) => ConfigureLawful(s.db, SetOverride(s.db, owner, limit), s.policy);
    case _ =>
  }

  lemma StorePolicy(s: Sys, p: Pid, pr: Proc, env: Env)
    requires pr.Working? && (Guarded(pr.at) || pr.at.TakingLock? || pr.at.Replaying?)
    ensures StepWork(s, p, pr, env).policy == s.policy
  {
    hide Advance, InsertStaged, PublishCheck, PublishCommit, CreateStaging, Append, Publish;
  }

  lemma RestPolicy(s: Sys, p: Pid, pr: Proc, env: Env)
    requires pr.Working? && !(Guarded(pr.at) || pr.at.TakingLock? || pr.at.Replaying?)
    ensures StepWork(s, p, pr, env).policy == s.policy
  {
    hide CleanMark, CleanAbort, DeleteMark, DeleteFinish, CleanCommitted, CleanPublished;
  }

  lemma PolicyKept(s: Sys, a: Action)
    ensures Apply(s, a).policy == s.policy
  {
    hide StepWork, Begin, PurgeMark, SetDefault, SetOverride;
    if a.Go? && a.pid in s.procs && s.procs[a.pid].Working? {
      var pr := s.procs[a.pid];
      if Guarded(pr.at) || pr.at.TakingLock? || pr.at.Replaying? {
        StorePolicy(s, a.pid, pr, a.env);
      } else {
        RestPolicy(s, a.pid, pr, a.env);
      }
    }
  }
}
