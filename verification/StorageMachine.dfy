/** The storage service as interleaved processes over the tables and the directory.
    One step is one SQL transaction, one file-system change or one lock attempt; a process may crash between
    any two of its steps, a step inside the `try` of a store may raise, and a commit may lose its response. */
module StorageMachine {
  import opened Common
  import opened StorageTables
  import opened StorageFiles

  type Pid = nat

  const CHUNK_BYTES: nat := 64 * 1024

  /** Why a clean-up runs, hence what the caller is told afterwards. */
  datatype Why = Failed | Finished(req: Request, result: StoredFile) | Recovering

  datatype Call =
    | StoreCall(req: Request)
    | RecoverCall(owner: Uuid, id: Uuid)
    | DeleteCall(owner: Uuid, file: Uuid)
    | ReadCall(owner: Uuid, file: Uuid)

  /** The `flock` a process has on its operation. */
  datatype Hold = Unlocked | Exclusive | Shared

  /** Program points with their local variables. */
  datatype Point =
    | TakingLock(req: Request)
    | Replaying(req: Request)
    | Staging(req: Request)
    | NextChunk(req: Request, ino: nat, data: Bytes)
    | NextPart(req: Request, ino: nat, data: Bytes, rest: Bytes)
    | WritingPart(req: Request, ino: nat, data: Bytes, part: Bytes, done: nat, rest: Bytes)
    | PartWritten(req: Request, ino: nat, data: Bytes, rest: Bytes)
    | Inserting(req: Request, data: Bytes)
    | Publishing(req: Request, data: Bytes)
    | Linking(req: Request, data: Bytes)
    | Committing(req: Request, data: Bytes)
    | CleanMarking(why: Why)
    | CleaningCommitted(why: Why)
    | CleaningPublished(why: Why)
    | CleaningStaging(why: Why)
    | CleanAborting(why: Why)
    | Returning(why: Why)
    | RecoverLocking
    | RecoverRereading
    | DeleteLocking
    | DeleteMarking
    | RemovingPublished(size: nat)
    | RemovingStaging(size: nat)
    | Uncharging(size: nat)
    | ReadLocking(size: nat, digest: Digest)
    | ReadChecking(size: nat, digest: Digest)
    | Reading(size: nat, digest: Digest)

  /** `created` is set in the one call whose `_begin` inserted the reservation. */
  datatype Proc =
    | Starting(call: Call)
    | Working(op: Handle, created: bool, held: Hold, at: Point)

  datatype Return = Return(owner: Uuid, key: string, result: StoredFile)

  /** `sql` is the process inside the publishing transaction, which keeps the settings row locked. */
  datatype Sys = Sys(
    db: Db, fs: Fs, policy: Policy, clock: nat, locks: map<Uuid, Pid>, shared: set<(Uuid, Pid)>,
    sql: Option<Pid>, procs: map<Pid, Proc>, answers: seq<Return>)

  datatype Outcome = CommitAnswered | CommitUnanswered | RolledBack

  /** What the environment decides about one step. */
  datatype Env = Env(free: nat, chunk: Option<Bytes>, count: nat, outcome: Outcome, authorized: bool)

  datatype Action =
    | Start(pid: Pid, call: Call)
    | Go(pid: Pid, env: Env)
    | Raise(pid: Pid)
    | Crash(pid: Pid)
    | Tick(seconds: nat)
    | Purge(chosen: set<Uuid>)
    | ConfigureDefault(amount: nat)
    | ConfigureOverride(owner: Uuid, limitOverride: Option<nat>)

  function ExclusiveOf(pr: Proc): Option<Uuid> {
    if pr.Working? && pr.held == Exclusive then Some(pr.op.id) else None
  }

  function SharedOf(pr: Proc): Option<Uuid> {
    if pr.Working? && pr.held == Shared then Some(pr.op.id) else None
  }

  function CreatorOf(pr: Proc): Option<Uuid> {
    if pr.Working? && pr.created then Some(pr.op.id) else None
  }

  predicate InTransaction(pr: Proc) {
    pr.Working? && (pr.at.Linking? || pr.at.Committing?)
  }

  /** The points covered by the `except` clause of `store`. */
  predicate Guarded(at: Point) {
    || at.Staging? || at.NextChunk? || at.NextPart? || at.WritingPart? || at.PartWritten?
    || at.Inserting? || at.Publishing? || at.Linking? || at.Committing?
  }

  function To(s: Sys, p: Pid, pr: Proc): Sys {
    s.(procs := s.procs[p := pr])
  }

  /** The same call goes on at another point. */
  function Move(s: Sys, p: Pid, pr: Proc, at: Point): Sys
    requires pr.Working?
  {
    To(s, p, pr.(at := at))
  }

  /** The process is gone: its transaction rolls back and the kernel drops its locks. */
  function Exit(s: Sys, p: Pid): Sys {
    s.(procs := s.procs - {p},
       locks := map o | o in s.locks && s.locks[o] != p :: s.locks[o],
       shared := (set e | e in s.shared && e.1 != p :: e),
       sql := if s.sql == Some(p) then None else s.sql)
  }

  /** An exception inside `store`: the open transaction rolls back and clean-up starts, the lock still held. */
  function Recoil(s: Sys, p: Pid, pr: Proc): Sys
    requires pr.Working?
  {
    Move(s, p, pr, CleanMarking(Failed)).(sql := if s.sql == Some(p) then None else s.sql)
  }

  function AfterWhy(s: Sys, p: Pid, why: Why): Sys {
    Exit(if why.Finished? then s.(answers := s.answers + [Return(why.req.owner, why.req.key, why.result)]) else s, p)
  }

  predicate LockedShared(s: Sys, op: Uuid) {
    exists e | e in s.shared :: e.0 == op
  }

  function TryExclusive(s: Sys, p: Pid, pr: Proc, at: Point): Sys
    requires pr.Working?
  {
    if pr.op.id in s.locks || LockedShared(s, pr.op.id) then Exit(s, p)
    else To(s, p, pr.(held := Exclusive, at := at)).(locks := s.locks[pr.op.id := p])
  }

  /** Points whose step is a transaction that locks the account; they wait while `sql` is taken. */
  predicate Transacting(at: Point) {
    || at.NextPart? || at.PartWritten? || at.Inserting? || at.Publishing?
    || at.CleanMarking? || at.CleanAborting? || at.DeleteMarking? || at.Uncharging?
  }

  function PartOf(rest: Bytes): Bytes {
    if |rest| <= CHUNK_BYTES then rest else rest[..CHUNK_BYTES]
  }

  function ResultOf(op: Handle, row: FileRow): StoredFile {
    StoredFile(op.fileId, op.owner, row.size, row.digest)
  }

  // ----- how calls start

  function StartStore(s: Sys, p: Pid, req: Request, env: Env): Sys {
    if req.expected.Some? && req.expected.value > s.policy.fileBytes then Exit(s, p) else
    if s.sql.Some? then s else
    var (db, begun) := Begin(s.db, s.policy, s.clock, env.free, req);
    match begun
    case Err(_) => Exit(s, p)
    case Ok(b) =>
      if !b.created && b.state != Committed then Exit(s, p)
      else To(s.(db := db), p, Working(b.op, b.created, Unlocked, TakingLock(req)))
  }

  function StartRecover(s: Sys, p: Pid, owner: Uuid, id: Uuid): Sys {
    if id in s.db.reservations && s.db.reservations[id].owner == owner
    then To(s, p, Working(HandleOf(id, s.db.reservations[id]), false, Unlocked, RecoverLocking))
    else Exit(s, p)
  }

  function StartDelete(s: Sys, p: Pid, owner: Uuid, file: Uuid): Sys {
    if file in s.db.files && s.db.files[file].owner == owner && s.db.files[file].reservation in s.db.reservations
    then
      var id := s.db.files[file].reservation;
      To(s, p, Working(HandleOf(id, s.db.reservations[id]), false, Unlocked, DeleteLocking))
    else Exit(s, p)
  }

  function StartRead(s: Sys, p: Pid, owner: Uuid, file: Uuid): Sys {
    if file in s.db.files && s.db.files[file].owner == owner && s.db.files[file].state == Ready
       && s.db.files[file].reservation in s.db.reservations
    then
      var row := s.db.files[file];
      To(s, p, Working(HandleOf(row.reservation, s.db.reservations[row.reservation]), false, Unlocked,
                       ReadLocking(row.size, row.digest)))
    else Exit(s, p)
  }

  // ----- the steps of a store

  function StepReplay(s: Sys, p: Pid, pr: Proc, req: Request): Sys
    requires pr.Working?
  {
    var op := pr.op;
    if op.fileId in s.db.files && s.db.files[op.fileId].reservation == op.id
       && s.db.files[op.fileId].owner == op.owner && s.db.files[op.fileId].state == Ready
    then Move(s, p, pr, Returning(Finished(req, ResultOf(op, s.db.files[op.fileId]))))
    else Move(s, p, pr, Returning(Failed))
  }

  function StepStage(s: Sys, p: Pid, pr: Proc, req: Request): Sys
    requires pr.Working?
  {
    match CreateStaging(s.fs, pr.op.id)
    case None => Recoil(s, p, pr)
    case Some(fs) => Move(s.(fs := fs), p, pr, NextChunk(req, s.fs.nextInode, []))
  }

  function StepChunk(s: Sys, p: Pid, pr: Proc, req: Request, ino: nat, data: Bytes, chunk: Option<Bytes>): Sys
    requires pr.Working?
  {
    match chunk
    case None =>
      if req.expected.Some? && |data| != req.expected.value then Recoil(s, p, pr)
      else Move(s, p, pr, Inserting(req, data))
    case Some(bytes) =>
      if |data| + |bytes| > s.policy.fileBytes then Recoil(s, p, pr)
      else if bytes == [] then s
      else Move(s, p, pr, NextPart(req, ino, data, bytes))
  }

  function StepPart(s: Sys, p: Pid, pr: Proc, req: Request, ino: nat, data: Bytes, rest: Bytes, env: Env): Sys
    requires pr.Working?
  {
    var part := PartOf(rest);
    match Advance(s.db, s.policy, s.clock, env.free, pr.op, |data| + |part|, false)
    case Err(_) => Recoil(s, p, pr)
    case Ok(db) => Move(s.(db := db), p, pr, WritingPart(req, ino, data, part, 0, rest[|part|..]))
  }

  function StepWrite(s: Sys, p: Pid, pr: Proc, req: Request, ino: nat, data: Bytes, part: Bytes, done: nat,
                     rest: Bytes, count: nat): Sys
    requires pr.Working? && done < |part|
  {
    if count == 0 then Recoil(s, p, pr) else
    var next: nat := Min(|part|, done + count);
    var t := s.(fs := Append(s.fs, ino, part[done..next]));
    if next == |part| then Move(t, p, pr, PartWritten(req, ino, data + part, rest))
    else Move(t, p, pr, WritingPart(req, ino, data, part, next, rest))
  }

  function StepWritten(s: Sys, p: Pid, pr: Proc, req: Request, ino: nat, data: Bytes, rest: Bytes, env: Env): Sys
    requires pr.Working?
  {
    match Advance(s.db, s.policy, s.clock, env.free, pr.op, |data|, true)
    case Err(_) => Recoil(s, p, pr)
    case Ok(db) =>
      Move(s.(db := db), p, pr, if rest == [] then NextChunk(req, ino, data) else NextPart(req, ino, data, rest))
  }

  function StepInsert(s: Sys, p: Pid, pr: Proc, req: Request, data: Bytes): Sys
    requires pr.Working?
  {
    match InsertStaged(s.db, pr.op, |data|, Sha256(data))
    case Err(_) => Recoil(s, p, pr)
    case Ok(db) => Move(s.(db := db), p, pr, Publishing(req, data))
  }

  function StepPublish(s: Sys, p: Pid, pr: Proc, req: Request, data: Bytes, env: Env): Sys
    requires pr.Working?
  {
    match PublishCheck(s.db, s.policy, env.free, pr.op)
    case Some(_) => Recoil(s, p, pr)
    case None => Move(s, p, pr, Linking(req, data)).(sql := Some(p))
  }

  function StepLink(s: Sys, p: Pid, pr: Proc, req: Request, data: Bytes): Sys
    requires pr.Working?
  {
    match Publish(s.fs, pr.op)
    case None => Recoil(s, p, pr)
    case Some(fs) => Move(s.(fs := fs), p, pr, Committing(req, data))
  }

  function StepCommit(s: Sys, p: Pid, pr: Proc, req: Request, data: Bytes, outcome: Outcome): Sys
    requires pr.Working?
  {
    var op := pr.op;
    if outcome == RolledBack || op.owner !in s.db.accounts || op.id !in s.db.reservations || op.fileId !in s.db.files
    then Recoil(s, p, pr) else
    var t := s.(db := PublishCommit(s.db, op, |data|), sql := None);
    if outcome == CommitUnanswered then Move(t, p, pr, CleanMarking(Failed))
    else Move(t, p, pr, CleanMarking(Finished(req, StoredFile(op.fileId, op.owner, |data|, Sha256(data)))))
  }

  // ----- clean-up, shared by store and recover

  function StepCleanMark(s: Sys, p: Pid, pr: Proc, why: Why): Sys
    requires pr.Working?
  {
    match CleanMark(s.db, pr.op)
    case Err(_) => Exit(s, p)
    case Ok((db, kind)) =>
      match kind
      case AlreadyAborted => Move(s, p, pr, Returning(why))
      case KeepCommitted => Move(s, p, pr, CleaningCommitted(why))
      case DropUncommitted => Move(s.(db := db), p, pr, CleaningPublished(why))
  }

  function StepCleanCommitted(s: Sys, p: Pid, pr: Proc, why: Why): Sys
    requires pr.Working?
  {
    match CleanCommitted(s.fs, pr.op)
    // Only a redundant link remains: a finished store still answers, anything else reports the failure.
    case None => Move(s, p, pr, Returning(if why.Finished? then why else Failed))
    case Some(fs) => Move(s.(fs := fs), p, pr, Returning(why))
  }

  function StepCleanPublished(s: Sys, p: Pid, pr: Proc, why: Why): Sys
    requires pr.Working?
  {
    match CleanPublished(s.fs, pr.op)
    case None => Exit(s, p)
    case Some(fs) => Move(s.(fs := fs), p, pr, CleaningStaging(why))
  }

  function StepCleanStaging(s: Sys, p: Pid, pr: Proc, why: Why): Sys
    requires pr.Working?
  {
    Move(s.(fs := UnlinkStaging(s.fs, pr.op.id)), p, pr, CleanAborting(why))
  }

  function StepCleanAbort(s: Sys, p: Pid, pr: Proc, why: Why): Sys
    requires pr.Working?
  {
    match CleanAbort(s.db, pr.op)
    case Err(_) => Exit(s, p)
    case Ok(db) => Move(s.(db := db), p, pr, Returning(why))
  }

  // ----- recovery, deletion, reading

  function StepRecoverReread(s: Sys, p: Pid, pr: Proc): Sys
    requires pr.Working?
  {
    if pr.op.id !in s.db.reservations then Exit(s, p) else
    var row := s.db.reservations[pr.op.id];
    if Active(row.state) && row.leaseExpires > s.clock then Exit(s, p)
    else Move(s, p, pr.(op := HandleOf(pr.op.id, row)), CleanMarking(Recovering))
  }

  function StepDeleteMark(s: Sys, p: Pid, pr: Proc, authorized: bool): Sys
    requires pr.Working?
  {
    match DeleteMark(s.db, pr.op.owner, pr.op.fileId, authorized)
    case Err(_) => Exit(s, p)
    case Ok((db, kind)) =>
      match kind
      case AlreadyDeleted => Move(s, p, pr, Returning(Failed))
      case Removing(size) => Move(s.(db := db), p, pr, RemovingPublished(size))
  }

  function StepRemovePublished(s: Sys, p: Pid, pr: Proc, size: nat): Sys
    requires pr.Working?
  {
    Move(s.(fs := UnlinkPublished(s.fs, NameOf(pr.op))), p, pr, RemovingStaging(size))
  }

  function StepRemoveStaging(s: Sys, p: Pid, pr: Proc, size: nat): Sys
    requires pr.Working?
  {
    Move(s.(fs := UnlinkStaging(s.fs, pr.op.id)), p, pr, Uncharging(size))
  }

  function StepUncharge(s: Sys, p: Pid, pr: Proc, size: nat): Sys
    requires pr.Working?
  {
    match DeleteFinish(s.db, pr.op.owner, pr.op.fileId, size)
    case Err(_) => Exit(s, p)
    case Ok(db) => Move(s.(db := db), p, pr, Returning(Failed))
  }

  function StepReadLock(s: Sys, p: Pid, pr: Proc, size: nat, digest: Digest): Sys
    requires pr.Working?
  {
    if pr.op.id in s.locks then Exit(s, p)
    else To(s, p, pr.(held := Shared, at := ReadChecking(size, digest))).(shared := s.shared + {(pr.op.id, p)})
  }

  function StepReadCheck(s: Sys, p: Pid, pr: Proc, size: nat, digest: Digest): Sys
    requires pr.Working?
  {
    if pr.op.fileId in s.db.files && s.db.files[pr.op.fileId].state == Ready
    then Move(s, p, pr, Reading(size, digest))
    else Exit(s, p)
  }

  function StepCall(s: Sys, p: Pid, call: Call, env: Env): Sys {
    match call
    case StoreCall(req) => StartStore(s, p, req, env)
    case RecoverCall(owner, id) => StartRecover(s, p, owner, id)
    case DeleteCall(owner, file) => StartDelete(s, p, owner, file)
    case ReadCall(owner, file) => StartRead(s, p, owner, file)
  }

  function StepWork(s: Sys, p: Pid, pr: Proc, env: Env): Sys
    requires pr.Working?
  {
    match pr.at
    case TakingLock(req) => TryExclusive(s, p, pr, if pr.created then Staging(req) else Replaying(req))
    case Replaying(req) => StepReplay(s, p, pr, req)
    case Staging(req) => StepStage(s, p, pr, req)
    case NextChunk(req, ino, data) => StepChunk(s, p, pr, req, ino, data, env.chunk)
    case NextPart(req, ino, data, rest) => StepPart(s, p, pr, req, ino, data, rest, env)
    case WritingPart(req, ino, data, part, done, rest) =>
      if done < |part| then StepWrite(s, p, pr, req, ino, data, part, done, rest, env.count) else s
    case PartWritten(req, ino, data, rest) => StepWritten(s, p, pr, req, ino, data, rest, env)
    case Inserting(req, data) => StepInsert(s, p, pr, req, data)
    case Publishing(req, data) => StepPublish(s, p, pr, req, data, env)
    case Linking(req, data) => StepLink(s, p, pr, req, data)
    case Committing(req, data) => StepCommit(s, p, pr, req, data, env.outcome)
    case CleanMarking(why) => StepCleanMark(s, p, pr, why)
    case CleaningCommitted(why) => StepCleanCommitted(s, p, pr, why)
    case CleaningPublished(why) => StepCleanPublished(s, p, pr, why)
    case CleaningStaging(why) => StepCleanStaging(s, p, pr, why)
    case CleanAborting(why) => StepCleanAbort(s, p, pr, why)
    case Returning(why) => AfterWhy(s, p, why)
    case RecoverLocking => TryExclusive(s, p, pr, RecoverRereading)
    case RecoverRereading => StepRecoverReread(s, p, pr)
    case DeleteLocking => TryExclusive(s, p, pr, DeleteMarking)
    case DeleteMarking => StepDeleteMark(s, p, pr, env.authorized)
    case RemovingPublished(size) => StepRemovePublished(s, p, pr, size)
    case RemovingStaging(size) => StepRemoveStaging(s, p, pr, size)
    case Uncharging(size) => StepUncharge(s, p, pr, size)
    case ReadLocking(size, digest) => StepReadLock(s, p, pr, size, digest)
    case ReadChecking(size, digest) => StepReadCheck(s, p, pr, size, digest)
    case Reading(_, _) => Exit(s, p)
  }

  /** The next step of process `p`. */
  function Step(s: Sys, p: Pid, env: Env): Sys {
    if p !in s.procs then s else
    var pr := s.procs[p];
    if pr.Starting? then StepCall(s, p, pr.call, env)
    else if Transacting(pr.at) && s.sql.Some? then s
    else StepWork(s, p, pr, env)
  }

  function Apply(s: Sys, a: Action): Sys {
    match a
    case Start(p, call) => if p in s.procs then s else To(s, p, Starting(call))
    case Go(p, env) => Step(s, p, env)
    case Raise(p) =>
      if p in s.procs && s.procs[p].Working? && Guarded(s.procs[p].at) then Recoil(s, p, s.procs[p]) else s
    case Crash(p) => Exit(s, p)
    case Tick(seconds) => s.(clock := s.clock + seconds)
    case Purge(chosen) => if s.sql.Some? then s else s.(db := PurgeMark(s.db, chosen))
    case ConfigureDefault(amount) => if s.sql.Some? then s else s.(db := SetDefault(s.db, amount))
    case ConfigureOverride(owner, limit) => if s.sql.Some? then s else s.(db := SetOverride(s.db, owner, limit))
  }

  function Run(s: Sys, actions: seq<Action>): Sys
    decreases |actions|
  {
    if actions == [] then s else Run(Apply(s, actions[0]), actions[1..])
  }

  /** Accounts exist and nothing has been stored. */
  ghost predicate Init(s: Sys) {
    && s.db.reservations == map[] && s.db.files == map[] && s.db.effects == []
    && (forall o | o in s.db.accounts :: s.db.accounts[o].used == 0 && s.db.accounts[o].reserved == 0)
    && s.fs.inodes == map[] && s.fs.staging == map[] && s.fs.published == map[]
    && s.locks == map[] && s.shared == {} && s.sql == None && s.procs == map[] && s.answers == []
  }
}
