/** What every crash state of the storage service satisfies, first for the durable data alone, then for the
    processes running over it. */
module StorageInvariant {
  import opened Common
  import opened StorageTables
  import opened StorageFiles
  import opened StorageMachine

  /** A directory entry seen through its inode. */
  datatype Link = Link(ino: nat, data: Bytes)

  /** Everything durable about one operation. */
  datatype Cell = Cell(row: Reservation, file: Option<FileRow>, staged: Option<Link>, published: Option<Link>)

  function LinkTo(fs: Fs, ino: nat): Link {
    Link(ino, if ino in fs.inodes then fs.inodes[ino].data else [])
  }

  function CellOf(db: Db, fs: Fs, id: Uuid): Cell
    requires id in db.reservations
  {
    var row := db.reservations[id];
    var name := FileName(row.owner, row.fileId);
    Cell(row,
         if row.fileId in db.files then Some(db.files[row.fileId]) else None,
         if id in fs.staging then Some(LinkTo(fs, fs.staging[id])) else None,
         if name in fs.published then Some(LinkTo(fs, fs.published[name])) else None)
  }

  /** The link names exactly the bytes the file row promises. */
  ghost predicate Holds(link: Link, file: FileRow) {
    |link.data| == file.size && Sha256(link.data) == file.digest
  }

  ghost predicate StagedWithin(c: Cell) {
    c.staged.Some? ==> |c.staged.value.data| <= c.row.allocation
  }

  /** What the row counts as written is in the staging file. */
  ghost predicate WrittenStaged(c: Cell) {
    c.row.written > 0 ==> c.staged.Some? && c.row.written <= |c.staged.value.data|
  }

  ghost predicate UncommittedFile(c: Cell) {
    c.file.Some? ==> c.file.value.state == InStaging && c.file.value.size <= c.row.allocation
  }

  /** The relation between one operation's row, its file row and its two links, in every crash state. */
  ghost predicate CellInv(c: Cell) {
    && c.row.written <= c.row.allocation
    && (c.staged.Some? && c.published.Some? ==> c.staged == c.published)
    && match c.row.state
       case Reserved => c.file.None? && c.published.None? && StagedWithin(c) && WrittenStaged(c)
       case Writing => c.file.None? && c.published.None? && StagedWithin(c) && WrittenStaged(c)
       case Staged =>
         && c.file.Some? && UncommittedFile(c)
         && c.staged.Some? && Holds(c.staged.value, c.file.value)
       case CleanupPending =>
         && UncommittedFile(c) && StagedWithin(c)
         && (c.published.Some? ==> c.staged.Some?)
       case Aborted =>
         && (c.file.Some? ==> c.file.value.state == Deleted)
         && c.published.None?
         && (c.staged.Some? ==> c.staged.value.data == [])
       case Committed => c.file.Some? && CommittedInv(c, c.file.value)
  }

  ghost predicate CommittedInv(c: Cell, file: FileRow) {
    match file.state
    case InStaging => false
    case Ready => c.published.Some? && Holds(c.published.value, file)
    case PendingDelete =>
      && (c.published.Some? ==> Holds(c.published.value, file))
      && (c.staged.Some? ==> Holds(c.staged.value, file))
    case Deleted => c.staged.None? && c.published.None?
  }

  /** Row identities and the foreign keys and unique constraints between tables. */
  ghost predicate RowsOk(db: Db) {
    && (forall o | o in db.reservations ::
          o < db.issued && db.reservations[o].fileId < db.issued && db.reservations[o].owner in db.accounts)
    && (forall o, q | o in db.reservations && q in db.reservations &&
          db.reservations[o].fileId == db.reservations[q].fileId :: o == q)
    && (forall f | f in db.files ::
          && f < db.issued && db.files[f].reservation in db.reservations
          && db.reservations[db.files[f].reservation].fileId == f
          && db.reservations[db.files[f].reservation].owner == db.files[f].owner)
  }

  /** At most one reservation for each owner and idempotency key. */
  ghost predicate KeysUnique(db: Db) {
    forall o, q | o in db.reservations && q in db.reservations &&
      db.reservations[o].owner == db.reservations[q].owner && db.reservations[o].key == db.reservations[q].key :: o == q
  }

  /** Every directory entry belongs to the operation that created its inode. */
  ghost predicate LinksOk(db: Db, fs: Fs) {
    && (forall i | i in fs.inodes :: i < fs.nextInode)
    && (forall o | o in fs.staging ::
          o in db.reservations && fs.staging[o] in fs.inodes && fs.inodes[fs.staging[o]].creator == o)
    && (forall n | n in fs.published ::
          && fs.published[n] in fs.inodes
          && fs.inodes[fs.published[n]].creator in db.reservations
          && n == FileName(db.reservations[fs.inodes[fs.published[n]].creator].owner,
                           db.reservations[fs.inodes[fs.published[n]].creator].fileId))
  }

  ghost predicate CellsOk(db: Db, fs: Fs) {
    forall o | o in db.reservations :: CellInv(CellOf(db, fs, o))
  }

  /** Conservation: the account counters are exactly the sums over the rows they summarise. */
  ghost predicate SumsOk(db: Db) {
    forall a {:trigger AccountOk(db, a)} | a in db.accounts :: AccountOk(db, a)
  }

  ghost predicate AccountOk(db: Db, a: Uuid)
    requires a in db.accounts
  {
    && db.accounts[a].used == Sum(UsedOf(db, a), db.issued)
    && db.accounts[a].reserved == Sum(ReservedOf(db, a), db.issued)
  }

  /** `finalize` took effect once for each committed operation and never for another. */
  ghost predicate EffectsOk(db: Db) {
    forall o: Uuid :: multiset(db.effects)[o] ==
      if o in db.reservations && db.reservations[o].state == Committed then 1 else 0
  }

  ghost predicate DataInv(db: Db, fs: Fs) {
    && RowsOk(db)
    && KeysUnique(db)
    && LinksOk(db, fs)
    && CellsOk(db, fs)
    && SumsOk(db)
    && EffectsOk(db)
  }

  // ----- processes

  ghost predicate Matches(op: Handle, row: Reservation) {
    op.owner == row.owner && op.fileId == row.fileId && op.token == row.token
  }

  ghost predicate Requested(req: Request, row: Reservation) {
    req.owner == row.owner && req.key == row.key
  }

  /** Nothing of a new operation exists yet; a recoverer may already have given it up. */
  ghost predicate BeforeStaging(c: Cell) {
    && c.row.state in {Reserved, CleanupPending, Aborted}
    && c.file.None? && c.staged.None? && c.published.None? && c.row.written == 0
  }

  ghost predicate Streaming(c: Cell, ino: nat, data: Bytes) {
    && c.row.state in {Reserved, Writing, CleanupPending, Aborted}
    && c.file.None? && c.published.None?
    && c.staged == Some(Link(ino, data)) && c.row.written <= |data|
  }

  ghost predicate ReadyToPublish(c: Cell, data: Bytes) {
    && c.row.state == Staged
    && c.file.Some? && c.file.value.size == |data| && c.file.value.digest == Sha256(data)
    && c.staged.Some? && c.staged.value.data == data
  }

  ghost predicate WhyOk(why: Why, op: Handle, c: Cell) {
    why.Finished? ==>
      && Requested(why.req, c.row)
      && c.row.state == Committed && c.file.Some?
      && why.result == ResultOf(op, c.file.value)
  }

  function HoldAt(at: Point): Hold {
    match at
    case TakingLock(_) => Unlocked
    case RecoverLocking => Unlocked
    case DeleteLocking => Unlocked
    case ReadLocking(_, _) => Unlocked
    case ReadChecking(_, _) => Shared
    case Reading(_, _) => Shared
    case _ => Exclusive
  }

  /** What a process relies on at its program point. */
  ghost predicate PcInv(pr: Proc, c: Cell)
    requires pr.Working?
  {
    Matches(pr.op, c.row) && pr.held == HoldAt(pr.at) && (Guarded(pr.at) ==> pr.created) && PointInv(pr, c)
  }

  ghost predicate PointInv(pr: Proc, c: Cell)
    requires pr.Working?
  {
    match pr.at
    case TakingLock(req) => Requested(req, c.row) && (pr.created ==> BeforeStaging(c))
    case Replaying(req) => Requested(req, c.row)
    case Staging(req) => Requested(req, c.row) && BeforeStaging(c)
    case NextChunk(req, ino, data) => Requested(req, c.row) && Streaming(c, ino, data)
    case NextPart(req, ino, data, rest) => Requested(req, c.row) && Streaming(c, ino, data) && rest != []
    case WritingPart(req, ino, data, part, done, _) =>
      && Requested(req, c.row) && c.row.state == Writing && done < |part|
      && |data| + |part| <= c.row.allocation && Streaming(c, ino, data + part[..done])
    case PartWritten(req, ino, data, _) =>
      Requested(req, c.row) && c.row.state == Writing && Streaming(c, ino, data)
    case Inserting(req, data) =>
      Requested(req, c.row) && c.staged.Some? && Streaming(c, c.staged.value.ino, data)
    case Publishing(req, data) => Requested(req, c.row) && ReadyToPublish(c, data) && c.published.None?
    case Linking(req, data) => Requested(req, c.row) && ReadyToPublish(c, data) && c.published.None?
    case Committing(req, data) => Requested(req, c.row) && ReadyToPublish(c, data) && c.published == c.staged
    case CleanMarking(why) => WhyOk(why, pr.op, c)
    case CleaningCommitted(why) => WhyOk(why, pr.op, c) && c.row.state == Committed
    case CleaningPublished(why) => !why.Finished? && c.row.state == CleanupPending
    case CleaningStaging(why) => !why.Finished? && c.row.state == CleanupPending && c.published.None?
    case CleanAborting(why) =>
      !why.Finished? && c.row.state == CleanupPending && c.published.None? && c.staged.None?
    case Returning(why) => WhyOk(why, pr.op, c)
    case RemovingPublished(size) => Removable(c, size)
    case RemovingStaging(size) => Removable(c, size) && c.published.None?
    case Uncharging(size) => Removable(c, size) && c.published.None? && c.staged.None?
    case ReadLocking(size, digest) => Described(c, size, digest)
    case ReadChecking(size, digest) => Described(c, size, digest)
    case Reading(size, digest) =>
      && Described(c, size, digest) && Charged(c.file.value)
      && c.published.Some? && Holds(c.published.value, c.file.value)
    case _ => true
  }

  ghost predicate Removable(c: Cell, size: nat) {
    && c.row.state == Committed && c.file.Some?
    && c.file.value.state == PendingDelete && c.file.value.size == size
  }

  ghost predicate Described(c: Cell, size: nat, digest: Digest) {
    c.file.Some? && c.file.value.size == size && c.file.value.digest == digest
  }

  ghost predicate ProcOk(s: Sys, pr: Proc) {
    pr.Working? ==>
      && pr.op.id in s.db.reservations
      && PcInv(pr, CellOf(s.db, s.fs, pr.op.id))
  }

  ghost predicate LocksOk(s: Sys) {
    && (forall o {:trigger LockHeld(s, o)} | o in s.locks :: LockHeld(s, o))
    && (forall e {:trigger ShareHeld(s, e)} | e in s.shared :: ShareHeld(s, e))
    && (forall p {:trigger HoldRecorded(s, p, s.procs[p])} | p in s.procs :: HoldRecorded(s, p, s.procs[p]))
  }

  ghost predicate LockHeld(s: Sys, o: Uuid)
    requires o in s.locks
  {
    s.locks[o] in s.procs && ExclusiveOf(s.procs[s.locks[o]]) == Some(o)
  }

  ghost predicate ShareHeld(s: Sys, e: (Uuid, Pid)) {
    e.1 in s.procs && SharedOf(s.procs[e.1]) == Some(e.0) && e.0 !in s.locks
  }

  ghost predicate HoldRecorded(s: Sys, p: Pid, pr: Proc) {
    && (ExclusiveOf(pr).Some? ==> ExclusiveOf(pr).value in s.locks && s.locks[ExclusiveOf(pr).value] == p)
    && (SharedOf(pr).Some? ==> (SharedOf(pr).value, p) in s.shared)
  }

  ghost predicate SqlOk(s: Sys) {
    forall p :: s.sql == Some(p) <==> p in s.procs && InTransaction(s.procs[p])
  }

  ghost predicate CreatorsUnique(s: Sys) {
    forall p, q | p in s.procs && q in s.procs && CreatorOf(s.procs[p]).Some? &&
      CreatorOf(s.procs[p]) == CreatorOf(s.procs[q]) :: p == q
  }

  /** Every answer given for a key names the one committed file of that key. */
  ghost predicate Answered(db: Db, ret: Return) {
    exists o :: o in db.reservations && AnsweredBy(db, ret, o)
  }

  ghost predicate AnsweredBy(db: Db, ret: Return, o: Uuid)
    requires o in db.reservations
  {
    var row := db.reservations[o];
    && row.owner == ret.owner && row.key == ret.key && row.state == Committed
    && row.fileId in db.files
    && ret.result == StoredFile(row.fileId, row.owner, db.files[row.fileId].size, db.files[row.fileId].digest)
  }

  ghost predicate AnswersOk(s: Sys) {
    forall ret | ret in s.answers :: Answered(s.db, ret)
  }

  ghost predicate ProcsOk(s: Sys) {
    forall p | p in s.procs :: ProcOk(s, s.procs[p])
  }

  ghost predicate Inv(s: Sys) {
    && DataInv(s.db, s.fs)
    && ProcsOk(s)
    && LocksOk(s)
    && SqlOk(s)
    && CreatorsUnique(s)
    && AnswersOk(s)
  }
}
