/** One call running undisturbed from a crash state: the operations of the service as functions on the tables and the
    directory, and the same calls as runs of the machine with a single process. */
module StorageSequential {
  import opened Common
  import opened StorageTables
  import opened StorageFiles
  import opened StorageMachine
  import opened StorageInvariant
  import opened StorageCleaning

  datatype Environment = Environment(policy: Policy, clock: nat)

  function SqlAt(at: Point): Option<Pid> {
    if at.Linking? || at.Committing? then Some(0) else None
  }

  /** A single process at point `at`, holding its lock. */
  function Alone(db: Db, fs: Fs, e: Environment, op: Handle, created: bool, at: Point): Sys {
    Sys(db, fs, e.policy, e.clock, map[op.id := 0], {}, SqlAt(at), map[0 := Working(op, created, Exclusive, at)], [])
  }

  /** The durable state is sound and everything the program point relies on holds. */
  ghost predicate Sound(db: Db, fs: Fs, e: Environment, op: Handle, created: bool, at: Point) {
    Inv(Alone(db, fs, e, op, created, at))
  }

  lemma AloneTables(db: Db, fs: Fs, e: Environment, op: Handle, created: bool, at: Point)
    requires HoldAt(at) == Exclusive
    ensures var s := Alone(db, fs, e, op, created, at);
      LocksOk(s) && SqlOk(s) && CreatorsUnique(s) && AnswersOk(s)
  {
  }

  /** Any call may start at `at` if the durable state is sound and the point's own condition holds. */
  lemma SoundAt(db: Db, fs: Fs, e: Environment, op: Handle, created: bool, at: Point)
    requires DataInv(db, fs) && op.id in db.reservations && Matches(op, db.reservations[op.id])
    requires HoldAt(at) == Exclusive && (Guarded(at) ==> created)
    requires PointInv(Working(op, created, Exclusive, at), CellOf(db, fs, op.id))
    ensures Sound(db, fs, e, op, created, at)
  {
    hide DataInv, PointInv, LocksOk, SqlOk, CreatorsUnique, AnswersOk;
    AloneTables(db, fs, e, op, created, at);
  }

  lemma SoundData(db: Db, fs: Fs, e: Environment, op: Handle, created: bool, at: Point)
    requires Sound(db, fs, e, op, created, at)
    ensures DataInv(db, fs) && op.id in db.reservations && Matches(op, db.reservations[op.id])
    ensures PointInv(Working(op, created, Exclusive, at), CellOf(db, fs, op.id))
  {
    hide DataInv, PointInv, LocksOk, SqlOk, CreatorsUnique, AnswersOk;
    var s := Alone(db, fs, e, op, created, at);
    assert 0 in s.procs && ProcOk(s, s.procs[0]);
  }

  // ----- clean-up, recovery, deletion

  /** `FileSystem.clean`. */
  function CleanFiles(fs: Fs, op: Handle, committed: bool): Option<Fs> {
    if committed then CleanCommitted(fs, op) else
    match CleanPublished(fs, op)
    case None => None
    case Some(next) => Some(UnlinkStaging(next, op.id))
  }

  /** `Storage._clean`; the error is what it raises, after the state it leaves. */
  function Clean(db: Db, fs: Fs, op: Handle): (Db, Fs, Option<StorageError>) {
    match CleanMark(db, op)
    case Err(error) => (db, fs, Some(error))
    case Ok((marked, kind)) =>
      if kind == AlreadyAborted then (db, fs, None) else
      match CleanFiles(fs, op, kind == KeepCommitted)
      case None => (marked, fs, Some(StorageFailure))
      case Some(cleaned) =>
        if kind == KeepCommitted then (marked, cleaned, None) else
        match CleanAbort(marked, op)
        case Err(error) => (marked, cleaned, Some(error))
        case Ok(aborted) => (aborted, cleaned, None)
  }

  /** `Storage.recover` with the operation's lock free. */
  function Recover(db: Db, fs: Fs, clock: nat, owner: Uuid, id: Uuid): (Db, Fs, Result<bool, StorageError>) {
    if id !in db.reservations || db.reservations[id].owner != owner then (db, fs, Err(NotFound)) else
    var row := db.reservations[id];
    if Active(row.state) && row.leaseExpires > clock then (db, fs, Ok(false)) else
    var (db', fs', error) := Clean(db, fs, HandleOf(id, row));
    (db', fs', if error.Some? then Err(error.value) else Ok(true))
  }

  /** `FileSystem.remove`. */
  function Remove(fs: Fs, op: Handle): Fs {
    UnlinkStaging(UnlinkPublished(fs, NameOf(op)), op.id)
  }

  /** `delete_file` with the operation's lock free. */
  function DeleteFile(db: Db, fs: Fs, owner: Uuid, file: Uuid, authorized: bool): (Db, Fs, Result<bool, StorageError>) {
    match DeleteMark(db, owner, file, authorized)
    case Err(error) => (db, fs, Err(error))
    case Ok((marked, kind)) =>
      match kind
      case AlreadyDeleted => (db, fs, Ok(false))
      case Removing(size) =>
        if marked.files[file].reservation !in db.reservations then (marked, fs, Err(StorageFailure)) else
        var op := HandleOf(marked.files[file].reservation, db.reservations[marked.files[file].reservation]);
        match DeleteFinish(marked, owner, file, size)
        case Err(error) => (marked, Remove(fs, op), Err(error))
        case Ok(finished) => (finished, Remove(fs, op), Ok(true))
  }

  /** `Storage.read` with no writer holding the lock: the bytes, once they match the row. */
  function Read(db: Db, fs: Fs, owner: Uuid, file: Uuid): Result<Bytes, StorageError> {
    if file !in db.files || db.files[file].owner != owner || db.files[file].state != Ready then Err(NotFound) else
    var name := FileName(owner, file);
    if name !in fs.published || fs.published[name] !in fs.inodes then Err(StorageFailure) else
    var data := fs.inodes[fs.published[name]].data;
    if |data| != db.files[file].size || Sha256(data) != db.files[file].digest then Err(StorageFailure) else Ok(data)
  }

  datatype Status = FileDeleted | FileChecked | Recovered | Busy | Failing(error: StorageError)

  /** What `reconcile` does with one reservation. */
  function ReconcileOperation(db: Db, fs: Fs, clock: nat, id: Uuid): (Db, Fs, Status)
    requires id in db.reservations
  {
    var row := db.reservations[id];
    if row.fileId in db.files && db.files[row.fileId].state == PendingDelete then
      var (db', fs', r) := DeleteFile(db, fs, row.owner, row.fileId, true);
      (db', fs', if r.Ok? then FileDeleted else Failing(r.error))
    else if row.fileId in db.files && db.files[row.fileId].state == Ready
      && Read(db, fs, row.owner, row.fileId).Err? then
      (db, fs, Failing(Read(db, fs, row.owner, row.fileId).error))
    else
      var ready := row.fileId in db.files && db.files[row.fileId].state == Ready;
      var (db', fs', r) := Recover(db, fs, clock, row.owner, id);
      (db', fs', if r.Err? then Failing(r.error) else if !r.value then Busy else if ready then FileChecked
        else Recovered)
  }

  // ----- clean-up is total

  lemma SameAlone(t: Sys, db: Db, fs: Fs, e: Environment, op: Handle, created: bool, at: Point)
    requires Inv(t) && t.db == db && t.fs == fs && t.policy == e.policy && t.clock == e.clock
    requires t.locks == map[op.id := 0] && t.shared == {} && t.sql == SqlAt(at) && t.answers == []
    requires t.procs == map[0 := Working(op, created, Exclusive, at)]
    ensures Sound(db, fs, e, op, created, at)
  {
    hide Inv;
    assert t == Alone(db, fs, e, op, created, at);
  }

  lemma MarkIs(db: Db, fs: Fs, e: Environment, op: Handle, created: bool, why: Why)
    requires CleanMark(db, op).Ok?
    ensures var (marked, kind) := CleanMark(db, op).value; var s := Alone(db, fs, e, op, created, CleanMarking(why));
      && s.procs[0].Working? && s.procs[0].at == CleanMarking(why) && s.sql == None
      && StepCleanMark(s, 0, s.procs[0], why) == Alone(marked, fs, e, op, created, AfterMark(kind, why))
  {
    hide CleanMark, Move;
    Unmarked(db, op);
    var (marked, kind) := CleanMark(db, op).value;
    MoveAlone(db, marked, fs, e, op, created, CleanMarking(why), AfterMark(kind, why));
  }

  lemma MoveAlone(db: Db, next: Db, fs: Fs, e: Environment, op: Handle, created: bool, a: Point, b: Point)
    requires SqlAt(a) == SqlAt(b)
    ensures var s := Alone(db, fs, e, op, created, a);
      Move(s.(db := next), 0, s.procs[0], b) == Alone(next, fs, e, op, created, b)
  {
  }

  lemma Marked(db: Db, fs: Fs, e: Environment, op: Handle, created: bool, why: Why)
    requires Sound(db, fs, e, op, created, CleanMarking(why)) && CleanMark(db, op).Ok?
    ensures var (marked, kind) := CleanMark(db, op).value;
      Sound(marked, fs, e, op, created, AfterMark(kind, why))
  {
    hide Inv, CleanMark, StepCleanMark, AfterMark;
    MarkIs(db, fs, e, op, created, why);
    CleanMarkStep(Alone(db, fs, e, op, created, CleanMarking(why)), 0);
  }

  /** Where cleaning goes on once the row is marked. */
  function AfterMark(kind: CleanKind, why: Why): Point {
    match kind case AlreadyAborted => Returning(why) case KeepCommitted => CleaningCommitted(why)
               case DropUncommitted => CleaningPublished(why)
  }

  lemma CleanMarkAlone(db: Db, fs: Fs, e: Environment, op: Handle, created: bool, why: Why)
    requires Sound(db, fs, e, op, created, CleanMarking(why))
    ensures CleanMark(db, op).Ok?
    ensures var (marked, kind) := CleanMark(db, op).value;
      Sound(marked, fs, e, op, created, AfterMark(kind, why))
  {
    hide Inv, PointInv, DataInv;
    assert CleanMark(db, op).Ok? by {
      SoundData(db, fs, e, op, created, CleanMarking(why));
      Marks(db, fs, op);
    }
    Marked(db, fs, e, op, created, why);
  }

  lemma Unmarked(db: Db, op: Handle)
    requires CleanMark(db, op).Ok?
    ensures var (marked, kind) := CleanMark(db, op).value; kind != DropUncommitted ==> marked == db
  {
  }

  lemma KeptCommitted(db: Db, op: Handle)
    requires CleanMark(db, op).Ok?
    ensures op.id in db.reservations
    ensures CleanMark(db, op).value.1 == KeepCommitted <==> db.reservations[op.id].state == Committed
    ensures CleanMark(db, op).value.1 == AlreadyAborted <==> db.reservations[op.id].state == Aborted
  {
  }

  lemma Marks(db: Db, fs: Fs, op: Handle)
    requires DataInv(db, fs) && op.id in db.reservations && Matches(op, db.reservations[op.id])
    ensures CleanMark(db, op).Ok?
  {
  }

  lemma CommittedAlone(db: Db, fs: Fs, e: Environment, op: Handle, created: bool, why: Why)
    requires Sound(db, fs, e, op, created, CleaningCommitted(why))
    requires op.id in fs.staging ==> NameOf(op) in fs.published
    ensures CleanCommitted(fs, op).Some? && Sound(db, CleanCommitted(fs, op).value, e, op, created, Returning(why))
  {
    hide Inv, PointInv, DataInv, CleanCommitted;
    assert CleanCommitted(fs, op).Some? by {
      SoundData(db, fs, e, op, created, CleaningCommitted(why));
      assert db.reservations[op.id].state == Committed by { AtCommitted(op, created, why, CellOf(db, fs, op.id)); }
      SameInode(db, fs, op);
    }
    var s := Alone(db, fs, e, op, created, CleaningCommitted(why));
    CleanCommittedStep(s, 0);
    SameAlone(StepCleanCommitted(s, 0, s.procs[0], why), db, CleanCommitted(fs, op).value, e, op, created,
      Returning(why));
  }

  lemma AtCommitted(op: Handle, created: bool, why: Why, c: Cell)
    requires PointInv(Working(op, created, Exclusive, CleaningCommitted(why)), c)
    ensures c.row.state == Committed
  {
  }

  lemma SameInode(db: Db, fs: Fs, op: Handle)
    requires DataInv(db, fs) && op.id in db.reservations && Matches(op, db.reservations[op.id])
    requires db.reservations[op.id].state == Committed
    requires op.id in fs.staging ==> NameOf(op) in fs.published
    ensures CleanCommitted(fs, op).Some?
  {
    hide RowsOk, LinksOk, SumsOk, EffectsOk, KeysUnique;
    assert CellInv(CellOf(db, fs, op.id));
  }

  lemma PublishedAlone(db: Db, fs: Fs, e: Environment, op: Handle, created: bool, why: Why)
    requires Sound(db, fs, e, op, created, CleaningPublished(why))
    ensures CleanPublished(fs, op).Some?
      && Sound(db, CleanPublished(fs, op).value, e, op, created, CleaningStaging(why))
  {
    hide Inv, PointInv, DataInv, CleanPublished;
    assert CleanPublished(fs, op).Some? by {
      SoundData(db, fs, e, op, created, CleaningPublished(why));
      assert db.reservations[op.id].state == CleanupPending by { AtPublished(op, created, why, CellOf(db, fs, op.id)); }
      NoStranger(db, fs, op);
    }
    var s := Alone(db, fs, e, op, created, CleaningPublished(why));
    CleanPublishedStep(s, 0);
    SameAlone(StepCleanPublished(s, 0, s.procs[0], why), db, CleanPublished(fs, op).value, e, op, created,
      CleaningStaging(why));
  }

  lemma AtPublished(op: Handle, created: bool, why: Why, c: Cell)
    requires PointInv(Working(op, created, Exclusive, CleaningPublished(why)), c)
    ensures c.row.state == CleanupPending
  {
  }

  /** The published name of an uncommitted operation is never a stranger's. */
  lemma NoStranger(db: Db, fs: Fs, op: Handle)
    requires DataInv(db, fs) && op.id in db.reservations && Matches(op, db.reservations[op.id])
    requires db.reservations[op.id].state == CleanupPending
    ensures CleanPublished(fs, op).Some?
  {
    hide RowsOk, LinksOk, SumsOk, EffectsOk, KeysUnique;
    assert CellInv(CellOf(db, fs, op.id));
  }

  lemma StagingAlone(db: Db, fs: Fs, e: Environment, op: Handle, created: bool, why: Why)
    requires Sound(db, fs, e, op, created, CleaningStaging(why))
    ensures Sound(db, UnlinkStaging(fs, op.id), e, op, created, CleanAborting(why))
  {
    hide Inv, UnlinkStaging;
    var s := Alone(db, fs, e, op, created, CleaningStaging(why));
    CleanStagingStep(s, 0);
    SameAlone(StepCleanStaging(s, 0, s.procs[0], why), db, UnlinkStaging(fs, op.id), e, op, created,
      CleanAborting(why));
  }

  lemma AtAborting(op: Handle, created: bool, why: Why, c: Cell)
    requires PointInv(Working(op, created, Exclusive, CleanAborting(why)), c)
    ensures c.row.state == CleanupPending
  {
  }

  lemma Aborts(db: Db, fs: Fs, op: Handle)
    requires DataInv(db, fs) && op.id in db.reservations && Matches(op, db.reservations[op.id])
    requires db.reservations[op.id].state == CleanupPending
    ensures CleanAbort(db, op).Ok?
  {
  }

  lemma AbortAlone(db: Db, fs: Fs, e: Environment, op: Handle, created: bool, why: Why)
    requires Sound(db, fs, e, op, created, CleanAborting(why))
    ensures CleanAbort(db, op).Ok? && Sound(CleanAbort(db, op).value, fs, e, op, created, Returning(why))
  {
    hide Inv, PointInv, DataInv, CleanAbort;
    assert CleanAbort(db, op).Ok? by {
      SoundData(db, fs, e, op, created, CleanAborting(why));
      AtAborting(op, created, why, CellOf(db, fs, op.id));
      Aborts(db, fs, op);
    }
    var s := Alone(db, fs, e, op, created, CleanAborting(why));
    CleanAbortStep(s, 0);
    SameAlone(StepCleanAbort(s, 0, s.procs[0], why), CleanAbort(db, op).value, fs, e, op, created, Returning(why));
  }

  /** A deletion that crashed between its two unlinks: only the staging link of a committed file is left. */
  predicate HalfRemoved(db: Db, fs: Fs, op: Handle) {
    && op.id in db.reservations && db.reservations[op.id].state == Committed
    && op.id in fs.staging && NameOf(op) !in fs.published
  }

  /** Only a file marked for deletion can be half removed. */
  lemma HalfRemovedPending(db: Db, fs: Fs, op: Handle)
    requires DataInv(db, fs) && op.id in db.reservations && Matches(op, db.reservations[op.id])
      && HalfRemoved(db, fs, op)
    ensures op.fileId in db.files && db.files[op.fileId].state == PendingDelete
  {
    hide RowsOk, LinksOk, SumsOk, EffectsOk, KeysUnique;
    assert CellInv(CellOf(db, fs, op.id));
  }

  /** `_clean` succeeds from every other state, and is exactly the machine's clean-up. */
  lemma CleanSound(db: Db, fs: Fs, e: Environment, op: Handle, created: bool, why: Why)
    requires Sound(db, fs, e, op, created, CleanMarking(why)) && !HalfRemoved(db, fs, op)
    ensures var (next, cleaned, error) := Clean(db, fs, op);
      error == None && Sound(next, cleaned, e, op, created, Returning(why))
  {
    hide Sound, CleanMark, CleanCommitted, CleanPublished, CleanAbort, UnlinkStaging;
    CleanMarkAlone(db, fs, e, op, created, why);
    var (marked, kind) := CleanMark(db, op).value;
    Unmarked(db, op);
    KeptCommitted(db, op);
    match kind
    case AlreadyAborted =>
    case KeepCommitted => CommittedAlone(marked, fs, e, op, created, why);
    case DropUncommitted =>
      PublishedAlone(marked, fs, e, op, created, why);
      var fs1 := CleanPublished(fs, op).value;
      StagingAlone(marked, fs1, e, op, created, why);
      AbortAlone(marked, UnlinkStaging(fs1, op.id), e, op, created, why);
  }

  // ----- recovery

  /** What `_clean` leaves behind: an uncommitted operation is gone with its allocation, a committed one keeps its
      file. */
  lemma CleanLeaves(db: Db, fs: Fs, op: Handle)
    requires Clean(db, fs, op).2 == None && op.id in db.reservations && Matches(op, db.reservations[op.id])
    ensures var (next, cleaned, _) := Clean(db, fs, op); var row := db.reservations[op.id];
      && op.owner in db.accounts
      && next.reservations == db.reservations[op.id :=
           row.(state := if row.state == Committed then Committed else Aborted)]
      && next.accounts == (if Active(row.state)
           then db.accounts[op.owner :=
             db.accounts[op.owner].(reserved := db.accounts[op.owner].reserved - row.allocation)]
           else db.accounts)
      && next.files == (if Active(row.state) && op.fileId in db.files
           then db.files[op.fileId := db.files[op.fileId].(state := Deleted)] else db.files)
      && next.effects == db.effects && next.issued == db.issued && next.defaultLimit == db.defaultLimit
      && cleaned.published == (if Active(row.state) then fs.published - {NameOf(op)} else fs.published)
      && cleaned.staging == (if row.state == Aborted then fs.staging else fs.staging - {op.id})
      && cleaned.inodes == fs.inodes && cleaned.nextInode == fs.nextInode
  {
    assert db.reservations == db.reservations[op.id := db.reservations[op.id]];
    var (marked, kind) := CleanMark(db, op).value;
    if kind == KeepCommitted {
      assert op.id !in fs.staging ==> fs.staging - {op.id} == fs.staging;
    }
    if kind == DropUncommitted {
      assert NameOf(op) !in fs.published ==> fs.published - {NameOf(op)} == fs.published;
    }
  }

  /** Recovery is total: from every crash state, with the lease over, it settles the operation for good. It fails
      exactly on a half-removed file, and then changes nothing. */
  lemma RecoveryTotal(db: Db, fs: Fs, e: Environment, id: Uuid)
    requires DataInv(db, fs) && id in db.reservations
    requires Active(db.reservations[id].state) ==> db.reservations[id].leaseExpires <= e.clock
    ensures var row := db.reservations[id]; var (next, cleaned, r) := Recover(db, fs, e.clock, row.owner, id);
      && (r.Err? <==> HalfRemoved(db, fs, HandleOf(id, row)))
      && (r.Err? ==> r.error == StorageFailure && next == db && cleaned == fs)
      && (r.Ok? ==> r.value && DataInv(next, cleaned) && id in next.reservations
                    && next.reservations[id].state == (if row.state == Committed then Committed else Aborted))
  {
    hide DataInv, CleanMark, Sound, CleanFiles, CleanAbort;
    var op := HandleOf(id, db.reservations[id]);
    if HalfRemoved(db, fs, op) {
      HalfRemovedFails(db, fs, op);
    } else {
      SoundAt(db, fs, e, op, false, CleanMarking(Recovering));
      CleanSound(db, fs, e, op, false, Recovering);
      var (next, cleaned, error) := Clean(db, fs, op);
      SoundData(next, cleaned, e, op, false, Returning(Recovering));
      CleanLeaves(db, fs, op);
    }
  }

  lemma HalfRemovedFails(db: Db, fs: Fs, op: Handle)
    requires DataInv(db, fs) && op.id in db.reservations && Matches(op, db.reservations[op.id])
      && HalfRemoved(db, fs, op)
    ensures Clean(db, fs, op) == (db, fs, Some(StorageFailure))
  {
  }
}
