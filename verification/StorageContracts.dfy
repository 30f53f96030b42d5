/** What a caller of the directory or the storage service may rely on, stated on the state before and after the call
    without naming the transactions that ran. */
module StorageContracts {
  import opened Common
  import opened StorageTables
  import opened StorageFiles
  import opened StorageMachine
  import opened StorageInvariant
  import opened StorageFrame
  import opened StorageRuns
  import opened StorageHistory
  import opened StorageSequential
  import opened StorageWriting
  import opened StorageRecovery

  // ----- the directory

  /** Every entry leads to a file, and new files get new inodes. */
  ghost predicate Consistent(fs: Fs) {
    && (forall i | i in fs.inodes :: i < fs.nextInode)
    && (forall o | o in fs.staging :: fs.staging[o] in fs.inodes)
    && (forall n | n in fs.published :: fs.published[n] in fs.inodes)
  }

  function StagedBytes(fs: Fs, op: Uuid): Option<Bytes> {
    if op in fs.staging && fs.staging[op] in fs.inodes then Some(fs.inodes[fs.staging[op]].data) else None
  }

  function PublishedBytes(fs: Fs, name: FileName): Option<Bytes> {
    if name in fs.published && fs.published[name] in fs.inodes then Some(fs.inodes[fs.published[name]].data) else None
  }

  /** Both entries are there and are links to one file. */
  predicate OneFile(fs: Fs, op: Handle) {
    op.id in fs.staging && NameOf(op) in fs.published && fs.staging[op.id] == fs.published[NameOf(op)]
  }

  /** Every entry other than this operation's reads as before. */
  ghost predicate OthersRead(fs: Fs, next: Fs, op: Uuid, name: Option<FileName>) {
    && (forall o | o != op :: StagedBytes(next, o) == StagedBytes(fs, o) && (o in next.staging <==> o in fs.staging))
    && (forall n | Some(n) != name ::
         PublishedBytes(next, n) == PublishedBytes(fs, n) && (n in next.published <==> n in fs.published))
  }

  /** A staging file is created only where there is none, and it is empty. */
  ghost predicate StageGives(fs: Fs, next: Fs, op: Uuid, stream: Option<nat>) {
    && (stream.None? <==> op in fs.staging)
    && (stream.None? ==> next == fs)
    && (stream.Some? ==>
         StagedBytes(next, op) == Some([]) && next.staging[op] == stream.value && stream.value !in fs.inodes)
    && OthersRead(fs, next, op, None)
  }

  lemma StageContract(fs: Fs, op: Uuid)
    requires Consistent(fs)
    ensures match CreateStaging(fs, op)
            case None => StageGives(fs, fs, op, None)
            case Some(next) => StageGives(fs, next, op, Some(fs.nextInode)) && Consistent(next)
  {
  }

  /** Publishing gives the staged file its name, and never replaces another. */
  ghost predicate LinkGives(fs: Fs, next: Fs, op: Handle, ok: bool) {
    && (ok <==> op.id in fs.staging && NameOf(op) !in fs.published)
    && (if ok then OneFile(next, op) && PublishedBytes(next, NameOf(op)) == StagedBytes(fs, op.id) else next == fs)
    && (forall o :: StagedBytes(next, o) == StagedBytes(fs, o))
    && (forall n | n in fs.published :: n in next.published && PublishedBytes(next, n) == PublishedBytes(fs, n))
    && OthersRead(fs, next, op.id, Some(NameOf(op)))
  }

  lemma LinkContract(fs: Fs, op: Handle)
    requires Consistent(fs)
    ensures match Publish(fs, op)
            case None => LinkGives(fs, fs, op, false)
            case Some(next) => LinkGives(fs, next, op, true) && Consistent(next)
  {
  }

  /** A committed operation loses its staging entry and keeps its published file; an uncommitted one loses both. A
      published file is never dropped unless it is the operation's own. */
  ghost predicate DropGives(fs: Fs, next: Fs, op: Handle, committed: bool, ok: bool) {
    && (ok <==>
         if committed then op.id in fs.staging ==> OneFile(fs, op) else NameOf(op) in fs.published ==> OneFile(fs, op))
    && (!ok ==> next == fs)
    && (ok ==> op.id !in next.staging)
    && (ok && committed ==> PublishedBytes(next, NameOf(op)) == PublishedBytes(fs, NameOf(op)))
    && (ok && !committed ==> NameOf(op) !in next.published)
    && OthersRead(fs, next, op.id, Some(NameOf(op)))
  }

  lemma DropContract(fs: Fs, op: Handle, committed: bool)
    requires Consistent(fs)
    ensures match CleanFiles(fs, op, committed)
            case None => DropGives(fs, fs, op, committed, false)
            case Some(next) => DropGives(fs, next, op, committed, true) && Consistent(next)
  {
  }

  ghost predicate RemoveGives(fs: Fs, next: Fs, op: Handle) {
    op.id !in next.staging && NameOf(op) !in next.published && OthersRead(fs, next, op.id, Some(NameOf(op)))
  }

  lemma RemoveContract(fs: Fs, op: Handle)
    requires Consistent(fs)
    ensures RemoveGives(fs, Remove(fs, op), op) && Consistent(Remove(fs, op))
  {
  }

  lemma DataConsistent(db: Db, fs: Fs)
    requires DataInv(db, fs)
    ensures Consistent(fs)
  {
    hide RowsOk, CellsOk, SumsOk, EffectsOk, KeysUnique;
  }

  lemma SoundConsistent(db: Db, fs: Fs, e: Environment, op: Handle, created: bool, at: Point)
    requires Sound(db, fs, e, op, created, at)
    ensures Consistent(fs)
  {
    hide Sound, DataInv, PointInv;
    SoundData(db, fs, e, op, created, at);
    DataConsistent(db, fs);
  }

  // ----- beginning and advancing

  function AmountOf(req: Request): nat {
    if req.expected.Some? then req.expected.value else 0
  }

  predicate KeyRow(row: Reservation, req: Request) {
    row.owner == req.owner && row.key == req.key
  }

  predicate SameRequest(row: Reservation, req: Request) {
    row.fingerprint == req.fingerprint && row.purpose == req.purpose && row.expected == req.expected
  }

  ghost predicate KeyTaken(db: Db, req: Request) {
    exists id :: id in db.reservations && KeyRow(db.reservations[id], req)
  }

  /** The owner's charges and the space others were promised leave room for `growth` bytes; otherwise the first ceiling
      that does not. */
  predicate Refused(db: Db, policy: Policy, owner: Uuid, growth: nat, free: nat, error: StorageError)
    requires owner in db.accounts
  {
    var total, limit := Total(db.accounts[owner]), LimitOf(db, db.accounts[owner]);
    match error
    case QuotaExceeded => total + growth > limit
    case TemporaryCapacity => total + growth <= limit && ActiveAllocation(db) + growth > policy.stagingBytes
    case DiskCapacity =>
      && total + growth <= limit && ActiveAllocation(db) + growth <= policy.stagingBytes
      && Sum(OutstandingOf(db), db.issued) + growth + policy.headroom > free
    case _ => false
  }

  lemma CapacityRefuses(db: Db, policy: Policy, owner: Uuid, growth: nat, free: nat, error: StorageError)
    requires owner in db.accounts
    ensures Capacity(db, policy, db.accounts[owner], growth, free) == Some(error) <==>
      Refused(db, policy, owner, growth, free, error)
  {
  }

  /** Whose word counts about an owner's limit: an override, also one of zero, for as long as it is set, and otherwise
      the default. A request that is new is told of the quota exactly if it does not fit below that. */
  lemma LimitGoverns(db: Db, policy: Policy, clock: nat, free: nat, req: Request, n: nat, m: nat)
    requires req.owner in db.accounts && !KeyTaken(db, req)
    ensures var wanted := Total(db.accounts[req.owner]) + AmountOf(req);
      var overridden, defaulted := SetOverride(db, req.owner, Some(n)), SetDefault(SetOverride(db, req.owner, None), m);
      && (Begin(overridden, policy, clock, free, req).1 == Err(QuotaExceeded) <==> wanted > n)
      && (Begin(SetDefault(overridden, m), policy, clock, free, req).1 == Err(QuotaExceeded) <==> wanted > n)
      && (Begin(defaulted, policy, clock, free, req).1 == Err(QuotaExceeded) <==> wanted > m)
  {
    hide Begin;
    var overridden, cleared := SetOverride(db, req.owner, Some(n)), SetOverride(db, req.owner, None);
    LimitDecides(overridden, policy, clock, free, req);
    LimitDecides(SetDefault(overridden, m), policy, clock, free, req);
    LimitDecides(SetDefault(cleared, m), policy, clock, free, req);
  }

  lemma LimitDecides(db: Db, policy: Policy, clock: nat, free: nat, req: Request)
    requires req.owner in db.accounts && !KeyTaken(db, req)
    ensures Begin(db, policy, clock, free, req).1 == Err(QuotaExceeded) <==>
      Total(db.accounts[req.owner]) + AmountOf(req) > LimitOf(db, db.accounts[req.owner])
  {
    hide Capacity, ActiveAllocation;
    assert FindKey(db.reservations, req.owner, req.key, db.issued) == None;
    var refusal := Capacity(db, policy, db.accounts[req.owner], AmountOf(req), free);
    CapacityRefuses(db, policy, req.owner, AmountOf(req), free, QuotaExceeded);
  }

  /** The new operation has identifiers nobody uses, and its allocation is within the owner's limit and the staging
      limit. */
  ghost predicate Opened(db: Db, next: Db, policy: Policy, clock: nat, req: Request, op: Handle) {
    && op.id !in db.reservations && op.fileId !in db.files && op.owner == req.owner
    && (forall o | o in db.reservations :: db.reservations[o].fileId != op.fileId)
    && op.id in next.reservations && op == HandleOf(op.id, next.reservations[op.id])
    && var row := next.reservations[op.id];
    && KeyRow(row, req) && SameRequest(row, req) && row.state == Reserved
    && row.allocation == AmountOf(req) && row.written == 0 && row.leaseExpires == clock + policy.leaseSeconds
    && next.reservations == db.reservations[op.id := row]
    && req.owner in db.accounts && req.owner in next.accounts
    && next == db.(reservations := next.reservations, issued := next.issued,
         accounts := db.accounts[req.owner :=
           db.accounts[req.owner].(reserved := db.accounts[req.owner].reserved + AmountOf(req))])
    && Total(next.accounts[req.owner]) <= LimitOf(next, next.accounts[req.owner])
    && ActiveAllocation(next) <= policy.stagingBytes
  }

  /** One key, one operation: a new key opens one within the ceilings, a known key leads back to it if the request is
      the same, and every refusal has its reason and changes nothing. */
  ghost predicate BeginGives(db: Db, next: Db, policy: Policy, clock: nat, free: nat, req: Request,
                             r: Result<Begun, StorageError>) {
    match r
    case Err(NotFound) => next == db && req.owner !in db.accounts
    case Err(IdempotencyConflict) =>
      next == db
        && exists id ::
             id in db.reservations && KeyRow(db.reservations[id], req) && !SameRequest(db.reservations[id], req)
    case Err(error) =>
      next == db && req.owner in db.accounts && !KeyTaken(db, req)
        && Refused(db, policy, req.owner, AmountOf(req), free, error)
    case Ok(Begun(op, state, created)) =>
      if created then !KeyTaken(db, req) && state == Reserved && Opened(db, next, policy, clock, req, op)
      else next == db && op.id in db.reservations && SameRequest(db.reservations[op.id], req)
           && op == HandleOf(op.id, db.reservations[op.id]) && state == db.reservations[op.id].state
           && forall id | id in db.reservations :: KeyRow(db.reservations[id], req) <==> id == op.id
  }

  lemma BeginContract(db: Db, fs: Fs, policy: Policy, clock: nat, free: nat, req: Request)
    requires DataInv(db, fs)
    ensures var (next, r) := Begin(db, policy, clock, free, req);
      BeginGives(db, next, policy, clock, free, req, r) && DataInv(next, fs)
  {
    hide LinksOk, CellsOk, SumsOk, EffectsOk, Capacity, Opened, Sound;
    var (next, r) := Begin(db, policy, clock, free, req);
    Issued(db);
    if r.Ok? && r.value.created {
      OpenedBy(db, policy, clock, free, req);
      BeginAlone(db, fs, Environment(policy, clock), req, free);
      SoundData(next, fs, Environment(policy, clock), r.value.op, true, Staging(req));
    } else if r.Err? && req.owner in db.accounts {
      CapacityRefuses(db, policy, req.owner, AmountOf(req), free, r.error);
    }
  }

  lemma OpenedBy(db: Db, policy: Policy, clock: nat, free: nat, req: Request)
    requires RowsOk(db) && Begin(db, policy, clock, free, req).1.Ok?
      && Begin(db, policy, clock, free, req).1.value.created
    ensures var (next, r) := Begin(db, policy, clock, free, req);
      Opened(db, next, policy, clock, req, r.value.op) && r.value.state == Reserved
  {
    hide ActiveAllocation;
    Issued(db);
    var next := Begin(db, policy, clock, free, req).0;
    BeginAdmitted(db, policy, clock, free, req);
    InsertedAllocation(db, next, req, next.reservations[db.issued]);
  }

  /** The operation's allocation covers `size` afterwards and never shrinks; what is charged is its growth, within the
      ceilings unless the bytes are written already; nobody else is charged. */
  ghost predicate AdvanceGives(db: Db, next: Db, policy: Policy, clock: nat, free: nat, op: Handle, size: nat,
                               written: bool, error: Option<StorageError>)
  {
    match error
    case Some(NotFound) => next == db && op.owner !in db.accounts
    case Some(OperationExpired) => next == db && !Operable(db, op)
    case Some(refusal) =>
      next == db && op.owner in db.accounts && Operable(db, op) && !written
      && Refused(db, policy, op.owner, Max(0, size - db.reservations[op.id].allocation), free, refusal)
    case None =>
      op.owner in db.accounts && Operable(db, op) && Advanced(db, next, policy, clock, op, size, written)
  }

  ghost predicate Advanced(db: Db, next: Db, policy: Policy, clock: nat, op: Handle, size: nat, written: bool)
    requires op.owner in db.accounts && op.id in db.reservations
  {
    && op.id in next.reservations && op.owner in next.accounts
    && var was, row, account := db.reservations[op.id], next.reservations[op.id], next.accounts[op.owner];
    && size <= row.allocation && was.allocation <= row.allocation
    && (row.allocation == was.allocation || row.allocation == size)
    && row == was.(allocation := row.allocation, state := Writing, leaseExpires := clock + policy.leaseSeconds,
                   written := if written then size else was.written)
    && next == db.(reservations := db.reservations[op.id := row], accounts := db.accounts[op.owner := account])
    && account == db.accounts[op.owner].(reserved := db.accounts[op.owner].reserved + row.allocation - was.allocation)
    && (!written ==> Total(account) <= LimitOf(next, account) && ActiveAllocation(next) <= policy.stagingBytes)
    && SumsOk(next)
  }

  lemma AdvanceContract(db: Db, fs: Fs, policy: Policy, clock: nat, free: nat, op: Handle, size: nat, written: bool)
    requires DataInv(db, fs)
    ensures var r := Advance(db, policy, clock, free, op, size, written);
      match r
      case Ok(next) => AdvanceGives(db, next, policy, clock, free, op, size, written, None)
      case Err(e) => AdvanceGives(db, db, policy, clock, free, op, size, written, Some(e))
  {
    hide DataInv, Capacity, Advanced, ActiveAllocation, OutstandingOf;
    RowsOfData(db, fs);
    if op.owner in db.accounts && Operable(db, op) {
      var r := Advance(db, policy, clock, free, op, size, written);
      if r.Ok? {
        AdvancedBy(db, fs, policy, clock, free, op, size, written);
      } else {
        CapacityRefuses(db, policy, op.owner, Max(0, size - db.reservations[op.id].allocation), free, r.error);
      }
    }
  }

  lemma AdvancedBy(db: Db, fs: Fs, policy: Policy, clock: nat, free: nat, op: Handle, size: nat, written: bool)
    requires RowsOk(db) && SumsOk(db) && Advance(db, policy, clock, free, op, size, written).Ok?
    ensures Advanced(db, Advance(db, policy, clock, free, op, size, written).value, policy, clock, op, size, written)
  {
    hide RowsOk, SumsOk, ActiveAllocation;
    Issued(db);
    var next := Advance(db, policy, clock, free, op, size, written).value;
    AllocationMoves(db, next, op.id);
    AdvanceSums(db, fs, policy, clock, free, op, size, written);
  }

  lemma AdvanceSums(db: Db, fs: Fs, policy: Policy, clock: nat, free: nat, op: Handle, size: nat, written: bool)
    requires RowsOk(db) && SumsOk(db) && Advance(db, policy, clock, free, op, size, written).Ok?
    ensures SumsOk(Advance(db, policy, clock, free, op, size, written).value)
  {
    hide SumsOk, RowsOk, Advance, Charges, Placed, OnlyRows;
    AdvancePlaced(db, policy, clock, free, op, size, written);
    AdvanceCharges(db, fs, policy, clock, free, op, size, written);
    SumsKept(db, fs, Advance(db, policy, clock, free, op, size, written).value, fs, op.id);
  }

  lemma AdvancePlaced(db: Db, policy: Policy, clock: nat, free: nat, op: Handle, size: nat, written: bool)
    requires RowsOk(db) && Advance(db, policy, clock, free, op, size, written).Ok?
    ensures Placed(db, op.id) && OnlyRows(db, Advance(db, policy, clock, free, op, size, written).value, op.id)
  {
    hide Capacity;
  }

  lemma AdvanceCharges(db: Db, fs: Fs, policy: Policy, clock: nat, free: nat, op: Handle, size: nat, written: bool)
    requires RowsOk(db) && Advance(db, policy, clock, free, op, size, written).Ok? && Placed(db, op.id)
    ensures var next := Advance(db, policy, clock, free, op, size, written).value;
      Charges(db, next, db.reservations[op.id].owner, CellOf(db, fs, op.id), CellOf(next, fs, op.id))
  {
    hide Capacity, RowsOk;
  }

  // ----- clean-up and recovery

  /** The call is the operation's own. */
  ghost predicate Own(db: Db, op: Handle) {
    op.id in db.reservations ==> Matches(op, db.reservations[op.id])
  }

  /** The operation's row has its last state, what it reserved is given back, and its file row is as before or
      deleted. */
  ghost predicate SettledRows(db: Db, next: Db, op: Handle) {
    && op.id in db.reservations && op.owner in db.accounts
    && var row := db.reservations[op.id];
    && next.reservations == db.reservations[op.id :=
         row.(state := if row.state == Committed then Committed else Aborted)]
    && next.accounts == (if Active(row.state)
         then db.accounts[op.owner :=
           db.accounts[op.owner].(reserved := db.accounts[op.owner].reserved - row.allocation)]
         else db.accounts)
    && next.effects == db.effects && (row.state == Committed ==> next.files == db.files)
    && (row.state != Committed && op.fileId in next.files ==> next.files[op.fileId].state == Deleted)
  }

  /** A committed file is where it was, without a staging file; of any other operation nothing is published. */
  ghost predicate SettledLinks(fs: Fs, cleaned: Fs, op: Handle, state: ReservationState) {
    && (state == Committed ==>
         op.id !in cleaned.staging && PublishedBytes(cleaned, NameOf(op)) == PublishedBytes(fs, NameOf(op)))
    && (state != Committed ==> NameOf(op) !in cleaned.published && (Active(state) ==> op.id !in cleaned.staging))
  }

  /** Nothing of an uncommitted operation is left but its aborted row, its allocation is given back, and a committed one
      keeps its file and loses the second link; no other operation notices. */
  ghost predicate Settled(db: Db, fs: Fs, next: Db, cleaned: Fs, op: Handle) {
    && SettledRows(db, next, op) && SettledLinks(fs, cleaned, op, db.reservations[op.id].state)
    && OthersRead(fs, cleaned, op.id, Some(NameOf(op)))
    && forall o | o in db.reservations && o != op.id :: SameOperation(db, fs, next, cleaned, o)
  }

  /** Clean-up fails on a half-removed file and nowhere else, and then changes nothing. */
  ghost predicate CleanGives(db: Db, fs: Fs, next: Db, cleaned: Fs, op: Handle, error: Option<StorageError>) {
    match error
    case Some(NotFound) => next == db && cleaned == fs && op.id !in db.reservations
    case Some(StorageFailure) => next == db && cleaned == fs && HalfRemoved(db, fs, op)
    case Some(_) => false
    case None => !HalfRemoved(db, fs, op) && Settled(db, fs, next, cleaned, op)
  }

  lemma CleanContract(db: Db, fs: Fs, e: Environment, op: Handle)
    requires DataInv(db, fs) && Own(db, op)
    ensures var (next, cleaned, error) := Clean(db, fs, op);
      CleanGives(db, fs, next, cleaned, op, error) && DataInv(next, cleaned)
  {
    hide DataInv, Clean, HalfRemoved, Sound, Settled;
    if op.id !in db.reservations {
      CleanUnknown(db, fs, op);
    } else if HalfRemoved(db, fs, op) {
      HalfRemovedFails(db, fs, op);
    } else {
      SoundCleaning(db, fs, e, op);
      CleanSound(db, fs, e, op, false, Recovering);
      var (next, cleaned, _) := Clean(db, fs, op);
      SoundData(next, cleaned, e, op, false, Returning(Recovering));
      CleanSettles(db, fs, op);
    }
  }

  lemma CleanUnknown(db: Db, fs: Fs, op: Handle)
    requires op.id !in db.reservations
    ensures Clean(db, fs, op) == (db, fs, Some(NotFound))
  {
  }

  lemma SoundCleaning(db: Db, fs: Fs, e: Environment, op: Handle)
    requires DataInv(db, fs) && op.id in db.reservations && Matches(op, db.reservations[op.id])
    ensures Sound(db, fs, e, op, false, CleanMarking(Recovering))
  {
    hide DataInv;
    SoundAt(db, fs, e, op, false, CleanMarking(Recovering));
  }

  lemma CleanSettles(db: Db, fs: Fs, op: Handle)
    requires DataInv(db, fs) && op.id in db.reservations && Matches(op, db.reservations[op.id])
    requires Clean(db, fs, op).2 == None
    requires var (next, cleaned, _) := Clean(db, fs, op); DataInv(next, cleaned)
    ensures var (next, cleaned, _) := Clean(db, fs, op); Settled(db, fs, next, cleaned, op)
  {
    hide DataInv, Clean, SameOperation, OthersRead, SettledRows, SettledLinks, RowsOk;
    var (next, cleaned, _) := Clean(db, fs, op);
    RowsOfData(db, fs);
    CleanRows(db, fs, op);
    CleanLinks(db, fs, op);
    forall o | o in db.reservations && o != op.id
      ensures SameOperation(db, fs, next, cleaned, o)
    {
      CleanFrames(db, fs, op, o);
    }
    CleanOthers(db, fs, op);
  }

  lemma CleanRows(db: Db, fs: Fs, op: Handle)
    requires CellsOk(db, fs) && op.id in db.reservations && Matches(op, db.reservations[op.id])
      && Clean(db, fs, op).2 == None
    ensures SettledRows(db, Clean(db, fs, op).0, op)
  {
    hide Clean, CellsOk;
    CleanLeaves(db, fs, op);
    if db.reservations[op.id].state == Aborted {
      AbortedCell(db, fs, op);
    }
  }

  lemma CleanLinks(db: Db, fs: Fs, op: Handle)
    requires CellsOk(db, fs) && op.id in db.reservations && Matches(op, db.reservations[op.id])
      && Clean(db, fs, op).2 == None
    ensures SettledLinks(fs, Clean(db, fs, op).1, op, db.reservations[op.id].state)
  {
    hide Clean, CellsOk;
    CleanLeaves(db, fs, op);
    if db.reservations[op.id].state == Aborted {
      AbortedCell(db, fs, op);
    }
  }

  lemma AbortedCell(db: Db, fs: Fs, op: Handle)
    requires CellsOk(db, fs) && op.id in db.reservations && Matches(op, db.reservations[op.id])
    requires db.reservations[op.id].state == Aborted
    ensures NameOf(op) !in fs.published && (op.fileId in db.files ==> db.files[op.fileId].state == Deleted)
  {
    assert CellInv(CellOf(db, fs, op.id));
  }

  lemma CleanFrames(db: Db, fs: Fs, op: Handle, other: Uuid)
    requires RowsOk(db) && op.id in db.reservations && Matches(op, db.reservations[op.id])
      && Clean(db, fs, op).2 == None
    requires other in db.reservations && other != op.id
    ensures var (next, cleaned, _) := Clean(db, fs, op); SameOperation(db, fs, next, cleaned, other)
  {
    hide Clean;
    CleanLeaves(db, fs, op);
    DistinctFiles(db, op.id, other);
  }

  lemma CleanOthers(db: Db, fs: Fs, op: Handle)
    requires op.id in db.reservations && Matches(op, db.reservations[op.id]) && Clean(db, fs, op).2 == None
    ensures OthersRead(fs, Clean(db, fs, op).1, op.id, Some(NameOf(op)))
  {
    hide Clean;
    CleanLeaves(db, fs, op);
  }

  /** A writer whose lease runs is left alone; anything else is settled for good, unless a deletion of it was cut
      short. */
  ghost predicate RecoverGives(db: Db, fs: Fs, next: Db, cleaned: Fs, clock: nat, owner: Uuid, id: Uuid,
                               r: Result<bool, StorageError>) {
    match r
    case Err(NotFound) => next == db && cleaned == fs && (id !in db.reservations || db.reservations[id].owner != owner)
    case Err(StorageFailure) =>
      next == db && cleaned == fs && id in db.reservations && HalfRemoved(db, fs, HandleOf(id, db.reservations[id]))
    case Err(_) => false
    case Ok(false) => next == db && cleaned == fs && id in db.reservations && !Expired(db, clock, id)
    case Ok(true) =>
      && id in db.reservations && db.reservations[id].owner == owner && Expired(db, clock, id)
      && Settled(db, fs, next, cleaned, HandleOf(id, db.reservations[id]))
      && Recover(next, cleaned, clock, owner, id) == (next, cleaned, Ok(true))
  }

  lemma RecoverContract(db: Db, fs: Fs, e: Environment, owner: Uuid, id: Uuid)
    requires DataInv(db, fs)
    ensures var (next, cleaned, r) := Recover(db, fs, e.clock, owner, id);
      RecoverGives(db, fs, next, cleaned, e.clock, owner, id, r) && DataInv(next, cleaned)
  {
    hide DataInv, Clean, HalfRemoved, Settled;
    if id in db.reservations && db.reservations[id].owner == owner && Expired(db, e.clock, id) {
      CleanContract(db, fs, e, HandleOf(id, db.reservations[id]));
      var (next, cleaned, error) := Clean(db, fs, HandleOf(id, db.reservations[id]));
      if error == None {
        RecoverAgain(db, fs, e.clock, owner, id);
      } else {
        assert error == Some(StorageFailure);
      }
    }
  }

  // ----- deleting, reading, checking accounts

  /** The file is gone: both links and the owner's charge for it, once; everything else is as it was. */
  ghost predicate Removed(db: Db, fs: Fs, next: Db, removed: Fs, file: Uuid)
    requires file in db.files
  {
    var row := db.files[file];
    && row.owner in db.accounts && row.reservation in db.reservations
    && next == db.(files := db.files[file := row.(state := Deleted)],
         accounts := db.accounts[row.owner := db.accounts[row.owner].(used := db.accounts[row.owner].used - row.size)])
    && RemoveGives(fs, removed, HandleOf(row.reservation, db.reservations[row.reservation]))
    && FileName(row.owner, file) !in removed.published
    && (forall o | o in db.reservations && o != row.reservation :: SameOperation(db, fs, next, removed, o))
  }

  predicate OwnFile(db: Db, owner: Uuid, file: Uuid) {
    owner in db.accounts && file in db.files && db.files[file].owner == owner
  }

  /** Each file is removed and uncharged once, by the first call that may. */
  ghost predicate DeleteGives(db: Db, fs: Fs, next: Db, removed: Fs, owner: Uuid, file: Uuid, authorized: bool,
                              r: Result<bool, StorageError>)
  {
    match r
    case Err(NotFound) => next == db && removed == fs && !OwnFile(db, owner, file)
    case Err(OperationInProgress) =>
      next == db && removed == fs && OwnFile(db, owner, file) && db.files[file].state == InStaging
    case Err(ProtectedFile) =>
      next == db && removed == fs && OwnFile(db, owner, file) && db.files[file].state == Ready && !authorized
    case Err(_) => false
    case Ok(false) => next == db && removed == fs && OwnFile(db, owner, file) && db.files[file].state == Deleted
    case Ok(true) =>
      OwnFile(db, owner, file) && Deletable(db.files[file], authorized) && Removed(db, fs, next, removed, file)
  }

  lemma DeleteContract(db: Db, fs: Fs, e: Environment, owner: Uuid, file: Uuid, authorized: bool)
    requires DataInv(db, fs)
    ensures var (next, removed, r) := DeleteFile(db, fs, owner, file, authorized);
      DeleteGives(db, fs, next, removed, owner, file, authorized, r) && DataInv(next, removed)
  {
    hide DataInv, Removed, Remove;
    if OwnFile(db, owner, file) && Deletable(db.files[file], authorized) {
      DeletionTotal(db, fs, e, file, authorized);
      RemovedBy(db, fs, e, file, authorized);
    }
  }

  lemma RemovedBy(db: Db, fs: Fs, e: Environment, file: Uuid, authorized: bool)
    requires DataInv(db, fs) && file in db.files && Deletable(db.files[file], authorized)
    ensures var (next, removed, _) := DeleteFile(db, fs, db.files[file].owner, file, authorized);
      Removed(db, fs, next, removed, file)
  {
    hide DataInv, DeleteFile, OthersRead, SameOperation;
    DeletionTotal(db, fs, e, file, authorized);
    RowsOfData(db, fs);
    OwnReservation(db, file);
    var (next, removed, _) := DeleteFile(db, fs, db.files[file].owner, file, authorized);
    var op := HandleOf(db.files[file].reservation, db.reservations[db.files[file].reservation]);
    RemovedOthers(fs, removed, op);
    assert next == db.(files := next.files, accounts := next.accounts) by { DeleteRest(db, fs, file, authorized); }
    forall o | o in db.reservations && o != op.id
      ensures SameOperation(db, fs, next, removed, o)
    {
      DistinctFiles(db, op.id, o);
      RemovedFrames(db, fs, next, removed, op, o);
    }
  }

  lemma DeleteRest(db: Db, fs: Fs, file: Uuid, authorized: bool)
    requires file in db.files
    ensures var next := DeleteFile(db, fs, db.files[file].owner, file, authorized).0;
      next == db.(files := next.files, accounts := next.accounts)
  {
  }

  lemma RemovedOthers(fs: Fs, removed: Fs, op: Handle)
    requires removed.published == fs.published - {NameOf(op)} && removed.staging == fs.staging - {op.id}
    requires removed.inodes == fs.inodes
    ensures OthersRead(fs, removed, op.id, Some(NameOf(op)))
  {
  }

  lemma RemovedFrames(db: Db, fs: Fs, next: Db, removed: Fs, op: Handle, o: Uuid)
    requires removed.published == fs.published - {NameOf(op)} && removed.staging == fs.staging - {op.id}
    requires removed.inodes == fs.inodes && next.reservations == db.reservations && o in db.reservations && o != op.id
    requires db.reservations[o].fileId != op.fileId && OnlyKey(db.files, next.files, op.fileId)
    ensures SameOperation(db, fs, next, removed, o)
  {
  }

  /** A ready file of the owner always reads back what was stored, and nothing else can be read. */
  ghost predicate ReadGives(db: Db, owner: Uuid, file: Uuid, r: Result<Bytes, StorageError>) {
    match r
    case Ok(data) =>
      && file in db.files && db.files[file].owner == owner && db.files[file].state == Ready
      && |data| == db.files[file].size && Sha256(data) == db.files[file].digest
    case Err(error) =>
      error == NotFound && !(file in db.files && db.files[file].owner == owner && db.files[file].state == Ready)
  }

  lemma ReadContract(db: Db, fs: Fs, owner: Uuid, file: Uuid)
    requires DataInv(db, fs)
    ensures ReadGives(db, owner, file, Read(db, fs, owner, file))
  {
    hide DataInv;
    if file in db.files && db.files[file].owner == owner && db.files[file].state == Ready {
      ReadTotal(db, fs, file);
    }
  }

  /** The counters cover what the rows add up to. */
  ghost predicate Covers(db: Db, owner: Uuid)
    requires owner in db.accounts
  {
    && Sum(UsedOf(db, owner), db.issued) <= db.accounts[owner].used
    && Sum(ReservedOf(db, owner), db.issued) <= db.accounts[owner].reserved
  }

  /** From any tables: no counter is lowered, too low ones are raised to the sums, and the status says whether the
      counters were right, only too low, or somewhere too high. */
  ghost predicate AccountGives(db: Db, next: Db, owner: Uuid, status: AccountStatus) {
    && owner in db.accounts && owner in next.accounts
    && next == db.(accounts := db.accounts[owner := next.accounts[owner]])
    && next.accounts[owner].limitOverride == db.accounts[owner].limitOverride
    && db.accounts[owner].used <= next.accounts[owner].used
    && db.accounts[owner].reserved <= next.accounts[owner].reserved
    && Covers(next, owner)
    && (status == Checked <==> AccountOk(db, owner)) && (status == Checked ==> next == db)
    && (status == Repaired <==> !AccountOk(db, owner) && AccountOk(next, owner))
  }

  lemma AccountContract(db: Db, owner: Uuid)
    requires owner in db.accounts
    ensures var (next, status) := ReconcileAccount(db, owner); AccountGives(db, next, owner, status)
  {
    var (next, status) := ReconcileAccount(db, owner);
    SumCongruent(UsedOf(db, owner), UsedOf(next, owner), db.issued);
    SumCongruent(ReservedOf(db, owner), ReservedOf(next, owner), db.issued);
  }
}
