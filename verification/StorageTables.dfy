/** The quota tables and the SQL transactions of the retained-storage service.
    Each function is one transaction: it reads the tables it is given and returns the committed
    tables, unchanged when the transaction is rolled back. */
module StorageTables {
  import opened Common

  /** A fresh UUID is the next number of the supply `Db.issued`. */
  type Uuid = nat

  type Bytes = seq<bv8>

  /** SHA-256, taken to be injective: a digest stands for the bytes it was computed from. */
  datatype Digest = Sha256(content: Bytes)

  datatype Purpose = Original | Template | Document | Version | Export | Preview

  datatype ReservationState = Reserved | Writing | Staged | Committed | CleanupPending | Aborted

  datatype FileState = InStaging | Ready | PendingDelete | Deleted

  datatype Account = Account(limitOverride: Option<nat>, used: int, reserved: int)

  datatype Reservation = Reservation(
    owner: Uuid, fileId: Uuid, key: string, fingerprint: string, purpose: Purpose, expected: Option<nat>,
    state: ReservationState, allocation: nat, written: nat, token: Uuid, leaseExpires: nat)

  datatype FileRow = FileRow(owner: Uuid, reservation: Uuid, size: nat, digest: Digest, state: FileState)

  datatype StoredFile = StoredFile(id: Uuid, owner: Uuid, size: nat, digest: Digest)

  /** `effects` lists the operations whose `finalize` callback ran in a committed transaction. */
  datatype Db = Db(
    defaultLimit: nat, accounts: map<Uuid, Account>, reservations: map<Uuid, Reservation>,
    files: map<Uuid, FileRow>, effects: seq<Uuid>, issued: nat)

  datatype Policy = Policy(fileBytes: nat, stagingBytes: nat, headroom: nat, leaseSeconds: nat)

  datatype Request = Request(owner: Uuid, key: string, fingerprint: string, purpose: Purpose, expected: Option<nat>)

  /** The columns of a reservation that a call keeps in memory. */
  datatype Handle = Handle(id: Uuid, owner: Uuid, fileId: Uuid, token: Uuid)

  datatype Begun = Begun(op: Handle, state: ReservationState, created: bool)

  datatype StorageError =
    | NotFound | QuotaExceeded | TemporaryCapacity | DiskCapacity | IdempotencyConflict | OperationExpired
    | OperationInProgress | OperationAborted | FileTooLarge | SizeMismatch | StorageFailure | ProtectedFile

  datatype CleanKind = AlreadyAborted | KeepCommitted | DropUncommitted

  datatype DeleteKind = AlreadyDeleted | Removing(size: nat)

  datatype AccountStatus = Checked | Repaired | RepairRequired

  predicate Active(state: ReservationState) {
    state != Committed && state != Aborted
  }

  predicate Charged(row: FileRow) {
    row.state == Ready || row.state == PendingDelete
  }

  function HandleOf(id: Uuid, row: Reservation): Handle {
    Handle(id, row.owner, row.fileId, row.token)
  }

  function UsedOf(db: Db, owner: Uuid): nat -> int {
    (i: nat) => if i in db.files && db.files[i].owner == owner && Charged(db.files[i]) then db.files[i].size else 0
  }

  function ReservedOf(db: Db, owner: Uuid): nat -> int {
    (i: nat) =>
      if i in db.reservations && db.reservations[i].owner == owner && Active(db.reservations[i].state)
      then db.reservations[i].allocation else 0
  }

  function AllocatedOf(db: Db): nat -> int {
    (i: nat) => if i in db.reservations && Active(db.reservations[i].state) then db.reservations[i].allocation else 0
  }

  function OutstandingOf(db: Db): nat -> int {
    (i: nat) =>
      if i in db.reservations && Active(db.reservations[i].state)
      then db.reservations[i].allocation - db.reservations[i].written else 0
  }

  function LimitOf(db: Db, account: Account): nat {
    if account.limitOverride.Some? then account.limitOverride.value else db.defaultLimit
  }

  function Total(account: Account): int {
    account.used + account.reserved
  }

  predicate OverLimit(db: Db, account: Account) {
    Total(account) > LimitOf(db, account)
  }

  function AvailableBytes(db: Db, account: Account): int {
    Max(0, LimitOf(db, account) - Total(account))
  }

  function ActiveAllocation(db: Db): int {
    Sum(AllocatedOf(db), db.issued)
  }

  /** The admission test; `free` is what the file system reports as available. */
  function Capacity(db: Db, policy: Policy, account: Account, growth: nat, free: nat): Option<StorageError> {
    if OverLimit(db, account) || growth > AvailableBytes(db, account) then
      Some(QuotaExceeded)
    else if ActiveAllocation(db) + growth > policy.stagingBytes then
      Some(TemporaryCapacity)
    else if Sum(OutstandingOf(db), db.issued) + growth + policy.headroom > free then
      Some(DiskCapacity)
    else
      None
  }

  /** The query for a reservation by owner and idempotency key. */
  function FindKey(rows: map<Uuid, Reservation>, owner: Uuid, key: string, below: nat): (found: Option<Uuid>)
    ensures found.Some? ==>
      found.value < below && found.value in rows && rows[found.value].owner == owner && rows[found.value].key == key
    ensures found.None? ==>
      forall id | id in rows && id < below :: !(rows[id].owner == owner && rows[id].key == key)
  {
    if below == 0 then None
    else if below - 1 in rows && rows[below - 1].owner == owner && rows[below - 1].key == key then Some(below - 1)
    else FindKey(rows, owner, key, below - 1)
  }

  function Begin(db: Db, policy: Policy, clock: nat, free: nat, req: Request): (Db, Result<Begun, StorageError>) {
    if req.owner !in db.accounts then (db, Err(NotFound)) else
    var account := db.accounts[req.owner];
    match FindKey(db.reservations, req.owner, req.key, db.issued)
    case Some(id) =>
      var row := db.reservations[id];
      if row.fingerprint != req.fingerprint || row.purpose != req.purpose || row.expected != req.expected
      then (db, Err(IdempotencyConflict))
      else (db, Ok(Begun(HandleOf(id, row), row.state, false)))
    case None =>
      var amount := if req.expected.Some? then req.expected.value else 0;
      match Capacity(db, policy, account, amount, free)
      case Some(error) => (db, Err(error))
      case None =>
        var id := db.issued;
        var row := NewReservation(db, policy, clock, req, amount);
        (db.(reservations := db.reservations[id := row],
             accounts := db.accounts[req.owner := account.(reserved := account.reserved + amount)],
             issued := db.issued + 3),
         Ok(Begun(HandleOf(id, row), Reserved, true)))
  }

  function NewReservation(db: Db, policy: Policy, clock: nat, req: Request, amount: nat): Reservation {
    Reservation(req.owner, db.issued + 1, req.key, req.fingerprint, req.purpose, req.expected,
                Reserved, amount, 0, db.issued + 2, clock + policy.leaseSeconds)
  }

  /** `_operation`: the row is still this call's and still active. */
  predicate Operable(db: Db, op: Handle) {
    && op.id in db.reservations
    && db.reservations[op.id].owner == op.owner
    && db.reservations[op.id].token == op.token
    && Active(db.reservations[op.id].state)
  }

  function Advance(db: Db, policy: Policy, clock: nat, free: nat, op: Handle, size: nat, written: bool)
    : Result<Db, StorageError>
  {
    if op.owner !in db.accounts then Err(NotFound) else
    if !Operable(db, op) then Err(OperationExpired) else
    var account := db.accounts[op.owner];
    var row := db.reservations[op.id];
    var growth: nat := Max(0, size - row.allocation);
    var refusal := if written then None else Capacity(db, policy, account, growth, free);
    if refusal.Some? then Err(refusal.value) else
    Ok(db.(accounts := db.accounts[op.owner := account.(reserved := account.reserved + growth)],
           reservations := db.reservations[op.id := row.(
             allocation := row.allocation + growth, state := Writing, leaseExpires := clock + policy.leaseSeconds,
             written := if written then size else row.written)]))
  }

  /** First transaction of `_finish`: the staged file row. */
  function InsertStaged(db: Db, op: Handle, size: nat, digest: Digest): Result<Db, StorageError> {
    if op.owner !in db.accounts then Err(NotFound) else
    if !Operable(db, op) then Err(OperationExpired) else
    Ok(db.(files := db.files[op.fileId := FileRow(op.owner, op.id, size, digest, InStaging)],
           reservations := db.reservations[op.id := db.reservations[op.id].(state := Staged)]))
  }

  /** Opening checks of the publishing transaction. */
  function PublishCheck(db: Db, policy: Policy, free: nat, op: Handle): Option<StorageError> {
    if op.owner !in db.accounts then Some(NotFound) else
    if !Operable(db, op) then Some(OperationExpired) else
    Capacity(db, policy, db.accounts[op.owner], 0, free)
  }

  /** What the publishing transaction writes when it commits. */
  function PublishCommit(db: Db, op: Handle, size: nat): Db
    requires op.owner in db.accounts && op.id in db.reservations && op.fileId in db.files
  {
    var account := db.accounts[op.owner];
    var row := db.reservations[op.id];
    db.(effects := db.effects + [op.id],
        files := db.files[op.fileId := db.files[op.fileId].(state := Ready)],
        accounts := db.accounts[op.owner := account.(used := account.used + size,
                                                     reserved := account.reserved - row.allocation)],
        reservations := db.reservations[op.id := row.(state := Committed)])
  }

  /** First transaction of `_clean`. */
  function CleanMark(db: Db, op: Handle): Result<(Db, CleanKind), StorageError> {
    if op.owner !in db.accounts || op.id !in db.reservations then Err(NotFound) else
    var row := db.reservations[op.id];
    if row.state == Aborted then Ok((db, AlreadyAborted))
    else if row.state == Committed then Ok((db, KeepCommitted))
    else Ok((db.(reservations := db.reservations[op.id := row.(state := CleanupPending)]), DropUncommitted))
  }

  /** Second transaction of `_clean`: release the allocation. */
  function CleanAbort(db: Db, op: Handle): Result<Db, StorageError> {
    if op.owner !in db.accounts then Err(NotFound) else
    if !Operable(db, op) then Err(OperationExpired) else
    var account := db.accounts[op.owner];
    var row := db.reservations[op.id];
    Ok(db.(accounts := db.accounts[op.owner := account.(reserved := account.reserved - row.allocation)],
           files := if op.fileId in db.files
                    then db.files[op.fileId := db.files[op.fileId].(state := Deleted)] else db.files,
           reservations := db.reservations[op.id := row.(state := Aborted)]))
  }

  /** First transaction of `delete_file`; `authorized` is the verdict of the domain callback. */
  function DeleteMark(db: Db, owner: Uuid, file: Uuid, authorized: bool): Result<(Db, DeleteKind), StorageError> {
    if owner !in db.accounts || file !in db.files || db.files[file].owner != owner then Err(NotFound) else
    var row := db.files[file];
    match row.state
    case Deleted => Ok((db, AlreadyDeleted))
    case InStaging => Err(OperationInProgress)
    case PendingDelete => Ok((db, Removing(row.size)))
    case Ready =>
      if !authorized then Err(ProtectedFile)
      else Ok((db.(files := db.files[file := row.(state := PendingDelete)]), Removing(row.size)))
  }

  /** Second transaction of `delete_file`; it does not look at the file's state again. */
  function DeleteFinish(db: Db, owner: Uuid, file: Uuid, size: nat): Result<Db, StorageError> {
    if owner !in db.accounts then Err(NotFound) else
    var account := db.accounts[owner];
    Ok(db.(files := if file in db.files then db.files[file := db.files[file].(state := Deleted)] else db.files,
           accounts := db.accounts[owner := account.(used := account.used - size)]))
  }

  /** The part of a document purge that touches storage: ready files become pending, with no file lock held. */
  function PurgeMark(db: Db, chosen: set<Uuid>): Db {
    db.(files := map f | f in db.files ::
                   if f in chosen && db.files[f].state == Ready then db.files[f].(state := PendingDelete)
                   else db.files[f])
  }

  function SetDefault(db: Db, amount: nat): Db {
    db.(defaultLimit := amount)
  }

  function SetOverride(db: Db, owner: Uuid, amount: Option<nat>): Db {
    if owner in db.accounts
    then db.(accounts := db.accounts[owner := db.accounts[owner].(limitOverride := amount)])
    else db
  }

  /** `reconcile_account`: compare the charges with the rows; raise undercounts, keep overcounts. */
  function ReconcileAccount(db: Db, owner: Uuid): (Db, AccountStatus)
    requires owner in db.accounts
  {
    var account := db.accounts[owner];
    var used, reserved := Sum(UsedOf(db, owner), db.issued), Sum(ReservedOf(db, owner), db.issued);
    if used == account.used && reserved == account.reserved then (db, Checked) else
    (db.(accounts := db.accounts[owner := account.(used := Max(used, account.used),
                                                   reserved := Max(reserved, account.reserved))]),
     if used < account.used || reserved < account.reserved then RepairRequired else Repaired)
  }
}
