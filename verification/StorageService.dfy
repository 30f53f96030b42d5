/** The storage service as objects: a directory and the tables, each changed step by step. A method's contract ties it
    to its transaction, about which the theorems on runs speak, and says what its caller gets from a sound state. A call
    runs here without competitors; `StorageMachine` interleaves them. */
module StorageService {
  import opened Common
  import opened StorageTables
  import opened StorageFiles
  import opened StorageMachine
  import opened StorageInvariant
  import opened StorageFrame
  import opened StorageHistory
  import opened StorageSequential
  import opened StorageWriting
  import opened StorageRecovery
  import opened StorageContracts

  function Concat(chunks: seq<Bytes>): Bytes {
    if chunks == [] then [] else Concat(chunks[..|chunks| - 1]) + chunks[|chunks| - 1]
  }

  lemma ConcatNext(chunks: seq<Bytes>, i: nat)
    requires i < |chunks|
    ensures Concat(chunks[..i + 1]) == Concat(chunks[..i]) + chunks[i]
  {
    assert chunks[..i + 1][..i] == chunks[..i];
  }

  lemma {:induction false} ConcatGrows(chunks: seq<Bytes>, i: nat)
    requires i <= |chunks|
    ensures |Concat(chunks[..i])| <= |Concat(chunks)|
    decreases |chunks| - i
  {
    if i == |chunks| {
      assert chunks[..i] == chunks;
    } else {
      ConcatNext(chunks, i);
      ConcatGrows(chunks, i + 1);
    }
  }

  lemma OwnData(db: Db, fs: Fs, file: Uuid)
    requires DataInv(db, fs) && file in db.files
    ensures db.files[file].reservation in db.reservations
  {
    hide DataInv;
    RowsOfData(db, fs);
    OwnReservation(db, file);
  }

  // ----- charges during a store

  /** Nothing but the operation's own rows and its owner's account may differ. */
  ghost predicate Elsewhere(before: Db, db: Db, op: Handle) {
    && OnlyKey(before.reservations, db.reservations, op.id) && OnlyKey(before.files, db.files, op.fileId)
    && db.defaultLimit == before.defaultLimit
  }

  /** The operation is the one that has the request's key. */
  ghost predicate Stands(db: Db, req: Request, op: Handle) {
    && op.id in db.reservations && Matches(op, db.reservations[op.id])
    && KeyRow(db.reservations[op.id], req) && SameRequest(db.reservations[op.id], req)
  }

  /** Since `_begin`, only this operation's allocation was added to its owner's reserved bytes. */
  ghost predicate Charging(before: Db, db: Db, req: Request, op: Handle) {
    && op.owner in before.accounts && Stands(db, req, op) && Active(db.reservations[op.id].state)
    && db.accounts == before.accounts[op.owner := before.accounts[op.owner].(
         reserved := before.accounts[op.owner].reserved + db.reservations[op.id].allocation)]
    && db.effects == before.effects && Elsewhere(before, db, op)
    && db.reservations == before.reservations[op.id := db.reservations[op.id]]
    && op.id < db.issued && before.issued <= db.issued
    && (forall o: Uuid | o in before.reservations :: o < before.issued && o != op.id)
  }

  lemma AdvanceCharging(before: Db, db: Db, e: Environment, free: nat, req: Request, op: Handle, size: nat,
                        written: bool)
    requires Charging(before, db, req, op) && Advance(db, e.policy, e.clock, free, op, size, written).Ok?
    ensures Charging(before, Advance(db, e.policy, e.clock, free, op, size, written).value, req, op)
  {
    hide Capacity;
    AdvancedRow(db, e, free, op, size, written);
  }

  lemma AdvancedRow(db: Db, e: Environment, free: nat, op: Handle, size: nat, written: bool)
    requires Advance(db, e.policy, e.clock, free, op, size, written).Ok?
    ensures var t := Advance(db, e.policy, e.clock, free, op, size, written).value;
      && op.owner in db.accounts && op.id in db.reservations && op.id in t.reservations
      && var row, account := db.reservations[op.id], db.accounts[op.owner];
         var growth: nat := Max(0, size - row.allocation);
         && t == db.(accounts := t.accounts, reservations := t.reservations)
         && t.accounts == db.accounts[op.owner := account.(reserved := account.reserved + growth)]
         && t.reservations == db.reservations[op.id := t.reservations[op.id]]
         && t.reservations[op.id] ==
              row.(allocation := row.allocation + growth, state := Writing,
                   leaseExpires := t.reservations[op.id].leaseExpires, written := t.reservations[op.id].written)
  {
    hide Capacity;
  }

  lemma InsertCharging(before: Db, db: Db, req: Request, op: Handle, size: nat, digest: Digest)
    requires Charging(before, db, req, op) && InsertStaged(db, op, size, digest).Ok?
    ensures Charging(before, InsertStaged(db, op, size, digest).value, req, op)
  {
  }

  /** The store is done: the owner's used bytes grew by the file's size and nothing stays reserved for it. */
  ghost predicate Retained(before: Db, db: Db, req: Request, op: Handle, size: nat, digest: Digest) {
    && op.owner in before.accounts
    && db.accounts == before.accounts[op.owner :=
         before.accounts[op.owner].(used := before.accounts[op.owner].used + size)]
    && db.effects == before.effects + [op.id]
    && Stands(db, req, op) && db.reservations[op.id].state == Committed
    && op.fileId in db.files && db.files[op.fileId] == FileRow(op.owner, op.id, size, digest, Ready)
    && Elsewhere(before, db, op)
  }

  /** The store failed: the charges are as before and its operation, if it got one, is aborted. */
  ghost predicate Released(before: Db, db: Db, req: Request, op: Handle) {
    && db.accounts == before.accounts && db.effects == before.effects
    && Stands(db, req, op) && db.reservations[op.id].state == Aborted && Elsewhere(before, db, op)
  }

  lemma CommitKept(before: Db, db: Db, req: Request, op: Handle, size: nat, digest: Digest)
    requires Charging(before, db, req, op) && op.fileId in db.files
    requires db.files[op.fileId] == FileRow(op.owner, op.id, size, digest, InStaging)
    ensures op.owner in db.accounts && Retained(before, PublishCommit(db, op, size), req, op, size, digest)
  {
  }

  lemma CleanReleases(before: Db, db: Db, fs: Fs, req: Request, op: Handle)
    requires Charging(before, db, req, op) && Clean(db, fs, op).2 == None
    ensures Released(before, Clean(db, fs, op).0, req, op)
  {
    hide Clean;
    CleanLeaves(db, fs, op);
  }

  lemma CleanKeeps(before: Db, db: Db, fs: Fs, req: Request, op: Handle, size: nat, digest: Digest)
    requires Retained(before, db, req, op, size, digest) && Clean(db, fs, op).2 == None
    ensures Retained(before, Clean(db, fs, op).0, req, op, size, digest)
  {
    hide Clean;
    CleanLeaves(db, fs, op);
  }

  lemma StagedRow(db: Db, fs: Fs, e: Environment, op: Handle, req: Request, data: Bytes)
    requires Sound(db, fs, e, op, true, Committing(req, data))
    ensures op.fileId in db.files && db.files[op.fileId] == FileRow(op.owner, op.id, |data|, Sha256(data), InStaging)
  {
    hide Inv;
    SoundData(db, fs, e, op, true, Committing(req, data));
    assert CellInv(CellOf(db, fs, op.id));
  }

  lemma NotHalfActive(before: Db, db: Db, fs: Fs, req: Request, op: Handle)
    requires Charging(before, db, req, op)
    ensures !HalfRemoved(db, fs, op)
  {
  }

  lemma NotHalfReady(before: Db, db: Db, fs: Fs, req: Request, op: Handle, size: nat, digest: Digest)
    requires DataInv(db, fs) && Retained(before, db, req, op, size, digest)
    ensures !HalfRemoved(db, fs, op)
  {
    hide DataInv, HalfRemoved;
    NotHalf(db, fs, op.id);
    assert op == HandleOf(op.id, db.reservations[op.id]);
  }

  // ----- the answer of a store

  /** The allocation covers `size` bytes, is no larger than it has to be, and within the ceilings. */
  ghost predicate Covered(before: Db, db: Db, policy: Policy, req: Request, op: Handle, size: nat) {
    && op.id in db.reservations && req.owner == op.owner && op.owner in before.accounts
    && size <= db.reservations[op.id].allocation <= Max(AmountOf(req), size)
    && Fits(before, policy, op.owner, db.reservations[op.id].allocation)
  }

  /** The owner's charges and the allocation of everybody leave room for `amount` more bytes. */
  ghost predicate Fits(db: Db, policy: Policy, owner: Uuid, amount: nat)
    requires owner in db.accounts
  {
    && Total(db.accounts[owner]) + amount <= LimitOf(db, db.accounts[owner])
    && ActiveAllocation(db) + amount <= policy.stagingBytes
  }

  /** What must be true of the request and its `size` bytes when a store that had begun is given up with `error`. What
      the device reports, and whether it fails, is not the caller's doing. */
  ghost predicate Reason(before: Db, policy: Policy, req: Request, size: nat, error: StorageError) {
    match error
    case FileTooLarge => size > policy.fileBytes
    case SizeMismatch => req.expected.Some? && size != req.expected.value
    case QuotaExceeded =>
      && req.owner in before.accounts
      && Total(before.accounts[req.owner]) + Max(AmountOf(req), size) > LimitOf(before, before.accounts[req.owner])
    case TemporaryCapacity => ActiveAllocation(before) + Max(AmountOf(req), size) > policy.stagingBytes
    case DiskCapacity => true
    case StorageFailure => true
    case _ => false
  }

  lemma LaterReason(before: Db, policy: Policy, req: Request, size: nat, more: nat, error: StorageError)
    requires Reason(before, policy, req, size, error) && size <= more && error != SizeMismatch
    ensures Reason(before, policy, req, more, error)
  {
  }

  lemma DeviceReason(before: Db, policy: Policy, req: Request, size: nat)
    ensures Reason(before, policy, req, size, StorageFailure)
  {
  }

  lemma TooLarge(before: Db, policy: Policy, req: Request, size: nat)
    requires size > policy.fileBytes
    ensures Reason(before, policy, req, size, FileTooLarge)
  {
  }

  lemma Mismatch(before: Db, policy: Policy, req: Request, size: nat)
    requires req.expected.Some? && size != req.expected.value
    ensures Reason(before, policy, req, size, SizeMismatch)
  {
  }

  lemma CoveredFits(before: Db, db: Db, policy: Policy, req: Request, op: Handle, size: nat)
    requires Covered(before, db, policy, req, op, size)
    ensures req.owner in before.accounts && Fits(before, policy, req.owner, size)
  {
  }

  lemma ChargedAllocation(before: Db, db: Db, req: Request, op: Handle)
    requires Charging(before, db, req, op)
    ensures ActiveAllocation(db) == ActiveAllocation(before) + db.reservations[op.id].allocation
  {
    SumExtend(AllocatedOf(before), before.issued, db.issued);
    SumUpdate(AllocatedOf(before), AllocatedOf(db), db.issued, op.id);
  }

  lemma BegunRow(db: Db, policy: Policy, clock: nat, free: nat, req: Request)
    requires Begin(db, policy, clock, free, req).0 != db
    ensures var (next, begun) := Begin(db, policy, clock, free, req);
      && begun.Ok? && begun.value.op == Handle(db.issued, req.owner, db.issued + 1, db.issued + 2)
      && Stands(next, req, begun.value.op) && next.reservations[db.issued].allocation == AmountOf(req)
  {
  }

  lemma BegunCharging(before: Db, policy: Policy, clock: nat, free: nat, req: Request)
    requires RowsOk(before) && Begin(before, policy, clock, free, req).0 != before
    ensures var (db, begun) := Begin(before, policy, clock, free, req);
      && begun.Ok? && Charging(before, db, req, begun.value.op) && begun.value.op.id !in before.reservations
      && !KeyTaken(before, req)
  {
    hide Begin;
    BegunRow(before, policy, clock, free, req);
    BeginAdmitted(before, policy, clock, free, req);
  }

  lemma BegunCovered(before: Db, policy: Policy, clock: nat, free: nat, req: Request)
    requires Begin(before, policy, clock, free, req).0 != before
    ensures var (db, begun) := Begin(before, policy, clock, free, req);
      && begun.Ok? && Covered(before, db, policy, req, begun.value.op, 0)
      && req.owner in before.accounts && Fits(before, policy, req.owner, AmountOf(req))
  {
    hide Begin, ActiveAllocation;
    BegunRow(before, policy, clock, free, req);
    BeginAdmitted(before, policy, clock, free, req);
  }

  lemma RefusedAnswer(before: Db, fs: Fs, policy: Policy, clock: nat, free: nat, req: Request, data: Bytes,
                      begun: StorageError)
    requires DataInv(before, fs) && Begin(before, policy, clock, free, req) == (before, Err(begun))
    requires req.expected.Some? ==> req.expected.value <= policy.fileBytes
    ensures StoreOutcome(before, before, policy, req, data, Err(begun))
  {
    hide LinksOk, CellsOk, SumsOk, EffectsOk, Capacity;
    if req.owner in before.accounts {
      CapacityRefuses(before, policy, req.owner, AmountOf(req), free, begun);
    }
  }

  lemma KnownOnly(db: Db, fs: Fs, policy: Policy, clock: nat, free: nat, req: Request)
    requires DataInv(db, fs) && Begin(db, policy, clock, free, req).1.Ok?
    requires !Begin(db, policy, clock, free, req).1.value.created
    ensures var (next, begun) := Begin(db, policy, clock, free, req); var op := begun.value.op;
      && next == db && req.owner in db.accounts && KeyTaken(db, req) && KnownBy(db, op, req)
      && begun.value.state == db.reservations[op.id].state
  {
    hide LinksOk, CellsOk, SumsOk, EffectsOk;
  }

  /** An advance before a part is written covers the part, or is refused for a reason. */
  lemma AdvanceCovered(before: Db, db: Db, e: Environment, free: nat, req: Request, op: Handle, size: nat, more: nat)
    requires Charging(before, db, req, op) && Covered(before, db, e.policy, req, op, size) && size <= more
    ensures match Advance(db, e.policy, e.clock, free, op, more, false)
            case Ok(next) => Covered(before, next, e.policy, req, op, more)
            case Err(error) => Reason(before, e.policy, req, more, error) && error != SizeMismatch
  {
    hide ActiveAllocation, OutstandingOf, Capacity;
    ChargedAllocation(before, db, req, op);
    var r := Advance(db, e.policy, e.clock, free, op, more, false);
    if r.Err? {
      CapacityRefuses(db, e.policy, op.owner, Max(0, more - db.reservations[op.id].allocation), free, r.error);
    } else {
      Admits(db, e.policy, op.owner, Max(0, more - db.reservations[op.id].allocation), free);
    }
  }

  lemma Admits(db: Db, policy: Policy, owner: Uuid, growth: nat, free: nat)
    requires owner in db.accounts && Capacity(db, policy, db.accounts[owner], growth, free) == None
    ensures Fits(db, policy, owner, growth)
  {
  }

  /** The advance after the write cannot fail. */
  lemma WrittenCovered(before: Db, db: Db, e: Environment, free: nat, req: Request, op: Handle, size: nat)
    requires Charging(before, db, req, op) && Covered(before, db, e.policy, req, op, size)
    ensures var r := Advance(db, e.policy, e.clock, free, op, size, true);
      r.Ok? && Covered(before, r.value, e.policy, req, op, size)
  {
    hide ActiveAllocation;
  }

  lemma InsertCovered(before: Db, db: Db, policy: Policy, req: Request, op: Handle, size: nat, digest: Digest)
    requires Charging(before, db, req, op) && Covered(before, db, policy, req, op, size)
    ensures var r := InsertStaged(db, op, size, digest); r.Ok? && Covered(before, r.value, policy, req, op, size)
  {
    hide ActiveAllocation;
  }

  lemma CheckReason(before: Db, db: Db, policy: Policy, free: nat, req: Request, op: Handle, size: nat)
    requires Charging(before, db, req, op) && Covered(before, db, policy, req, op, size)
    ensures PublishCheck(db, policy, free, op).Some? ==>
      Reason(before, policy, req, size, PublishCheck(db, policy, free, op).value)
  {
    hide ActiveAllocation, OutstandingOf, Capacity;
    ChargedAllocation(before, db, req, op);
    var check := PublishCheck(db, policy, free, op);
    if check.Some? {
      CapacityRefuses(db, policy, op.owner, 0, free, check.value);
    }
  }

  /** The answer to a key that operation `id` has: the very same request gets the committed file while it can be read,
      or hears that the attempt was given up or is still going on. */
  ghost predicate KnownAnswer(db: Db, id: Uuid, req: Request, r: Result<StoredFile, StorageError>)
    requires id in db.reservations
  {
    var row := db.reservations[id];
    if !SameRequest(row, req) then r == Err(IdempotencyConflict)
    else match row.state
      case Committed =>
        if row.fileId in db.files && db.files[row.fileId].state == Ready
        then r == Ok(StoredFile(row.fileId, row.owner, db.files[row.fileId].size, db.files[row.fileId].digest))
        else r == Err(NotFound)
      case Aborted => r == Err(OperationAborted)
      case _ => r == Err(OperationInProgress)
  }

  /** The answer to a new key. Without room at the start nothing happens, and the error is the first ceiling in the way.
      Otherwise the operation `op` stands for the key from now on: its file is stored and charged once, or it is given
      up for a reason, or the file is stored and only the answer of the commit was lost. */
  ghost predicate NewAnswer(before: Db, db: Db, policy: Policy, req: Request, op: Handle, data: Bytes,
                            r: Result<StoredFile, StorageError>)
    requires req.owner in before.accounts
  {
    if r.Err? && db == before then exists free: nat :: Refused(before, policy, req.owner, AmountOf(req), free, r.error)
    else
      && Fits(before, policy, req.owner, AmountOf(req)) && op.id !in before.reservations
      && match r
         case Ok(file) =>
           && Retained(before, db, req, op, |data|, Sha256(data))
           && file == StoredFile(op.fileId, op.owner, |data|, Sha256(data))
           && |data| <= policy.fileBytes && (req.expected.Some? ==> |data| == req.expected.value)
           && Fits(before, policy, req.owner, |data|)
         case Err(error) =>
           || (Released(before, db, req, op) && Reason(before, policy, req, |data|, error))
           || (Retained(before, db, req, op, |data|, Sha256(data)) && error == StorageFailure)
  }

  /** What a caller of `store` gets, from the tables before and after. */
  ghost predicate StoreOutcome(before: Db, db: Db, policy: Policy, req: Request, data: Bytes,
                               r: Result<StoredFile, StorageError>) {
    if req.expected.Some? && req.expected.value > policy.fileBytes then db == before && r == Err(FileTooLarge)
    else if req.owner !in before.accounts then db == before && r == Err(NotFound)
    else if KeyTaken(before, req) then
      && db == before
      && forall id | id in before.reservations && KeyRow(before.reservations[id], req) ::
           KnownAnswer(before, id, req, r)
    else NewAnswer(before, db, policy, req, NextHandle(before, req), data, r)
  }

  /** The operation a new key gets. */
  function NextHandle(db: Db, req: Request): Handle {
    Handle(db.issued, req.owner, db.issued + 1, db.issued + 2)
  }

  /** Operation `op` is the only one that has the key, and it is for the very same request. */
  ghost predicate KnownBy(db: Db, op: Handle, req: Request) {
    && op.id in db.reservations && op == HandleOf(op.id, db.reservations[op.id])
    && SameRequest(db.reservations[op.id], req)
    && (forall id | id in db.reservations && KeyRow(db.reservations[id], req) :: id == op.id)
    && (op.fileId in db.files ==> db.files[op.fileId].reservation == op.id && db.files[op.fileId].owner == op.owner)
  }

  lemma LargeOutcome(before: Db, policy: Policy, req: Request, data: Bytes)
    requires req.expected.Some? && req.expected.value > policy.fileBytes
    ensures StoreOutcome(before, before, policy, req, data, Err(FileTooLarge))
  {
  }

  lemma KnownOutcome(before: Db, policy: Policy, req: Request, data: Bytes, op: Handle,
                     r: Result<StoredFile, StorageError>)
    requires req.expected.Some? ==> req.expected.value <= policy.fileBytes
    requires req.owner in before.accounts && KeyTaken(before, req) && KnownBy(before, op, req)
      && KnownAnswer(before, op.id, req, r)
    ensures StoreOutcome(before, before, policy, req, data, r)
  {
    hide KnownAnswer, KeyTaken;
  }

  lemma NewOutcome(before: Db, db: Db, policy: Policy, req: Request, data: Bytes, r: Result<StoredFile, StorageError>)
    requires req.expected.Some? ==> req.expected.value <= policy.fileBytes
    requires req.owner in before.accounts && !KeyTaken(before, req)
      && NewAnswer(before, db, policy, req, NextHandle(before, req), data, r)
    ensures StoreOutcome(before, db, policy, req, data, r)
  {
    hide NewAnswer, KeyTaken;
  }

  /** Where the next part of the rest is about to be written. */
  ghost function PartPoint(req: Request, ino: nat, data: Bytes, rest: Bytes): Point {
    WritingPart(req, ino, data, PartOf(rest), 0, rest[|PartOf(rest)|..])
  }

  class FileSystem {
    var inodes: map<nat, Inode>
    var staging: map<Uuid, nat>
    var published: map<FileName, nat>
    var nextInode: nat

    constructor ()
      ensures View() == Fs(map[], map[], map[], 0) && Valid()
    {
      inodes, staging, published, nextInode := map[], map[], map[], 0;
    }

    function View(): Fs
      reads this
    {
      Fs(inodes, staging, published, nextInode)
    }

    ghost predicate Valid()
      reads this
    {
      Consistent(View())
    }

    /** Free space is whatever the device reports. */
    method Available() returns (free: nat) {
      free :| 0 <= free;
    }

    /** Create the staging file exclusively; the result is the open stream. */
    method Stage(op: Uuid) returns (stream: Option<nat>)
      requires Valid()
      modifies this
      ensures Valid() && StageGives(old(View()), View(), op, stream)
      ensures match CreateStaging(old(View()), op)
              case None => stream == None && View() == old(View())
              case Some(fs) => stream == Some(old(nextInode)) && View() == fs
    {
      hide Consistent, StageGives;
      StageContract(View(), op);
      if op in staging {
        return None;
      }
      stream := Some(nextInode);
      staging := staging[op := nextInode];
      inodes := inodes[nextInode := Inode(op, [])];
      nextInode := nextInode + 1;
    }

    /** One unbuffered write: the kernel takes any prefix of the view, possibly none. */
    method Write(stream: nat, view: Bytes) returns (count: nat)
      modifies this`inodes
      ensures count <= |view|
      ensures View() == if count == 0 then old(View()) else Append(old(View()), stream, view[..count])
    {
      count :| 0 <= count <= |view|;
      if count > 0 && stream in inodes {
        inodes := inodes[stream := inodes[stream].(data := inodes[stream].data + view[..count])];
      }
    }

    /** Link the staging file under its published name. */
    method Link(op: Handle) returns (ok: bool)
      requires Valid()
      modifies this`published
      ensures Valid() && LinkGives(old(View()), View(), op, ok)
      ensures match Publish(old(View()), op)
              case None => !ok && View() == old(View())
              case Some(fs) => ok && View() == fs
    {
      hide Consistent, LinkGives;
      LinkContract(View(), op);
      ok := op.id in staging && NameOf(op) !in published;
      if ok {
        published := published[NameOf(op) := staging[op.id]];
      }
    }

    /** Drop what an operation left behind; `false` is an `OSError`. */
    method Clean(op: Handle, committed: bool) returns (ok: bool)
      requires Valid()
      modifies this
      ensures Valid() && DropGives(old(View()), View(), op, committed, ok)
      ensures match CleanFiles(old(View()), op, committed)
              case None => !ok && View() == old(View())
              case Some(fs) => ok && View() == fs
    {
      hide Consistent, DropGives;
      DropContract(View(), op, committed);
      var name := NameOf(op);
      if committed {
        if op.id !in staging {
          return true;
        }
        if name !in published || staging[op.id] != published[name] {
          return false;
        }
      } else if name in published {
        if op.id !in staging || staging[op.id] != published[name] {
          return false;
        }
        published := published - {name};
      }
      staging := staging - {op.id};
      ok := true;
    }

    /** Remove both links of a file that is being deleted. */
    method Remove(op: Handle)
      requires Valid()
      modifies this
      ensures View() == StorageSequential.Remove(old(View()), op)
      ensures Valid() && RemoveGives(old(View()), View(), op)
    {
      hide Consistent, RemoveGives;
      RemoveContract(View(), op);
      published := published - {NameOf(op)};
      staging := staging - {op.id};
    }
  }

  class Storage {
    const fs: FileSystem
    const policy: Policy
    var clock: nat
    var defaultLimit: nat
    var accounts: map<Uuid, Account>
    var reservations: map<Uuid, Reservation>
    var files: map<Uuid, FileRow>
    var effects: seq<Uuid>
    var issued: nat

    constructor (fs: FileSystem, policy: Policy, defaultLimit: nat)
      ensures this.fs == fs && this.policy == policy
      ensures Tables() == Db(defaultLimit, map[], map[], map[], [], 0) && clock == 0
    {
      this.fs, this.policy, this.defaultLimit := fs, policy, defaultLimit;
      clock, accounts, reservations, files, effects, issued := 0, map[], map[], map[], [], 0;
    }

    function Tables(): Db
      reads this
    {
      Db(defaultLimit, accounts, reservations, files, effects, issued)
    }

    function World(): Environment
      reads this
    {
      Environment(policy, clock)
    }

    /** Any state a crash may have left. */
    ghost predicate Valid()
      reads this, fs
    {
      DataInv(Tables(), fs.View())
    }

    /** Everything the store relies on at program point `at`. */
    ghost predicate At(op: Handle, at: Point)
      reads this, fs
    {
      Sound(Tables(), fs.View(), World(), op, true, at)
    }

    // ----- transactions

    method Begin(req: Request, free: nat) returns (r: Result<Begun, StorageError>)
      requires Valid()
      modifies this`accounts, this`reservations, this`issued
      ensures (Tables(), r) == StorageTables.Begin(old(Tables()), policy, clock, free, req)
      ensures Valid() && BeginGives(old(Tables()), Tables(), policy, clock, free, req, r)
    {
      hide DataInv, BeginGives, Capacity;
      BeginContract(Tables(), fs.View(), policy, clock, free, req);
      if req.owner !in accounts {
        return Err(NotFound);
      }
      var account := accounts[req.owner];
      var existing := FindKey(reservations, req.owner, req.key, issued);
      if existing.Some? {
        var row := reservations[existing.value];
        if row.fingerprint != req.fingerprint || row.purpose != req.purpose || row.expected != req.expected {
          return Err(IdempotencyConflict);
        }
        return Ok(Begun(HandleOf(existing.value, row), row.state, false));
      }
      var amount := if req.expected.Some? then req.expected.value else 0;
      var refusal := Capacity(Tables(), policy, account, amount, free);
      if refusal.Some? {
        return Err(refusal.value);
      }
      var row := NewReservation(Tables(), policy, clock, req, amount);
      r := Ok(Begun(HandleOf(issued, row), Reserved, true));
      reservations := reservations[issued := row];
      accounts := accounts[req.owner := account.(reserved := account.reserved + amount)];
      issued := issued + 3;
    }

    method Advance(op: Handle, size: nat, written: bool, free: nat) returns (error: Option<StorageError>)
      requires Valid()
      modifies this`accounts, this`reservations
      ensures AdvanceGives(old(Tables()), Tables(), policy, clock, free, op, size, written, error)
      ensures match StorageTables.Advance(old(Tables()), policy, clock, free, op, size, written)
              case Err(e) => error == Some(e) && Tables() == old(Tables())
              case Ok(db) => error == None && Tables() == db
    {
      hide DataInv, AdvanceGives, Capacity;
      AdvanceContract(Tables(), fs.View(), policy, clock, free, op, size, written);
      if op.owner !in accounts {
        return Some(NotFound);
      }
      var account := accounts[op.owner];
      if !Operable(Tables(), op) {
        return Some(OperationExpired);
      }
      var row := reservations[op.id];
      var growth: nat := Max(0, size - row.allocation);
      if !written {
        error := Capacity(Tables(), policy, account, growth, free);
        if error.Some? {
          return;
        }
      }
      accounts := accounts[op.owner := account.(reserved := account.reserved + growth)];
      row := row.(allocation := row.allocation + growth, state := Writing, leaseExpires := clock + policy.leaseSeconds);
      if written {
        row := row.(written := size);
      }
      reservations := reservations[op.id := row];
      error := None;
    }

    method InsertStaged(op: Handle, size: nat, digest: Digest) returns (error: Option<StorageError>)
      modifies this`files, this`reservations
      ensures match StorageTables.InsertStaged(old(Tables()), op, size, digest)
              case Err(e) => error == Some(e) && Tables() == old(Tables())
              case Ok(db) => error == None && Tables() == db
    {
      if op.owner !in accounts {
        return Some(NotFound);
      }
      if !Operable(Tables(), op) {
        return Some(OperationExpired);
      }
      files := files[op.fileId := FileRow(op.owner, op.id, size, digest, InStaging)];
      reservations := reservations[op.id := reservations[op.id].(state := Staged)];
      error := None;
    }

    /** The writes of the publishing transaction, once it commits. */
    method CommitPublished(op: Handle, size: nat)
      requires op.owner in accounts && op.id in reservations && op.fileId in files
      modifies this`effects, this`files, this`accounts, this`reservations
      ensures Tables() == PublishCommit(old(Tables()), op, size)
    {
      var account, row := accounts[op.owner], reservations[op.id];
      effects := effects + [op.id];
      files := files[op.fileId := files[op.fileId].(state := Ready)];
      accounts :=
        accounts[op.owner := account.(used := account.used + size, reserved := account.reserved - row.allocation)];
      reservations := reservations[op.id := row.(state := Committed)];
    }

    // ----- store

    method WritePart(op: Handle, req: Request, ino: nat, data: Bytes, part: Bytes, rest: Bytes) returns (ok: bool)
      requires part != [] && At(op, WritingPart(req, ino, data, part, 0, rest))
      modifies fs
      ensures ok ==> At(op, PartWritten(req, ino, data + part, rest))
      ensures !ok ==> At(op, CleanMarking(Failed))
    {
      hide Sound;
      var done := 0;
      while done < |part|
        invariant 0 <= done <= |part|
        invariant At(op, if done == |part| then PartWritten(req, ino, data + part, rest)
                         else WritingPart(req, ino, data, part, done, rest))
      {
        ghost var view := fs.View();
        var count := fs.Write(ino, part[done..]);
        if count == 0 {
          RaiseAlone(Tables(), view, World(), op, WritingPart(req, ino, data, part, done, rest));
          return false;
        }
        assert part[done..][..count] == part[done..done + count];
        WriteAlone(Tables(), view, World(), op, req, ino, data, part, done, rest, count);
        done := done + count;
      }
      ok := true;
    }

    /** One chunk of the caller's stream, written in parts of at most `CHUNK_BYTES`. */
    method WriteChunk(op: Handle, req: Request, ino: nat, data: Bytes, chunk: Bytes, ghost before: Db)
      returns (error: Option<StorageError>)
      requires At(op, NextChunk(req, ino, data)) && |data| + |chunk| <= policy.fileBytes
        && Charging(before, Tables(), req, op) && Covered(before, Tables(), policy, req, op, |data|)
      modifies this`accounts, this`reservations, fs
      ensures Charging(before, Tables(), req, op)
      ensures match error
              case None => Covered(before, Tables(), policy, req, op, |data| + |chunk|)
              case Some(e) => Reason(before, policy, req, |data| + |chunk|, e) && e != SizeMismatch
      ensures At(op, if error.None? then NextChunk(req, ino, data + chunk) else CleanMarking(Failed))
    {
      hide Sound, Charging, Covered, Reason, StorageTables.Advance, PartOf;
      if chunk == [] {
        assert data + chunk == data;
        return None;
      }
      ChunkAlone(Tables(), fs.View(), World(), op, req, ino, data, chunk);
      assert data + chunk[..0] == data && chunk[0..] == chunk;
      var offset := 0;
      while offset < |chunk|
        invariant 0 <= offset <= |chunk|
        invariant Charging(before, Tables(), req, op) && Covered(before, Tables(), policy, req, op, |data| + offset)
        invariant At(op, if offset == |chunk| then NextChunk(req, ino, data + chunk)
                         else NextPart(req, ino, data + chunk[..offset], chunk[offset..]))
      {
        var part := PartOf(chunk[offset..]);
        assert 0 < |part| <= |chunk| - offset && part == chunk[offset..offset + |part|] by { PartIs(chunk[offset..]); }
        ghost var sent, rest := data + chunk[..offset], chunk[offset..];
        error := AdvancePart(op, req, ino, sent, rest, |data| + offset + |part|, before);
        if error.Some? {
          LaterReason(before, policy, req, |data| + offset + |part|, |data| + |chunk|, error.value);
          return;
        }
        assert rest[|part|..] == chunk[offset + |part|..];
        var ok := WritePart(op, req, ino, data + chunk[..offset], part, chunk[offset + |part|..]);
        if !ok {
          DeviceReason(before, policy, req, |data| + |chunk|);
          return Some(StorageFailure);
        }
        offset := offset + |part|;
        assert sent + part == data + chunk[..offset];
        AdvanceWritten(op, req, ino, data + chunk[..offset], chunk[offset..], before);
        assert offset == |chunk| ==> chunk[..offset] == chunk;
      }
      error := None;
    }

    /** `_advance` before a part is written. */
    method AdvancePart(op: Handle, req: Request, ino: nat, ghost data: Bytes, ghost rest: Bytes, size: nat,
                       ghost before: Db)
      returns (error: Option<StorageError>)
      requires At(op, NextPart(req, ino, data, rest)) && size == |data| + |PartOf(rest)|
        && Charging(before, Tables(), req, op) && Covered(before, Tables(), policy, req, op, |data|)
      modifies this`accounts, this`reservations
      ensures Charging(before, Tables(), req, op)
      ensures match error
              case None => Covered(before, Tables(), policy, req, op, size)
              case Some(e) => Reason(before, policy, req, size, e) && e != SizeMismatch
      ensures At(op, if error.None? then PartPoint(req, ino, data, rest) else CleanMarking(Failed))
    {
      hide Sound, DataInv, PointInv, AdvanceGives, Charging, Covered, Reason, StorageTables.Advance, PartOf;
      ghost var db := Tables();
      SoundData(db, fs.View(), World(), op, true, NextPart(req, ino, data, rest));
      var free := fs.Available();
      AdvanceCovered(before, db, World(), free, req, op, |data|, size);
      error := Advance(op, size, false, free);
      if error.Some? {
        RaiseAlone(db, fs.View(), World(), op, NextPart(req, ino, data, rest));
      } else {
        AdvanceCharging(before, db, World(), free, req, op, size, false);
        PartAlone(db, fs.View(), World(), op, req, ino, data, rest, free);
      }
    }

    /** `_advance` after a part was written; it cannot fail. */
    method AdvanceWritten(op: Handle, req: Request, ino: nat, data: Bytes, ghost rest: Bytes, ghost before: Db)
      requires At(op, PartWritten(req, ino, data, rest))
        && Charging(before, Tables(), req, op) && Covered(before, Tables(), policy, req, op, |data|)
      modifies this`accounts, this`reservations
      ensures Charging(before, Tables(), req, op) && Covered(before, Tables(), policy, req, op, |data|)
      ensures At(op, if rest == [] then NextChunk(req, ino, data) else NextPart(req, ino, data, rest))
    {
      hide Sound, DataInv, PointInv, AdvanceGives, Charging, Covered, StorageTables.Advance;
      ghost var db := Tables();
      SoundData(db, fs.View(), World(), op, true, PartWritten(req, ino, data, rest));
      var free := fs.Available();
      WrittenCovered(before, db, World(), free, req, op, |data|);
      var _ := Advance(op, |data|, true, free);
      AdvanceCharging(before, db, World(), free, req, op, |data|, true);
      WrittenAlone(db, fs.View(), World(), op, req, ino, data, rest, free);
    }

    method WriteChunks(op: Handle, req: Request, ino: nat, chunks: seq<Bytes>, ghost before: Db)
      returns (data: Bytes, error: Option<StorageError>)
      requires At(op, NextChunk(req, ino, []))
        && Charging(before, Tables(), req, op) && Covered(before, Tables(), policy, req, op, 0)
      modifies this`accounts, this`reservations, fs
      ensures Charging(before, Tables(), req, op)
      ensures match error
              case None =>
                && data == Concat(chunks) && |data| <= policy.fileBytes
                && Covered(before, Tables(), policy, req, op, |data|)
              case Some(e) => Reason(before, policy, req, |Concat(chunks)|, e)
      ensures At(op, if error.None? then NextChunk(req, ino, data) else CleanMarking(Failed))
    {
      hide Sound, Charging, Covered, Reason;
      data := [];
      var i := 0;
      while i < |chunks|
        invariant 0 <= i <= |chunks| && data == Concat(chunks[..i]) && |data| <= policy.fileBytes
        invariant At(op, NextChunk(req, ino, data))
        invariant Charging(before, Tables(), req, op) && Covered(before, Tables(), policy, req, op, |data|)
      {
        ConcatNext(chunks, i);
        ConcatGrows(chunks, i + 1);
        if |data| + |chunks[i]| > policy.fileBytes {
          TooLarge(before, policy, req, |Concat(chunks)|);
          RaiseAlone(Tables(), fs.View(), World(), op, NextChunk(req, ino, data));
          return data, Some(FileTooLarge);
        }
        error := WriteChunk(op, req, ino, data, chunks[i], before);
        if error.Some? {
          LaterReason(before, policy, req, |data| + |chunks[i]|, |Concat(chunks)|, error.value);
          return;
        }
        data := data + chunks[i];
        i := i + 1;
      }
      assert chunks[..i] == chunks;
      error := None;
    }

    /** `_finish`: the staged row, then link, effects and commit in one transaction. Anything after the link may fail,
        and a commit that reports failure may have happened. */
    method Finish(op: Handle, req: Request, data: Bytes, ghost before: Db) returns (r: Result<StoredFile, StorageError>)
      requires At(op, Inserting(req, data))
        && Charging(before, Tables(), req, op) && Covered(before, Tables(), policy, req, op, |data|)
      modifies this`effects, this`files, this`accounts, this`reservations, fs
      ensures At(op, CleanMarking(if r.Ok? then Finished(req, r.value) else Failed))
      ensures r.Ok? ==> Retained(before, Tables(), req, op, |data|, Sha256(data))
                        && r.value == StoredFile(op.fileId, op.owner, |data|, Sha256(data))
      ensures r.Err? ==>
        || (Charging(before, Tables(), req, op) && Reason(before, policy, req, |data|, r.error))
        || (Retained(before, Tables(), req, op, |data|, Sha256(data)) && r.error == StorageFailure)
    {
      hide Sound, Consistent, LinkGives, Charging, Retained, Covered, Reason, StorageTables.InsertStaged, PublishCheck,
        PublishCommit, Publish;
      ghost var db := Tables();
      InsertCovered(before, db, policy, req, op, |data|, Sha256(data));
      var error := InsertStaged(op, |data|, Sha256(data));
      InsertCharging(before, db, req, op, |data|, Sha256(data));
      InsertAlone(db, fs.View(), World(), op, req, data);
      var free := fs.Available();
      CheckReason(before, Tables(), policy, free, req, op, |data|);
      error := PublishCheck(Tables(), policy, free, op);
      if error.Some? {
        RaiseAlone(Tables(), fs.View(), World(), op, Publishing(req, data));
        return Err(error.value);
      }
      PublishAlone(Tables(), fs.View(), World(), op, req, data, free);
      ghost var view := fs.View();
      SoundConsistent(Tables(), view, World(), op, true, Linking(req, data));
      var linked := fs.Link(op);
      DeviceReason(before, policy, req, |data|);
      if !linked {
        RaiseAlone(Tables(), view, World(), op, Linking(req, data));
        return Err(StorageFailure);
      }
      LinkAlone(Tables(), view, World(), op, req, data);
      r := Settle(op, req, data, before);
    }

    /** `finalize` and the commit itself. */
    method Settle(op: Handle, req: Request, data: Bytes, ghost before: Db) returns (r: Result<StoredFile, StorageError>)
      requires At(op, Committing(req, data)) && Charging(before, Tables(), req, op)
      modifies this`effects, this`files, this`accounts, this`reservations
      ensures At(op, CleanMarking(if r.Ok? then Finished(req, r.value) else Failed))
      ensures r.Ok? ==> Retained(before, Tables(), req, op, |data|, Sha256(data))
                        && r.value == StoredFile(op.fileId, op.owner, |data|, Sha256(data))
      ensures r.Err? ==>
        && r.error == StorageFailure
        && (Charging(before, Tables(), req, op) || Retained(before, Tables(), req, op, |data|, Sha256(data)))
    {
      hide Sound, Charging, Retained, PublishCommit;
      var outcome: Outcome := *;
      if outcome == RolledBack {
        RaiseAlone(Tables(), fs.View(), World(), op, Committing(req, data));
        return Err(StorageFailure);
      }
      StagedRow(Tables(), fs.View(), World(), op, req, data);
      CommitKept(before, Tables(), req, op, |data|, Sha256(data));
      CommitAlone(Tables(), fs.View(), World(), op, req, data);
      CommitPublished(op, |data|);
      var result := StoredFile(op.fileId, op.owner, |data|, Sha256(data));
      if outcome == CommitUnanswered {
        RaiseAlone(Tables(), fs.View(), World(), op, CleanMarking(Finished(req, result)));
        return Err(StorageFailure);
      }
      r := Ok(result);
    }

    /** `_clean`, by the operation's own call or by a recoverer. */
    method Clean(op: Handle) returns (error: Option<StorageError>)
      requires Valid() && Own(Tables(), op)
      modifies this`reservations, this`accounts, this`files, fs
      ensures (Tables(), fs.View(), error) == StorageSequential.Clean(old(Tables()), old(fs.View()), op)
      ensures Valid() && CleanGives(old(Tables()), old(fs.View()), Tables(), fs.View(), op, error)
    {
      hide DataInv, CleanGives, Consistent, DropGives;
      CleanContract(Tables(), fs.View(), World(), op);
      DataConsistent(Tables(), fs.View());
      if op.owner !in accounts || op.id !in reservations {
        return Some(NotFound);
      }
      if reservations[op.id].state == Aborted {
        return None;
      }
      var committed := reservations[op.id].state == Committed;
      if !committed {
        reservations := reservations[op.id := reservations[op.id].(state := CleanupPending)];
      }
      var cleaned := fs.Clean(op, committed);
      if !cleaned {
        return Some(StorageFailure);
      }
      if committed {
        return None;
      }
      if !Operable(Tables(), op) {
        return Some(OperationExpired);
      }
      var account, row := accounts[op.owner], reservations[op.id];
      accounts := accounts[op.owner := account.(reserved := account.reserved - row.allocation)];
      if op.fileId in files {
        files := files[op.fileId := files[op.fileId].(state := Deleted)];
      }
      reservations := reservations[op.id := row.(state := Aborted)];
      error := None;
    }

    /** The committed result of a replayed key. */
    method Replay(op: Handle) returns (r: Result<StoredFile, StorageError>)
      ensures r.Ok? <==> op.fileId in files && files[op.fileId].reservation == op.id
                         && files[op.fileId].owner == op.owner && files[op.fileId].state == Ready
      ensures r.Ok? ==> r.value == StoredFile(op.fileId, op.owner, files[op.fileId].size, files[op.fileId].digest)
      ensures r.Err? ==> r.error == NotFound
    {
      if op.fileId in files && files[op.fileId].reservation == op.id && files[op.fileId].owner == op.owner
         && files[op.fileId].state == Ready {
        r := Ok(ResultOf(op, files[op.fileId]));
      } else {
        r := Err(NotFound);
      }
    }

    /** A key that is known already: the stored file, or how the operation stands. */
    method Known(op: Handle, req: Request) returns (r: Result<StoredFile, StorageError>)
      requires KnownBy(Tables(), op, req)
      ensures KnownAnswer(Tables(), op.id, req, r)
    {
      var state := reservations[op.id].state;
      if state != Committed {
        return Err(if state == Aborted then OperationAborted else OperationInProgress);
      }
      r := Replay(op);
    }

    /** Write and publish for an operation `_begin` has just inserted. */
    method Fill(op: Handle, req: Request, chunks: seq<Bytes>, ghost before: Db)
      returns (r: Result<StoredFile, StorageError>)
      requires At(op, Staging(req)) && Charging(before, Tables(), req, op)
        && Covered(before, Tables(), policy, req, op, 0)
      modifies this`effects, this`files, this`accounts, this`reservations, fs
      ensures At(op, CleanMarking(if r.Ok? then Finished(req, r.value) else Failed))
      ensures r.Ok? ==>
        var data := Concat(chunks);
        && Retained(before, Tables(), req, op, |data|, Sha256(data))
        && r.value == StoredFile(op.fileId, op.owner, |data|, Sha256(data))
        && |data| <= policy.fileBytes && (req.expected.Some? ==> |data| == req.expected.value)
        && req.owner in before.accounts && Fits(before, policy, req.owner, |data|)
      ensures r.Err? ==>
        var data := Concat(chunks);
        || (Charging(before, Tables(), req, op) && Reason(before, policy, req, |data|, r.error))
        || (Retained(before, Tables(), req, op, |data|, Sha256(data)) && r.error == StorageFailure)
    {
      hide Sound, Consistent, StageGives, Charging, Retained, Covered, Reason, CreateStaging;
      ghost var view := fs.View();
      SoundConsistent(Tables(), view, World(), op, true, Staging(req));
      var stream := fs.Stage(op.id);
      DeviceReason(before, policy, req, |Concat(chunks)|);
      if stream.None? {
        RaiseAlone(Tables(), view, World(), op, Staging(req));
        return Err(StorageFailure);
      }
      StageAlone(Tables(), view, World(), op, req);
      var data, error := WriteChunks(op, req, stream.value, chunks, before);
      if error.Some? {
        return Err(error.value);
      }
      if req.expected.Some? && |data| != req.expected.value {
        Mismatch(before, policy, req, |data|);
        RaiseAlone(Tables(), fs.View(), World(), op, NextChunk(req, stream.value, data));
        return Err(SizeMismatch);
      }
      CoveredFits(before, Tables(), policy, req, op, |data|);
      EndAlone(Tables(), fs.View(), World(), op, req, stream.value, data);
      r := Finish(op, req, data, before);
    }

    /** `store`. Whatever fails on the way, the outcome is one of three: nothing happened, the operation was given up
        and its allocation returned, or the file is committed and charged exactly once. */
    method Store(req: Request, chunks: seq<Bytes>) returns (r: Result<StoredFile, StorageError>)
      requires Valid()
      modifies this, fs
      ensures Valid()
      ensures StoreOutcome(old(Tables()), Tables(), policy, req, Concat(chunks), r)
    {
      hide Sound, DataInv, BeginGives, StorageSequential.Clean, HalfRemoved, Capacity, Covered, Charging, Reason,
        Released, Retained, Fits, StoreOutcome, KnownAnswer, NewAnswer, KnownBy, KeyTaken, Stands;
      ghost var before, data := Tables(), Concat(chunks);
      if req.expected.Some? && req.expected.value > policy.fileBytes {
        LargeOutcome(before, policy, req, data);
        return Err(FileTooLarge);
      }
      var free := fs.Available();
      var begun := Begin(req, free);
      if begun.Err? {
        RefusedAnswer(before, fs.View(), policy, clock, free, req, data, begun.error);
        return Err(begun.error);
      }
      var op := begun.value.op;
      if !begun.value.created {
        KnownOnly(before, fs.View(), policy, clock, free, req);
        r := Known(op, req);
        KnownOutcome(before, policy, req, data, op, r);
        return;
      }
      BeginAlone(before, fs.View(), World(), req, free);
      RowsOfData(before, fs.View());
      BegunRow(before, policy, clock, free, req);
      BegunCharging(before, policy, clock, free, req);
      BegunCovered(before, policy, clock, free, req);
      r := StoreNew(op, req, chunks, before);
      NewOutcome(before, Tables(), policy, req, data, r);
    }

    /** Fill the new operation, then clean up after success and failure alike. */
    method StoreNew(op: Handle, req: Request, chunks: seq<Bytes>, ghost before: Db)
      returns (r: Result<StoredFile, StorageError>)
      requires At(op, Staging(req)) && Charging(before, Tables(), req, op)
        && Covered(before, Tables(), policy, req, op, 0)
      requires req.owner in before.accounts && Fits(before, policy, req.owner, AmountOf(req))
        && op.id !in before.reservations
      modifies this`effects, this`files, this`accounts, this`reservations, fs
      ensures Valid()
      ensures NewAnswer(before, Tables(), policy, req, op, Concat(chunks), r)
    {
      hide Sound, DataInv, CleanGives, Charging, Retained, Released, Covered, Reason, Fits, StorageSequential.Clean,
        HalfRemoved;
      r := Fill(op, req, chunks, before);
      ghost var data := Concat(chunks);
      ghost var why := if r.Ok? then Finished(req, r.value) else Failed;
      ghost var db, view := Tables(), fs.View();
      SoundData(db, view, World(), op, true, CleanMarking(why));
      if Charging(before, db, req, op) {
        NotHalfActive(before, db, view, req, op);
      } else {
        NotHalfReady(before, db, view, req, op, |data|, Sha256(data));
      }
      CleanSound(db, view, World(), op, true, why);
      var _ := Clean(op);
      SoundData(Tables(), fs.View(), World(), op, true, Returning(why));
      assert Tables() != before;
      if Charging(before, db, req, op) {
        CleanReleases(before, db, view, req, op);
      }
      if Retained(before, db, req, op, |data|, Sha256(data)) {
        CleanKeeps(before, db, view, req, op, |data|, Sha256(data));
      }
      assert r.Ok? ==> Retained(before, db, req, op, |data|, Sha256(data));
    }

    // ----- recovery, deletion, reading, maintenance

    method Recover(owner: Uuid, id: Uuid) returns (r: Result<bool, StorageError>)
      requires Valid()
      modifies this`reservations, this`accounts, this`files, fs
      ensures (Tables(), fs.View(), r) == StorageSequential.Recover(old(Tables()), old(fs.View()), clock, owner, id)
      ensures Valid() && RecoverGives(old(Tables()), old(fs.View()), Tables(), fs.View(), clock, owner, id, r)
    {
      hide DataInv, RecoverGives, CleanGives, StorageSequential.Clean;
      RecoverContract(Tables(), fs.View(), World(), owner, id);
      if id !in reservations || reservations[id].owner != owner {
        return Err(NotFound);
      }
      var row := reservations[id];
      if Active(row.state) && row.leaseExpires > clock {
        return Ok(false);
      }
      var error := Clean(HandleOf(id, row));
      r := if error.Some? then Err(error.value) else Ok(true);
    }

    method DeleteFile(owner: Uuid, file: Uuid, authorized: bool) returns (r: Result<bool, StorageError>)
      requires Valid()
      modifies this`accounts, this`files, fs
      ensures (Tables(), fs.View(), r) == StorageSequential.DeleteFile(old(Tables()), old(fs.View()), owner, file,
        authorized)
      ensures Valid() && DeleteGives(old(Tables()), old(fs.View()), Tables(), fs.View(), owner, file, authorized, r)
    {
      hide DataInv, DeleteGives, Consistent, RemoveGives;
      DeleteContract(Tables(), fs.View(), World(), owner, file, authorized);
      DataConsistent(Tables(), fs.View());
      if owner !in accounts || file !in files || files[file].owner != owner {
        return Err(NotFound);
      }
      OwnData(Tables(), fs.View(), file);
      var row := files[file];
      if row.state == Deleted {
        return Ok(false);
      }
      if row.state == InStaging {
        return Err(OperationInProgress);
      }
      if row.state == Ready {
        if !authorized {
          return Err(ProtectedFile);
        }
        files := files[file := row.(state := PendingDelete)];
      }
      fs.Remove(HandleOf(row.reservation, reservations[row.reservation]));
      files := files[file := files[file].(state := Deleted)];
      accounts := accounts[owner := accounts[owner].(used := accounts[owner].used - row.size)];
      r := Ok(true);
    }

    method Read(owner: Uuid, file: Uuid) returns (r: Result<Bytes, StorageError>)
      requires Valid()
      ensures r == StorageSequential.Read(Tables(), fs.View(), owner, file)
      ensures ReadGives(Tables(), owner, file, r)
    {
      hide DataInv;
      ReadContract(Tables(), fs.View(), owner, file);
      if file !in files || files[file].owner != owner || files[file].state != Ready {
        return Err(NotFound);
      }
      var name := FileName(owner, file);
      if name !in fs.published || fs.published[name] !in fs.inodes {
        return Err(StorageFailure);
      }
      var data := fs.inodes[fs.published[name]].data;
      if |data| != files[file].size || Sha256(data) != files[file].digest {
        return Err(StorageFailure);
      }
      r := Ok(data);
    }

    /** `reconcile_account`, on whatever tables it finds. */
    method ReconcileAccount(owner: Uuid) returns (status: AccountStatus)
      requires owner in accounts
      modifies this`accounts
      ensures (Tables(), status) == StorageTables.ReconcileAccount(old(Tables()), owner)
      ensures AccountGives(old(Tables()), Tables(), owner, status)
      ensures old(Valid()) ==> status == Checked && Tables() == old(Tables())
    {
      hide DataInv, AccountGives;
      AccountContract(Tables(), owner);
      if Valid() {
        AccountsCheck(Tables(), fs.View());
      }
      var account := accounts[owner];
      var used, reserved := Sum(UsedOf(Tables(), owner), issued), Sum(ReservedOf(Tables(), owner), issued);
      if used == account.used && reserved == account.reserved {
        return Checked;
      }
      status := if used < account.used || reserved < account.reserved then RepairRequired else Repaired;
      used, reserved := Max(used, account.used), Max(reserved, account.reserved);
      accounts := accounts[owner := account.(used := used, reserved := reserved)];
    }

    /** `reconcile` for one reservation. */
    method ReconcileOperation(id: Uuid) returns (status: Status)
      requires Valid() && id in reservations
      modifies this`reservations, this`accounts, this`files, fs
      ensures (Tables(), fs.View(), status) == StorageSequential.ReconcileOperation(old(Tables()), old(fs.View()),
        clock, id)
    {
      hide DataInv, DeleteGives, RecoverGives, StorageSequential.DeleteFile, StorageSequential.Recover,
        StorageSequential.Read;
      var row := reservations[id];
      if row.fileId in files && files[row.fileId].state == PendingDelete {
        RowsOfData(Tables(), fs.View());
        OwnReservation(Tables(), row.fileId);
        var deleted := DeleteFile(row.owner, row.fileId, true);
        return if deleted.Ok? then FileDeleted else Failing(deleted.error);
      }
      var ready := row.fileId in files && files[row.fileId].state == Ready;
      if ready {
        var bytes := Read(row.owner, row.fileId);
        if bytes.Err? {
          return Failing(bytes.error);
        }
      }
      var recovered := Recover(row.owner, id);
      if recovered.Err? {
        return Failing(recovered.error);
      }
      status := if !recovered.value then Busy else if ready then FileChecked else Recovered;
    }

    /** `reconcile` over one batch of reservations, whatever their leases. */
    method Reconcile(batch: seq<Uuid>) returns (statuses: seq<Status>)
      requires Valid() && forall i | 0 <= i < |batch| :: batch[i] in reservations
      modifies this`reservations, this`accounts, this`files, fs
      ensures Valid()
      ensures Swept(old(Tables()), old(fs.View()), Tables(), fs.View(), clock, batch, statuses)
      ensures forall a | a in accounts :: StorageTables.ReconcileAccount(Tables(), a) == (Tables(), Checked)
    {
      hide DataInv, StorageSequential.ReconcileOperation, Swept;
      ghost var db, view := Tables(), fs.View();
      NoneSwept(db, view, clock);
      statuses := [];
      var i := 0;
      while i < |batch|
        invariant 0 <= i <= |batch| && Valid()
        invariant Swept(db, view, Tables(), fs.View(), clock, batch[..i], statuses)
      {
        SweptOneMore(db, view, Tables(), fs.View(), World(), batch[..i], statuses, batch[i]);
        var status := ReconcileOperation(batch[i]);
        assert batch[..i + 1] == batch[..i] + [batch[i]];
        statuses := statuses + [status];
        i := i + 1;
        SweptData(db, view, Tables(), fs.View(), clock, batch[..i], statuses);
      }
      assert batch[..i] == batch;
      AccountsCheck(Tables(), fs.View());
    }
  }

  lemma PartIs(rest: Bytes)
    requires rest != []
    ensures 0 < |PartOf(rest)| <= |rest| && PartOf(rest) == rest[..|PartOf(rest)|]
  {
  }
}
