/** Crash repair: one undisturbed reconciliation settles any operation left by any crash, and a second one finds
    nothing to do. */
module StorageRecovery {
  import opened Common
  import opened StorageTables
  import opened StorageFiles
  import opened StorageMachine
  import opened StorageInvariant
  import opened StorageMoves
  import opened StorageCleaning
  import opened StorageRuns
  import opened StorageSequential

  lemma RecoverAgain(db: Db, fs: Fs, clock: nat, owner: Uuid, id: Uuid)
    requires Recover(db, fs, clock, owner, id).2 == Ok(true)
    ensures var (next, cleaned, _) := Recover(db, fs, clock, owner, id);
      Recover(next, cleaned, clock, owner, id) == (next, cleaned, Ok(true))
  {
    hide CleanFiles, Clean;
    var op := HandleOf(id, db.reservations[id]);
    CleanLeaves(db, fs, op);
    var (next, cleaned, _) := Clean(db, fs, op);
    CleanSettled(next, cleaned, HandleOf(id, next.reservations[id]));
  }

  lemma CleanSettled(db: Db, fs: Fs, op: Handle)
    requires op.owner in db.accounts && op.id in db.reservations && !Active(db.reservations[op.id].state)
    requires db.reservations[op.id].state == Committed ==> op.id !in fs.staging
    ensures Clean(db, fs, op) == (db, fs, None)
  {
  }

  // ----- deletion

  lemma MarkSteps(db: Db, fs: Fs, e: Environment, op: Handle, authorized: bool)
    requires Sound(db, fs, e, op, false, DeleteMarking)
    requires DeleteMark(db, op.owner, op.fileId, authorized).Ok?
    requires DeleteMark(db, op.owner, op.fileId, authorized).value.1.Removing?
    ensures var (marked, kind) := DeleteMark(db, op.owner, op.fileId, authorized).value;
      Sound(marked, fs, e, op, false, RemovingPublished(kind.size))
  {
    hide Inv, DeleteMark;
    var s := Alone(db, fs, e, op, false, DeleteMarking);
    DeleteMarkStep(s, 0, authorized);
    var (marked, kind) := DeleteMark(db, op.owner, op.fileId, authorized).value;
    SameAlone(StepDeleteMark(s, 0, s.procs[0], authorized), marked, fs, e, op, false, RemovingPublished(kind.size));
  }

  lemma RemoveSteps(db: Db, fs: Fs, e: Environment, op: Handle, size: nat)
    requires Sound(db, fs, e, op, false, RemovingPublished(size))
    ensures Sound(db, Remove(fs, op), e, op, false, Uncharging(size))
  {
    hide Inv, UnlinkPublished, UnlinkStaging;
    var s := Alone(db, fs, e, op, false, RemovingPublished(size));
    RemovePublishedStep(s, 0);
    var fs1 := UnlinkPublished(fs, NameOf(op));
    SameAlone(StepRemovePublished(s, 0, s.procs[0], size), db, fs1, e, op, false, RemovingStaging(size));
    var s1 := Alone(db, fs1, e, op, false, RemovingStaging(size));
    RemoveStagingStep(s1, 0);
    SameAlone(StepRemoveStaging(s1, 0, s1.procs[0], size), db, Remove(fs, op), e, op, false, Uncharging(size));
  }

  lemma UnchargeSteps(db: Db, fs: Fs, e: Environment, op: Handle, size: nat)
    requires Sound(db, fs, e, op, false, Uncharging(size)) && op.owner in db.accounts
    ensures Sound(DeleteFinish(db, op.owner, op.fileId, size).value, fs, e, op, false, Returning(Failed))
  {
    hide Inv;
    var s := Alone(db, fs, e, op, false, Uncharging(size));
    UnchargeStep(s, 0);
    SameAlone(StepUncharge(s, 0, s.procs[0], size), DeleteFinish(db, op.owner, op.fileId, size).value, fs, e, op, false,
              Returning(Failed));
  }

  /** The state of a file that may be deleted now. */
  predicate Deletable(row: FileRow, authorized: bool) {
    row.state == PendingDelete || (row.state == Ready && authorized)
  }

  lemma OwnReservation(db: Db, file: Uuid)
    requires RowsOk(db) && file in db.files
    ensures db.files[file].reservation in db.reservations
    ensures var row := db.reservations[db.files[file].reservation];
      row.owner == db.files[file].owner && row.fileId == file
    ensures db.files[file].owner in db.accounts
  {
  }

  lemma RowsOfData(db: Db, fs: Fs)
    requires DataInv(db, fs)
    ensures RowsOk(db) && LinksOk(db, fs) && CellsOk(db, fs) && SumsOk(db)
  {
  }

  /** Deletion removes both links, then the charge, and nothing of any other operation. */
  lemma DeletionTotal(db: Db, fs: Fs, e: Environment, file: Uuid, authorized: bool)
    requires DataInv(db, fs) && file in db.files && Deletable(db.files[file], authorized)
    ensures var row := db.files[file]; var (next, removed, r) := DeleteFile(db, fs, row.owner, file, authorized);
      && r == Ok(true) && DataInv(next, removed)
      && next.files == db.files[file := row.(state := Deleted)]
      && next.accounts == db.accounts[row.owner :=
           db.accounts[row.owner].(used := db.accounts[row.owner].used - row.size)]
      && next.reservations == db.reservations
      && removed.published == fs.published - {FileName(row.owner, file)}
      && removed.staging == fs.staging - {row.reservation} && removed.inodes == fs.inodes
      && DeleteFile(next, removed, row.owner, file, authorized) == (next, removed, Ok(false))
  {
    hide DataInv, Sound, PointInv;
    assert RowsOk(db) by { RowsOfData(db, fs); }
    OwnReservation(db, file);
    var row := db.files[file];
    var op := HandleOf(row.reservation, db.reservations[row.reservation]);
    assert Sound(db, fs, e, op, false, DeleteMarking) by { SoundMarking(db, fs, e, op); }
    MarkSteps(db, fs, e, op, authorized);
    var (marked, kind) := DeleteMark(db, row.owner, file, authorized).value;
    assert kind == Removing(row.size) && marked.files == db.files[file := row.(state := PendingDelete)];
    RemoveSteps(marked, fs, e, op, row.size);
    UnchargeSteps(marked, Remove(fs, op), e, op, row.size);
    var next := DeleteFinish(marked, row.owner, file, row.size).value;
    SoundData(next, Remove(fs, op), e, op, false, Returning(Failed));
    assert DeleteFile(db, fs, row.owner, file, authorized) == (next, Remove(fs, op), Ok(true));
  }

  lemma SoundMarking(db: Db, fs: Fs, e: Environment, op: Handle)
    requires DataInv(db, fs) && op.id in db.reservations && Matches(op, db.reservations[op.id])
    ensures Sound(db, fs, e, op, false, DeleteMarking)
  {
    hide DataInv;
    SoundAt(db, fs, e, op, false, DeleteMarking);
  }

  // ----- reading

  /** A ready file always reads back the bytes its row was written for. */
  lemma ReadTotal(db: Db, fs: Fs, file: Uuid)
    requires DataInv(db, fs) && file in db.files && db.files[file].state == Ready
    ensures var r := Read(db, fs, db.files[file].owner, file);
      r.Ok? && |r.value| == db.files[file].size && db.files[file].digest == Sha256(r.value)
  {
    hide SumsOk, EffectsOk, KeysUnique, CellInv;
    OwnReservation(db, file);
    var o := db.files[file].reservation;
    assert CellInv(CellOf(db, fs, o));
    ReadyHolds(CellOf(db, fs, o));
  }

  // ----- reconciliation

  predicate Expired(db: Db, clock: nat, id: Uuid)
    requires id in db.reservations
  {
    Active(db.reservations[id].state) ==> db.reservations[id].leaseExpires <= clock
  }

  /** The status `reconcile` must report for an operation whose lease is over. */
  function Expected(db: Db, id: Uuid): Status
    requires id in db.reservations
  {
    var f := db.reservations[id].fileId;
    if f in db.files && db.files[f].state == PendingDelete then FileDeleted
    else if f in db.files && db.files[f].state == Ready then FileChecked
    else Recovered
  }

  /** After reconciliation the operation is final, its files are in their resting place and the counters still add
      up. */
  ghost predicate Rested(db: Db, fs: Fs, id: Uuid) {
    && DataInv(db, fs) && id in db.reservations
    && db.reservations[id].state in {Committed, Aborted}
    && (db.reservations[id].state == Committed ==>
          && id !in fs.staging && db.reservations[id].fileId in db.files
          && db.files[db.reservations[id].fileId].state in {Ready, Deleted})
  }

  lemma FileOf(db: Db, id: Uuid)
    requires RowsOk(db) && id in db.reservations && db.reservations[id].fileId in db.files
    ensures var f := db.files[db.reservations[id].fileId]; f.reservation == id && f.owner == db.reservations[id].owner
  {
  }

  lemma CommittedCell(db: Db, fs: Fs, id: Uuid)
    requires CellsOk(db, fs) && id in db.reservations
    ensures var f := db.reservations[id].fileId;
      && (db.reservations[id].state == Committed ==> f in db.files && db.files[f].state != InStaging)
      && (f in db.files && db.files[f].state in {Ready, PendingDelete} ==> db.reservations[id].state == Committed)
  {
    assert CellInv(CellOf(db, fs, id));
  }

  /** One reconciliation of one operation succeeds from every durable state. */
  lemma ReconcileTotal(db: Db, fs: Fs, e: Environment, id: Uuid)
    requires DataInv(db, fs) && id in db.reservations && Expired(db, e.clock, id)
    ensures var (next, tidy, status) := ReconcileOperation(db, fs, e.clock, id);
      status == Expected(db, id) && Rested(next, tidy, id)
  {
    hide DataInv, Recover, DeleteFile, Read, HalfRemoved;
    var row := db.reservations[id];
    RowsOfData(db, fs);
    CommittedCell(db, fs, id);
    if row.fileId in db.files && db.files[row.fileId].state == PendingDelete {
      FileOf(db, id);
      DeletionTotal(db, fs, e, row.fileId, true);
    } else {
      if row.fileId in db.files && db.files[row.fileId].state == Ready {
        FileOf(db, id);
        ReadTotal(db, fs, row.fileId);
      }
      assert !HalfRemoved(db, fs, HandleOf(id, row)) by { NotHalf(db, fs, id); }
      RecoveryTotal(db, fs, e, id);
      RecoveredRests(db, fs, e, id);
    }
  }

  lemma NotHalf(db: Db, fs: Fs, id: Uuid)
    requires DataInv(db, fs) && id in db.reservations
    requires db.reservations[id].fileId in db.files ==> db.files[db.reservations[id].fileId].state != PendingDelete
    ensures !HalfRemoved(db, fs, HandleOf(id, db.reservations[id]))
  {
    hide DataInv;
    if HalfRemoved(db, fs, HandleOf(id, db.reservations[id])) {
      HalfRemovedPending(db, fs, HandleOf(id, db.reservations[id]));
    }
  }

  lemma RecoveredRests(db: Db, fs: Fs, e: Environment, id: Uuid)
    requires id in db.reservations && Expired(db, e.clock, id)
    requires Recover(db, fs, e.clock, db.reservations[id].owner, id).2 == Ok(true)
    requires db.reservations[id].state == Committed ==>
      var f := db.reservations[id].fileId; f in db.files && (db.files[f].state == Ready || db.files[f].state == Deleted)
    requires var (next, tidy, _) := Recover(db, fs, e.clock, db.reservations[id].owner, id); DataInv(next, tidy)
    ensures var (next, tidy, _) := Recover(db, fs, e.clock, db.reservations[id].owner, id); Rested(next, tidy, id)
  {
    hide DataInv, Clean;
    CleanLeaves(db, fs, HandleOf(id, db.reservations[id]));
  }

  /** From any state a crash can leave, one reconciliation settles the operation; the next one changes nothing more. */
  lemma CrashRecovers(t: Sys, id: Uuid)
    requires Reachable(t) && id in t.db.reservations && Expired(t.db, t.clock, id)
    ensures var (next, tidy, status) := ReconcileOperation(t.db, t.fs, t.clock, id);
      && status == Expected(t.db, id) && Rested(next, tidy, id)
      && (t.db.reservations[id].state == Committed <==> next.reservations[id].state == Committed)
      && var again := ReconcileOperation(next, tidy, t.clock, id);
         again.0 == next && again.1 == tidy && again.2 == Expected(next, id)
  {
    hide Inv, ReconcileOperation, Rested;
    ReachableInv(t);
    assert DataInv(t.db, t.fs) by { DataOf(t); }
    var e := Environment(t.policy, t.clock);
    ReconcileTotal(t.db, t.fs, e, id);
    var (next, tidy, _) := ReconcileOperation(t.db, t.fs, t.clock, id);
    ReconcileKeeps(t.db, t.fs, e, id);
    ReconcileRested(next, tidy, e, id);
  }

  lemma DataOf(t: Sys)
    requires Inv(t)
    ensures DataInv(t.db, t.fs)
  {
  }

  lemma ReconcileKeeps(db: Db, fs: Fs, e: Environment, id: Uuid)
    requires DataInv(db, fs) && id in db.reservations && Expired(db, e.clock, id)
    ensures var next := ReconcileOperation(db, fs, e.clock, id).0;
      id in next.reservations && (db.reservations[id].state == Committed <==> next.reservations[id].state == Committed)
  {
    hide DataInv, Recover, DeleteFile, Read, HalfRemoved;
    RowsOfData(db, fs);
    var row := db.reservations[id];
    if row.fileId in db.files && db.files[row.fileId].state == PendingDelete {
      FileOf(db, id);
      DeletionTotal(db, fs, e, row.fileId, true);
    } else {
      RecoveryTotal(db, fs, e, id);
      var (next, _, r) := Recover(db, fs, e.clock, row.owner, id);
      assert r.Ok? || next == db;
    }
  }

  lemma ReconcileRested(db: Db, fs: Fs, e: Environment, id: Uuid)
    requires Rested(db, fs, id)
    ensures ReconcileOperation(db, fs, e.clock, id) == (db, fs, Expected(db, id))
  {
    hide DataInv, DeleteFile, Read, Clean;
    RowsOfData(db, fs);
    CommittedCell(db, fs, id);
    var row := db.reservations[id];
    CleanSettled(db, fs, HandleOf(id, row));
    if row.fileId in db.files {
      FileOf(db, id);
      if db.files[row.fileId].state == Ready {
        ReadTotal(db, fs, row.fileId);
      }
    }
  }

  // ----- batches

  /** Two states agree on everything that belongs to operation `id`. */
  ghost predicate SameOperation(db: Db, fs: Fs, next: Db, tidy: Fs, id: Uuid) {
    && id in db.reservations && id in next.reservations && next.reservations[id] == db.reservations[id]
    && (id in tidy.staging <==> id in fs.staging) && (id in fs.staging ==> tidy.staging[id] == fs.staging[id])
    && (var n := FileName(db.reservations[id].owner, db.reservations[id].fileId);
        (n in tidy.published <==> n in fs.published) && (n in fs.published ==> tidy.published[n] == fs.published[n]))
    && tidy.inodes == fs.inodes
    && var f := db.reservations[id].fileId;
       (f in db.files <==> f in next.files) && (f in db.files ==> next.files[f] == db.files[f])
  }

  lemma DistinctFiles(db: Db, id: Uuid, other: Uuid)
    requires RowsOk(db) && id in db.reservations && other in db.reservations && other != id
    ensures db.reservations[id].fileId != db.reservations[other].fileId
  {
  }

  lemma RecoverFrames(db: Db, fs: Fs, clock: nat, id: Uuid, other: Uuid)
    requires id in db.reservations && other in db.reservations && other != id
    requires db.reservations[id].fileId != db.reservations[other].fileId
    requires Recover(db, fs, clock, db.reservations[id].owner, id).2 == Ok(true)
    ensures var (next, tidy, _) := Recover(db, fs, clock, db.reservations[id].owner, id);
      SameOperation(db, fs, next, tidy, other)
  {
    hide Clean;
    CleanLeaves(db, fs, HandleOf(id, db.reservations[id]));
  }

  lemma DeleteFrames(db: Db, fs: Fs, e: Environment, id: Uuid, other: Uuid)
    requires DataInv(db, fs) && id in db.reservations && other in db.reservations && other != id
    requires var f := db.reservations[id].fileId; f in db.files && db.files[f].state == PendingDelete
    ensures var (next, tidy, _) := DeleteFile(db, fs, db.reservations[id].owner, db.reservations[id].fileId, true);
      SameOperation(db, fs, next, tidy, other)
  {
    hide DataInv, DeleteFile;
    RowsOfData(db, fs);
    DistinctFiles(db, id, other);
    FileOf(db, id);
    hide RowsOk;
    DeletionTotal(db, fs, e, db.reservations[id].fileId, true);
  }

  /** Reconciling one operation leaves every other one alone. */
  lemma ReconcileFrames(db: Db, fs: Fs, e: Environment, id: Uuid, other: Uuid)
    requires DataInv(db, fs) && id in db.reservations && Expired(db, e.clock, id)
    requires other in db.reservations && other != id
    ensures var (next, tidy, _) := ReconcileOperation(db, fs, e.clock, id); SameOperation(db, fs, next, tidy, other)
  {
    hide DataInv, Recover, DeleteFile, Read, HalfRemoved;
    var row := db.reservations[id];
    if row.fileId in db.files && db.files[row.fileId].state == PendingDelete {
      DeleteFrames(db, fs, e, id, other);
    } else {
      assert row.fileId != db.reservations[other].fileId by {
        RowsOfData(db, fs);
        DistinctFiles(db, id, other);
      }
      RecoveryTotal(db, fs, e, id);
      var r := Recover(db, fs, e.clock, row.owner, id);
      assert r.2 == Ok(true) || (r.0 == db && r.1 == fs);
      if r.2 == Ok(true) {
        RecoverFrames(db, fs, e.clock, id, other);
      }
    }
  }

  lemma RestedFramed(db: Db, fs: Fs, next: Db, tidy: Fs, id: Uuid)
    requires Rested(db, fs, id) && SameOperation(db, fs, next, tidy, id) && DataInv(next, tidy)
    ensures Rested(next, tidy, id)
  {
    hide DataInv;
  }

  /** An operation whose lease runs is left to its writer. */
  lemma LiveIsBusy(db: Db, fs: Fs, e: Environment, id: Uuid)
    requires DataInv(db, fs) && id in db.reservations && !Expired(db, e.clock, id)
    ensures ReconcileOperation(db, fs, e.clock, id) == (db, fs, Busy)
  {
    hide DataInv, DeleteFile, Read, Clean;
    RowsOfData(db, fs);
    CommittedCell(db, fs, id);
  }

  /** What a sweep over some operations may answer for one of them. */
  predicate Answer(db: Db, clock: nat, ids: seq<Uuid>, statuses: seq<Status>, i: nat)
    requires i < |ids| == |statuses| && ids[i] in db.reservations
  {
    if !Expired(db, clock, ids[i]) then statuses[i] == Busy
    else if ids[i] in ids[..i] then statuses[i] == FileChecked || statuses[i] == Recovered
    else statuses[i] == Expected(db, ids[i])
  }

  /** A sweep settles the operations of the batch whose lease is over, reports the others as busy, and leaves them and
      everything outside the batch alone. */
  ghost predicate Swept(db: Db, fs: Fs, next: Db, tidy: Fs, clock: nat, ids: seq<Uuid>, statuses: seq<Status>) {
    && DataInv(next, tidy) && next.reservations.Keys == db.reservations.Keys && |statuses| == |ids|
    && (forall i | 0 <= i < |ids| :: ids[i] in db.reservations && Answer(db, clock, ids, statuses, i))
    && (forall o {:trigger Rested(next, tidy, o)} {:trigger SameOperation(db, fs, next, tidy, o)} |
         o in db.reservations ::
          if o in ids && Expired(db, clock, o) then Rested(next, tidy, o) else SameOperation(db, fs, next, tidy, o))
  }

  lemma SweptData(db: Db, fs: Fs, next: Db, tidy: Fs, clock: nat, ids: seq<Uuid>, statuses: seq<Status>)
    requires Swept(db, fs, next, tidy, clock, ids, statuses)
    ensures DataInv(next, tidy)
  {
  }

  lemma NoneSwept(db: Db, fs: Fs, clock: nat)
    requires DataInv(db, fs)
    ensures Swept(db, fs, db, fs, clock, [], [])
  {
    hide DataInv;
  }

  lemma RestedData(db: Db, fs: Fs, id: Uuid)
    requires Rested(db, fs, id)
    ensures DataInv(db, fs) && id in db.reservations
  {
    hide DataInv;
  }

  lemma RestedExpired(db: Db, fs: Fs, clock: nat, id: Uuid)
    requires Rested(db, fs, id)
    ensures id in db.reservations && Expired(db, clock, id) && Expected(db, id) in {FileChecked, Recovered}
  {
    hide DataInv;
    RowsOfData(db, fs);
    CommittedCell(db, fs, id);
  }

  lemma SameTrans(db: Db, fs: Fs, mid: Db, midFs: Fs, next: Db, tidy: Fs, id: Uuid)
    requires SameOperation(db, fs, mid, midFs, id) && SameOperation(mid, midFs, next, tidy, id)
    ensures SameOperation(db, fs, next, tidy, id)
  {
  }

  /** What one reconciliation does, whether the lease is over or not. */
  lemma ReconcileOne(db: Db, fs: Fs, e: Environment, id: Uuid)
    requires DataInv(db, fs) && id in db.reservations
    ensures var (next, tidy, status) := ReconcileOperation(db, fs, e.clock, id);
      && DataInv(next, tidy) && next.reservations.Keys == db.reservations.Keys
      && status == (if Expired(db, e.clock, id) then Expected(db, id) else Busy)
      && (if Expired(db, e.clock, id) then Rested(next, tidy, id) else SameOperation(db, fs, next, tidy, id))
      && (forall o | o in db.reservations && o != id :: SameOperation(db, fs, next, tidy, o))
  {
    hide DataInv, ReconcileOperation, Rested, SameOperation;
    var (next, tidy, status) := ReconcileOperation(db, fs, e.clock, id);
    if Expired(db, e.clock, id) {
      ReconcileTotal(db, fs, e, id);
      RestedData(next, tidy, id);
      forall o | o in db.reservations && o != id
        ensures SameOperation(db, fs, next, tidy, o)
      {
        ReconcileFrames(db, fs, e, id, o);
      }
    } else {
      LiveIsBusy(db, fs, e, id);
      forall o | o in db.reservations ensures SameOperation(db, fs, db, fs, o) { SameSelf(db, fs, o); }
    }
    ReconcileRows(db, fs, e.clock, id);
  }

  lemma SameSelf(db: Db, fs: Fs, id: Uuid)
    requires id in db.reservations
    ensures SameOperation(db, fs, db, fs, id)
  {
  }

  lemma ReconcileRows(db: Db, fs: Fs, clock: nat, id: Uuid)
    requires id in db.reservations
    ensures ReconcileOperation(db, fs, clock, id).0.reservations.Keys == db.reservations.Keys
  {
    hide CleanFiles, Read;
  }

  lemma SweptOneMore(db: Db, fs: Fs, mid: Db, midFs: Fs, e: Environment, ids: seq<Uuid>, statuses: seq<Status>,
                     id: Uuid)
    requires Swept(db, fs, mid, midFs, e.clock, ids, statuses) && id in db.reservations
    ensures id in mid.reservations
    ensures var (next, tidy, status) := ReconcileOperation(mid, midFs, e.clock, id);
      Swept(db, fs, next, tidy, e.clock, ids + [id], statuses + [status])
  {
    hide DataInv, ReconcileOperation, Rested, SameOperation, Expired, Expected;
    ReconcileOne(mid, midFs, e, id);
    var (next, tidy, status) := ReconcileOperation(mid, midFs, e.clock, id);
    var all, answers := ids + [id], statuses + [status];
    forall o | o in db.reservations
      ensures if o in all && Expired(db, e.clock, o) then Rested(next, tidy, o)
        else SameOperation(db, fs, next, tidy, o)
    {
      SweptOther(db, fs, mid, midFs, e, ids, statuses, id, o);
    }
    SweptStatus(db, fs, mid, midFs, e, ids, statuses, id);
    forall i | 0 <= i < |all|
      ensures all[i] in db.reservations && Answer(db, e.clock, all, answers, i)
    {
      if i < |ids| {
        assert Answer(db, e.clock, ids, statuses, i) && all[..i] == ids[..i];
      } else {
        assert all[..i] == ids;
      }
    }
  }

  lemma SweptOther(db: Db, fs: Fs, mid: Db, midFs: Fs, e: Environment, ids: seq<Uuid>, statuses: seq<Status>, id: Uuid,
                   o: Uuid)
    requires Swept(db, fs, mid, midFs, e.clock, ids, statuses) && id in db.reservations && o in db.reservations
    ensures id in mid.reservations
    ensures var (next, tidy, status) := ReconcileOperation(mid, midFs, e.clock, id);
      if o in ids + [id] && Expired(db, e.clock, o) then Rested(next, tidy, o) else SameOperation(db, fs, next, tidy, o)
  {
    hide DataInv, ReconcileOperation, Rested, SameOperation, Expected;
    ReconcileOne(mid, midFs, e, id);
    var (next, tidy, _) := ReconcileOperation(mid, midFs, e.clock, id);
    assert if o in ids && Expired(db, e.clock, o) then Rested(mid, midFs, o) else SameOperation(db, fs, mid, midFs, o);
    if o in ids && Expired(db, e.clock, o) {
      RestedExpired(mid, midFs, e.clock, o);
      if o != id {
        RestedFramed(mid, midFs, next, tidy, o);
      }
    } else {
      SameExpired(db, fs, mid, midFs, e.clock, o);
      if o != id || !Expired(mid, e.clock, o) {
        SameTrans(db, fs, mid, midFs, next, tidy, o);
      }
    }
  }

  lemma SameExpired(db: Db, fs: Fs, next: Db, tidy: Fs, clock: nat, id: Uuid)
    requires SameOperation(db, fs, next, tidy, id)
    ensures Expired(db, clock, id) <==> Expired(next, clock, id)
    ensures Expected(db, id) == Expected(next, id)
  {
  }

  lemma SweptStatus(db: Db, fs: Fs, mid: Db, midFs: Fs, e: Environment, ids: seq<Uuid>, statuses: seq<Status>, id: Uuid)
    requires Swept(db, fs, mid, midFs, e.clock, ids, statuses) && id in db.reservations
    ensures id in mid.reservations
    ensures var status := ReconcileOperation(mid, midFs, e.clock, id).2;
      if !Expired(db, e.clock, id) then status == Busy
      else if id in ids then status == FileChecked || status == Recovered
      else status == Expected(db, id)
  {
    hide DataInv, ReconcileOperation, Rested, SameOperation;
    ReconcileOne(mid, midFs, e, id);
    assert if id in ids && Expired(db, e.clock, id) then Rested(mid, midFs, id)
      else SameOperation(db, fs, mid, midFs, id);
    if id in ids && Expired(db, e.clock, id) {
      RestedExpired(mid, midFs, e.clock, id);
    } else {
      SameExpired(db, fs, mid, midFs, e.clock, id);
    }
  }

  /** On a sound state the account check finds every counter right and changes nothing. */
  lemma AccountsCheck(db: Db, fs: Fs)
    requires DataInv(db, fs)
    ensures forall a | a in db.accounts :: ReconcileAccount(db, a) == (db, Checked)
  {
    hide CellsOk, RowsOk, LinksOk, EffectsOk, KeysUnique;
    forall a | a in db.accounts
      ensures ReconcileAccount(db, a) == (db, Checked)
    {
      assert AccountOk(db, a);
    }
  }
}
