/** Steps that change no operation's durable state: exits, lock attempts, reads, configuration and purges. */
module StorageMoves {
  import opened Common
  import opened StorageTables
  import opened StorageFiles
  import opened StorageMachine
  import opened StorageInvariant
  import opened StorageFrame

  /** Processes other than `p` rely on unchanged data. */
  lemma ProcsSame(s: Sys, t: Sys, p: Pid)
    requires ProcsOk(s) && t.db == s.db && t.fs == s.fs
    requires forall q | q in t.procs && q != p :: q in s.procs && t.procs[q] == s.procs[q]
    requires p in t.procs ==> ProcOk(t, t.procs[p])
    ensures ProcsOk(t)
  {
    forall q | q in t.procs
      ensures ProcOk(t, t.procs[q])
    {
      if q != p {
        assert ProcOk(s, s.procs[q]);
      }
    }
  }

  lemma AnswersSame(s: Sys, t: Sys)
    requires AnswersOk(s) && t.db == s.db && t.answers == s.answers
    ensures AnswersOk(t)
  {
    forall ret | ret in t.answers
      ensures Answered(t.db, ret)
    {
      assert Answered(s.db, ret);
    }
  }

  /** Only the process table and the locks change. */
  lemma SameData(s: Sys, t: Sys, p: Pid)
    requires DataInv(s.db, s.fs) && ProcsOk(s) && AnswersOk(s)
    requires t.db == s.db && t.fs == s.fs && t.answers == s.answers
    requires forall q | q in t.procs && q != p :: q in s.procs && t.procs[q] == s.procs[q]
    requires p in t.procs ==> ProcOk(t, t.procs[p])
    requires LocksOk(t) && SqlOk(t) && CreatorsUnique(t)
    ensures Inv(t)
  {
    hide PointInv, CellInv, RowsOk, LinksOk, SumsOk, EffectsOk, KeysUnique;
    ProcsSame(s, t, p);
    AnswersSame(s, t);
  }

  /** The process holding an operation moves to another point without touching data. */
  lemma StayStep(s: Sys, t: Sys, p: Pid, at: Point)
    requires Inv(s) && t.db == s.db && t.fs == s.fs
    requires HolderMoves(s, t, p, at) && ProcOk(t, s.procs[p].(at := at))
    ensures Inv(t)
  {
    hide PointInv, CellInv, RowsOk, LinksOk, SumsOk, EffectsOk, KeysUnique;
    TablesKept(s, t, p, at);
    SameData(s, t, p);
  }

  /** The operation a process works on exists and is the one its handle describes. */
  lemma Known(s: Sys, p: Pid)
    requires ProcsOk(s) && p in s.procs && s.procs[p].Working?
    ensures var pr := s.procs[p];
      && pr.op.id in s.db.reservations && Matches(pr.op, s.db.reservations[pr.op.id])
      && pr.held == HoldAt(pr.at) && (Guarded(pr.at) ==> pr.created)
  {
    assert ProcOk(s, s.procs[p]);
  }

  /** Clean-up after a failure relies on nothing about the operation. */
  lemma RecoilSafe(s: Sys, p: Pid)
    requires ProcsOk(s) && SqlOk(s) && p in s.procs && s.procs[p].Working? && Guarded(s.procs[p].at)
    ensures var t := Recoil(s, p, s.procs[p]);
      HolderMoves(s, t, p, CleanMarking(Failed)) && ProcOk(t, s.procs[p].(at := CleanMarking(Failed)))
  {
    hide CellInv;
    assert ProcOk(s, s.procs[p]);
  }

  lemma RecoilStep(s: Sys, p: Pid)
    requires Inv(s) && p in s.procs && s.procs[p].Working? && Guarded(s.procs[p].at)
    ensures Inv(Recoil(s, p, s.procs[p]))
  {
    hide PointInv, CellInv, RowsOk, LinksOk, SumsOk, EffectsOk, KeysUnique;
    RecoilSafe(s, p);
    StayStep(s, Recoil(s, p, s.procs[p]), p, CleanMarking(Failed));
  }

  lemma ExitTables(s: Sys, p: Pid)
    requires LocksOk(s) && SqlOk(s) && CreatorsUnique(s)
    ensures LocksOk(Exit(s, p)) && SqlOk(Exit(s, p)) && CreatorsUnique(Exit(s, p))
  {
    var t := Exit(s, p);
    forall o | o in t.locks ensures LockHeld(t, o) { assert LockHeld(s, o); }
    forall e | e in t.shared ensures ShareHeld(t, e) { assert ShareHeld(s, e); }
    forall q | q in t.procs ensures HoldRecorded(t, q, t.procs[q]) { assert HoldRecorded(s, q, s.procs[q]); }
  }

  lemma ExitStep(s: Sys, p: Pid)
    requires Inv(s)
    ensures Inv(Exit(s, p))
  {
    hide PointInv, CellInv, RowsOk, LinksOk, SumsOk, EffectsOk, KeysUnique;
    ExitTables(s, p);
    SameData(s, Exit(s, p), p);
  }

  lemma AnswerGiven(s: Sys, ret: Return, o: Uuid)
    requires AnswersOk(s) && o in s.db.reservations && AnsweredBy(s.db, ret, o)
    ensures AnswersOk(s.(answers := s.answers + [ret]))
  {
    var t := s.(answers := s.answers + [ret]);
    forall r | r in t.answers
      ensures Answered(t.db, r)
    {
      assert r == ret || r in s.answers;
      if r != ret {
        assert Answered(s.db, r);
      }
    }
  }

  lemma AnswerKnown(s: Sys, p: Pid)
    requires ProcsOk(s) && p in s.procs && s.procs[p].Working? && s.procs[p].at.Returning?
      && s.procs[p].at.why.Finished?
    ensures var op, why := s.procs[p].op, s.procs[p].at.why;
      && op.id in s.db.reservations
      && AnsweredBy(s.db, Return(why.req.owner, why.req.key, why.result), op.id)
  {
    assert ProcOk(s, s.procs[p]);
  }

  /** Giving the answer of a finished store, then leaving. */
  lemma ReturnStep(s: Sys, p: Pid)
    requires Inv(s) && p in s.procs && s.procs[p].Working? && s.procs[p].at.Returning?
    ensures Inv(AfterWhy(s, p, s.procs[p].at.why))
  {
    hide PointInv, CellInv, RowsOk, LinksOk, SumsOk, EffectsOk, KeysUnique;
    var why := s.procs[p].at.why;
    if why.Finished? {
      var ret := Return(why.req.owner, why.req.key, why.result);
      AnswerKnown(s, p);
      AnswerGiven(s, ret, s.procs[p].op.id);
      ProcsSame(s, s.(answers := s.answers + [ret]), p);
      TablesSame(s, s.(answers := s.answers + [ret]));
      ExitStep(s.(answers := s.answers + [ret]), p);
    } else {
      ExitStep(s, p);
    }
  }

  /** A process that holds nothing starts, or moves to a point where it still holds nothing. */
  lemma FreeMove(s: Sys, p: Pid, pr: Proc)
    requires Inv(s)
    requires p in s.procs ==> s.procs[p].Starting?
    requires pr.Starting? || (pr.held == Unlocked && !pr.created)
    requires ProcOk(s, pr) && !InTransaction(pr)
    ensures Inv(To(s, p, pr))
  {
    hide PointInv, CellInv, RowsOk, LinksOk, SumsOk, EffectsOk, KeysUnique;
    FreeTables(s, p, pr);
    SameData(s, To(s, p, pr), p);
  }

  lemma FreeTables(s: Sys, p: Pid, pr: Proc)
    requires LocksOk(s) && SqlOk(s) && CreatorsUnique(s)
    requires p in s.procs ==> s.procs[p].Starting?
    requires pr.Starting? || (pr.held == Unlocked && !pr.created)
    requires !InTransaction(pr)
    ensures LocksOk(To(s, p, pr)) && SqlOk(To(s, p, pr)) && CreatorsUnique(To(s, p, pr))
  {
    var t := To(s, p, pr);
    forall o | o in t.locks ensures LockHeld(t, o) { assert LockHeld(s, o); }
    forall e | e in t.shared ensures ShareHeld(t, e) { assert ShareHeld(s, e); }
    forall q | q in t.procs ensures HoldRecorded(t, q, t.procs[q]) {
      assert q != p ==> HoldRecorded(s, q, s.procs[q]);
    }
  }

  /** `p` gains the exclusive lock of its operation, which nobody holds in any mode. */
  lemma LockTables(s: Sys, t: Sys, p: Pid, pr: Proc)
    requires LocksOk(s) && SqlOk(s) && CreatorsUnique(s)
    requires p in s.procs && s.procs[p].Working? && s.procs[p].held == Unlocked && !InTransaction(s.procs[p])
    requires s.procs[p].op.id !in s.locks && !LockedShared(s, s.procs[p].op.id)
    requires pr.Working? && pr == s.procs[p].(held := Exclusive, at := pr.at) && !InTransaction(pr)
    requires t == To(s, p, pr).(locks := s.locks[pr.op.id := p])
    ensures LocksOk(t) && SqlOk(t) && CreatorsUnique(t)
  {
    forall o | o in t.locks ensures LockHeld(t, o) {
      assert o in s.locks ==> LockHeld(s, o);
    }
    forall e | e in t.shared ensures ShareHeld(t, e) { assert ShareHeld(s, e); }
    forall q | q in t.procs ensures HoldRecorded(t, q, t.procs[q]) {
      assert HoldRecorded(s, q, s.procs[q]);
    }
    assert CreatorOf(pr) == CreatorOf(s.procs[p]);
  }

  lemma LockStep(s: Sys, p: Pid, at: Point)
    requires Inv(s) && p in s.procs && s.procs[p].Working? && s.procs[p].held == Unlocked
    requires !InTransaction(s.procs[p]) && !at.Linking? && !at.Committing?
    requires ProcOk(s, s.procs[p].(held := Exclusive, at := at))
    ensures Inv(TryExclusive(s, p, s.procs[p], at))
  {
    hide PointInv, CellInv, RowsOk, LinksOk, SumsOk, EffectsOk, KeysUnique;
    var o := s.procs[p].op.id;
    if o in s.locks || LockedShared(s, o) {
      ExitStep(s, p);
    } else {
      LockTables(s, TryExclusive(s, p, s.procs[p], at), p, s.procs[p].(held := Exclusive, at := at));
      SameData(s, TryExclusive(s, p, s.procs[p], at), p);
    }
  }

  /** The three places that wait for the exclusive lock. */
  lemma LockTaken(s: Sys, p: Pid)
    requires ProcsOk(s) && p in s.procs && s.procs[p].Working?
    ensures var pr := s.procs[p];
      && (pr.at.TakingLock? && pr.created ==> ProcOk(s, pr.(held := Exclusive, at := Staging(pr.at.req))))
      && (pr.at.TakingLock? ==> ProcOk(s, pr.(held := Exclusive, at := Replaying(pr.at.req))))
      && (pr.at.RecoverLocking? ==> ProcOk(s, pr.(held := Exclusive, at := RecoverRereading)))
      && (pr.at.DeleteLocking? ==> ProcOk(s, pr.(held := Exclusive, at := DeleteMarking)))
      && pr.held == HoldAt(pr.at)
  {
    hide CellInv;
    assert ProcOk(s, s.procs[p]);
  }

  function AfterLock(pr: Proc): Point
    requires pr.Working?
  {
    if pr.at.TakingLock? then (if pr.created then Staging(pr.at.req) else Replaying(pr.at.req))
    else if pr.at.RecoverLocking? then RecoverRereading
    else DeleteMarking
  }

  lemma LockSteps(s: Sys, p: Pid)
    requires Inv(s) && p in s.procs && s.procs[p].Working?
    requires s.procs[p].at.TakingLock? || s.procs[p].at.RecoverLocking? || s.procs[p].at.DeleteLocking?
    ensures Inv(TryExclusive(s, p, s.procs[p], AfterLock(s.procs[p])))
  {
    hide PointInv, CellInv, RowsOk, LinksOk, SumsOk, EffectsOk, KeysUnique, Inv;
    LockTaken(s, p) by { assert ProcsOk(s) by { InvParts(s); } }
    LockStep(s, p, AfterLock(s.procs[p]));
  }

  lemma InvParts(s: Sys)
    requires Inv(s)
    ensures DataInv(s.db, s.fs) && ProcsOk(s) && LocksOk(s) && SqlOk(s) && CreatorsUnique(s) && AnswersOk(s)
  {
  }

  lemma SharedTables(s: Sys, t: Sys, p: Pid, pr: Proc)
    requires LocksOk(s) && SqlOk(s) && CreatorsUnique(s)
    requires p in s.procs && s.procs[p].Working? && s.procs[p].held == Unlocked && !InTransaction(s.procs[p])
    requires s.procs[p].op.id !in s.locks
    requires pr.Working? && pr == s.procs[p].(held := Shared, at := pr.at) && !InTransaction(pr)
    requires t == To(s, p, pr).(shared := s.shared + {(pr.op.id, p)})
    ensures LocksOk(t) && SqlOk(t) && CreatorsUnique(t)
  {
    forall o | o in t.locks ensures LockHeld(t, o) { assert LockHeld(s, o); }
    forall e | e in t.shared ensures ShareHeld(t, e) {
      assert e in s.shared ==> ShareHeld(s, e);
    }
    forall q | q in t.procs ensures HoldRecorded(t, q, t.procs[q]) {
      assert HoldRecorded(s, q, s.procs[q]);
    }
    assert CreatorOf(pr) == CreatorOf(s.procs[p]);
  }

  lemma ReadLockTaken(s: Sys, p: Pid)
    requires ProcsOk(s) && p in s.procs && s.procs[p].Working? && s.procs[p].at.ReadLocking?
    ensures var pr := s.procs[p];
      pr.held == Unlocked && ProcOk(s, pr.(held := Shared, at := ReadChecking(pr.at.size, pr.at.digest)))
  {
    hide CellInv;
    assert ProcOk(s, s.procs[p]);
  }

  lemma ReadLockStep(s: Sys, p: Pid)
    requires Inv(s) && p in s.procs && s.procs[p].Working? && s.procs[p].at.ReadLocking?
    ensures Inv(StepReadLock(s, p, s.procs[p], s.procs[p].at.size, s.procs[p].at.digest))
  {
    hide PointInv, CellInv, RowsOk, LinksOk, SumsOk, EffectsOk, KeysUnique;
    var pr := s.procs[p];
    if pr.op.id in s.locks {
      ExitStep(s, p);
    } else {
      var t := StepReadLock(s, p, pr, pr.at.size, pr.at.digest);
      ReadLockTaken(s, p);
      SharedTables(s, t, p, pr.(held := Shared, at := ReadChecking(pr.at.size, pr.at.digest)));
      SameData(s, t, p);
    }
  }

  lemma ReadyHolds(c: Cell)
    requires CellInv(c) && c.file.Some? && c.file.value.state == Ready
    ensures c.row.state == Committed && c.published.Some? && Holds(c.published.value, c.file.value)
  {
  }

  lemma ReadyCell(s: Sys, p: Pid)
    requires ProcsOk(s) && CellsOk(s.db, s.fs) && p in s.procs && s.procs[p].Working? && s.procs[p].at.ReadChecking?
    requires var op := s.procs[p].op; op.fileId in s.db.files && s.db.files[op.fileId].state == Ready
    ensures var pr := s.procs[p]; ProcOk(s, pr.(at := Reading(pr.at.size, pr.at.digest)))
  {
    hide CellInv, RowsOk;
    var pr := s.procs[p];
    assert ProcOk(s, pr);
    ReadyHolds(CellOf(s.db, s.fs, pr.op.id));
  }

  lemma ReadingTables(s: Sys, t: Sys, p: Pid, pr: Proc)
    requires LocksOk(s) && SqlOk(s) && CreatorsUnique(s) && p in s.procs
    requires SameHold(s.procs[p], pr) && t == To(s, p, pr) && !InTransaction(s.procs[p]) && !InTransaction(pr)
    ensures LocksOk(t) && SqlOk(t) && CreatorsUnique(t)
  {
    LocksSame(s, t);
    CreatorsSame(s, t);
  }

  /** A reader that saw the row ready under the shared lock finds the published bytes. */
  lemma ReadCheckStep(s: Sys, p: Pid)
    requires Inv(s) && p in s.procs && s.procs[p].Working? && s.procs[p].at.ReadChecking?
    ensures Inv(StepReadCheck(s, p, s.procs[p], s.procs[p].at.size, s.procs[p].at.digest))
  {
    hide PointInv, CellInv, RowsOk, LinksOk, SumsOk, EffectsOk, KeysUnique;
    var pr := s.procs[p];
    if pr.op.fileId in s.db.files && s.db.files[pr.op.fileId].state == Ready {
      ReadyCell(s, p);
      var t := StepReadCheck(s, p, pr, pr.at.size, pr.at.digest);
      ReadingTables(s, t, p, pr.(at := Reading(pr.at.size, pr.at.digest)));
      SameData(s, t, p);
    } else {
      ExitStep(s, p);
    }
  }

  lemma HandleKnown(s: Sys, id: Uuid, at: Point)
    requires at.RecoverLocking? || at.DeleteLocking? || at.ReadLocking?
    requires id in s.db.reservations
    requires at.ReadLocking? ==> Described(CellOf(s.db, s.fs, id), at.size, at.digest)
    ensures ProcOk(s, Working(HandleOf(id, s.db.reservations[id]), false, Unlocked, at))
  {
  }

  lemma StartRecoverStep(s: Sys, p: Pid, owner: Uuid, id: Uuid)
    requires Inv(s) && p in s.procs && s.procs[p].Starting?
    ensures Inv(StartRecover(s, p, owner, id))
  {
    hide PointInv, CellInv, RowsOk, LinksOk, SumsOk, EffectsOk, KeysUnique;
    if id in s.db.reservations && s.db.reservations[id].owner == owner {
      HandleKnown(s, id, RecoverLocking);
      FreeMove(s, p, Working(HandleOf(id, s.db.reservations[id]), false, Unlocked, RecoverLocking));
    } else {
      ExitStep(s, p);
    }
  }

  lemma StartDeleteStep(s: Sys, p: Pid, owner: Uuid, file: Uuid)
    requires Inv(s) && p in s.procs && s.procs[p].Starting?
    ensures Inv(StartDelete(s, p, owner, file))
  {
    hide PointInv, CellInv, RowsOk, LinksOk, SumsOk, EffectsOk, KeysUnique;
    if file in s.db.files && s.db.files[file].owner == owner && s.db.files[file].reservation in s.db.reservations {
      var id := s.db.files[file].reservation;
      HandleKnown(s, id, DeleteLocking);
      FreeMove(s, p, Working(HandleOf(id, s.db.reservations[id]), false, Unlocked, DeleteLocking));
    } else {
      ExitStep(s, p);
    }
  }

  lemma ReadKnown(s: Sys, file: Uuid)
    requires RowsOk(s.db) && file in s.db.files
    ensures var row := s.db.files[file];
      row.reservation in s.db.reservations && Described(CellOf(s.db, s.fs, row.reservation), row.size, row.digest)
  {
    assert s.db.reservations[s.db.files[file].reservation].fileId == file;
  }

  lemma StartReadStep(s: Sys, p: Pid, owner: Uuid, file: Uuid)
    requires Inv(s) && p in s.procs && s.procs[p].Starting?
    ensures Inv(StartRead(s, p, owner, file))
  {
    hide PointInv, CellInv, RowsOk, LinksOk, SumsOk, EffectsOk, KeysUnique;
    if file in s.db.files && s.db.files[file].owner == owner && s.db.files[file].state == Ready
       && s.db.files[file].reservation in s.db.reservations {
      var row := s.db.files[file];
      ReadKnown(s, file);
      HandleKnown(s, row.reservation, ReadLocking(row.size, row.digest));
      FreeMove(s, p, Working(HandleOf(row.reservation, s.db.reservations[row.reservation]), false, Unlocked,
                             ReadLocking(row.size, row.digest)));
    } else {
      ExitStep(s, p);
    }
  }

  // ----- configuration and purges

  lemma SameSums(db: Db, next: Db)
    requires SumsOk(db)
    requires next.reservations == db.reservations && next.issued == db.issued && next.accounts.Keys == db.accounts.Keys
    requires forall f | f in db.files ::
      f in next.files && next.files[f].owner == db.files[f].owner && next.files[f].size == db.files[f].size &&
      Charged(next.files[f]) == Charged(db.files[f])
    requires next.files.Keys == db.files.Keys
    requires forall a | a in db.accounts ::
      next.accounts[a].used == db.accounts[a].used && next.accounts[a].reserved == db.accounts[a].reserved
    ensures SumsOk(next)
  {
    forall a | a in next.accounts
      ensures AccountOk(next, a)
    {
      assert AccountOk(db, a);
      SumCongruent(UsedOf(db, a), UsedOf(next, a), db.issued);
      SumCongruent(ReservedOf(db, a), ReservedOf(next, a), db.issued);
    }
  }

  ghost predicate OnlyConfigured(db: Db, next: Db) {
    && next.reservations == db.reservations && next.files == db.files && next.effects == db.effects
    && next.issued == db.issued && next.accounts.Keys == db.accounts.Keys
    && forall a | a in db.accounts ::
         next.accounts[a].used == db.accounts[a].used && next.accounts[a].reserved == db.accounts[a].reserved
  }

  ghost predicate SameRecords(db: Db, next: Db) {
    && next.reservations == db.reservations
    && next.files.Keys == db.files.Keys
    && forall f | f in db.files :: SameFile(db.files[f], next.files[f])
  }

  lemma AnswersSameRecords(s: Sys, t: Sys)
    requires AnswersOk(s) && SameRecords(s.db, t.db) && t.answers == s.answers
    ensures AnswersOk(t)
  {
    forall ret | ret in t.answers ensures Answered(t.db, ret) {
      assert Answered(s.db, ret);
      var o :| o in s.db.reservations && AnsweredBy(s.db, ret, o);
      assert AnsweredBy(t.db, ret, o);
    }
  }

  lemma ConfigureCells(db: Db, next: Db, fs: Fs)
    requires CellsOk(db, fs) && OnlyConfigured(db, next)
    ensures CellsOk(next, fs)
  {
    forall o | o in next.reservations ensures CellInv(CellOf(next, fs, o)) {
      assert CellOf(next, fs, o) == CellOf(db, fs, o);
      assert CellInv(CellOf(db, fs, o));
    }
  }

  lemma ConfigureProcs(s: Sys, next: Db)
    requires ProcsOk(s) && OnlyConfigured(s.db, next)
    ensures ProcsOk(s.(db := next))
  {
    var t := s.(db := next);
    forall q | q in t.procs
      ensures ProcOk(t, t.procs[q])
    {
      assert ProcOk(s, s.procs[q]);
      if s.procs[q].Working? {
        assert CellOf(next, t.fs, s.procs[q].op.id) == CellOf(s.db, s.fs, s.procs[q].op.id);
      }
    }
  }

  lemma ConfigureStep(s: Sys, next: Db)
    requires Inv(s) && OnlyConfigured(s.db, next)
    ensures Inv(s.(db := next))
  {
    hide PointInv, CellInv, SumsOk, CellsOk, ProcsOk, AnswersOk;
    SameSums(s.db, next);
    ConfigureCells(s.db, next, s.fs);
    ConfigureProcs(s, next);
    AnswersSameRecords(s, s.(db := next));
    TablesSame(s, s.(db := next));
    assert RowsOk(next) && KeysUnique(next) && LinksOk(next, s.fs) && EffectsOk(next);
  }

  ghost predicate Purged(c: Cell, d: Cell) {
    && d == c.(file := d.file)
    && (d.file == c.file ||
        (c.file.Some? && c.file.value.state == Ready && d.file == Some(c.file.value.(state := PendingDelete))))
  }

  lemma PurgedCell(c: Cell, d: Cell)
    requires CellInv(c) && Purged(c, d)
    ensures CellInv(d)
  {
  }

  lemma PurgedPoint(c: Cell, d: Cell, pr: Proc)
    requires pr.Working? && PcInv(pr, c) && Purged(c, d)
    ensures PcInv(pr, d)
  {
  }

  lemma PurgeCells(db: Db, fs: Fs, chosen: set<Uuid>, o: Uuid)
    requires o in db.reservations
    ensures Purged(CellOf(db, fs, o), CellOf(PurgeMark(db, chosen), fs, o))
  {
  }

  lemma PurgeRows(db: Db, chosen: set<Uuid>)
    requires RowsOk(db) && KeysUnique(db)
    ensures RowsOk(PurgeMark(db, chosen)) && KeysUnique(PurgeMark(db, chosen))
  {
  }

  lemma PurgeCellsOk(db: Db, fs: Fs, chosen: set<Uuid>)
    requires CellsOk(db, fs)
    ensures CellsOk(PurgeMark(db, chosen), fs)
  {
    var next := PurgeMark(db, chosen);
    forall o | o in next.reservations ensures CellInv(CellOf(next, fs, o)) {
      PurgeCells(db, fs, chosen, o);
      assert CellInv(CellOf(db, fs, o));
      PurgedCell(CellOf(db, fs, o), CellOf(next, fs, o));
    }
  }

  lemma PurgeSums(db: Db, chosen: set<Uuid>)
    requires SumsOk(db)
    ensures SumsOk(PurgeMark(db, chosen))
  {
    SameSums(db, PurgeMark(db, chosen));
  }

  lemma PurgeLinks(db: Db, fs: Fs, chosen: set<Uuid>)
    requires LinksOk(db, fs) && EffectsOk(db)
    ensures LinksOk(PurgeMark(db, chosen), fs) && EffectsOk(PurgeMark(db, chosen))
  {
  }

  lemma PurgeData(db: Db, fs: Fs, chosen: set<Uuid>)
    requires DataInv(db, fs)
    ensures DataInv(PurgeMark(db, chosen), fs)
  {
    hide RowsOk, KeysUnique, CellsOk, SumsOk, LinksOk, EffectsOk;
    PurgeSums(db, chosen);
    PurgeCellsOk(db, fs, chosen);
    PurgeRows(db, chosen);
    PurgeLinks(db, fs, chosen);
  }

  lemma PurgeProcs(s: Sys, chosen: set<Uuid>)
    requires ProcsOk(s)
    ensures ProcsOk(s.(db := PurgeMark(s.db, chosen)))
  {
    var t := s.(db := PurgeMark(s.db, chosen));
    forall q | q in t.procs
      ensures ProcOk(t, t.procs[q])
    {
      var pr := s.procs[q];
      assert ProcOk(s, pr);
      if pr.Working? {
        PurgeCells(s.db, s.fs, chosen, pr.op.id);
        PurgedPoint(CellOf(s.db, s.fs, pr.op.id), CellOf(t.db, t.fs, pr.op.id), pr);
      }
    }
  }

  lemma PurgeStep(s: Sys, chosen: set<Uuid>)
    requires Inv(s)
    ensures Inv(s.(db := PurgeMark(s.db, chosen)))
  {
    hide PointInv, CellInv, RowsOk, LinksOk, SumsOk, EffectsOk, KeysUnique;
    PurgeData(s.db, s.fs, chosen);
    PurgeProcs(s, chosen);
    AnswersSameRecords(s, s.(db := PurgeMark(s.db, chosen)));
    TablesSame(s, s.(db := PurgeMark(s.db, chosen)));
  }
}
