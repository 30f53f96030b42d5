/** The birth of an operation, and the invariant over every run. */
module StorageRuns {
  import opened Common
  import opened StorageTables
  import opened StorageFiles
  import opened StorageMachine
  import opened StorageInvariant
  import opened StorageFrame
  import opened StorageMoves
  import opened StorageSteps
  import opened StorageCleaning

  /** The tables after `_begin` inserted a reservation for `req`. */
  ghost predicate Inserted(db: Db, next: Db, req: Request, row: Reservation) {
    && req.owner in db.accounts
    && (forall id | id in db.reservations && id < db.issued ::
          !(db.reservations[id].owner == req.owner && db.reservations[id].key == req.key))
    && row.owner == req.owner && row.key == req.key && row.fileId == db.issued + 1
    && row.state == Reserved && row.written == 0
    && next == db.(reservations := db.reservations[db.issued := row],
                   accounts := db.accounts[req.owner :=
                     db.accounts[req.owner].(reserved := db.accounts[req.owner].reserved + row.allocation)],
                   issued := db.issued + 3)
  }

  lemma BeginInserts(db: Db, policy: Policy, clock: nat, free: nat, req: Request)
    requires Begin(db, policy, clock, free, req).1.Ok? && Begin(db, policy, clock, free, req).1.value.created
    ensures var (next, begun) := Begin(db, policy, clock, free, req);
      && db.issued in next.reservations
      && Inserted(db, next, req, next.reservations[db.issued])
      && begun.value.op == HandleOf(db.issued, next.reservations[db.issued])
  {
  }

  lemma InsertedIds(db: Db, next: Db, req: Request, row: Reservation)
    requires RowsOk(db) && KeysUnique(db) && Inserted(db, next, req, row)
    ensures RowsOk(next) && KeysUnique(next)
  {
    InsertedRows(db, next, req, row);
    InsertedKeys(db, next, req, row);
  }

  lemma InsertedRows(db: Db, next: Db, req: Request, row: Reservation)
    requires RowsOk(db) && Inserted(db, next, req, row)
    ensures RowsOk(next)
  {
  }

  lemma InsertedKeys(db: Db, next: Db, req: Request, row: Reservation)
    requires RowsOk(db) && KeysUnique(db) && Inserted(db, next, req, row)
    ensures KeysUnique(next)
  {
    hide RowsOk;
    assert forall id | id in db.reservations :: id < db.issued by { Issued(db); }
  }

  lemma Issued(db: Db)
    requires RowsOk(db)
    ensures forall id | id in db.reservations :: id < db.issued
    ensures forall f | f in db.files :: f < db.issued
  {
  }

  lemma InsertedSums(db: Db, next: Db, req: Request, row: Reservation)
    requires RowsOk(db) && SumsOk(db) && Inserted(db, next, req, row)
    ensures SumsOk(next)
  {
    forall a | a in next.accounts
      ensures AccountOk(next, a)
    {
      assert AccountOk(db, a);
      InsertedUsed(db, next, req, row, a);
      InsertedReserved(db, next, req, row, a);
    }
  }

  lemma InsertedUsed(db: Db, next: Db, req: Request, row: Reservation, a: Uuid)
    requires RowsOk(db) && Inserted(db, next, req, row)
    ensures Sum(UsedOf(next, a), next.issued) == Sum(UsedOf(db, a), db.issued)
  {
    SumExtend(UsedOf(db, a), db.issued, next.issued);
    SumCongruent(UsedOf(db, a), UsedOf(next, a), next.issued);
  }

  lemma InsertedReserved(db: Db, next: Db, req: Request, row: Reservation, a: Uuid)
    requires RowsOk(db) && Inserted(db, next, req, row)
    ensures Sum(ReservedOf(next, a), next.issued) ==
            Sum(ReservedOf(db, a), db.issued) + if a == req.owner then row.allocation else 0
  {
    hide RowsOk;
    Issued(db);
    assert forall i: nat | i != db.issued :: ReservedOf(next, a)(i) == ReservedOf(db, a)(i);
    SumExtend(ReservedOf(db, a), db.issued, next.issued);
    SumUpdate(ReservedOf(db, a), ReservedOf(next, a), next.issued, db.issued);
  }

  lemma InsertedCells(db: Db, fs: Fs, next: Db, req: Request, row: Reservation, q: Uuid)
    requires RowsOk(db) && Inserted(db, next, req, row) && q in db.reservations
    ensures q in next.reservations && CellOf(next, fs, q) == CellOf(db, fs, q)
  {
  }

  lemma NewCell(db: Db, fs: Fs, next: Db, req: Request, row: Reservation)
    requires RowsOk(db) && LinksOk(db, fs) && Inserted(db, next, req, row)
    ensures CellOf(next, fs, db.issued) == Cell(row, None, None, None)
  {
    forall n | n in fs.published
      ensures n.id < db.issued
    {
      assert db.reservations[fs.inodes[fs.published[n]].creator].fileId == n.id;
    }
  }

  lemma InsertedData(db: Db, fs: Fs, next: Db, req: Request, row: Reservation)
    requires DataInv(db, fs) && Inserted(db, next, req, row)
    ensures DataInv(next, fs)
  {
    hide SumsOk;
    InsertedIds(db, next, req, row);
    InsertedSums(db, next, req, row);
    NewCell(db, fs, next, req, row);
    InsertedCellsOk(db, fs, next, req, row);
    InsertedLinks(db, fs, next, req, row);
  }

  lemma InsertedCellsOk(db: Db, fs: Fs, next: Db, req: Request, row: Reservation)
    requires RowsOk(db) && CellsOk(db, fs) && Inserted(db, next, req, row)
    requires CellInv(CellOf(next, fs, db.issued))
    ensures CellsOk(next, fs)
  {
    forall q | q in next.reservations
      ensures CellInv(CellOf(next, fs, q))
    {
      if q != db.issued {
        assert CellInv(CellOf(db, fs, q));
        InsertedCells(db, fs, next, req, row, q);
      }
    }
  }

  lemma InsertedLinks(db: Db, fs: Fs, next: Db, req: Request, row: Reservation)
    requires RowsOk(db) && LinksOk(db, fs) && EffectsOk(db) && Inserted(db, next, req, row)
    ensures LinksOk(next, fs) && EffectsOk(next)
  {
    assert db.issued !in db.reservations;
  }

  lemma InsertedAnswers(s: Sys, t: Sys, req: Request, row: Reservation)
    requires AnswersOk(s) && RowsOk(s.db) && Inserted(s.db, t.db, req, row) && t.answers == s.answers
    ensures AnswersOk(t)
  {
    forall ret | ret in t.answers ensures Answered(t.db, ret) {
      assert Answered(s.db, ret);
      var o :| o in s.db.reservations && AnsweredBy(s.db, ret, o);
      assert AnsweredBy(t.db, ret, o);
    }
  }

  lemma InsertedProcs(s: Sys, t: Sys, p: Pid, pr: Proc, req: Request, row: Reservation)
    requires RowsOk(s.db) && ProcsOk(s) && Inserted(s.db, t.db, req, row) && t.fs == s.fs && t.procs == s.procs[p := pr]
    requires ProcOk(t, pr)
    ensures ProcsOk(t)
  {
    forall q | q in t.procs
      ensures ProcOk(t, t.procs[q])
    {
      if q != p {
        assert ProcOk(s, s.procs[q]);
        if s.procs[q].Working? {
          InsertedCells(s.db, s.fs, t.db, req, row, s.procs[q].op.id);
        }
      }
    }
  }

  lemma NewProcTables(s: Sys, t: Sys, p: Pid, pr: Proc)
    requires LocksOk(s) && SqlOk(s) && CreatorsUnique(s) && ProcsOk(s)
    requires p in s.procs && s.procs[p].Starting? && pr.Working? && pr.held == Unlocked && !InTransaction(pr)
    requires pr.op.id !in s.db.reservations
    requires t.procs == s.procs[p := pr] && t.locks == s.locks && t.shared == s.shared && t.sql == s.sql
    ensures LocksOk(t) && SqlOk(t) && CreatorsUnique(t)
  {
    hide PcInv;
    forall o | o in t.locks ensures LockHeld(t, o) { assert LockHeld(s, o); }
    forall e | e in t.shared ensures ShareHeld(t, e) { assert ShareHeld(s, e); }
    forall q | q in t.procs ensures HoldRecorded(t, q, t.procs[q]) {
      assert q != p ==> HoldRecorded(s, q, s.procs[q]);
    }
    forall q | q in s.procs && CreatorOf(s.procs[q]).Some?
      ensures CreatorOf(s.procs[q]) != CreatorOf(pr)
    {
      assert ProcOk(s, s.procs[q]);
    }
  }

  /** `_begin` inserts a reservation and its call goes for the lock. */
  lemma CreatedStep(s: Sys, t: Sys, p: Pid, req: Request, row: Reservation)
    requires Inv(s) && p in s.procs && s.procs[p].Starting? && Inserted(s.db, t.db, req, row)
    requires t == To(s.(db := t.db), p, Working(HandleOf(s.db.issued, row), true, Unlocked, TakingLock(req)))
    ensures Inv(t)
  {
    hide CellInv, SumsOk, EffectsOk, LocksOk, CreatorsUnique, AnswersOk;
    var pr := Working(HandleOf(s.db.issued, row), true, Unlocked, TakingLock(req));
    NewCell(s.db, s.fs, t.db, req, row);
    InsertedData(s.db, s.fs, t.db, req, row);
    InsertedAnswers(s, t, req, row);
    InsertedProcs(s, t, p, pr, req, row);
    NewProcTables(s, t, p, pr);
  }

  lemma ReplayKnown(s: Sys, env: Env, req: Request)
    requires RowsOk(s.db)
    requires Begin(s.db, s.policy, s.clock, env.free, req).1.Ok?
      && !Begin(s.db, s.policy, s.clock, env.free, req).1.value.created
    ensures var (next, begun) := Begin(s.db, s.policy, s.clock, env.free, req);
      next == s.db && ProcOk(s, Working(begun.value.op, false, Unlocked, TakingLock(req)))
  {
  }

  lemma StartStoreStep(s: Sys, p: Pid, req: Request, env: Env)
    requires Inv(s) && p in s.procs && s.procs[p].Starting?
    ensures Inv(StartStore(s, p, req, env))
  {
    hide PointInv, CellInv, DataInv, Begin, LocksOk, CreatorsUnique, AnswersOk, ProcsOk, SqlOk, Inserted;
    ExitStep(s, p);
    var t := StartStore(s, p, req, env);
    if t != Exit(s, p) && t != s {
      var begun := Begin(s.db, s.policy, s.clock, env.free, req).1;
      if begun.value.created {
        BeginInserts(s.db, s.policy, s.clock, env.free, req);
        CreatedStep(s, t, p, req, t.db.reservations[s.db.issued]);
      } else {
        assert RowsOk(s.db) by { RowsOf(s); }
        ReplayKnown(s, env, req);
        FreeMove(s, p, Working(begun.value.op, false, Unlocked, TakingLock(req)));
      }
    }
  }

  lemma RowsOf(s: Sys)
    requires Inv(s)
    ensures RowsOk(s.db)
  {
  }

  // ----- replays

  lemma ReplaySafe(s: Sys, p: Pid)
    requires Poised(s, p) && s.procs[p].at.Replaying?
    ensures var pr := s.procs[p]; var t := StepReplay(s, p, pr, pr.at.req);
      t.db == s.db && t.fs == s.fs && HolderMoves(s, t, p, t.procs[p].at) && ProcOk(t, t.procs[p])
  {
    hide RowsOk, LinksOk, CommittedInv;
    assert s.sql != Some(p);
  }

  lemma ReplayStep(s: Sys, p: Pid)
    requires Inv(s) && p in s.procs && s.procs[p].Working? && s.procs[p].at.Replaying?
    ensures Inv(StepReplay(s, p, s.procs[p], s.procs[p].at.req))
  {
    hide PointInv, CellInv, Inv, Poised, HolderMoves;
    var t := StepReplay(s, p, s.procs[p], s.procs[p].at.req);
    PoisedBy(s, p);
    ReplaySafe(s, p);
    StayStep(s, t, p, t.procs[p].at);
  }

  // ----- runs

  lemma WorkStep(s: Sys, p: Pid, env: Env)
    requires Inv(s) && p in s.procs && s.procs[p].Working? && (Transacting(s.procs[p].at) ==> s.sql == None)
    ensures Inv(StepWork(s, p, s.procs[p], env))
  {
    hide Inv, StepReplay, StepStage, StepChunk, StepPart, StepWrite, StepWritten, StepInsert, StepPublish, StepLink,
         StepCommit, StepCleanMark, StepCleanCommitted, StepCleanPublished, StepCleanStaging, StepCleanAbort,
         StepRecoverReread, StepDeleteMark, StepRemovePublished, StepRemoveStaging, StepUncharge, StepReadLock,
         StepReadCheck, AfterWhy, TryExclusive, Exit;
    match s.procs[p].at
    case TakingLock(req) => LockSteps(s, p);
    case Replaying(req) => ReplayStep(s, p);
    case Staging(req) => StageStep(s, p);
    case NextChunk(req, ino, data) => ChunkStep(s, p, env.chunk);
    case NextPart(req, ino, data, rest) => PartStep(s, p, env);
    case WritingPart(req, ino, data, part, done, rest) => if done < |part| { WriteStep(s, p, env.count); }
    case PartWritten(req, ino, data, rest) => WrittenStep(s, p, env);
    case Inserting(req, data) => InsertStep(s, p);
    case Publishing(req, data) => PublishStep(s, p, env);
    case Linking(req, data) => LinkStep(s, p);
    case Committing(req, data) => CommitStep(s, p, env.outcome);
    case CleanMarking(why) => CleanMarkStep(s, p);
    case CleaningCommitted(why) => CleanCommittedStep(s, p);
    case CleaningPublished(why) => CleanPublishedStep(s, p);
    case CleaningStaging(why) => CleanStagingStep(s, p);
    case CleanAborting(why) => CleanAbortStep(s, p);
    case Returning(why) => ReturnStep(s, p);
    case RecoverLocking => LockSteps(s, p);
    case RecoverRereading => RecoverRereadStep(s, p);
    case DeleteLocking => LockSteps(s, p);
    case DeleteMarking => DeleteMarkStep(s, p, env.authorized);
    case RemovingPublished(size) => RemovePublishedStep(s, p);
    case RemovingStaging(size) => RemoveStagingStep(s, p);
    case Uncharging(size) => UnchargeStep(s, p);
    case ReadLocking(size, digest) => ReadLockStep(s, p);
    case ReadChecking(size, digest) => ReadCheckStep(s, p);
    case Reading(_, _) => ExitStep(s, p);
  }

  lemma GoStep(s: Sys, p: Pid, env: Env)
    requires Inv(s)
    ensures Inv(Step(s, p, env))
  {
    hide Inv, StepWork, StartStore, StartRecover, StartDelete, StartRead, Transacting;
    if p in s.procs {
      var pr := s.procs[p];
      if pr.Starting? {
        match pr.call
        case StoreCall(req) => StartStoreStep(s, p, req, env);
        case RecoverCall(owner, id) => StartRecoverStep(s, p, owner, id);
        case DeleteCall(owner, file) => StartDeleteStep(s, p, owner, file);
        case ReadCall(owner, file) => StartReadStep(s, p, owner, file);
      } else if !(Transacting(pr.at) && s.sql.Some?) {
        WorkStep(s, p, env);
      }
    }
  }

  lemma TickStep(s: Sys, seconds: nat)
    requires Inv(s)
    ensures Inv(s.(clock := s.clock + seconds))
  {
    hide PointInv, CellInv, RowsOk, LinksOk, SumsOk, EffectsOk, KeysUnique;
    var t := s.(clock := s.clock + seconds);
    TablesSame(s, t);
    forall q | q in t.procs ensures ProcOk(t, t.procs[q]) { assert ProcOk(s, s.procs[q]); }
    AnswersSame(s, t);
  }

  /** Whatever happens next, the invariant survives. */
  lemma ApplyStep(s: Sys, a: Action)
    requires Inv(s)
    ensures Inv(Apply(s, a))
  {
    hide Inv, Step, Recoil, Exit, PurgeMark;
    match a
    case Start(p, call) => if p !in s.procs { FreeMove(s, p, Starting(call)); }
    case Go(p, env) => GoStep(s, p, env);
    case Raise(p) => if p in s.procs && s.procs[p].Working? && Guarded(s.procs[p].at) { RecoilStep(s, p); }
    case Crash(p) => ExitStep(s, p);
    case Tick(seconds) => TickStep(s, seconds);
    case Purge(chosen) => PurgeStep(s, chosen);
    case ConfigureDefault(amount) => ConfigureStep(s, SetDefault(s.db, amount));
    case ConfigureOverride(owner, limit) => ConfigureStep(s, SetOverride(s.db, owner, limit));
  }

  lemma InitInv(s: Sys)
    requires Init(s)
    ensures Inv(s)
  {
    forall a | a in s.db.accounts
      ensures AccountOk(s.db, a)
    {
      SumExtend(UsedOf(s.db, a), 0, s.db.issued);
      SumExtend(ReservedOf(s.db, a), 0, s.db.issued);
    }
  }

  /** Every state of every run satisfies the invariant. */
  lemma {:induction false} RunInv(s: Sys, actions: seq<Action>)
    requires Inv(s)
    ensures Inv(Run(s, actions))
    decreases |actions|
  {
    hide Inv, Apply;
    if actions != [] {
      ApplyStep(s, actions[0]);
      RunInv(Apply(s, actions[0]), actions[1..]);
    }
  }

  ghost predicate Reachable(t: Sys) {
    exists s, actions :: Init(s) && Run(s, actions) == t
  }

  lemma ReachableInv(t: Sys)
    requires Reachable(t)
    ensures Inv(t)
  {
    var s, actions :| Init(s) && Run(s, actions) == t;
    InitInv(s);
    RunInv(s, actions);
  }
}
