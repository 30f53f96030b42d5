/** Promises over whole runs: a key that aborted never succeeds, a committed file keeps its bytes until it is marked
    for deletion, and the ceilings hold. */
module StorageGuarantees {
  import opened Common
  import opened StorageTables
  import opened StorageFiles
  import opened StorageMachine
  import opened StorageInvariant
  import opened StorageFrame
  import opened StorageMoves
  import opened StorageSteps
  import opened StorageRuns
  import opened StorageHistory

  // ----- rows over runs

  lemma ForwardTrans(a: Db, b: Db, c: Db)
    requires Forward(a, b) && Forward(b, c)
    ensures Forward(a, c)
  {
  }

  lemma {:induction false} RunForward(s: Sys, actions: seq<Action>)
    requires Inv(s)
    ensures Forward(s.db, Run(s, actions).db)
    decreases |actions|
  {
    hide Inv, Apply, Forward, Thrifty;
    if actions == [] {
      SameLawful(s.db, s.policy);
      assert Lawful(s.db, s.db, s.policy);
    } else {
      ApplyStep(s, actions[0]);
      ApplyLawful(s, actions[0]);
      RunForward(Apply(s, actions[0]), actions[1..]);
      ForwardTrans(s.db, Apply(s, actions[0]).db, Run(s, actions).db);
    }
  }

  /** Once a key's operation aborted, no continuation of the run ever answers that key. */
  lemma AbortedNeverSucceeds(s: Sys, actions: seq<Action>, o: Uuid)
    requires Reachable(s) && o in s.db.reservations && s.db.reservations[o].state == Aborted
    ensures var t := Run(s, actions);
      && o in t.db.reservations && t.db.reservations[o].state == Aborted
      && multiset(t.db.effects)[o] == 0
      && forall ret | ret in t.answers ::
           !(ret.owner == s.db.reservations[o].owner && ret.key == s.db.reservations[o].key)
  {
    hide Inv, Apply, Run;
    var t := Run(s, actions);
    ReachableInv(s);
    RunForward(s, actions);
    RunInv(s, actions);
    EffectsCount(t);
    assert RowForward(s.db.reservations[o], t.db.reservations[o]);
    forall ret | ret in t.answers
      ensures !(ret.owner == s.db.reservations[o].owner && ret.key == s.db.reservations[o].key)
    {
      if ret.owner == s.db.reservations[o].owner && ret.key == s.db.reservations[o].key {
        AnsweredKey(t, ret, o);
      }
    }
  }

  lemma AnsweredKey(t: Sys, ret: Return, o: Uuid)
    requires Inv(t) && ret in t.answers && o in t.db.reservations
    requires ret.owner == t.db.reservations[o].owner && ret.key == t.db.reservations[o].key
    ensures t.db.reservations[o].state == Committed
  {
    hide PcInv, CellInv, RowsOk, LinksOk, SumsOk, EffectsOk, LocksOk, SqlOk, CreatorsUnique;
    assert Answered(t.db, ret);
  }

  lemma EffectsCount(t: Sys)
    requires Inv(t)
    ensures forall o | o in t.db.reservations ::
      multiset(t.db.effects)[o] == if t.db.reservations[o].state == Committed then 1 else 0
  {
    hide PcInv, CellInv, RowsOk, LinksOk, SumsOk, LocksOk, SqlOk, CreatorsUnique, AnswersOk;
  }

  lemma CommittedFile(s: Sys, o: Uuid)
    requires Inv(s) && o in s.db.reservations && s.db.reservations[o].state == Committed
    ensures s.db.reservations[o].fileId in s.db.files
  {
    hide PcInv, RowsOk, LinksOk, SumsOk, LocksOk, SqlOk, CreatorsUnique, AnswersOk;
    assert CellInv(CellOf(s.db, s.fs, o));
  }

  /** Once committed, always committed, with the same file of the same size and digest. */
  lemma CommittedForever(s: Sys, actions: seq<Action>, o: Uuid)
    requires Reachable(s) && o in s.db.reservations && s.db.reservations[o].state == Committed
    ensures var t := Run(s, actions); var f := s.db.reservations[o].fileId;
      && o in t.db.reservations && t.db.reservations[o].state == Committed && t.db.reservations[o].fileId == f
      && f in s.db.files && f in t.db.files && SameFile(s.db.files[f], t.db.files[f])
      && (s.db.files[f].state == Deleted ==> t.db.files[f].state == Deleted)
      && multiset(t.db.effects)[o] == 1
  {
    hide Inv, Apply, Run;
    var t, f := Run(s, actions), s.db.reservations[o].fileId;
    ReachableInv(s);
    RunForward(s, actions);
    RunInv(s, actions);
    CommittedFile(s, o);
    EffectsCount(t);
    assert RowForward(s.db.reservations[o], t.db.reservations[o]);
    assert FileForward(s.db.files[f], t.db.files[f]);
  }

  // ----- published bytes

  /** The published entry and the inode it names stay as they are. */
  ghost predicate Kept(fs: Fs, next: Fs, name: FileName) {
    name in fs.published && fs.published[name] in fs.inodes ==>
      && name in next.published && next.published[name] == fs.published[name]
      && next.published[name] in next.inodes && next.inodes[next.published[name]] == fs.inodes[fs.published[name]]
  }

  /** A ready file and its published inode belong to one committed operation. */
  ghost predicate Settling(s: Sys, f: Uuid, o: Uuid) {
    && o in s.db.reservations && s.db.reservations[o].fileId == f && s.db.reservations[o].state == Committed
    && f in s.db.files && s.db.files[f].state == Ready && s.db.files[f].reservation == o
    && (forall q | q in s.db.reservations && q != o :: s.db.reservations[q].fileId != f)
    && var n := RowName(s.db.reservations[o]);
       n in s.fs.published && s.fs.published[n] in s.fs.inodes && s.fs.inodes[s.fs.published[n]].creator == o
       && s.fs.published[n] < s.fs.nextInode
  }

  lemma SettlingBy(s: Sys, f: Uuid)
    requires Inv(s) && f in s.db.files && s.db.files[f].state == Ready
    ensures Settling(s, f, s.db.files[f].reservation)
  {
    hide PcInv, LocksOk, SqlOk, SumsOk, EffectsOk, AnswersOk, CreatorsUnique, CellInv;
    var o := s.db.files[f].reservation;
    assert CellInv(CellOf(s.db, s.fs, o));
    ReadyHolds(CellOf(s.db, s.fs, o));
  }

  lemma StageKept(s: Sys, p: Pid, req: Request, f: Uuid, o: Uuid)
    requires Settling(s, f, o) && p in s.procs && s.procs[p].Working?
    ensures Kept(s.fs, StepStage(s, p, s.procs[p], req).fs, RowName(s.db.reservations[o]))
  {
  }

  lemma WriteKept(s: Sys, p: Pid, f: Uuid, o: Uuid, env: Env)
    requires Settling(s, f, o) && Poised(s, p) && s.procs[p].at.WritingPart?
    ensures Kept(s.fs, StepWork(s, p, s.procs[p], env).fs, RowName(s.db.reservations[o]))
  {
    hide CellInv, RowsOk, SqlOk;
    var pr := s.procs[p];
    assert Streaming(CellOf(s.db, s.fs, pr.op.id), pr.at.ino, pr.at.data + pr.at.part[..pr.at.done]);
    assert s.fs.staging[pr.op.id] == pr.at.ino;
  }

  lemma UnlinkKept(s: Sys, p: Pid, f: Uuid, o: Uuid, env: Env)
    requires Settling(s, f, o) && Poised(s, p)
    requires var at := s.procs[p].at;
      at.Linking? || at.CleaningPublished? || at.RemovingPublished? || at.CleaningCommitted? || at.CleaningStaging?
      || at.RemovingStaging?
    ensures Kept(s.fs, StepWork(s, p, s.procs[p], env).fs, RowName(s.db.reservations[o]))
  {
    hide CellInv, RowsOk, LinksOk, SqlOk, Kept;
    if s.procs[p].at.Linking? {
      LinkKept(s, p, f, o);
    } else {
      DropKept(s, p, f, o, env);
    }
  }

  lemma DropKept(s: Sys, p: Pid, f: Uuid, o: Uuid, env: Env)
    requires Settling(s, f, o) && Poised(s, p)
    requires var at := s.procs[p].at;
      at.CleaningPublished? || at.RemovingPublished? || at.CleaningCommitted? || at.CleaningStaging?
        || at.RemovingStaging?
    ensures Kept(s.fs, StepWork(s, p, s.procs[p], env).fs, RowName(s.db.reservations[o]))
  {
    hide CellInv, RowsOk, LinksOk, SqlOk;
    assert s.procs[p].op.id != o ==> s.procs[p].op.fileId != f;
  }

  lemma LinkKept(s: Sys, p: Pid, f: Uuid, o: Uuid)
    requires Settling(s, f, o) && Poised(s, p) && s.procs[p].at.Linking?
    ensures Kept(s.fs, StepLink(s, p, s.procs[p], s.procs[p].at.req, s.procs[p].at.data).fs,
      RowName(s.db.reservations[o]))
  {
    hide CellInv, RowsOk, LinksOk, SqlOk;
  }

  predicate Linkless(at: Point) {
    !(at.Staging? || at.WritingPart? || at.Linking? || at.CleaningPublished? || at.RemovingPublished?
      || at.CleaningCommitted? || at.CleaningStaging? || at.RemovingStaging?)
  }

  lemma LinklessStep(s: Sys, p: Pid, env: Env)
    requires p in s.procs && s.procs[p].Working? && Linkless(s.procs[p].at)
    ensures StepWork(s, p, s.procs[p], env).fs == s.fs
  {
    hide Advance, InsertStaged, PublishCheck, PublishCommit, CleanMark, CleanAbort, DeleteMark, DeleteFinish, FindKey;
  }

  lemma CallFs(s: Sys, p: Pid, call: Call, env: Env)
    ensures StepCall(s, p, call, env).fs == s.fs
  {
  }

  /** No step unlinks or rewrites a file that is ready, whoever takes it. */
  lemma ReadyUntouched(s: Sys, a: Action, f: Uuid)
    requires Inv(s) && f in s.db.files && s.db.files[f].state == Ready
    ensures Kept(s.fs, Apply(s, a).fs, FileName(s.db.files[f].owner, f))
    ensures Apply(s, a).fs.published.Keys >= {FileName(s.db.files[f].owner, f)}
  {
    hide Inv, StepWork, StepCall, Poised, Linkless;
    SettlingBy(s, f);
    var o := s.db.files[f].reservation;
    assert RowsOk(s.db) by { RowsOf(s); }
    if a.Go? && a.pid in s.procs {
      var p, pr := a.pid, s.procs[a.pid];
      if pr.Starting? {
        CallFs(s, p, pr.call, a.env);
      } else if Linkless(pr.at) {
        LinklessStep(s, p, a.env);
      } else {
        ChangingStep(s, p, a.env, f, o);
      }
    }
  }

  lemma ChangingStep(s: Sys, p: Pid, env: Env, f: Uuid, o: Uuid)
    requires Inv(s) && Settling(s, f, o) && p in s.procs && s.procs[p].Working? && !Linkless(s.procs[p].at)
    ensures Kept(s.fs, StepWork(s, p, s.procs[p], env).fs, RowName(s.db.reservations[o]))
  {
    hide Inv, Poised, Settling;
    PoisedBy(s, p);
    var pr := s.procs[p];
    if pr.at.WritingPart? { WriteKept(s, p, f, o, env); }
    else if pr.at.Staging? { StageKept(s, p, pr.at.req, f, o); }
    else { UnlinkKept(s, p, f, o, env); }
  }

  /** As long as a file is ready its published name leads to the same bytes, whatever else runs. */
  lemma {:induction false} ReadyKept(s: Sys, actions: seq<Action>, f: Uuid)
    requires Inv(s) && f in s.db.files && s.db.files[f].state == Ready
    requires f in Run(s, actions).db.files && Run(s, actions).db.files[f].state == Ready
    ensures var n := FileName(s.db.files[f].owner, f); n in s.fs.published && Kept(s.fs, Run(s, actions).fs, n)
    decreases |actions|
  {
    hide Inv, Apply, Lawful;
    SettlingBy(s, f);
    assert RowsOk(s.db) by { RowsOf(s); }
    if actions != [] {
      var t := Apply(s, actions[0]);
      ApplyStep(s, actions[0]);
      StillReady(s, actions, f);
      ReadyUntouched(s, actions[0], f);
      ReadyKept(t, actions[1..], f);
    }
  }

  lemma StillReady(s: Sys, actions: seq<Action>, f: Uuid)
    requires Inv(s) && actions != [] && f in s.db.files && s.db.files[f].state == Ready
    requires f in Run(s, actions).db.files && Run(s, actions).db.files[f].state == Ready
    ensures var t := Apply(s, actions[0]);
      f in t.db.files && t.db.files[f].state == Ready && t.db.files[f].owner == s.db.files[f].owner
  {
    hide Inv, Apply;
    ApplyStep(s, actions[0]);
    ApplyLawful(s, actions[0]);
    var t := Apply(s, actions[0]);
    RunForward(t, actions[1..]);
    assert FileForward(s.db.files[f], t.db.files[f]);
    assert FileForward(t.db.files[f], Run(s, actions).db.files[f]);
  }

  // ----- ceilings

  /** A lowered limit may leave an owner over it, but then no step whatsoever lets the total grow. */
  lemma OverLimitNeverGrows(s: Sys, a: Action, owner: Uuid)
    requires Reachable(s) && owner in s.db.accounts
    ensures var t := Apply(s, a);
      && owner in t.db.accounts
      && (OverLimit(t.db, t.db.accounts[owner]) ==> Total(t.db.accounts[owner]) <= Total(s.db.accounts[owner]))
  {
    hide Apply;
    ReachableInv(s);
    ApplyLawful(s, a);
    assert Settled(Apply(s, a).db, s.db.accounts[owner], Apply(s, a).db.accounts[owner]);
  }

  predicate Configures(a: Action) {
    a.ConfigureDefault? || a.ConfigureOverride?
  }

  ghost predicate Within(s: Sys) {
    && (forall o | o in s.db.accounts :: Total(s.db.accounts[o]) <= LimitOf(s.db, s.db.accounts[o]))
    && ActiveAllocation(s.db) <= s.policy.stagingBytes
  }

  ghost predicate SameLimit(db: Db, next: Db, owner: Uuid) {
    owner in db.accounts && owner in next.accounts ==>
      LimitOf(next, next.accounts[owner]) == LimitOf(db, db.accounts[owner])
  }

  lemma LimitsKept(s: Sys, a: Action, owner: Uuid)
    requires !Configures(a)
    ensures SameLimit(s.db, Apply(s, a).db, owner)
  {
    hide StepWork, StepCall, SameLimit, SetDefault, SetOverride;
    SameLimits(s, owner);
    if a.Go? && a.pid in s.procs {
      var pr := s.procs[a.pid];
      if pr.Starting? {
        CallLimits(s, a.pid, pr.call, a.env, owner);
      } else if Quiet(pr.at) {
        QuietStep(s, a.pid, pr, a.env);
      } else {
        if pr.at.CleanMarking? || pr.at.CleanAborting? || pr.at.DeleteMarking? || pr.at.Uncharging? {
          SettlingLimits(s, a.pid, a.env, owner);
        } else {
          WritingLimits(s, a.pid, a.env, owner);
        }
      }
    } else if a.Purge? {
      PurgeLimits(s.db, a.chosen, owner);
    }
  }

  lemma SameLimits(s: Sys, owner: Uuid)
    ensures SameLimit(s.db, s.db, owner)
  {
  }

  lemma PurgeLimits(db: Db, chosen: set<Uuid>, owner: Uuid)
    ensures SameLimit(db, PurgeMark(db, chosen), owner)
  {
  }

  lemma CallLimits(s: Sys, p: Pid, call: Call, env: Env, owner: Uuid)
    ensures SameLimit(s.db, StepCall(s, p, call, env).db, owner)
  {
    hide Capacity, FindKey;
  }

  lemma WritingLimits(s: Sys, p: Pid, env: Env, owner: Uuid)
    requires p in s.procs && s.procs[p].Working?
    requires var at := s.procs[p].at; at.NextPart? || at.PartWritten? || at.Inserting? || at.Committing?
    ensures SameLimit(s.db, StepWork(s, p, s.procs[p], env).db, owner)
  {
    hide Capacity, CleanMark, CleanAbort, DeleteMark, DeleteFinish, Recoil, Move;
    RecoilTables(s, p);
    MoveTables(p);
  }

  lemma SettlingLimits(s: Sys, p: Pid, env: Env, owner: Uuid)
    requires p in s.procs && s.procs[p].Working?
    requires var at := s.procs[p].at; at.CleanMarking? || at.CleanAborting? || at.DeleteMarking? || at.Uncharging?
    ensures SameLimit(s.db, StepWork(s, p, s.procs[p], env).db, owner)
  {
    hide Advance, InsertStaged, PublishCommit, PublishCheck, Recoil, Move;
    MoveTables(p);
  }

  lemma RecoilTables(s: Sys, p: Pid)
    ensures forall pr: Proc | pr.Working? :: Recoil(s, p, pr).db == s.db
  {
  }

  lemma MoveTables(p: Pid)
    ensures forall s: Sys, pr: Proc, at: Point | pr.Working? :: Move(s, p, pr, at).db == s.db
  {
  }

  lemma {:induction false} RunWithin(s: Sys, actions: seq<Action>)
    requires Inv(s) && Within(s)
    requires forall i | 0 <= i < |actions| :: !Configures(actions[i])
    ensures Within(Run(s, actions)) && Run(s, actions).policy == s.policy
    decreases |actions|
  {
    hide Inv, Apply, Forward;
    if actions != [] {
      var t := Apply(s, actions[0]);
      ApplyStep(s, actions[0]);
      ApplyLawful(s, actions[0]);
      forall o | o in t.db.accounts
        ensures Total(t.db.accounts[o]) <= LimitOf(t.db, t.db.accounts[o])
      {
        LimitsKept(s, actions[0], o);
        assert Settled(t.db, s.db.accounts[o], t.db.accounts[o]);
      }
      RunWithin(t, actions[1..]);
    }
  }

  /** With fixed limits no account ever exceeds its limit and staging never exceeds its own. */
  lemma CeilingsHold(s: Sys, actions: seq<Action>)
    requires Init(s) && forall i | 0 <= i < |actions| :: !Configures(actions[i])
    ensures var t := Run(s, actions);
      && (forall o | o in t.db.accounts :: Total(t.db.accounts[o]) <= LimitOf(t.db, t.db.accounts[o]))
      && ActiveAllocation(t.db) <= s.policy.stagingBytes
  {
    InitInv(s);
    SumExtend(AllocatedOf(s.db), 0, s.db.issued);
    RunWithin(s, actions);
  }
}
