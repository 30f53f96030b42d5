/** A run that ends in a half-removed file: the state on which `recover` alone fails. */
module StorageHalfRemoved {
  import opened Common
  import opened StorageTables
  import opened StorageFiles
  import opened StorageMachine
  import opened StorageRuns
  import opened StorageSequential
  import opened StorageRecovery

  lemma {:induction false} RunAppend(s: Sys, actions: seq<Action>, a: Action)
    ensures Run(s, actions + [a]) == Apply(Run(s, actions), a)
    decreases |actions|
  {
    hide Apply;
    if actions == [] {
      assert Run(s, [a]) == Run(Apply(s, a), []);
    } else {
      assert (actions + [a])[1..] == actions[1..] + [a];
      RunAppend(Apply(s, actions[0]), actions[1..], a);
    }
  }

  lemma ReachOn(s: Sys, a: Action)
    requires Reachable(s)
    ensures Reachable(Apply(s, a))
  {
    hide Apply;
    var start, actions :| Init(start) && Run(start, actions) == s;
    RunAppend(start, actions, a);
  }

  // One owner without quota stores an empty file, which needs none.

  const OWNER: Uuid := 0
  const POLICY := Policy(0, 0, 0, 0)
  const REQUEST := Request(OWNER, "key", "fingerprint", Document, None)
  const OPERATION := Handle(0, OWNER, 1, 2)
  const NAME := FileName(OWNER, 1)
  const RESULT := StoredFile(1, OWNER, 0, Sha256([]))
  const STEP := Env(0, None, 0, CommitAnswered, true)

  function Row(state: ReservationState): Reservation {
    Reservation(OWNER, 1, "key", "fingerprint", Document, None, state, 0, 0, 2, 0)
  }

  function Tables(rows: map<Uuid, Reservation>, files: map<Uuid, FileRow>, effects: seq<Uuid>, issued: nat): Db {
    Db(0, map[OWNER := Account(None, 0, 0)], rows, files, effects, issued)
  }

  function FileIn(state: FileState): FileRow {
    FileRow(OWNER, 0, 0, Sha256([]), state)
  }

  function Directory(staging: map<Uuid, nat>, published: map<FileName, nat>): Fs {
    Fs(map[0 := Inode(0, [])], staging, published, 1)
  }

  function Idle(db: Db, fs: Fs): Sys {
    Sys(db, fs, POLICY, 0, map[], {}, None, map[], [])
  }

  function At(db: Db, fs: Fs, created: bool, at: Point): Sys {
    Sys(db, fs, POLICY, 0, map[0 := 0], {}, if at.Linking? || at.Committing? then Some(0) else None,
        map[0 := Working(OPERATION, created, Exclusive, at)], [])
  }

  const EMPTY := Idle(Tables(map[], map[], [], 0), Fs(map[], map[], map[], 0))

  const RESERVED := Tables(map[0 := Row(Reserved)], map[], [], 3)
  const STAGED := Tables(map[0 := Row(Staged)], map[1 := FileIn(InStaging)], [], 3)
  const READY := Tables(map[0 := Row(Committed)], map[1 := FileIn(Ready)], [0], 3)
  const PENDING := Tables(map[0 := Row(Committed)], map[1 := FileIn(PendingDelete)], [0], 3)

  const UNLINKED := Directory(map[0 := 0], map[])
  const LINKED := Directory(map[0 := 0], map[NAME := 0])

  lemma Begins() returns (t: Sys)
    ensures Reachable(t)
    ensures t == Idle(RESERVED, EMPTY.fs).(procs := map[0 := Working(OPERATION, true, Unlocked, TakingLock(REQUEST))])
  {
    hide Reachable;
    EmptyReachable();
    ReachOn(EMPTY, Start(0, StoreCall(REQUEST)));
    t := Apply(EMPTY, Start(0, StoreCall(REQUEST)));
    ReachOn(t, Go(0, STEP));
    t := Apply(t, Go(0, STEP));
  }

  /** The store until its staging file exists. */
  lemma Opens() returns (t: Sys)
    ensures Reachable(t) && t == At(RESERVED, UNLINKED, true, NextChunk(REQUEST, 0, []))
  {
    hide Reachable;
    t := Begins();
    ReachOn(t, Go(0, STEP));
    t := Apply(t, Go(0, STEP));
    assert t == At(RESERVED, EMPTY.fs, true, Staging(REQUEST));
    ReachOn(t, Go(0, STEP));
    t := Apply(t, Go(0, STEP));
  }

  lemma EmptyReachable()
    ensures Reachable(EMPTY)
  {
    assert Init(EMPTY) && Run(EMPTY, []) == EMPTY;
  }

  /** The end of the stream. */
  lemma Ends() returns (t: Sys)
    ensures Reachable(t) && t == At(RESERVED, UNLINKED, true, Inserting(REQUEST, []))
  {
    hide Reachable;
    t := Opens();
    ReachOn(t, Go(0, STEP));
    t := Apply(t, Go(0, STEP));
  }

  /** The staged row. */
  lemma Inserts() returns (t: Sys)
    ensures Reachable(t) && t == At(STAGED, UNLINKED, true, Publishing(REQUEST, []))
  {
    hide Reachable;
    t := Ends();
    ReachOn(t, Go(0, STEP));
    t := Apply(t, Go(0, STEP));
  }

  /** The admission check. */
  lemma Stages() returns (t: Sys)
    ensures Reachable(t) && t == At(STAGED, UNLINKED, true, Linking(REQUEST, []))
  {
    hide Reachable, PublishCheck;
    t := Inserts();
    Admits();
    ReachOn(t, Go(0, STEP));
    t := Apply(t, Go(0, STEP));
  }

  lemma Admits()
    ensures PublishCheck(STAGED, POLICY, 0, OPERATION) == None
  {
    hide Sum;
    SumZero(AllocatedOf(STAGED), 3);
    SumZero(OutstandingOf(STAGED), 3);
  }

  lemma SumZero(f: nat -> int, n: nat)
    requires forall i: nat | i < n :: f(i) == 0
    ensures Sum(f, n) == 0
  {
    SumExtend(f, 0, n);
  }

  lemma Links() returns (t: Sys)
    ensures Reachable(t) && t == At(STAGED, LINKED, true, Committing(REQUEST, []))
  {
    hide Reachable;
    t := Stages();
    ReachOn(t, Go(0, STEP));
    t := Apply(t, Go(0, STEP));
  }

  lemma CommitIs()
    ensures PublishCommit(STAGED, OPERATION, 0) == READY
  {
  }

  lemma Publishes() returns (t: Sys)
    ensures Reachable(t) && t == At(READY, LINKED, true, CleanMarking(Finished(REQUEST, RESULT)))
  {
    hide Reachable, PublishCommit;
    t := Links();
    CommitIs();
    ReachOn(t, Go(0, STEP));
    t := Apply(t, Go(0, STEP));
  }

  lemma Crashes(db: Db, fs: Fs, created: bool, at: Point)
    ensures Apply(At(db, fs, created, at), Crash(0)) == Idle(db, fs)
  {
  }

  /** The crash before the clean-up. */
  lemma Commits() returns (t: Sys)
    ensures Reachable(t) && t == Idle(READY, LINKED)
  {
    hide Reachable, Apply;
    t := Publishes();
    ReachOn(t, Crash(0));
    Crashes(READY, LINKED, true, CleanMarking(Finished(REQUEST, RESULT)));
    t := Apply(t, Crash(0));
  }

  /** The deletion until it has the lock. */
  lemma StartsDeleting() returns (t: Sys)
    ensures Reachable(t) && t == At(READY, LINKED, false, DeleteMarking)
  {
    hide Reachable;
    t := Commits();
    ReachOn(t, Start(0, DeleteCall(OWNER, 1)));
    t := Apply(t, Start(0, DeleteCall(OWNER, 1)));
    ReachOn(t, Go(0, STEP));
    t := Apply(t, Go(0, STEP));
    ReachOn(t, Go(0, STEP));
    t := Apply(t, Go(0, STEP));
  }

  lemma MarksDeleted() returns (t: Sys)
    ensures Reachable(t) && t == At(PENDING, LINKED, false, RemovingPublished(0))
  {
    hide Reachable;
    t := StartsDeleting();
    ReachOn(t, Go(0, STEP));
    t := Apply(t, Go(0, STEP));
  }

  /** The deletion's first unlink, and a crash before the second. */
  lemma Unlinks() returns (t: Sys)
    ensures Reachable(t) && t == Idle(PENDING, UNLINKED)
  {
    hide Reachable;
    t := MarksDeleted();
    ReachOn(t, Go(0, STEP));
    t := Apply(t, Go(0, STEP));
    assert t == At(PENDING, UNLINKED, false, RemovingStaging(0));
    ReachOn(t, Crash(0));
    Crashes(PENDING, UNLINKED, false, RemovingStaging(0));
    t := Apply(t, Crash(0));
  }

  /** A crash between a committed store and its clean-up, then one between the two unlinks of a deletion: the file is
      half removed, and recovery of its operation fails although no lease stands in the way. Reconciling, which deletes
      before it recovers, settles it. */
  lemma HalfRemovedHappens() returns (t: Sys, id: Uuid)
    ensures Reachable(t) && id in t.db.reservations && Expired(t.db, t.clock, id)
    ensures HalfRemoved(t.db, t.fs, HandleOf(id, t.db.reservations[id]))
    ensures Recover(t.db, t.fs, t.clock, t.db.reservations[id].owner, id) == (t.db, t.fs, Err(StorageFailure))
    ensures ReconcileOperation(t.db, t.fs, t.clock, id).2 == FileDeleted
  {
    hide Reachable;
    t := Unlinks();
    id := 0;
  }
}
