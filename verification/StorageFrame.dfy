/** A step that touches one operation: what it must establish locally, and that this suffices globally. */
module StorageFrame {
  import opened Common
  import opened StorageTables
  import opened StorageFiles
  import opened StorageMachine
  import opened StorageInvariant

  /** The maps agree on every key but `k`. */
  ghost predicate OnlyKey<K, V>(m: map<K, V>, n: map<K, V>, k: K) {
    && (forall j | j in m && j != k :: j in n && n[j] == m[j])
    && (forall j | j in n && j != k :: j in m)
  }

  ghost predicate SameIdentity(row: Reservation, next: Reservation) {
    && next.owner == row.owner && next.fileId == row.fileId && next.key == row.key && next.token == row.token
  }

  ghost predicate SameFile(row: FileRow, next: FileRow) {
    next.owner == row.owner && next.reservation == row.reservation && next.size == row.size && next.digest == row.digest
  }

  /** The tables differ at most in the rows of operation `o`. */
  ghost predicate OnlyRows(db: Db, next: Db, o: Uuid) {
    && o in db.reservations && o in next.reservations
    && OnlyKey(db.reservations, next.reservations, o)
    && SameIdentity(db.reservations[o], next.reservations[o])
    && OnlyFile(db, next, o, db.reservations[o])
    && next.accounts.Keys == db.accounts.Keys
    && OnlyKey(db.accounts, next.accounts, db.reservations[o].owner)
    && next.issued == db.issued
  }

  ghost predicate OnlyFile(db: Db, next: Db, o: Uuid, row: Reservation) {
    && OnlyKey(db.files, next.files, row.fileId)
    && (row.fileId in db.files ==> row.fileId in next.files && SameFile(db.files[row.fileId], next.files[row.fileId]))
    && (row.fileId in next.files ==>
          next.files[row.fileId].reservation == o && next.files[row.fileId].owner == row.owner)
  }

  /** The directory differs at most in the links and inodes of operation `o`. */
  ghost predicate OnlyLinks(fs: Fs, next: Fs, o: Uuid, name: FileName) {
    && OnlyKey(fs.staging, next.staging, o)
    && OnlyKey(fs.published, next.published, name)
    && InodesKept(fs, next, o)
    && (o in next.staging ==> next.staging[o] in next.inodes && next.inodes[next.staging[o]].creator == o)
    && (name in next.published ==>
         next.published[name] in next.inodes && next.inodes[next.published[name]].creator == o)
  }

  ghost predicate InodesKept(fs: Fs, next: Fs, o: Uuid) {
    && (forall i | i in fs.inodes :: i in next.inodes && next.inodes[i].creator == fs.inodes[i].creator &&
                                     (fs.inodes[i].creator != o ==> next.inodes[i] == fs.inodes[i]))
    && (forall i | i in next.inodes :: i < next.nextInode)
  }

  function RowName(row: Reservation): FileName {
    FileName(row.owner, row.fileId)
  }

  ghost predicate OnlyOperation(db: Db, fs: Fs, next: Db, nextFs: Fs, o: Uuid) {
    OnlyRows(db, next, o) && OnlyLinks(fs, nextFs, o, RowName(db.reservations[o]))
  }

  function UsedCharge(c: Cell): int {
    if c.file.Some? && Charged(c.file.value) then c.file.value.size else 0
  }

  function ReservedCharge(c: Cell): int {
    if Active(c.row.state) then c.row.allocation else 0
  }

  /** The owner's counters move by exactly what the operation's own charges move by. */
  ghost predicate Charges(db: Db, next: Db, a: Uuid, c: Cell, d: Cell) {
    && a in db.accounts && a in next.accounts
    && next.accounts[a].used == db.accounts[a].used + UsedCharge(d) - UsedCharge(c)
    && next.accounts[a].reserved == db.accounts[a].reserved + ReservedCharge(d) - ReservedCharge(c)
  }

  ghost predicate EffectsMove(db: Db, next: Db, o: Uuid, c: Cell, d: Cell) {
    if (c.row.state == Committed) == (d.row.state == Committed) then next.effects == db.effects
    else d.row.state == Committed && next.effects == db.effects + [o]
  }

  lemma CellFramed(db: Db, fs: Fs, next: Db, nextFs: Fs, o: Uuid, q: Uuid)
    requires RowsOk(db) && LinksOk(db, fs) && OnlyOperation(db, fs, next, nextFs, o)
    requires q in db.reservations && q != o
    ensures q in next.reservations && CellOf(next, nextFs, q) == CellOf(db, fs, q)
  {
    var row := db.reservations[q];
    assert next.reservations[q] == row;
    assert row.fileId != db.reservations[o].fileId;
    FileFramed(db, next, o, row.fileId);
    StagingFramed(db, fs, nextFs, o, q);
    PublishedFramed(db, fs, nextFs, o, q);
  }

  lemma FileFramed(db: Db, next: Db, o: Uuid, f: Uuid)
    requires OnlyRows(db, next, o) && f != db.reservations[o].fileId
    ensures f in db.files <==> f in next.files
    ensures f in db.files ==> next.files[f] == db.files[f]
  {
    assert OnlyKey(db.files, next.files, db.reservations[o].fileId);
  }

  lemma StagingFramed(db: Db, fs: Fs, nextFs: Fs, o: Uuid, q: Uuid)
    requires LinksOk(db, fs) && o in db.reservations && OnlyLinks(fs, nextFs, o, RowName(db.reservations[o])) && q != o
    ensures q in fs.staging <==> q in nextFs.staging
    ensures q in fs.staging ==> nextFs.staging[q] == fs.staging[q]
                                && LinkTo(nextFs, nextFs.staging[q]) == LinkTo(fs, fs.staging[q])
  {
    assert OnlyKey(fs.staging, nextFs.staging, o);
  }

  lemma PublishedFramed(db: Db, fs: Fs, nextFs: Fs, o: Uuid, q: Uuid)
    requires RowsOk(db) && LinksOk(db, fs) && o in db.reservations
    requires OnlyLinks(fs, nextFs, o, RowName(db.reservations[o])) && q in db.reservations && q != o
    ensures var n := RowName(db.reservations[q]);
      && (n in fs.published <==> n in nextFs.published)
      && (n in fs.published ==> nextFs.published[n] == fs.published[n]
                                && LinkTo(nextFs, nextFs.published[n]) == LinkTo(fs, fs.published[n]))
  {
    var n := RowName(db.reservations[q]);
    assert n != RowName(db.reservations[o]);
    assert OnlyKey(fs.published, nextFs.published, RowName(db.reservations[o]));
    if n in fs.published {
      var i := fs.published[n];
      assert db.reservations[fs.inodes[i].creator].fileId == db.reservations[q].fileId;
    }
  }

  lemma RowsKept(db: Db, next: Db, o: Uuid)
    requires RowsOk(db) && OnlyRows(db, next, o)
    ensures RowsOk(next)
  {
    assert forall q | q in next.reservations ::
      q in db.reservations && SameIdentity(db.reservations[q], next.reservations[q]);
    forall f | f in next.files
      ensures f < next.issued && next.files[f].reservation in next.reservations
      ensures next.reservations[next.files[f].reservation].fileId == f
      ensures next.reservations[next.files[f].reservation].owner == next.files[f].owner
    {
      if f != db.reservations[o].fileId {
        FileFramed(db, next, o, f);
      }
    }
  }

  lemma KeysKept(db: Db, next: Db, o: Uuid)
    requires KeysUnique(db) && OnlyRows(db, next, o)
    ensures KeysUnique(next)
  {
    assert forall q | q in next.reservations ::
      q in db.reservations && SameIdentity(db.reservations[q], next.reservations[q]);
  }

  lemma LinksKept(db: Db, fs: Fs, next: Db, nextFs: Fs, o: Uuid)
    requires LinksOk(db, fs) && OnlyOperation(db, fs, next, nextFs, o)
    ensures LinksOk(next, nextFs)
  {
    var name := RowName(db.reservations[o]);
    assert forall q | q in db.reservations ::
      q in next.reservations && RowName(next.reservations[q]) == RowName(db.reservations[q]);
    forall q | q in nextFs.staging
      ensures q in next.reservations && nextFs.staging[q] in nextFs.inodes
        && nextFs.inodes[nextFs.staging[q]].creator == q
    {
      if q != o {
        StagingFramed(db, fs, nextFs, o, q);
      }
    }
    forall n | n in nextFs.published
      ensures nextFs.published[n] in nextFs.inodes
      ensures nextFs.inodes[nextFs.published[n]].creator in next.reservations
      ensures n == RowName(next.reservations[nextFs.inodes[nextFs.published[n]].creator])
    {
      if n != name {
        assert n in fs.published && nextFs.published[n] == fs.published[n];
        var i := fs.published[n];
        assert n == RowName(db.reservations[fs.inodes[i].creator]);
      }
    }
  }

  lemma UsedSummand(db: Db, fs: Fs, o: Uuid, a: Uuid)
    requires o in db.reservations
    requires var f := db.reservations[o].fileId; f in db.files ==> db.files[f].owner == db.reservations[o].owner
    ensures UsedOf(db, a)(db.reservations[o].fileId) ==
            if a == db.reservations[o].owner then UsedCharge(CellOf(db, fs, o)) else 0
  {
  }

  lemma UsedElsewhere(db: Db, next: Db, f: Uuid, a: Uuid, n: nat)
    requires OnlyKey(db.files, next.files, f) && f < n
    ensures Sum(UsedOf(next, a), n) == Sum(UsedOf(db, a), n) - UsedOf(db, a)(f) + UsedOf(next, a)(f)
  {
    SumUpdate(UsedOf(db, a), UsedOf(next, a), n, f);
  }

  /** The facts about operation `o` that locate its summands. */
  ghost predicate Placed(db: Db, o: Uuid) {
    && o in db.reservations && o < db.issued && db.reservations[o].fileId < db.issued
    && (db.reservations[o].fileId in db.files ==> db.files[db.reservations[o].fileId].owner == db.reservations[o].owner)
  }

  lemma UsedKept(db: Db, fs: Fs, next: Db, nextFs: Fs, o: Uuid, a: Uuid)
    requires Placed(db, o) && OnlyRows(db, next, o)
    ensures Sum(UsedOf(next, a), next.issued) == Sum(UsedOf(db, a), db.issued) +
      if a == db.reservations[o].owner then UsedCharge(CellOf(next, nextFs, o)) - UsedCharge(CellOf(db, fs, o)) else 0
  {
    UsedElsewhere(db, next, db.reservations[o].fileId, a, db.issued);
    UsedSummand(db, fs, o, a);
    UsedSummand(next, nextFs, o, a);
  }

  lemma ReservedElsewhere(db: Db, next: Db, o: Uuid, a: Uuid, n: nat)
    requires OnlyKey(db.reservations, next.reservations, o) && o < n
    ensures Sum(ReservedOf(next, a), n) == Sum(ReservedOf(db, a), n) - ReservedOf(db, a)(o) + ReservedOf(next, a)(o)
  {
    SumUpdate(ReservedOf(db, a), ReservedOf(next, a), n, o);
  }

  lemma ReservedKept(db: Db, fs: Fs, next: Db, nextFs: Fs, o: Uuid, a: Uuid)
    requires Placed(db, o) && OnlyRows(db, next, o)
    ensures Sum(ReservedOf(next, a), next.issued) == Sum(ReservedOf(db, a), db.issued) +
      if a == db.reservations[o].owner then ReservedCharge(CellOf(next, nextFs, o)) - ReservedCharge(CellOf(db, fs, o))
        else 0
  {
    ReservedElsewhere(db, next, o, a, db.issued);
  }

  lemma SumsKept(db: Db, fs: Fs, next: Db, nextFs: Fs, o: Uuid)
    requires Placed(db, o) && SumsOk(db) && OnlyRows(db, next, o)
    requires Charges(db, next, db.reservations[o].owner, CellOf(db, fs, o), CellOf(next, nextFs, o))
    ensures SumsOk(next)
  {
    forall a | a in next.accounts
      ensures AccountOk(next, a)
    {
      assert AccountOk(db, a);
      UsedKept(db, fs, next, nextFs, o, a);
      ReservedKept(db, fs, next, nextFs, o, a);
      CountersFollow(db, next, a, db.reservations[o].owner, CellOf(db, fs, o), CellOf(next, nextFs, o));
    }
  }

  lemma CountersFollow(db: Db, next: Db, a: Uuid, owner: Uuid, c: Cell, d: Cell)
    requires a in db.accounts && a in next.accounts && OnlyKey(db.accounts, next.accounts, owner)
    requires Charges(db, next, owner, c, d)
    ensures next.accounts[a].used == db.accounts[a].used + if a == owner then UsedCharge(d) - UsedCharge(c) else 0
    ensures next.accounts[a].reserved ==
            db.accounts[a].reserved + if a == owner then ReservedCharge(d) - ReservedCharge(c) else 0
  {
  }

  lemma EffectsKept(db: Db, fs: Fs, next: Db, nextFs: Fs, o: Uuid)
    requires EffectsOk(db) && OnlyRows(db, next, o)
    requires EffectsMove(db, next, o, CellOf(db, fs, o), CellOf(next, nextFs, o))
    ensures EffectsOk(next)
  {
    assert OnlyKey(db.reservations, next.reservations, o);
    forall q: Uuid
      ensures multiset(next.effects)[q] ==
              if q in next.reservations && next.reservations[q].state == Committed then 1 else 0
    {
      assert multiset(db.effects)[q] ==
             if q in db.reservations && db.reservations[q].state == Committed then 1 else 0;
      if next.effects != db.effects {
        assert multiset(next.effects) == multiset(db.effects) + multiset{o};
      }
    }
  }

  lemma CellsKept(db: Db, fs: Fs, next: Db, nextFs: Fs, o: Uuid)
    requires RowsOk(db) && LinksOk(db, fs) && CellsOk(db, fs) && OnlyOperation(db, fs, next, nextFs, o)
    requires CellInv(CellOf(next, nextFs, o))
    ensures CellsOk(next, nextFs)
  {
    forall q | q in next.reservations
      ensures CellInv(CellOf(next, nextFs, q))
    {
      if q != o {
        assert q in db.reservations && CellInv(CellOf(db, fs, q));
        CellFramed(db, fs, next, nextFs, o, q);
      }
    }
  }

  /** What a local step must show about the operation it touches. */
  ghost predicate LocalData(db: Db, fs: Fs, next: Db, nextFs: Fs, o: Uuid) {
    && OnlyOperation(db, fs, next, nextFs, o)
    && CellInv(CellOf(next, nextFs, o))
    && Charges(db, next, db.reservations[o].owner, CellOf(db, fs, o), CellOf(next, nextFs, o))
    && EffectsMove(db, next, o, CellOf(db, fs, o), CellOf(next, nextFs, o))
  }

  /** The durable half of a local step. */
  lemma DataStep(db: Db, fs: Fs, next: Db, nextFs: Fs, o: Uuid)
    requires DataInv(db, fs) && LocalData(db, fs, next, nextFs, o)
    ensures DataInv(next, nextFs)
  {
    RowsKept(db, next, o);
    KeysKept(db, next, o);
    LinksKept(db, fs, next, nextFs, o);
    SumsKept(db, fs, next, nextFs, o);
    EffectsKept(db, fs, next, nextFs, o);
    CellsKept(db, fs, next, nextFs, o);
  }

  // ----- the processes

  /** What a process that holds no lock relies on survives any change that keeps the operation's identity. */
  lemma BystanderKept(pr: Proc, c: Cell, d: Cell)
    requires pr.Working? && PcInv(pr, c) && pr.held == Unlocked
    requires SameIdentity(c.row, d.row)
    requires c.file.Some? ==> d.file.Some? && SameFile(c.file.value, d.file.value)
    requires pr.created && BeforeStaging(c) ==> BeforeStaging(d)
    ensures PcInv(pr, d)
  {
  }

  ghost predicate CreationSafe(pr: Proc, c: Cell, d: Cell) {
    CreatorOf(pr).Some? || (BeforeStaging(c) ==> BeforeStaging(d))
  }

  lemma FileKept(db: Db, fs: Fs, next: Db, nextFs: Fs, o: Uuid)
    requires OnlyRows(db, next, o)
    ensures var c, d := CellOf(db, fs, o), CellOf(next, nextFs, o);
      SameIdentity(c.row, d.row) && (c.file.Some? ==> d.file.Some? && SameFile(c.file.value, d.file.value))
  {
  }

  lemma OtherKept(s: Sys, t: Sys, p: Pid, o: Uuid, q: Pid)
    requires RowsOk(s.db) && LinksOk(s.db, s.fs) && LocksOk(s) && CreatorsUnique(s)
    requires p in s.procs && ExclusiveOf(s.procs[p]) == Some(o)
    requires OnlyOperation(s.db, s.fs, t.db, t.fs, o)
    requires q in s.procs && q != p && ProcOk(s, s.procs[q])
    requires CreationSafe(s.procs[p], CellOf(s.db, s.fs, o), CellOf(t.db, t.fs, o))
    ensures ProcOk(t, s.procs[q])
  {
    var pr := s.procs[q];
    if pr.Working? {
      if pr.op.id != o {
        CellFramed(s.db, s.fs, t.db, t.fs, o, pr.op.id);
      } else {
        NotHolding(s, p, o, q);
        FileKept(s.db, s.fs, t.db, t.fs, o);
        BystanderKept(pr, CellOf(s.db, s.fs, o), CellOf(t.db, t.fs, o));
      }
    }
  }

  lemma NotHolding(s: Sys, p: Pid, o: Uuid, q: Pid)
    requires LocksOk(s) && CreatorsUnique(s) && p in s.procs && q in s.procs && q != p
    requires ExclusiveOf(s.procs[p]) == Some(o) && s.procs[q].Working? && s.procs[q].op.id == o
    ensures s.procs[q].held == Unlocked
    ensures CreatorOf(s.procs[p]).Some? ==> !s.procs[q].created
  {
    assert HoldRecorded(s, p, s.procs[p]) && HoldRecorded(s, q, s.procs[q]);
    assert (o, q) in s.shared ==> ShareHeld(s, (o, q));
  }

  lemma AnswersKept(s: Sys, t: Sys, o: Uuid)
    requires AnswersOk(s) && OnlyRows(s.db, t.db, o) && t.answers == s.answers
    requires s.db.reservations[o].state == Committed ==> t.db.reservations[o].state == Committed
    ensures AnswersOk(t)
  {
    forall ret | ret in t.answers
      ensures Answered(t.db, ret)
    {
      assert Answered(s.db, ret);
      var q :| q in s.db.reservations && AnsweredBy(s.db, ret, q);
      AnswerKept(s.db, t.db, o, q, ret);
    }
  }

  lemma AnswerKept(db: Db, next: Db, o: Uuid, q: Uuid, ret: Return)
    requires OnlyRows(db, next, o) && q in db.reservations && AnsweredBy(db, ret, q)
    requires db.reservations[o].state == Committed ==> next.reservations[o].state == Committed
    ensures Answered(next, ret)
  {
    var f := db.reservations[q].fileId;
    assert q in next.reservations && SameIdentity(db.reservations[q], next.reservations[q]);
    assert f in next.files && SameFile(db.files[f], next.files[f]) by {
      if f != db.reservations[o].fileId {
        FileFramed(db, next, o, f);
      }
    }
    assert AnsweredBy(next, ret, q);
  }

  /** How the process tables move in a local step of the lock holder `p` to point `at`. */
  ghost predicate HolderMoves(s: Sys, t: Sys, p: Pid, at: Point) {
    && p in s.procs && ExclusiveOf(s.procs[p]).Some?
    && t.procs == s.procs[p := s.procs[p].(at := at)]
    && t.locks == s.locks && t.shared == s.shared && t.answers == s.answers
    && SqlMoves(s, t, p, at.Linking? || at.Committing?)
  }

  ghost predicate SqlMoves(s: Sys, t: Sys, p: Pid, inside: bool) {
    && t.sql == (if inside then Some(p) else if s.sql == Some(p) then None else s.sql)
    && (inside ==> s.sql == None || s.sql == Some(p))
  }

  /** Every process keeps the lock it holds. */
  ghost predicate SameHolds(s: Sys, t: Sys) {
    && t.procs.Keys == s.procs.Keys && t.locks == s.locks && t.shared == s.shared
    && forall q {:trigger t.procs[q]} | q in t.procs :: SameHold(s.procs[q], t.procs[q])
  }

  ghost predicate SameHold(pr: Proc, next: Proc) {
    ExclusiveOf(next) == ExclusiveOf(pr) && SharedOf(next) == SharedOf(pr) && CreatorOf(next) == CreatorOf(pr)
  }

  lemma LocksSame(s: Sys, t: Sys)
    requires LocksOk(s) && SameHolds(s, t)
    ensures LocksOk(t)
  {
    forall o | o in t.locks ensures LockHeld(t, o) { assert LockHeld(s, o); }
    forall e | e in t.shared ensures ShareHeld(t, e) { assert ShareHeld(s, e); }
    forall p | p in t.procs ensures HoldRecorded(t, p, t.procs[p]) { assert HoldRecorded(s, p, s.procs[p]); }
  }

  lemma CreatorsSame(s: Sys, t: Sys)
    requires CreatorsUnique(s) && SameHolds(s, t)
    ensures CreatorsUnique(t)
  {
  }

  lemma TablesSame(s: Sys, t: Sys)
    requires LocksOk(s) && SqlOk(s) && CreatorsUnique(s)
    requires t.procs == s.procs && t.locks == s.locks && t.shared == s.shared && t.sql == s.sql
    ensures LocksOk(t) && SqlOk(t) && CreatorsUnique(t)
  {
    LocksSame(s, t);
  }

  lemma SqlMoved(s: Sys, t: Sys, p: Pid, pr: Proc)
    requires SqlOk(s) && p in s.procs && t.procs == s.procs[p := pr] && SqlMoves(s, t, p, InTransaction(pr))
    ensures SqlOk(t)
  {
    assert s.sql == Some(p) <==> InTransaction(s.procs[p]);
  }

  lemma TablesKept(s: Sys, t: Sys, p: Pid, at: Point)
    requires LocksOk(s) && SqlOk(s) && CreatorsUnique(s) && HolderMoves(s, t, p, at)
    ensures LocksOk(t) && SqlOk(t) && CreatorsUnique(t)
  {
    SqlMoved(s, t, p, s.procs[p].(at := at));
    LocksSame(s, t);
    CreatorsSame(s, t);
  }

  ghost predicate LocalProcs(s: Sys, t: Sys, p: Pid, o: Uuid, at: Point)
    requires o in s.db.reservations && o in t.db.reservations
  {
    var c, d := CellOf(s.db, s.fs, o), CellOf(t.db, t.fs, o);
    && HolderMoves(s, t, p, at) && s.procs[p].op.id == o
    && PcInv(s.procs[p].(at := at), d)
    && CreationSafe(s.procs[p], c, d)
    && (c.row.state == Committed ==> d.row.state == Committed)
  }

  lemma ProcsKept(s: Sys, t: Sys, p: Pid, o: Uuid, at: Point)
    requires RowsOk(s.db) && LinksOk(s.db, s.fs) && LocksOk(s) && CreatorsUnique(s) && ProcsOk(s)
    requires OnlyOperation(s.db, s.fs, t.db, t.fs, o) && LocalProcs(s, t, p, o, at)
    ensures ProcsOk(t)
  {
    forall q | q in t.procs
      ensures ProcOk(t, t.procs[q])
    {
      if q != p {
        OtherKept(s, t, p, o, q);
      }
    }
  }

  /** The lock holder `p` of operation `o` moves to `at`; everyone else stays put. */
  lemma HolderStep(s: Sys, t: Sys, p: Pid, o: Uuid, at: Point)
    requires Inv(s)
    requires LocalData(s.db, s.fs, t.db, t.fs, o) && LocalProcs(s, t, p, o, at)
    ensures Inv(t)
  {
    DataStep(s.db, s.fs, t.db, t.fs, o);
    AnswersKept(s, t, o);
    TablesKept(s, t, p, at);
    ProcsKept(s, t, p, o, at);
  }
}
