/** What holds in every reachable state of the storage service: conservation of the charges, the physical bound,
    exactly-once effects and the fate of published files. */
module StorageTheorems {
  import opened Common
  import opened StorageTables
  import opened StorageFiles
  import opened StorageMachine
  import opened StorageInvariant
  import opened StorageFrame
  import opened StorageRuns

  // ----- conservation

  /** In every reachable state the counters are the sums they stand for, and an account check finds nothing to
      repair. */
  lemma Conservation(t: Sys, owner: Uuid)
    requires Reachable(t) && owner in t.db.accounts
    ensures t.db.accounts[owner].used == Sum(UsedOf(t.db, owner), t.db.issued)
    ensures t.db.accounts[owner].reserved == Sum(ReservedOf(t.db, owner), t.db.issued)
    ensures 0 <= t.db.accounts[owner].used && 0 <= t.db.accounts[owner].reserved
    ensures ReconcileAccount(t.db, owner) == (t.db, Checked)
  {
    ReachableInv(t);
    assert AccountOk(t.db, owner);
    SumNonNegative(UsedOf(t.db, owner), t.db.issued);
    SumNonNegative(ReservedOf(t.db, owner), t.db.issued);
  }

  // ----- the physical bound

  /** Some directory entry names the inode. */
  ghost predicate Linked(fs: Fs, ino: nat) {
    (exists o :: o in fs.staging && fs.staging[o] == ino) || (exists n :: n in fs.published && fs.published[n] == ino)
  }

  /** The bytes an inode keeps on disk, attributed to the account of the operation that created it. */
  ghost function LinkedOf(db: Db, fs: Fs, owner: Uuid): nat -> int {
    (i: nat) =>
      if i in fs.inodes && Linked(fs, i) && fs.inodes[i].creator in db.reservations
         && db.reservations[fs.inodes[i].creator].owner == owner
      then |fs.inodes[i].data| else 0
  }

  /** What one operation is charged: its allocation while active, its file's size once committed. */
  function Charge(c: Cell): int {
    ReservedCharge(c) + UsedCharge(c)
  }

  /** The inode an operation's entries name; `CellInv` makes it the same one under both names. */
  ghost predicate EntryOf(c: Cell, link: Link) {
    c.staged == Some(link) || c.published == Some(link)
  }

  lemma EntryCharged(c: Cell, link: Link)
    requires CellInv(c) && EntryOf(c, link)
    ensures |link.data| <= Charge(c)
  {
  }

  /** A sum over distinct targets of a partial map is at most the sum over all targets. */
  lemma {:induction false} SumInjective(h: nat -> Option<nat>, f: nat -> int, g: nat -> int, n: nat, m: nat)
    requires forall i: nat | i < n && h(i).None? :: f(i) == 0
    requires forall i: nat | i < n && h(i).Some? :: h(i).value < m && f(i) <= g(h(i).value)
    requires forall i: nat, j: nat | i < n && j < n && h(i).Some? && h(i) == h(j) :: i == j
    requires forall k: nat | k < m :: 0 <= g(k)
    ensures Sum(f, n) <= Sum(g, m)
  {
    if n == 0 {
      SumNonNegative(g, m);
    } else if h(n - 1).None? {
      SumInjective(h, f, g, n - 1, m);
    } else {
      var k := h(n - 1).value;
      var rest := (j: nat) => if j == k then 0 else g(j);
      SumUpdate(g, rest, m, k);
      SumInjective(h, f, rest, n - 1, m);
    }
  }

  /** A linked inode is an entry of the operation that created it. */
  lemma LinkedEntry(db: Db, fs: Fs, i: nat)
    requires RowsOk(db) && LinksOk(db, fs) && i in fs.inodes && Linked(fs, i)
    ensures fs.inodes[i].creator in db.reservations
    ensures EntryOf(CellOf(db, fs, fs.inodes[i].creator), Link(i, fs.inodes[i].data))
  {
    if o :| o in fs.staging && fs.staging[o] == i {
    } else {
      var n :| n in fs.published && fs.published[n] == i;
    }
  }

  lemma OneEntry(c: Cell, a: Link, b: Link)
    requires CellInv(c) && EntryOf(c, a) && EntryOf(c, b)
    ensures a == b
  {
  }

  /** What each operation of `owner` is charged. */
  function ChargeOf(db: Db, owner: Uuid): nat -> int {
    (o: nat) => if o in db.reservations && db.reservations[o].owner == owner
                then ReservedOf(db, owner)(o) + UsedOf(db, owner)(db.reservations[o].fileId) else 0
  }

  lemma ChargeOfCell(db: Db, fs: Fs, o: Uuid)
    requires RowsOk(db) && o in db.reservations
    ensures ChargeOf(db, db.reservations[o].owner)(o) == Charge(CellOf(db, fs, o))
  {
    UsedSummand(db, fs, o, db.reservations[o].owner);
  }

  lemma ChargeNonNegative(db: Db, owner: Uuid)
    ensures forall o: nat :: 0 <= ChargeOf(db, owner)(o)
  {
    forall o: nat
      ensures 0 <= ChargeOf(db, owner)(o)
    {
      assert 0 <= ReservedOf(db, owner)(o);
      assert o in db.reservations ==> 0 <= UsedOf(db, owner)(db.reservations[o].fileId);
    }
  }

  function Creator(db: Db, fs: Fs, i: nat, owner: Uuid, linked: bool): Option<nat> {
    if i in fs.inodes && linked && fs.inodes[i].creator in db.reservations
       && db.reservations[fs.inodes[i].creator].owner == owner
    then Some(fs.inodes[i].creator) else None
  }

  /** The inodes' bytes are bounded by the operations' charges. */
  lemma LinkedByCharges(db: Db, fs: Fs, owner: Uuid)
    requires DataInv(db, fs)
    ensures Sum(LinkedOf(db, fs, owner), fs.nextInode) <= Sum(ChargeOf(db, owner), db.issued)
  {
    hide CellInv, SumsOk, KeysUnique, EffectsOk;
    ghost var h := (i: nat) => Creator(db, fs, i, owner, Linked(fs, i));
    forall i: nat | i < fs.nextInode && h(i).Some?
      ensures h(i).value < db.issued && LinkedOf(db, fs, owner)(i) <= ChargeOf(db, owner)(h(i).value)
    {
      LinkedEntry(db, fs, i);
      EntryCharged(CellOf(db, fs, h(i).value), Link(i, fs.inodes[i].data));
      ChargeOfCell(db, fs, h(i).value);
    }
    forall i: nat, j: nat | i < fs.nextInode && j < fs.nextInode && h(i).Some? && h(i) == h(j)
      ensures i == j
    {
      LinkedEntry(db, fs, i);
      LinkedEntry(db, fs, j);
      OneEntry(CellOf(db, fs, h(i).value), Link(i, fs.inodes[i].data), Link(j, fs.inodes[j].data));
    }
    ChargeNonNegative(db, owner);
    SumInjective(h, LinkedOf(db, fs, owner), ChargeOf(db, owner), fs.nextInode, db.issued);
  }

  /** The operations' charges are bounded by the account's counters. */
  lemma ChargesByCounters(db: Db, owner: Uuid)
    requires RowsOk(db) && SumsOk(db) && owner in db.accounts
    ensures Sum(ChargeOf(db, owner), db.issued) <= Total(db.accounts[owner])
  {
    assert AccountOk(db, owner);
    var h := (o: nat) =>
      if o in db.reservations && db.reservations[o].owner == owner then Some(db.reservations[o].fileId) else None;
    var used := (o: nat) => if h(o).Some? then UsedOf(db, owner)(h(o).value) else 0;
    SumInjective(h, used, UsedOf(db, owner), db.issued, db.issued);
    SumAdd(ReservedOf(db, owner), used, ChargeOf(db, owner), db.issued);
  }

  /** Every byte on disk is charged: whatever crashed wherever, the inodes still linked for an owner hold no more
      than the owner's used and reserved bytes. */
  lemma PhysicalBound(t: Sys, owner: Uuid)
    requires Reachable(t) && owner in t.db.accounts
    ensures Sum(LinkedOf(t.db, t.fs, owner), t.fs.nextInode) <= Total(t.db.accounts[owner])
  {
    ReachableInv(t);
    LinkedByCharges(t.db, t.fs, owner);
    ChargesByCounters(t.db, owner);
  }

  // ----- the device

  /** What each operation that writes, or is about to, may still write within its allocation. */
  function RemainingOf(db: Db, fs: Fs): nat -> int {
    (o: nat) =>
      if o in db.reservations && (db.reservations[o].state == Reserved || db.reservations[o].state == Writing)
      then db.reservations[o].allocation - StagedSize(CellOf(db, fs, o)) else 0
  }

  function StagedSize(c: Cell): nat {
    if c.staged.Some? then |c.staged.value.data| else 0
  }

  /** The bytes active operations have reported as written. */
  function ReportedOf(db: Db): nat -> int {
    (o: nat) => if o in db.reservations && Active(db.reservations[o].state) then db.reservations[o].written else 0
  }

  lemma {:induction false} SumAtMost(f: nat -> int, g: nat -> int, n: nat)
    requires forall i: nat | i < n :: f(i) <= g(i)
    ensures Sum(f, n) <= Sum(g, n)
  {
    if n > 0 {
      SumAtMost(f, g, n - 1);
    }
  }

  lemma OutstandingSum(db: Db)
    ensures Sum(OutstandingOf(db), db.issued) == ActiveAllocation(db) - Sum(ReportedOf(db), db.issued)
  {
    SumAdd(OutstandingOf(db), ReportedOf(db), AllocatedOf(db), db.issued);
  }

  lemma RemainingPromised(db: Db, fs: Fs)
    requires CellsOk(db, fs)
    ensures Sum(RemainingOf(db, fs), db.issued) <= Sum(OutstandingOf(db), db.issued)
  {
    hide CellInv;
    forall o: nat | o < db.issued
      ensures RemainingOf(db, fs)(o) <= OutstandingOf(db)(o)
    {
      if o in db.reservations {
        WrittenIsStaged(CellOf(db, fs, o));
      }
    }
    SumAtMost(RemainingOf(db, fs), OutstandingOf(db), db.issued);
  }

  lemma WrittenIsStaged(c: Cell)
    requires CellInv(c)
    ensures c.row.written <= c.row.allocation
    ensures c.row.state == Reserved || c.row.state == Writing ==> c.row.written <= StagedSize(c)
  {
  }

  lemma CapacityKeeps(db: Db, fs: Fs, policy: Policy, account: Account, growth: nat, free: nat)
    requires CellsOk(db, fs)
    ensures var refusal := Capacity(db, policy, account, growth, free);
      && (refusal == None ==> Sum(RemainingOf(db, fs), db.issued) + growth + policy.headroom <= free)
      && (refusal == Some(DiskCapacity) ==>
            ActiveAllocation(db) - Sum(ReportedOf(db), db.issued) + growth + policy.headroom > free)
      && (refusal == None ==>
            ActiveAllocation(db) - Sum(ReportedOf(db), db.issued) + growth + policy.headroom <= free)
  {
    hide OutstandingOf, AllocatedOf, ReportedOf, RemainingOf, CellsOk, Sum;
    OutstandingSum(db);
    RemainingPromised(db, fs);
  }

  /** The last admission test. It refuses exactly if what active operations were promised and have not reported as
      written would, with the growth, reach into the headroom; and whenever `growth` bytes are admitted, the device has
      room for them, for all that any operation may still write, and for the headroom. */
  lemma HeadroomKept(t: Sys, owner: Uuid, growth: nat, free: nat)
    requires Reachable(t) && owner in t.db.accounts
    ensures var refusal := Capacity(t.db, t.policy, t.db.accounts[owner], growth, free);
      && (refusal == None ==> Sum(RemainingOf(t.db, t.fs), t.db.issued) + growth + t.policy.headroom <= free)
      && (refusal == Some(DiskCapacity) ==>
            ActiveAllocation(t.db) - Sum(ReportedOf(t.db), t.db.issued) + growth + t.policy.headroom > free)
      && (refusal == None ==>
            ActiveAllocation(t.db) - Sum(ReportedOf(t.db), t.db.issued) + growth + t.policy.headroom <= free)
  {
    hide Capacity, ReportedOf, RemainingOf, AllocatedOf, CellsOk, RowsOk, LinksOk, SumsOk, ProcsOk, Sum;
    ReachableInv(t);
    CapacityKeeps(t.db, t.fs, t.policy, t.db.accounts[owner], growth, free);
  }

  /** What is on disk for one operation, by the state of its file or of its reservation. */
  lemma LinksTellState(t: Sys, o: Uuid)
    requires Reachable(t) && o in t.db.reservations
    ensures var c := CellOf(t.db, t.fs, o);
      && (Active(c.row.state) && c.staged.Some? ==> |c.staged.value.data| <= c.row.allocation)
      && c.row.written <= c.row.allocation
      && (c.file.Some? && c.file.value.state == Ready ==>
            c.published.Some? && |c.published.value.data| == c.file.value.size
            && c.file.value.digest == Sha256(c.published.value.data))
      && (c.file.Some? && c.file.value.state == Deleted ==>
            c.published.None? && (c.staged.Some? ==> c.staged.value.data == []))
      && (c.row.state == Committed && c.file.Some? && c.file.value.state == Deleted ==> c.staged.None?)
      && (c.row.state == Aborted ==> c.published.None? && (c.staged.Some? ==> c.staged.value.data == []))
      && (Active(c.row.state) && c.published.Some? ==> c.staged == c.published)
  {
    ReachableInv(t);
    assert CellInv(CellOf(t.db, t.fs, o));
  }

  /** A reader past its check finds the promised bytes, even after the file was marked for deletion. */
  lemma ReaderFindsBytes(t: Sys, p: Pid)
    requires Reachable(t) && p in t.procs && t.procs[p].Working? && t.procs[p].at.Reading?
    ensures var pr := t.procs[p];
      && NameOf(pr.op) in t.fs.published && t.fs.published[NameOf(pr.op)] in t.fs.inodes
      && var data := t.fs.inodes[t.fs.published[NameOf(pr.op)]].data;
        |data| == pr.at.size && Sha256(data) == pr.at.digest
  {
    ReachableInv(t);
    assert ProcOk(t, t.procs[p]);
  }

  // ----- exactly once

  /** One reservation per owner and key; its effects ran once if it is committed and never otherwise. */
  lemma ExactlyOnce(t: Sys, o: Uuid, q: Uuid)
    requires Reachable(t) && o in t.db.reservations && q in t.db.reservations
    ensures var one, other := t.db.reservations[o], t.db.reservations[q];
      one.owner == other.owner && one.key == other.key ==> o == q
    ensures multiset(t.db.effects)[o] == if t.db.reservations[o].state == Committed then 1 else 0
  {
    ReachableInv(t);
  }

  /** Two calls that answered for the same owner and key named the same file. */
  lemma SameAnswer(t: Sys, a: Return, b: Return)
    requires Reachable(t) && a in t.answers && b in t.answers && a.owner == b.owner && a.key == b.key
    ensures a.result == b.result
  {
    ReachableInv(t);
    assert Answered(t.db, a) && Answered(t.db, b);
  }

  /** A key that is already taken is replayed only for the very same request, and only while the request is the same. */
  lemma {:induction false} ReplayOnlySame(t: Sys, o: Uuid, req: Request, free: nat)
    requires Reachable(t) && o in t.db.reservations
    requires t.db.reservations[o].owner == req.owner && t.db.reservations[o].key == req.key
    ensures var row := t.db.reservations[o]; var (db, begun) := Begin(t.db, t.policy, t.clock, free, req);
      && db == t.db
      && (begun == Err(IdempotencyConflict) <==>
            row.fingerprint != req.fingerprint || row.purpose != req.purpose || row.expected != req.expected)
      && (begun.Ok? <==> begun != Err(IdempotencyConflict))
      && (begun.Ok? ==> begun.value == Begun(HandleOf(o, row), row.state, false))
  {
    ReachableInv(t);
    assert RowsOk(t.db) && KeysUnique(t.db);
    assert FindKey(t.db.reservations, req.owner, req.key, t.db.issued) == Some(o);
  }
}
