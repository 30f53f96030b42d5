/** Clean-up, deletion and the birth of an operation keep the invariant; hence every run does. */
module StorageCleaning {
  import opened Common
  import opened StorageTables
  import opened StorageFiles
  import opened StorageMachine
  import opened StorageInvariant
  import opened StorageFrame
  import opened StorageMoves
  import opened StorageSteps

  // ----- clean-up

  lemma MarkRows(db: Db, fs: Fs, op: Handle)
    requires RowsOk(db) && op.id in db.reservations && Matches(op, db.reservations[op.id])
    requires CleanMark(db, op).Ok? && CleanMark(db, op).value.1 == DropUncommitted
    ensures var next := CleanMark(db, op).value.0;
      && op.id in next.reservations && OnlyRows(db, next, op.id)
      && var c, d := CellOf(db, fs, op.id), CellOf(next, fs, op.id);
      && Active(c.row.state) && d == c.(row := c.row.(state := CleanupPending))
      && Charges(db, next, c.row.owner, c, d) && EffectsMove(db, next, op.id, c, d)
  {
    SameRows(db, op.id);
  }

  lemma MarkCell(pr: Proc, c: Cell, d: Cell)
    requires pr.Working? && pr.at.CleanMarking? && PcInv(pr, c) && CellInv(c) && Active(c.row.state)
    requires d == c.(row := c.row.(state := CleanupPending))
    ensures CellInv(d) && PcInv(pr.(at := CleaningPublished(pr.at.why)), d) && CreationSafe(pr, c, d)
  {
  }

  lemma MarkLocal(s: Sys, p: Pid)
    requires Poised(s, p) && s.procs[p].at.CleanMarking?
    requires CleanMark(s.db, s.procs[p].op).Ok? && CleanMark(s.db, s.procs[p].op).value.1 == DropUncommitted
    ensures var pr := s.procs[p]; var t := StepCleanMark(s, p, pr, pr.at.why);
      && LocalData(s.db, s.fs, t.db, t.fs, pr.op.id)
      && LocalProcs(s, t, p, pr.op.id, CleaningPublished(pr.at.why))
  {
    hide PointInv, CellInv, CleanMark, OnlyRows, LocalData, LocalProcs, RowsOk, LinksOk, Charges, EffectsMove, SqlOk,
      CreationSafe;
    var pr := s.procs[p];
    var t := StepCleanMark(s, p, pr, pr.at.why);
    MarkRows(s.db, s.fs, pr.op);
    var c, d := CellOf(s.db, s.fs, pr.op.id), CellOf(t.db, t.fs, pr.op.id);
    MarkCell(pr, c, d);
    RowsLocal(s, t, p, c, d);
    OutsideSql(s, t, p);
    Moves(s, t, p, t.procs[p].at, c, d);
  }

  lemma MarkSafe(s: Sys, p: Pid)
    requires Poised(s, p) && s.procs[p].at.CleanMarking? && s.sql == None
    requires CleanMark(s.db, s.procs[p].op).Ok? && CleanMark(s.db, s.procs[p].op).value.1 != DropUncommitted
    ensures var pr := s.procs[p]; var t := StepCleanMark(s, p, pr, pr.at.why);
      t.db == s.db && t.fs == s.fs && HolderMoves(s, t, p, t.procs[p].at) && ProcOk(t, t.procs[p])
  {
    hide CellInv, RowsOk, LinksOk;
  }

  lemma CleanMarkStep(s: Sys, p: Pid)
    requires Inv(s) && p in s.procs && s.procs[p].Working? && s.procs[p].at.CleanMarking? && s.sql == None
    ensures Inv(StepCleanMark(s, p, s.procs[p], s.procs[p].at.why))
  {
    hide PointInv, CellInv, Inv, LocalData, LocalProcs, Poised, CleanMark, HolderMoves;
    var pr := s.procs[p];
    var t := StepCleanMark(s, p, pr, pr.at.why);
    PoisedBy(s, p);
    match CleanMark(s.db, pr.op)
    case Err(_) => ExitStep(s, p);
    case Ok((db, kind)) =>
      if kind == DropUncommitted {
        MarkLocal(s, p);
        HolderStep(s, t, p, pr.op.id, CleaningPublished(pr.at.why));
      } else {
        MarkSafe(s, p);
        StayStep(s, t, p, t.procs[p].at);
      }
  }

  lemma UnlinkStagingLinks(db: Db, fs: Fs, o: Uuid)
    requires RowsOk(db) && LinksOk(db, fs) && o in db.reservations
    ensures OnlyLinks(fs, UnlinkStaging(fs, o), o, RowName(db.reservations[o]))
    ensures CellOf(db, UnlinkStaging(fs, o), o) == CellOf(db, fs, o).(staged := None)
  {
    SameLinks(db, fs, o);
  }

  lemma UnlinkPublishedLinks(db: Db, fs: Fs, o: Uuid)
    requires RowsOk(db) && LinksOk(db, fs) && o in db.reservations
    ensures OnlyLinks(fs, UnlinkPublished(fs, RowName(db.reservations[o])), o, RowName(db.reservations[o]))
    ensures CellOf(db, UnlinkPublished(fs, RowName(db.reservations[o])), o) == CellOf(db, fs, o).(published := None)
  {
    SameLinks(db, fs, o);
  }

  /** A step that only drops links of the operation. */
  lemma DropLocal(s: Sys, t: Sys, p: Pid, at: Point, c: Cell, d: Cell)
    requires Poised(s, p) && !InTransaction(s.procs[p]) && !at.Linking? && !at.Committing?
    requires t == Move(s.(fs := t.fs), p, s.procs[p], at)
    requires OnlyLinks(s.fs, t.fs, s.procs[p].op.id, RowName(s.db.reservations[s.procs[p].op.id]))
    requires c == CellOf(s.db, s.fs, s.procs[p].op.id) && d == CellOf(t.db, t.fs, s.procs[p].op.id)
    requires CellInv(d) && PcInv(s.procs[p].(at := at), d) && CreationSafe(s.procs[p], c, d)
    ensures LocalData(s.db, s.fs, t.db, t.fs, s.procs[p].op.id) && LocalProcs(s, t, p, s.procs[p].op.id, at)
  {
    hide PointInv, CellInv, OnlyLinks, LocalData, LocalProcs, RowsOk, LinksOk, CreationSafe;
    FilesLocal(s, t, p);
    OutsideSql(s, t, p);
    Moves(s, t, p, at, c, d);
  }

  lemma CommittedCell(pr: Proc, c: Cell, d: Cell)
    requires pr.Working? && pr.at.CleaningCommitted? && PcInv(pr, c) && CellInv(c)
    requires d == c.(staged := None) || d == c
    ensures CellInv(d) && PcInv(pr.(at := Returning(pr.at.why)), d) && PcInv(pr.(at := Returning(Failed)), d)
    ensures CreationSafe(pr, c, d)
  {
  }

  lemma CleanCommittedStep(s: Sys, p: Pid)
    requires Inv(s) && p in s.procs && s.procs[p].Working? && s.procs[p].at.CleaningCommitted?
    ensures Inv(StepCleanCommitted(s, p, s.procs[p], s.procs[p].at.why))
  {
    hide PointInv, CellInv, Inv, LocalData, LocalProcs, OnlyLinks, RowsOk, LinksOk, CreationSafe;
    var pr := s.procs[p];
    var t := StepCleanCommitted(s, p, pr, pr.at.why);
    PoisedBy(s, p);
    UnlinkStagingLinks(s.db, s.fs, pr.op.id);
    SameLinks(s.db, s.fs, pr.op.id);
    var c, d := CellOf(s.db, s.fs, pr.op.id), CellOf(t.db, t.fs, pr.op.id);
    CommittedCell(pr, c, d);
    DropLocal(s, t, p, t.procs[p].at, c, d);
    HolderStep(s, t, p, pr.op.id, t.procs[p].at);
  }

  lemma PendingCell(pr: Proc, c: Cell, d: Cell)
    requires pr.Working? && PcInv(pr, c) && CellInv(c)
    requires pr.at.CleaningPublished? || pr.at.CleaningStaging?
    requires pr.at.CleaningPublished? ==> d == c.(published := None)
    requires pr.at.CleaningStaging? ==> d == c.(staged := None)
    ensures CellInv(d) && CreationSafe(pr, c, d)
    ensures pr.at.CleaningPublished? ==> PcInv(pr.(at := CleaningStaging(pr.at.why)), d)
    ensures pr.at.CleaningStaging? ==> PcInv(pr.(at := CleanAborting(pr.at.why)), d)
  {
  }

  /** The comparison of inodes never refuses: an uncommitted published name is always the staged inode. */
  lemma NoCollision(s: Sys, p: Pid)
    requires Poised(s, p) && s.procs[p].at.CleaningPublished?
    ensures var pr := s.procs[p];
      CleanPublished(s.fs, pr.op) == Some(UnlinkPublished(s.fs, RowName(s.db.reservations[pr.op.id])))
  {
    var pr := s.procs[p];
    if NameOf(pr.op) !in s.fs.published {
      assert s.fs.published - {NameOf(pr.op)} == s.fs.published;
    }
  }

  lemma CleanPublishedStep(s: Sys, p: Pid)
    requires Inv(s) && p in s.procs && s.procs[p].Working? && s.procs[p].at.CleaningPublished?
    ensures Inv(StepCleanPublished(s, p, s.procs[p], s.procs[p].at.why))
  {
    hide PointInv, CellInv, Inv, LocalData, LocalProcs, OnlyLinks, RowsOk, LinksOk, CreationSafe, CleanPublished;
    var pr := s.procs[p];
    var t := StepCleanPublished(s, p, pr, pr.at.why);
    PoisedBy(s, p);
    NoCollision(s, p);
    UnlinkPublishedLinks(s.db, s.fs, pr.op.id);
    var c, d := CellOf(s.db, s.fs, pr.op.id), CellOf(t.db, t.fs, pr.op.id);
    PendingCell(pr, c, d);
    DropLocal(s, t, p, t.procs[p].at, c, d);
    HolderStep(s, t, p, pr.op.id, t.procs[p].at);
  }

  lemma CleanStagingStep(s: Sys, p: Pid)
    requires Inv(s) && p in s.procs && s.procs[p].Working? && s.procs[p].at.CleaningStaging?
    ensures Inv(StepCleanStaging(s, p, s.procs[p], s.procs[p].at.why))
  {
    hide PointInv, CellInv, Inv, LocalData, LocalProcs, OnlyLinks, RowsOk, LinksOk, CreationSafe;
    var pr := s.procs[p];
    var t := StepCleanStaging(s, p, pr, pr.at.why);
    PoisedBy(s, p);
    UnlinkStagingLinks(s.db, s.fs, pr.op.id);
    var c, d := CellOf(s.db, s.fs, pr.op.id), CellOf(t.db, t.fs, pr.op.id);
    PendingCell(pr, c, d);
    DropLocal(s, t, p, t.procs[p].at, c, d);
    HolderStep(s, t, p, pr.op.id, t.procs[p].at);
  }

  lemma AbortRows(db: Db, fs: Fs, op: Handle)
    requires RowsOk(db) && op.id in db.reservations && Matches(op, db.reservations[op.id])
    requires CellInv(CellOf(db, fs, op.id))
    requires CleanAbort(db, op).Ok?
    ensures var next := CleanAbort(db, op).value;
      && op.id in next.reservations && OnlyRows(db, next, op.id)
      && var c, d := CellOf(db, fs, op.id), CellOf(next, fs, op.id);
      && d == c.(row := c.row.(state := Aborted),
                 file := if c.file.Some? then Some(c.file.value.(state := Deleted)) else None)
      && Charges(db, next, c.row.owner, c, d) && EffectsMove(db, next, op.id, c, d)
  {
    SameRows(db, op.id);
  }

  lemma AbortCell(pr: Proc, c: Cell, d: Cell)
    requires pr.Working? && pr.at.CleanAborting? && PcInv(pr, c) && CellInv(c)
    requires d == c.(row := c.row.(state := Aborted),
                     file := if c.file.Some? then Some(c.file.value.(state := Deleted)) else None)
    ensures CellInv(d) && PcInv(pr.(at := Returning(pr.at.why)), d) && CreationSafe(pr, c, d)
    ensures c.row.state != Committed
  {
  }

  lemma AbortLocal(s: Sys, p: Pid)
    requires Poised(s, p) && s.procs[p].at.CleanAborting? && CleanAbort(s.db, s.procs[p].op).Ok?
    ensures var pr := s.procs[p]; var t := StepCleanAbort(s, p, pr, pr.at.why);
      && LocalData(s.db, s.fs, t.db, t.fs, pr.op.id)
      && LocalProcs(s, t, p, pr.op.id, Returning(pr.at.why))
  {
    hide PointInv, CellInv, CleanAbort, OnlyRows, LocalData, LocalProcs, RowsOk, LinksOk, Charges, EffectsMove, SqlOk,
      CreationSafe;
    var pr := s.procs[p];
    var t := StepCleanAbort(s, p, pr, pr.at.why);
    AbortRows(s.db, s.fs, pr.op);
    var c, d := CellOf(s.db, s.fs, pr.op.id), CellOf(t.db, t.fs, pr.op.id);
    AbortCell(pr, c, d);
    RowsLocal(s, t, p, c, d);
    OutsideSql(s, t, p);
    Moves(s, t, p, t.procs[p].at, c, d);
  }

  lemma CleanAbortStep(s: Sys, p: Pid)
    requires Inv(s) && p in s.procs && s.procs[p].Working? && s.procs[p].at.CleanAborting?
    ensures Inv(StepCleanAbort(s, p, s.procs[p], s.procs[p].at.why))
  {
    hide PointInv, CellInv, Inv, LocalData, LocalProcs, Poised, CleanAbort;
    var pr := s.procs[p];
    if CleanAbort(s.db, pr.op).Err? {
      ExitStep(s, p);
    } else {
      PoisedBy(s, p);
      AbortLocal(s, p);
      HolderStep(s, StepCleanAbort(s, p, pr, pr.at.why), p, pr.op.id, Returning(pr.at.why));
    }
  }

  lemma HandleSame(s: Sys, p: Pid)
    requires Poised(s, p)
    ensures HandleOf(s.procs[p].op.id, s.db.reservations[s.procs[p].op.id]) == s.procs[p].op
  {
    hide PointInv, CellInv;
  }

  lemma RereadSafe(s: Sys, p: Pid)
    requires Poised(s, p) && s.procs[p].at.RecoverRereading?
    ensures var pr := s.procs[p]; var t := Move(s, p, pr, CleanMarking(Recovering));
      HolderMoves(s, t, p, CleanMarking(Recovering)) && ProcOk(t, pr.(at := CleanMarking(Recovering)))
  {
    hide CellInv, RowsOk, LinksOk;
  }

  lemma RecoverRereadStep(s: Sys, p: Pid)
    requires Inv(s) && p in s.procs && s.procs[p].Working? && s.procs[p].at.RecoverRereading?
    ensures Inv(StepRecoverReread(s, p, s.procs[p]))
  {
    hide PointInv, CellInv, Inv, HolderMoves;
    var pr := s.procs[p];
    PoisedBy(s, p);
    HandleSame(s, p);
    RereadSafe(s, p);
    ExitStep(s, p);
    if StepRecoverReread(s, p, pr) != Exit(s, p) {
      assert pr.(op := HandleOf(pr.op.id, s.db.reservations[pr.op.id])) == pr;
      StayStep(s, StepRecoverReread(s, p, pr), p, CleanMarking(Recovering));
    }
  }

  // ----- deletion

  lemma DeleteMarkRows(db: Db, fs: Fs, op: Handle, authorized: bool)
    requires RowsOk(db) && op.id in db.reservations && Matches(op, db.reservations[op.id])
    requires CellInv(CellOf(db, fs, op.id))
    requires DeleteMark(db, op.owner, op.fileId, authorized).Ok?
    requires DeleteMark(db, op.owner, op.fileId, authorized).value.1.Removing?
    ensures var r := DeleteMark(db, op.owner, op.fileId, authorized).value; var next := r.0;
      && op.id in next.reservations && OnlyRows(db, next, op.id)
      && var c, d := CellOf(db, fs, op.id), CellOf(next, fs, op.id);
      && c.file.Some? && Charged(c.file.value) && d == c.(file := Some(c.file.value.(state := PendingDelete)))
      && r.1.size == c.file.value.size
      && Charges(db, next, c.row.owner, c, d) && EffectsMove(db, next, op.id, c, d)
  {
    SameRows(db, op.id);
  }

  lemma DeleteMarkCell(pr: Proc, c: Cell, d: Cell)
    requires pr.Working? && pr.at.DeleteMarking? && PcInv(pr, c) && CellInv(c)
    requires c.file.Some? && Charged(c.file.value) && d == c.(file := Some(c.file.value.(state := PendingDelete)))
    ensures CellInv(d) && PcInv(pr.(at := RemovingPublished(c.file.value.size)), d) && CreationSafe(pr, c, d)
  {
  }

  lemma DeleteMarkLocal(s: Sys, p: Pid, authorized: bool)
    requires Poised(s, p) && s.procs[p].at.DeleteMarking?
    requires DeleteMark(s.db, s.procs[p].op.owner, s.procs[p].op.fileId, authorized).Ok?
    requires DeleteMark(s.db, s.procs[p].op.owner, s.procs[p].op.fileId, authorized).value.1.Removing?
    ensures var pr := s.procs[p]; var t := StepDeleteMark(s, p, pr, authorized);
      && t.procs == s.procs[p := pr.(at := t.procs[p].at)]
      && LocalData(s.db, s.fs, t.db, t.fs, pr.op.id) && LocalProcs(s, t, p, pr.op.id, t.procs[p].at)
  {
    hide PointInv, CellInv, DeleteMark, OnlyRows, LocalData, LocalProcs, RowsOk, LinksOk, Charges, EffectsMove, SqlOk,
      CreationSafe;
    var pr := s.procs[p];
    var t := StepDeleteMark(s, p, pr, authorized);
    DeleteMarkRows(s.db, s.fs, pr.op, authorized);
    var c, d := CellOf(s.db, s.fs, pr.op.id), CellOf(t.db, t.fs, pr.op.id);
    DeleteMarkCell(pr, c, d);
    RowsLocal(s, t, p, c, d);
    OutsideSql(s, t, p);
    Moves(s, t, p, t.procs[p].at, c, d);
  }

  lemma DeletedSafe(s: Sys, p: Pid)
    requires Poised(s, p) && s.procs[p].at.DeleteMarking?
    ensures var pr := s.procs[p]; var t := Move(s, p, pr, Returning(Failed));
      HolderMoves(s, t, p, Returning(Failed)) && ProcOk(t, pr.(at := Returning(Failed)))
  {
    hide CellInv, RowsOk, LinksOk;
  }

  lemma DeleteMarkStep(s: Sys, p: Pid, authorized: bool)
    requires Inv(s) && p in s.procs && s.procs[p].Working? && s.procs[p].at.DeleteMarking?
    ensures Inv(StepDeleteMark(s, p, s.procs[p], authorized))
  {
    hide PointInv, CellInv, Inv, LocalData, LocalProcs, Poised, DeleteMark, HolderMoves;
    var pr := s.procs[p];
    var t := StepDeleteMark(s, p, pr, authorized);
    PoisedBy(s, p);
    ExitStep(s, p);
    match DeleteMark(s.db, pr.op.owner, pr.op.fileId, authorized)
    case Err(_) =>
    case Ok((db, kind)) =>
      if kind.Removing? {
        DeleteMarkLocal(s, p, authorized);
        HolderStep(s, t, p, pr.op.id, t.procs[p].at);
      } else {
        DeletedSafe(s, p);
        StayStep(s, t, p, Returning(Failed));
      }
  }

  lemma RemoveCell(pr: Proc, c: Cell, d: Cell)
    requires pr.Working? && PcInv(pr, c) && CellInv(c)
    requires pr.at.RemovingPublished? || pr.at.RemovingStaging?
    requires pr.at.RemovingPublished? ==> d == c.(published := None)
    requires pr.at.RemovingStaging? ==> d == c.(staged := None)
    ensures CellInv(d) && CreationSafe(pr, c, d)
    ensures pr.at.RemovingPublished? ==> PcInv(pr.(at := RemovingStaging(pr.at.size)), d)
    ensures pr.at.RemovingStaging? ==> PcInv(pr.(at := Uncharging(pr.at.size)), d)
  {
  }

  lemma RemovePublishedStep(s: Sys, p: Pid)
    requires Inv(s) && p in s.procs && s.procs[p].Working? && s.procs[p].at.RemovingPublished?
    ensures Inv(StepRemovePublished(s, p, s.procs[p], s.procs[p].at.size))
  {
    hide PointInv, CellInv, Inv, LocalData, LocalProcs, OnlyLinks, RowsOk, LinksOk, CreationSafe;
    var pr := s.procs[p];
    var t := StepRemovePublished(s, p, pr, pr.at.size);
    PoisedBy(s, p);
    UnlinkPublishedLinks(s.db, s.fs, pr.op.id);
    var c, d := CellOf(s.db, s.fs, pr.op.id), CellOf(t.db, t.fs, pr.op.id);
    RemoveCell(pr, c, d);
    DropLocal(s, t, p, t.procs[p].at, c, d);
    HolderStep(s, t, p, pr.op.id, t.procs[p].at);
  }

  lemma RemoveStagingStep(s: Sys, p: Pid)
    requires Inv(s) && p in s.procs && s.procs[p].Working? && s.procs[p].at.RemovingStaging?
    ensures Inv(StepRemoveStaging(s, p, s.procs[p], s.procs[p].at.size))
  {
    hide PointInv, CellInv, Inv, LocalData, LocalProcs, OnlyLinks, RowsOk, LinksOk, CreationSafe;
    var pr := s.procs[p];
    var t := StepRemoveStaging(s, p, pr, pr.at.size);
    PoisedBy(s, p);
    UnlinkStagingLinks(s.db, s.fs, pr.op.id);
    var c, d := CellOf(s.db, s.fs, pr.op.id), CellOf(t.db, t.fs, pr.op.id);
    RemoveCell(pr, c, d);
    DropLocal(s, t, p, t.procs[p].at, c, d);
    HolderStep(s, t, p, pr.op.id, t.procs[p].at);
  }

  lemma UnchargeRows(db: Db, fs: Fs, op: Handle, size: nat)
    requires RowsOk(db) && op.id in db.reservations && Matches(op, db.reservations[op.id])
    requires Removable(CellOf(db, fs, op.id), size) && DeleteFinish(db, op.owner, op.fileId, size).Ok?
    ensures var next := DeleteFinish(db, op.owner, op.fileId, size).value;
      && op.id in next.reservations && OnlyRows(db, next, op.id)
      && var c, d := CellOf(db, fs, op.id), CellOf(next, fs, op.id);
      && d == c.(file := Some(c.file.value.(state := Deleted)))
      && Charges(db, next, c.row.owner, c, d) && EffectsMove(db, next, op.id, c, d)
  {
    SameRows(db, op.id);
  }

  lemma UnchargeCell(pr: Proc, c: Cell, d: Cell)
    requires pr.Working? && pr.at.Uncharging? && PcInv(pr, c) && CellInv(c)
    requires c.file.Some? && d == c.(file := Some(c.file.value.(state := Deleted)))
    ensures CellInv(d) && PcInv(pr.(at := Returning(Failed)), d) && CreationSafe(pr, c, d)
  {
  }

  lemma UnchargeKnown(pr: Proc, c: Cell)
    requires pr.Working? && pr.at.Uncharging? && PcInv(pr, c)
    ensures Removable(c, pr.at.size)
  {
  }

  lemma UnchargeLocal(s: Sys, p: Pid)
    requires Poised(s, p) && s.procs[p].at.Uncharging?
    requires DeleteFinish(s.db, s.procs[p].op.owner, s.procs[p].op.fileId, s.procs[p].at.size).Ok?
    ensures var pr := s.procs[p]; var t := StepUncharge(s, p, pr, pr.at.size);
      LocalData(s.db, s.fs, t.db, t.fs, pr.op.id) && LocalProcs(s, t, p, pr.op.id, Returning(Failed))
  {
    hide PointInv, CellInv, DeleteFinish, OnlyRows, LocalData, LocalProcs, RowsOk, LinksOk, Charges, EffectsMove,
      SqlOk, CreationSafe;
    var pr := s.procs[p];
    var t := StepUncharge(s, p, pr, pr.at.size);
    var c := CellOf(s.db, s.fs, pr.op.id);
    UnchargeKnown(pr, c);
    UnchargeRows(s.db, s.fs, pr.op, pr.at.size);
    var d := CellOf(t.db, t.fs, pr.op.id);
    UnchargeCell(pr, c, d);
    RowsLocal(s, t, p, c, d);
    OutsideSql(s, t, p);
    Moves(s, t, p, t.procs[p].at, c, d);
  }

  lemma UnchargeStep(s: Sys, p: Pid)
    requires Inv(s) && p in s.procs && s.procs[p].Working? && s.procs[p].at.Uncharging?
    ensures Inv(StepUncharge(s, p, s.procs[p], s.procs[p].at.size))
  {
    hide PointInv, CellInv, Inv, LocalData, LocalProcs, Poised, DeleteFinish;
    var pr := s.procs[p];
    if DeleteFinish(s.db, pr.op.owner, pr.op.fileId, pr.at.size).Err? {
      ExitStep(s, p);
    } else {
      PoisedBy(s, p);
      UnchargeLocal(s, p);
      HolderStep(s, StepUncharge(s, p, pr, pr.at.size), p, pr.op.id, Returning(Failed));
    }
  }
}
