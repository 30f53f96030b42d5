/** Steps that write: each keeps the invariant of the operation whose lock its process holds. */
module StorageSteps {
  import opened Common
  import opened StorageTables
  import opened StorageFiles
  import opened StorageMachine
  import opened StorageInvariant
  import opened StorageFrame
  import opened StorageMoves

  /** What is known when the lock holder `p` takes a step. */
  ghost predicate Poised(s: Sys, p: Pid) {
    && p in s.procs && s.procs[p].Working? && s.procs[p].held == Exclusive
    && s.procs[p].op.id in s.db.reservations
    && var o := s.procs[p].op.id;
    && PcInv(s.procs[p], CellOf(s.db, s.fs, o)) && CellInv(CellOf(s.db, s.fs, o))
    && RowsOk(s.db) && LinksOk(s.db, s.fs) && SqlOk(s)
  }

  lemma PoisedBy(s: Sys, p: Pid)
    requires Inv(s) && p in s.procs && s.procs[p].Working? && HoldAt(s.procs[p].at) == Exclusive
    ensures Poised(s, p)
  {
    hide PointInv, CellInv, SumsOk, EffectsOk, KeysUnique, LocksOk, AnswersOk, CreatorsUnique;
    assert ProcOk(s, s.procs[p]);
    assert CellInv(CellOf(s.db, s.fs, s.procs[p].op.id));
  }

  /** Nothing of the directory changes. */
  lemma SameLinks(db: Db, fs: Fs, o: Uuid)
    requires RowsOk(db) && LinksOk(db, fs) && o in db.reservations
    ensures OnlyLinks(fs, fs, o, RowName(db.reservations[o]))
  {
    var name := RowName(db.reservations[o]);
    if name in fs.published {
      assert db.reservations[fs.inodes[fs.published[name]].creator].fileId == db.reservations[o].fileId;
    }
  }

  /** Nothing of the tables changes. */
  lemma SameRows(db: Db, o: Uuid)
    requires RowsOk(db) && o in db.reservations
    ensures OnlyRows(db, db, o)
  {
    var f := db.reservations[o].fileId;
    if f in db.files {
      assert db.reservations[db.files[f].reservation].fileId == f;
    }
  }

  /** A step of the directory alone moves no charge. */
  lemma FilesLocal(s: Sys, t: Sys, p: Pid)
    requires Poised(s, p) && t.db == s.db
    requires OnlyLinks(s.fs, t.fs, s.procs[p].op.id, RowName(s.db.reservations[s.procs[p].op.id]))
    requires CellInv(CellOf(t.db, t.fs, s.procs[p].op.id))
    ensures LocalData(s.db, s.fs, t.db, t.fs, s.procs[p].op.id)
  {
    hide CellInv, PointInv;
    SameRows(s.db, s.procs[p].op.id);
  }

  // ----- streaming

  lemma StageCell(s: Sys, p: Pid, fs: Fs)
    requires Poised(s, p) && s.procs[p].at.Staging? && CreateStaging(s.fs, s.procs[p].op.id) == Some(fs)
    ensures var o := s.procs[p].op.id; var c, d := CellOf(s.db, s.fs, o), CellOf(s.db, fs, o);
      && OnlyLinks(s.fs, fs, o, RowName(s.db.reservations[o])) && d == c.(staged := Some(Link(s.fs.nextInode, [])))
      && CellInv(d)
  {
    SameLinks(s.db, s.fs, s.procs[p].op.id);
  }

  lemma StageLocal(s: Sys, p: Pid)
    requires Poised(s, p) && s.procs[p].at.Staging? && s.procs[p].op.id !in s.fs.staging
    ensures var pr := s.procs[p]; var t := StepStage(s, p, pr, pr.at.req);
      && LocalData(s.db, s.fs, t.db, t.fs, pr.op.id)
      && LocalProcs(s, t, p, pr.op.id, NextChunk(pr.at.req, s.fs.nextInode, []))
  {
    hide CellInv, LocalData, OnlyLinks, RowsOk, LinksOk;
    var pr := s.procs[p];
    var t := StepStage(s, p, pr, pr.at.req);
    var c, d := CellOf(s.db, s.fs, pr.op.id), CellOf(t.db, t.fs, pr.op.id);
    StageCell(s, p, CreateStaging(s.fs, pr.op.id).value);
    FilesLocal(s, t, p);
  }

  lemma StageStep(s: Sys, p: Pid)
    requires Inv(s) && p in s.procs && s.procs[p].Working? && s.procs[p].at.Staging?
    ensures Inv(StepStage(s, p, s.procs[p], s.procs[p].at.req))
  {
    hide PointInv, CellInv, Inv;
    var pr := s.procs[p];
    if pr.op.id in s.fs.staging {
      RecoilStep(s, p);
    } else {
      PoisedBy(s, p);
      StageLocal(s, p);
      HolderStep(s, StepStage(s, p, pr, pr.at.req), p, pr.op.id, NextChunk(pr.at.req, s.fs.nextInode, []));
    }
  }

  lemma ChunkSafe(s: Sys, p: Pid, bytes: Bytes)
    requires Poised(s, p) && s.procs[p].at.NextChunk?
    ensures var pr := s.procs[p];
      && ProcOk(s, pr.(at := Inserting(pr.at.req, pr.at.data)))
      && (bytes != [] ==> ProcOk(s, pr.(at := NextPart(pr.at.req, pr.at.ino, pr.at.data, bytes))))
      && s.sql != Some(p)
  {
    hide CellInv;
  }

  lemma ChunkStep(s: Sys, p: Pid, chunk: Option<Bytes>)
    requires Inv(s) && p in s.procs && s.procs[p].Working? && s.procs[p].at.NextChunk?
    ensures Inv(StepChunk(s, p, s.procs[p], s.procs[p].at.req, s.procs[p].at.ino, s.procs[p].at.data, chunk))
  {
    hide PointInv, CellInv, Inv, Poised;
    var pr := s.procs[p];
    var t := StepChunk(s, p, pr, pr.at.req, pr.at.ino, pr.at.data, chunk);
    RecoilStep(s, p);
    PoisedBy(s, p);
    ChunkSafe(s, p, if chunk.Some? then chunk.value else []);
    ChunkStays(s, t, p, chunk);
  }

  lemma ChunkStays(s: Sys, t: Sys, p: Pid, chunk: Option<Bytes>)
    requires Inv(s) && p in s.procs && s.procs[p].Working? && s.procs[p].at.NextChunk? && s.procs[p].held == Exclusive
    requires t == StepChunk(s, p, s.procs[p], s.procs[p].at.req, s.procs[p].at.ino, s.procs[p].at.data, chunk)
    requires Inv(Recoil(s, p, s.procs[p])) && s.sql != Some(p)
    requires var pr := s.procs[p];
      && ProcOk(s, pr.(at := Inserting(pr.at.req, pr.at.data)))
      && (chunk.Some? && chunk.value != [] ==>
           ProcOk(s, pr.(at := NextPart(pr.at.req, pr.at.ino, pr.at.data, chunk.value))))
    ensures Inv(t)
  {
    hide PcInv, CellInv, Inv;
    var pr := s.procs[p];
    if t != s && t != Recoil(s, p, pr) {
      StayStep(s, t, p, t.procs[p].at);
    }
  }

  lemma PartNonempty(rest: Bytes)
    requires rest != []
    ensures 0 < |PartOf(rest)| <= |rest|
  {
  }

  /** A step of the tables alone moves no link. */
  lemma RowsLocal(s: Sys, t: Sys, p: Pid, c: Cell, d: Cell)
    requires Poised(s, p) && t.fs == s.fs && OnlyRows(s.db, t.db, s.procs[p].op.id)
    requires c == CellOf(s.db, s.fs, s.procs[p].op.id) && d == CellOf(t.db, t.fs, s.procs[p].op.id)
    requires CellInv(d) && Charges(s.db, t.db, c.row.owner, c, d) && EffectsMove(s.db, t.db, s.procs[p].op.id, c, d)
    ensures LocalData(s.db, s.fs, t.db, t.fs, s.procs[p].op.id)
  {
    hide CellInv, PointInv;
    SameLinks(s.db, s.fs, s.procs[p].op.id);
  }

  lemma AdvanceRows(db: Db, policy: Policy, clock: nat, free: nat, op: Handle, size: nat, written: bool)
    requires RowsOk(db) && op.id in db.reservations && Matches(op, db.reservations[op.id])
    requires Advance(db, policy, clock, free, op, size, written).Ok?
    ensures OnlyRows(db, Advance(db, policy, clock, free, op, size, written).value, op.id)
  {
    SameRows(db, op.id);
  }

  /** What `_advance` does to the operation and to its owner's counters. */
  lemma AdvanceCell(db: Db, fs: Fs, policy: Policy, clock: nat, free: nat, op: Handle, size: nat, written: bool)
    requires op.id in db.reservations && Matches(op, db.reservations[op.id])
    requires Advance(db, policy, clock, free, op, size, written).Ok?
    ensures op.id in Advance(db, policy, clock, free, op, size, written).value.reservations
    ensures var next := Advance(db, policy, clock, free, op, size, written).value;
      var c, d := CellOf(db, fs, op.id), CellOf(next, fs, op.id);
      && Active(c.row.state)
      && d == c.(row := c.row.(allocation := Max(c.row.allocation, size), state := Writing,
                               leaseExpires := clock + policy.leaseSeconds,
                               written := if written then size else c.row.written))
      && Charges(db, next, c.row.owner, c, d) && next.effects == db.effects
  {
  }

  lemma PartCell(pr: Proc, c: Cell, d: Cell)
    requires pr.Working? && pr.at.NextPart? && PcInv(pr, c) && CellInv(c) && Active(c.row.state)
    requires var part := PartOf(pr.at.rest);
      d == c.(row := c.row.(allocation := Max(c.row.allocation, |pr.at.data| + |part|), state := Writing,
                            leaseExpires := d.row.leaseExpires))
    ensures CellInv(d)
    ensures var part := PartOf(pr.at.rest);
      PcInv(pr.(at := WritingPart(pr.at.req, pr.at.ino, pr.at.data, part, 0, pr.at.rest[|part|..])), d)
  {
    var part := PartOf(pr.at.rest);
    PartNonempty(pr.at.rest);
    assert pr.at.data + part[..0] == pr.at.data;
  }

  /** The process half of a step: only `p` moves, and an operation not yet staged stays so unless `p` created it. */
  lemma Moves(s: Sys, t: Sys, p: Pid, at: Point, c: Cell, d: Cell)
    requires Poised(s, p)
    requires t.procs == s.procs[p := s.procs[p].(at := at)]
    requires t.locks == s.locks && t.shared == s.shared && t.answers == s.answers
    requires SqlMoves(s, t, p, at.Linking? || at.Committing?)
    requires s.procs[p].op.id in t.db.reservations
    requires c == CellOf(s.db, s.fs, s.procs[p].op.id) && d == CellOf(t.db, t.fs, s.procs[p].op.id)
    requires PcInv(s.procs[p].(at := at), d)
    requires CreationSafe(s.procs[p], c, d)
    requires c.row.state == Committed ==> d.row.state == Committed
    ensures LocalProcs(s, t, p, s.procs[p].op.id, at)
  {
    hide PointInv, CellInv, RowsOk, LinksOk;
  }

  /** Outside the publishing transaction the settings row stays as it was. */
  lemma OutsideSql(s: Sys, t: Sys, p: Pid)
    requires SqlOk(s) && p in s.procs && !InTransaction(s.procs[p]) && t.sql == s.sql
    ensures SqlMoves(s, t, p, false)
  {
  }

  lemma PartLocal(s: Sys, p: Pid, env: Env)
    requires Poised(s, p) && s.procs[p].at.NextPart?
    requires var pr := s.procs[p];
      Advance(s.db, s.policy, s.clock, env.free, pr.op, |pr.at.data| + |PartOf(pr.at.rest)|, false).Ok?
    ensures var pr := s.procs[p]; var part := PartOf(pr.at.rest);
      var t := StepPart(s, p, pr, pr.at.req, pr.at.ino, pr.at.data, pr.at.rest, env);
      && LocalData(s.db, s.fs, t.db, t.fs, pr.op.id)
      && LocalProcs(s, t, p, pr.op.id, WritingPart(pr.at.req, pr.at.ino, pr.at.data, part, 0, pr.at.rest[|part|..]))
  {
    hide PointInv, CellInv, Advance, OnlyRows, LocalData, LocalProcs, RowsOk, LinksOk, Charges, SqlOk;
    var pr := s.procs[p];
    var o, size := pr.op.id, |pr.at.data| + |PartOf(pr.at.rest)|;
    var t := StepPart(s, p, pr, pr.at.req, pr.at.ino, pr.at.data, pr.at.rest, env);
    AdvanceRows(s.db, s.policy, s.clock, env.free, pr.op, size, false);
    AdvanceCell(s.db, s.fs, s.policy, s.clock, env.free, pr.op, size, false);
    var c, d := CellOf(s.db, s.fs, o), CellOf(t.db, t.fs, o);
    PartCell(pr, c, d);
    RowsLocal(s, t, p, c, d);
    OutsideSql(s, t, p);
    Moves(s, t, p, t.procs[p].at, c, d);
  }

  lemma PartStep(s: Sys, p: Pid, env: Env)
    requires Inv(s) && p in s.procs && s.procs[p].Working? && s.procs[p].at.NextPart?
    ensures var at := s.procs[p].at; Inv(StepPart(s, p, s.procs[p], at.req, at.ino, at.data, at.rest, env))
  {
    hide PointInv, CellInv, Inv;
    var pr := s.procs[p];
    var part := PartOf(pr.at.rest);
    if Advance(s.db, s.policy, s.clock, env.free, pr.op, |pr.at.data| + |part|, false).Err? {
      RecoilStep(s, p);
    } else {
      PoisedBy(s, p);
      PartLocal(s, p, env);
      HolderStep(s, StepPart(s, p, pr, pr.at.req, pr.at.ino, pr.at.data, pr.at.rest, env), p, pr.op.id,
                 WritingPart(pr.at.req, pr.at.ino, pr.at.data, part, 0, pr.at.rest[|part|..]));
    }
  }

  // ----- writing a part

  lemma WriteCell(pr: Proc, c: Cell, d: Cell, next: nat)
    requires pr.Working? && pr.at.WritingPart? && PcInv(pr, c) && CellInv(c)
    requires pr.at.done < next <= |pr.at.part| && c.staged.Some?
    requires d == c.(staged := Some(Link(pr.at.ino, c.staged.value.data + pr.at.part[pr.at.done..next])))
    ensures CellInv(d)
    ensures next == |pr.at.part| ==>
      PcInv(pr.(at := PartWritten(pr.at.req, pr.at.ino, pr.at.data + pr.at.part, pr.at.rest)), d)
    ensures next < |pr.at.part| ==>
      PcInv(pr.(at := WritingPart(pr.at.req, pr.at.ino, pr.at.data, pr.at.part, next, pr.at.rest)), d)
  {
    var at := pr.at;
    assert at.data + at.part[..at.done] + at.part[at.done..next] == at.data + at.part[..next];
    assert at.part[..|at.part|] == at.part;
  }

  /** Appending to the operation's own staged inode. */
  lemma AppendLinks(s: Sys, p: Pid, bytes: Bytes)
    requires Poised(s, p) && s.procs[p].at.WritingPart?
    ensures var pr := s.procs[p]; var fs := Append(s.fs, pr.at.ino, bytes);
      var c, d := CellOf(s.db, s.fs, pr.op.id), CellOf(s.db, fs, pr.op.id);
      && OnlyLinks(s.fs, fs, pr.op.id, RowName(s.db.reservations[pr.op.id]))
      && c.staged.Some? && d == c.(staged := Some(Link(pr.at.ino, c.staged.value.data + bytes)))
  {
    hide CellInv;
    var pr := s.procs[p];
    assert pr.op.id in s.fs.staging && s.fs.staging[pr.op.id] == pr.at.ino;
    SameLinks(s.db, s.fs, pr.op.id);
  }

  lemma WriteLocal(s: Sys, p: Pid, count: nat)
    requires Poised(s, p) && s.procs[p].at.WritingPart? && s.procs[p].at.done < |s.procs[p].at.part| && count > 0
    ensures var pr := s.procs[p];
      var t := StepWrite(s, p, pr, pr.at.req, pr.at.ino, pr.at.data, pr.at.part, pr.at.done, pr.at.rest, count);
      && t.procs == s.procs[p := pr.(at := t.procs[p].at)]
      && LocalData(s.db, s.fs, t.db, t.fs, pr.op.id) && LocalProcs(s, t, p, pr.op.id, t.procs[p].at)
  {
    hide PointInv, CellInv, OnlyLinks, LocalData, LocalProcs, RowsOk, LinksOk, SqlOk, Append;
    var pr := s.procs[p];
    var next: nat := Min(|pr.at.part|, pr.at.done + count);
    var t := StepWrite(s, p, pr, pr.at.req, pr.at.ino, pr.at.data, pr.at.part, pr.at.done, pr.at.rest, count);
    var c, d := CellOf(s.db, s.fs, pr.op.id), CellOf(t.db, t.fs, pr.op.id);
    AppendLinks(s, p, pr.at.part[pr.at.done..next]);
    WriteCell(pr, c, d, next);
    FilesLocal(s, t, p);
    OutsideSql(s, t, p);
    Moves(s, t, p, t.procs[p].at, c, d);
  }

  lemma WriteStep(s: Sys, p: Pid, count: nat)
    requires Inv(s) && p in s.procs && s.procs[p].Working? && s.procs[p].at.WritingPart?
    requires s.procs[p].at.done < |s.procs[p].at.part|
    ensures var at := s.procs[p].at;
      Inv(StepWrite(s, p, s.procs[p], at.req, at.ino, at.data, at.part, at.done, at.rest, count))
  {
    hide PointInv, CellInv, Inv, LocalData, LocalProcs, Poised, Append;
    var pr := s.procs[p];
    if count == 0 {
      RecoilStep(s, p);
    } else {
      PoisedBy(s, p);
      WriteLocal(s, p, count);
      var t := StepWrite(s, p, pr, pr.at.req, pr.at.ino, pr.at.data, pr.at.part, pr.at.done, pr.at.rest, count);
      HolderStep(s, t, p, pr.op.id, t.procs[p].at);
    }
  }

  lemma WrittenCell(pr: Proc, c: Cell, d: Cell, at: Point)
    requires pr.Working? && pr.at.PartWritten? && PcInv(pr, c) && CellInv(c)
    requires d == c.(row := c.row.(allocation := Max(c.row.allocation, |pr.at.data|), state := Writing,
                                   leaseExpires := d.row.leaseExpires, written := |pr.at.data|))
    requires at == if pr.at.rest == [] then NextChunk(pr.at.req, pr.at.ino, pr.at.data)
                   else NextPart(pr.at.req, pr.at.ino, pr.at.data, pr.at.rest)
    ensures CellInv(d) && PcInv(pr.(at := at), d)
    // The second `_advance` never has to grow the allocation it does not check.
    ensures d.row.allocation == c.row.allocation
  {
  }

  lemma WrittenLocal(s: Sys, p: Pid, env: Env)
    requires Poised(s, p) && s.procs[p].at.PartWritten?
    requires Advance(s.db, s.policy, s.clock, env.free, s.procs[p].op, |s.procs[p].at.data|, true).Ok?
    ensures var pr := s.procs[p];
      var t := StepWritten(s, p, pr, pr.at.req, pr.at.ino, pr.at.data, pr.at.rest, env);
      && t.procs == s.procs[p := pr.(at := t.procs[p].at)]
      && LocalData(s.db, s.fs, t.db, t.fs, pr.op.id) && LocalProcs(s, t, p, pr.op.id, t.procs[p].at)
  {
    hide PointInv, CellInv, Advance, OnlyRows, LocalData, LocalProcs, RowsOk, LinksOk, Charges, SqlOk;
    var pr := s.procs[p];
    var t := StepWritten(s, p, pr, pr.at.req, pr.at.ino, pr.at.data, pr.at.rest, env);
    AdvanceRows(s.db, s.policy, s.clock, env.free, pr.op, |pr.at.data|, true);
    AdvanceCell(s.db, s.fs, s.policy, s.clock, env.free, pr.op, |pr.at.data|, true);
    var c, d := CellOf(s.db, s.fs, pr.op.id), CellOf(t.db, t.fs, pr.op.id);
    WrittenCell(pr, c, d, t.procs[p].at);
    RowsLocal(s, t, p, c, d);
    OutsideSql(s, t, p);
    Moves(s, t, p, t.procs[p].at, c, d);
  }

  lemma WrittenStep(s: Sys, p: Pid, env: Env)
    requires Inv(s) && p in s.procs && s.procs[p].Working? && s.procs[p].at.PartWritten?
    ensures var at := s.procs[p].at; Inv(StepWritten(s, p, s.procs[p], at.req, at.ino, at.data, at.rest, env))
  {
    hide PointInv, CellInv, Inv, LocalData, LocalProcs, Poised, Advance;
    var pr := s.procs[p];
    if Advance(s.db, s.policy, s.clock, env.free, pr.op, |pr.at.data|, true).Err? {
      RecoilStep(s, p);
    } else {
      PoisedBy(s, p);
      WrittenLocal(s, p, env);
      var t := StepWritten(s, p, pr, pr.at.req, pr.at.ino, pr.at.data, pr.at.rest, env);
      HolderStep(s, t, p, pr.op.id, t.procs[p].at);
    }
  }

  // ----- publishing

  lemma InsertRows(db: Db, fs: Fs, op: Handle, size: nat, digest: Digest)
    requires RowsOk(db) && op.id in db.reservations && Matches(op, db.reservations[op.id])
    requires CellOf(db, fs, op.id).file.None?
    requires InsertStaged(db, op, size, digest).Ok?
    ensures var next := InsertStaged(db, op, size, digest).value;
      && op.id in next.reservations && OnlyRows(db, next, op.id)
      && var c, d := CellOf(db, fs, op.id), CellOf(next, fs, op.id);
      && Active(c.row.state)
      && d == c.(row := c.row.(state := Staged), file := Some(FileRow(op.owner, op.id, size, digest, InStaging)))
      && Charges(db, next, c.row.owner, c, d) && next.effects == db.effects
  {
    SameRows(db, op.id);
  }

  lemma InsertCell(pr: Proc, c: Cell, d: Cell)
    requires pr.Working? && pr.at.Inserting? && PcInv(pr, c) && CellInv(c) && Active(c.row.state)
    requires d == c.(row := c.row.(state := Staged),
                     file := Some(FileRow(pr.op.owner, pr.op.id, |pr.at.data|, Sha256(pr.at.data), InStaging)))
    ensures CellInv(d) && PcInv(pr.(at := Publishing(pr.at.req, pr.at.data)), d)
  {
  }

  lemma NoFileYet(pr: Proc, c: Cell)
    requires pr.Working? && pr.at.Inserting? && PcInv(pr, c)
    ensures c.file.None?
  {
  }

  lemma InsertLocal(s: Sys, p: Pid)
    requires Poised(s, p) && s.procs[p].at.Inserting?
    requires InsertStaged(s.db, s.procs[p].op, |s.procs[p].at.data|, Sha256(s.procs[p].at.data)).Ok?
    ensures var pr := s.procs[p]; var t := StepInsert(s, p, pr, pr.at.req, pr.at.data);
      && LocalData(s.db, s.fs, t.db, t.fs, pr.op.id)
      && LocalProcs(s, t, p, pr.op.id, Publishing(pr.at.req, pr.at.data))
  {
    hide PointInv, CellInv, InsertStaged, OnlyRows, LocalData, LocalProcs, RowsOk, LinksOk, Charges, SqlOk;
    var pr := s.procs[p];
    var t := StepInsert(s, p, pr, pr.at.req, pr.at.data);
    var c := CellOf(s.db, s.fs, pr.op.id);
    NoFileYet(pr, c);
    InsertRows(s.db, s.fs, pr.op, |pr.at.data|, Sha256(pr.at.data));
    var d := CellOf(t.db, t.fs, pr.op.id);
    InsertCell(pr, c, d);
    RowsLocal(s, t, p, c, d);
    OutsideSql(s, t, p);
    Moves(s, t, p, t.procs[p].at, c, d);
  }

  lemma InsertStep(s: Sys, p: Pid)
    requires Inv(s) && p in s.procs && s.procs[p].Working? && s.procs[p].at.Inserting?
    ensures Inv(StepInsert(s, p, s.procs[p], s.procs[p].at.req, s.procs[p].at.data))
  {
    hide PointInv, CellInv, Inv, LocalData, LocalProcs, Poised, InsertStaged;
    var pr := s.procs[p];
    if InsertStaged(s.db, pr.op, |pr.at.data|, Sha256(pr.at.data)).Err? {
      RecoilStep(s, p);
    } else {
      PoisedBy(s, p);
      InsertLocal(s, p);
      HolderStep(s, StepInsert(s, p, pr, pr.at.req, pr.at.data), p, pr.op.id, Publishing(pr.at.req, pr.at.data));
    }
  }

  lemma PublishSafe(s: Sys, p: Pid, env: Env)
    requires Poised(s, p) && s.procs[p].at.Publishing? && s.sql == None
    requires PublishCheck(s.db, s.policy, env.free, s.procs[p].op).None?
    ensures var pr := s.procs[p]; var t := StepPublish(s, p, pr, pr.at.req, pr.at.data, env);
      HolderMoves(s, t, p, Linking(pr.at.req, pr.at.data)) && ProcOk(t, pr.(at := Linking(pr.at.req, pr.at.data)))
  {
    hide CellInv, RowsOk, LinksOk, PublishCheck;
  }

  lemma PublishStep(s: Sys, p: Pid, env: Env)
    requires Inv(s) && p in s.procs && s.procs[p].Working? && s.procs[p].at.Publishing? && s.sql == None
    ensures Inv(StepPublish(s, p, s.procs[p], s.procs[p].at.req, s.procs[p].at.data, env))
  {
    hide PointInv, CellInv, Inv, PublishCheck, HolderMoves, Poised;
    var pr := s.procs[p];
    if PublishCheck(s.db, s.policy, env.free, pr.op).Some? {
      RecoilStep(s, p);
    } else {
      PoisedBy(s, p);
      PublishSafe(s, p, env);
      StayStep(s, StepPublish(s, p, pr, pr.at.req, pr.at.data, env), p, Linking(pr.at.req, pr.at.data));
    }
  }

  lemma LinkCell(s: Sys, p: Pid, fs: Fs)
    requires Poised(s, p) && s.procs[p].at.Linking? && Publish(s.fs, s.procs[p].op) == Some(fs)
    ensures var o := s.procs[p].op.id; var c, d := CellOf(s.db, s.fs, o), CellOf(s.db, fs, o);
      && OnlyLinks(s.fs, fs, o, RowName(s.db.reservations[o])) && d == c.(published := c.staged) && CellInv(d)
  {
    SameLinks(s.db, s.fs, s.procs[p].op.id);
  }

  lemma LinkLocal(s: Sys, p: Pid)
    requires Poised(s, p) && s.procs[p].at.Linking? && Publish(s.fs, s.procs[p].op).Some?
    ensures var pr := s.procs[p]; var t := StepLink(s, p, pr, pr.at.req, pr.at.data);
      && LocalData(s.db, s.fs, t.db, t.fs, pr.op.id)
      && LocalProcs(s, t, p, pr.op.id, Committing(pr.at.req, pr.at.data))
  {
    hide CellInv, LocalData, LocalProcs, OnlyLinks, RowsOk, LinksOk, Publish;
    var pr := s.procs[p];
    var t := StepLink(s, p, pr, pr.at.req, pr.at.data);
    var c, d := CellOf(s.db, s.fs, pr.op.id), CellOf(t.db, t.fs, pr.op.id);
    LinkCell(s, p, Publish(s.fs, pr.op).value);
    FilesLocal(s, t, p);
    Moves(s, t, p, t.procs[p].at, c, d);
  }

  lemma LinkStep(s: Sys, p: Pid)
    requires Inv(s) && p in s.procs && s.procs[p].Working? && s.procs[p].at.Linking?
    ensures Inv(StepLink(s, p, s.procs[p], s.procs[p].at.req, s.procs[p].at.data))
  {
    hide PointInv, CellInv, Inv, LocalData, LocalProcs, Poised, Publish;
    var pr := s.procs[p];
    if Publish(s.fs, pr.op).None? {
      RecoilStep(s, p);
    } else {
      PoisedBy(s, p);
      LinkLocal(s, p);
      HolderStep(s, StepLink(s, p, pr, pr.at.req, pr.at.data), p, pr.op.id, Committing(pr.at.req, pr.at.data));
    }
  }

  lemma CommitRows(db: Db, fs: Fs, op: Handle, size: nat)
    requires RowsOk(db) && op.id in db.reservations && Matches(op, db.reservations[op.id])
    requires op.owner in db.accounts && op.fileId in db.files
    requires db.reservations[op.id].state == Staged
    requires db.files[op.fileId].state == InStaging && db.files[op.fileId].size == size
    ensures var next := PublishCommit(db, op, size);
      && op.id in next.reservations && OnlyRows(db, next, op.id)
      && var c, d := CellOf(db, fs, op.id), CellOf(next, fs, op.id);
      && d == c.(row := c.row.(state := Committed), file := Some(c.file.value.(state := Ready)))
      && Charges(db, next, c.row.owner, c, d) && EffectsMove(db, next, op.id, c, d)
  {
    SameRows(db, op.id);
  }

  lemma CommitCell(pr: Proc, c: Cell, d: Cell, why: Why)
    requires pr.Working? && pr.at.Committing? && PcInv(pr, c) && CellInv(c)
    requires c.file.Some? && d == c.(row := c.row.(state := Committed), file := Some(c.file.value.(state := Ready)))
    requires why == Failed ||
      why == Finished(pr.at.req, StoredFile(pr.op.fileId, pr.op.owner, |pr.at.data|, Sha256(pr.at.data)))
    ensures CellInv(d) && PcInv(pr.(at := CleanMarking(why)), d)
  {
  }

  lemma CommittingFacts(pr: Proc, c: Cell)
    requires pr.Working? && pr.at.Committing? && PcInv(pr, c) && CellInv(c)
    ensures c.row.state == Staged && c.file.Some? && c.file.value.state == InStaging
    ensures c.file.value.size == |pr.at.data|
  {
  }

  lemma CommitLocal(s: Sys, p: Pid, outcome: Outcome)
    requires Poised(s, p) && s.procs[p].at.Committing? && outcome != RolledBack
    requires s.procs[p].op.owner in s.db.accounts && s.procs[p].op.fileId in s.db.files
    ensures var pr := s.procs[p]; var t := StepCommit(s, p, pr, pr.at.req, pr.at.data, outcome);
      && t.procs == s.procs[p := pr.(at := t.procs[p].at)]
      && LocalData(s.db, s.fs, t.db, t.fs, pr.op.id) && LocalProcs(s, t, p, pr.op.id, t.procs[p].at)
  {
    hide PointInv, CellInv, PublishCommit, OnlyRows, LocalData, LocalProcs, RowsOk, LinksOk, Charges, EffectsMove;
    var pr := s.procs[p];
    var t := StepCommit(s, p, pr, pr.at.req, pr.at.data, outcome);
    var c := CellOf(s.db, s.fs, pr.op.id);
    CommittingFacts(pr, c);
    CommitRows(s.db, s.fs, pr.op, |pr.at.data|);
    var d := CellOf(t.db, t.fs, pr.op.id);
    CommitCell(pr, c, d, t.procs[p].at.why);
    RowsLocal(s, t, p, c, d);
    assert s.sql == Some(p);
    Moves(s, t, p, t.procs[p].at, c, d);
  }

  lemma CommitStep(s: Sys, p: Pid, outcome: Outcome)
    requires Inv(s) && p in s.procs && s.procs[p].Working? && s.procs[p].at.Committing?
    ensures Inv(StepCommit(s, p, s.procs[p], s.procs[p].at.req, s.procs[p].at.data, outcome))
  {
    hide PointInv, CellInv, Inv, LocalData, LocalProcs, PublishCommit;
    var pr := s.procs[p];
    PoisedBy(s, p);
    if outcome == RolledBack || pr.op.owner !in s.db.accounts || pr.op.fileId !in s.db.files {
      RecoilStep(s, p);
    } else {
      CommitLocal(s, p, outcome);
      var t := StepCommit(s, p, pr, pr.at.req, pr.at.data, outcome);
      HolderStep(s, t, p, pr.op.id, t.procs[p].at);
    }
  }
}
