/** The steps of one undisturbed store, point by point. */
module StorageWriting {
  import opened Common
  import opened StorageTables
  import opened StorageFiles
  import opened StorageMachine
  import opened StorageInvariant
  import opened StorageSteps
  import opened StorageRuns
  import opened StorageSequential

  lemma BeginAlone(db: Db, fs: Fs, e: Environment, req: Request, free: nat)
    requires DataInv(db, fs)
    requires Begin(db, e.policy, e.clock, free, req).1.Ok? && Begin(db, e.policy, e.clock, free, req).1.value.created
    ensures var (next, begun) := Begin(db, e.policy, e.clock, free, req);
      Sound(next, fs, e, begun.value.op, true, Staging(req))
  {
    hide DataInv, Begin, Sound, SumsOk, CellInv;
    var (next, begun) := Begin(db, e.policy, e.clock, free, req);
    BeginInserts(db, e.policy, e.clock, free, req);
    var row := next.reservations[db.issued];
    InsertedData(db, fs, next, req, row);
    assert CellOf(next, fs, db.issued) == Cell(row, None, None, None) by {
      RowsLinks(db, fs);
      NewCell(db, fs, next, req, row);
    }
    SoundAt(next, fs, e, begun.value.op, true, Staging(req));
  }

  lemma RowsLinks(db: Db, fs: Fs)
    requires DataInv(db, fs)
    ensures RowsOk(db) && LinksOk(db, fs)
  {
  }

  /** An exception anywhere in the guarded part leads to clean-up. */
  lemma RaiseAlone(db: Db, fs: Fs, e: Environment, op: Handle, at: Point)
    requires Sound(db, fs, e, op, true, at) && HoldAt(at) == Exclusive
    ensures Sound(db, fs, e, op, true, CleanMarking(Failed))
  {
    hide Sound, DataInv;
    SoundData(db, fs, e, op, true, at);
    SoundAt(db, fs, e, op, true, CleanMarking(Failed));
  }

  lemma StageAlone(db: Db, fs: Fs, e: Environment, op: Handle, req: Request)
    requires Sound(db, fs, e, op, true, Staging(req)) && CreateStaging(fs, op.id).Some?
    ensures Sound(db, CreateStaging(fs, op.id).value, e, op, true, NextChunk(req, fs.nextInode, []))
  {
    hide Inv;
    var s := Alone(db, fs, e, op, true, Staging(req));
    StageStep(s, 0);
    SameAlone(StepStage(s, 0, s.procs[0], req), db, CreateStaging(fs, op.id).value, e, op, true,
              NextChunk(req, fs.nextInode, []));
  }

  lemma ChunkAlone(db: Db, fs: Fs, e: Environment, op: Handle, req: Request, ino: nat, data: Bytes, chunk: Bytes)
    requires Sound(db, fs, e, op, true, NextChunk(req, ino, data))
    requires |data| + |chunk| <= e.policy.fileBytes && chunk != []
    ensures Sound(db, fs, e, op, true, NextPart(req, ino, data, chunk))
  {
    hide Inv;
    var s := Alone(db, fs, e, op, true, NextChunk(req, ino, data));
    ChunkStep(s, 0, Some(chunk));
    SameAlone(StepChunk(s, 0, s.procs[0], req, ino, data, Some(chunk)), db, fs, e, op, true,
      NextPart(req, ino, data, chunk));
  }

  lemma EndAlone(db: Db, fs: Fs, e: Environment, op: Handle, req: Request, ino: nat, data: Bytes)
    requires Sound(db, fs, e, op, true, NextChunk(req, ino, data))
    requires req.expected.Some? ==> |data| == req.expected.value
    ensures Sound(db, fs, e, op, true, Inserting(req, data))
  {
    hide Inv;
    var s := Alone(db, fs, e, op, true, NextChunk(req, ino, data));
    ChunkStep(s, 0, None);
    SameAlone(StepChunk(s, 0, s.procs[0], req, ino, data, None), db, fs, e, op, true, Inserting(req, data));
  }

  lemma PartAlone(db: Db, fs: Fs, e: Environment, op: Handle, req: Request, ino: nat, data: Bytes, rest: Bytes,
                  free: nat)
    requires Sound(db, fs, e, op, true, NextPart(req, ino, data, rest))
    requires Advance(db, e.policy, e.clock, free, op, |data| + |PartOf(rest)|, false).Ok?
    ensures var part := PartOf(rest);
      Sound(Advance(db, e.policy, e.clock, free, op, |data| + |part|, false).value, fs, e, op, true,
            WritingPart(req, ino, data, part, 0, rest[|part|..]))
  {
    hide Inv, Advance;
    var s, env := Alone(db, fs, e, op, true, NextPart(req, ino, data, rest)), Env(free, None, 0, CommitAnswered, false);
    PartStep(s, 0, env);
    var part := PartOf(rest);
    SameAlone(StepPart(s, 0, s.procs[0], req, ino, data, rest, env),
              Advance(db, e.policy, e.clock, free, op, |data| + |part|, false).value, fs, e, op, true,
              WritingPart(req, ino, data, part, 0, rest[|part|..]));
  }

  lemma WriteAlone(db: Db, fs: Fs, e: Environment, op: Handle, req: Request, ino: nat, data: Bytes, part: Bytes,
                   done: nat, rest: Bytes, count: nat)
    requires Sound(db, fs, e, op, true, WritingPart(req, ino, data, part, done, rest))
    requires 0 < count && done + count <= |part|
    ensures Sound(db, Append(fs, ino, part[done..done + count]), e, op, true,
                  if done + count == |part| then PartWritten(req, ino, data + part, rest)
                  else WritingPart(req, ino, data, part, done + count, rest))
  {
    hide Inv, Append;
    var s := Alone(db, fs, e, op, true, WritingPart(req, ino, data, part, done, rest));
    WriteStep(s, 0, count);
    SameAlone(StepWrite(s, 0, s.procs[0], req, ino, data, part, done, rest, count),
              db, Append(fs, ino, part[done..done + count]), e, op, true,
              if done + count == |part| then PartWritten(req, ino, data + part, rest)
              else WritingPart(req, ino, data, part, done + count, rest));
  }

  lemma WrittenAlone(db: Db, fs: Fs, e: Environment, op: Handle, req: Request, ino: nat, data: Bytes, rest: Bytes,
                     free: nat)
    requires Sound(db, fs, e, op, true, PartWritten(req, ino, data, rest))
    requires Advance(db, e.policy, e.clock, free, op, |data|, true).Ok?
    ensures Sound(Advance(db, e.policy, e.clock, free, op, |data|, true).value, fs, e, op, true,
                  if rest == [] then NextChunk(req, ino, data) else NextPart(req, ino, data, rest))
  {
    hide Inv, Advance;
    var s, env :=
      Alone(db, fs, e, op, true, PartWritten(req, ino, data, rest)), Env(free, None, 0, CommitAnswered, false);
    WrittenStep(s, 0, env);
    SameAlone(StepWritten(s, 0, s.procs[0], req, ino, data, rest, env),
              Advance(db, e.policy, e.clock, free, op, |data|, true).value, fs, e, op, true,
              if rest == [] then NextChunk(req, ino, data) else NextPart(req, ino, data, rest));
  }

  lemma InsertAlone(db: Db, fs: Fs, e: Environment, op: Handle, req: Request, data: Bytes)
    requires Sound(db, fs, e, op, true, Inserting(req, data)) && InsertStaged(db, op, |data|, Sha256(data)).Ok?
    ensures Sound(InsertStaged(db, op, |data|, Sha256(data)).value, fs, e, op, true, Publishing(req, data))
  {
    hide Inv, InsertStaged;
    var s := Alone(db, fs, e, op, true, Inserting(req, data));
    InsertStep(s, 0);
    SameAlone(StepInsert(s, 0, s.procs[0], req, data), InsertStaged(db, op, |data|, Sha256(data)).value, fs, e, op,
      true,
              Publishing(req, data));
  }

  lemma PublishAlone(db: Db, fs: Fs, e: Environment, op: Handle, req: Request, data: Bytes, free: nat)
    requires Sound(db, fs, e, op, true, Publishing(req, data)) && PublishCheck(db, e.policy, free, op).None?
    ensures Sound(db, fs, e, op, true, Linking(req, data))
  {
    hide Inv, PublishCheck;
    var s, env := Alone(db, fs, e, op, true, Publishing(req, data)), Env(free, None, 0, CommitAnswered, false);
    PublishStep(s, 0, env);
    SameAlone(StepPublish(s, 0, s.procs[0], req, data, env), db, fs, e, op, true, Linking(req, data));
  }

  lemma LinkAlone(db: Db, fs: Fs, e: Environment, op: Handle, req: Request, data: Bytes)
    requires Sound(db, fs, e, op, true, Linking(req, data)) && Publish(fs, op).Some?
    ensures Sound(db, Publish(fs, op).value, e, op, true, Committing(req, data))
  {
    hide Inv, Publish;
    var s := Alone(db, fs, e, op, true, Linking(req, data));
    LinkStep(s, 0);
    SameAlone(StepLink(s, 0, s.procs[0], req, data), db, Publish(fs, op).value, e, op, true, Committing(req, data));
  }

  lemma CommitAlone(db: Db, fs: Fs, e: Environment, op: Handle, req: Request, data: Bytes)
    requires Sound(db, fs, e, op, true, Committing(req, data))
    ensures op.owner in db.accounts && op.id in db.reservations && op.fileId in db.files
    ensures Sound(PublishCommit(db, op, |data|), fs, e, op, true,
                  CleanMarking(Finished(req, StoredFile(op.fileId, op.owner, |data|, Sha256(data)))))
  {
    hide Inv, PublishCommit, DataInv;
    var s := Alone(db, fs, e, op, true, Committing(req, data));
    assert op.owner in db.accounts && op.id in db.reservations && op.fileId in db.files by {
      SoundData(db, fs, e, op, true, Committing(req, data));
      RowsLinks(db, fs);
    }
    CommitStep(s, 0, CommitAnswered);
    SameAlone(StepCommit(s, 0, s.procs[0], req, data, CommitAnswered), PublishCommit(db, op, |data|), fs, e, op, true,
              CleanMarking(Finished(req, StoredFile(op.fileId, op.owner, |data|, Sha256(data)))));
  }
}
