/** The storage directory: staging names, published names and the inodes they link to.
    Every function is one system call, or one stat followed at once by the unlink it decides. */
module StorageFiles {
  import opened Common
  import opened StorageTables

  /** `creator` records which operation created the inode; no code reads it. */
  datatype Inode = Inode(creator: Uuid, data: Bytes)

  datatype FileName = FileName(owner: Uuid, id: Uuid)

  datatype Fs = Fs(inodes: map<nat, Inode>, staging: map<Uuid, nat>, published: map<FileName, nat>, nextInode: nat)

  function NameOf(op: Handle): FileName {
    FileName(op.owner, op.fileId)
  }

  /** Exclusive creation of an empty staging file. */
  function CreateStaging(fs: Fs, op: Uuid): Option<Fs> {
    if op in fs.staging then None
    else Some(fs.(staging := fs.staging[op := fs.nextInode],
                  inodes := fs.inodes[fs.nextInode := Inode(op, [])],
                  nextInode := fs.nextInode + 1))
  }

  /** One `write` through an open stream. */
  function Append(fs: Fs, ino: nat, data: Bytes): Fs {
    if ino in fs.inodes
    then fs.(inodes := fs.inodes[ino := fs.inodes[ino].(data := fs.inodes[ino].data + data)])
    else fs
  }

  /** Hard-link the staging file under its published name; an existing name is never overwritten. */
  function Publish(fs: Fs, op: Handle): Option<Fs> {
    if op.id !in fs.staging || NameOf(op) in fs.published then None
    else Some(fs.(published := fs.published[NameOf(op) := fs.staging[op.id]]))
  }

  function UnlinkPublished(fs: Fs, name: FileName): Fs {
    fs.(published := fs.published - {name})
  }

  function UnlinkStaging(fs: Fs, op: Uuid): Fs {
    fs.(staging := fs.staging - {op})
  }

  /** `clean` of an uncommitted operation, up to its published name: the name goes only if it is the staged inode. */
  function CleanPublished(fs: Fs, op: Handle): Option<Fs> {
    if NameOf(op) !in fs.published then Some(fs)
    else if op.id !in fs.staging || fs.staging[op.id] != fs.published[NameOf(op)] then None
    else Some(UnlinkPublished(fs, NameOf(op)))
  }

  /** `clean` of a committed operation: drop the redundant staging link, never the published one. */
  function CleanCommitted(fs: Fs, op: Handle): Option<Fs> {
    if op.id !in fs.staging then Some(fs)
    else if NameOf(op) !in fs.published || fs.staging[op.id] != fs.published[NameOf(op)] then None
    else Some(UnlinkStaging(fs, op.id))
  }
}
