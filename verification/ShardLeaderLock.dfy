/** The leader lock of a shard (shard_leader_lock.hpp): an exclusive lock on a file, one holder at a time. */
module ShardLeaderLocks {
  import opened Orders

  /** The lock file; the kernel knows which open file description holds the lock, if any. */
  class LockFile {
    var holder: Option<nat>

    constructor ()
      ensures holder == None
    {
      holder := None;
    }

    /** What the other processes did to the lock meanwhile; they cannot take it from `fd` or give it to `fd`. */
    method Meanwhile(fd: nat, others: Option<nat>)
      requires others != Some(fd)
      modifies this
      ensures holder == if old(holder) == Some(fd) then Some(fd) else others
    {
      if holder != Some(fd) {
        holder := others;
      }
    }
  }

  class ShardLeaderLock {
    const file: LockFile
    const fd: nat
    var held: bool

    /** The cached flag tells the truth about the lock. */
    ghost predicate Valid()
      reads this, file
    {
      held <==> file.holder == Some(fd)
    }

    constructor (file: LockFile, fd: nat)
      requires file.holder != Some(fd)
      ensures Valid() && this.file == file && this.fd == fd && !held
    {
      this.file := file;
      this.fd := fd;
      held := false;
    }

    /** Succeeds exactly when nobody else holds the lock, and again when called again. */
    method TryAcquire() returns (r: bool)
      requires Valid()
      modifies this`held, file
      ensures Valid() && r == held
      ensures r <==> old(file.holder) in {None, Some(fd)}
      ensures file.holder == if r then Some(fd) else old(file.holder)
    {
      if held {
        return true;
      }
      if file.holder.None? {
        file.holder := Some(fd);
        held := true;
      }
      return held;
    }

    /** The process dies or the object is destroyed: the kernel drops its lock and no other. */
    method Close()
      requires Valid()
      modifies this`held, file
      ensures Valid() && !held
      ensures file.holder == if old(held) then None else old(file.holder)
    {
      if held {
        file.holder := None;
      }
      held := false;
    }
  }

  /** Two processes never both hold the lock; once the holder is gone the other's next try succeeds. */
  method Takeover(a: ShardLeaderLock, b: ShardLeaderLock) returns (before: bool, after: bool)
    requires a.file == b.file && a.fd != b.fd && a.Valid() && b.Valid() && a.held
    modifies a`held, b`held, a.file
    ensures !before && after && !a.held && b.held
  {
    before := b.TryAcquire();
    a.Close();
    after := b.TryAcquire();
  }
}
