/**
 The per-tenant readers/writer exclusion between the erasure and the workers.

 `Lock` and its transitions are the values the concurrent system steps over;
 `Guard` is the structure that hands the locks out, created on demand.
 */
module TenantGuard {
  import opened Prelude

  type ThreadId = nat

  /** Who holds one tenant's lock. */
  datatype Lock = Lock(readers: set<ThreadId>, writer: Option<ThreadId>)

  const FREE: Lock := Lock({}, None)

  predicate CanShare(l: Lock) {
    l.writer.None?
  }

  predicate CanExclude(l: Lock) {
    l.writer.None? && l.readers == {}
  }

  predicate Exclusion(l: Lock) {
    l.writer.Some? ==> l.readers == {}
  }

  function ReadLock(l: Lock, t: ThreadId): Lock {
    l.(readers := l.readers + {t})
  }

  function ReadUnlock(l: Lock, t: ThreadId): Lock {
    l.(readers := l.readers - {t})
  }

  function WriteLock(l: Lock, t: ThreadId): Lock {
    l.(writer := Some(t))
  }

  function WriteUnlock(l: Lock): Lock {
    l.(writer := None)
  }

  /** What an attempt to acquire one side comes to. */
  datatype Acquisition = Granted | Cancelled | Waiting

  class RWMutex {
    var held: Lock

    constructor ()
      ensures held == FREE
    {
      held := FREE;
    }
  }

  class Guard {
    var locks: map<int, RWMutex>

    /** Distinct tenants never share a lock. */
    ghost predicate Valid()
      reads this
    {
      forall a, b :: a in locks && b in locks && a != b ==> locks[a] != locks[b]
    }

    /** A tenant never seen has a free lock. */
    ghost function HeldBy(owner: int): Lock
      reads this, locks.Values
    {
      if owner in locks then locks[owner].held else FREE
    }

    constructor ()
      ensures Valid() && locks == map[]
    {
      locks := map[];
    }

    /** The lock of a tenant, created once. Nothing any tenant holds changes. */
    method ForTenant(owner: int) returns (lock: RWMutex)
      requires Valid()
      modifies this`locks
      ensures Valid()
      ensures owner in locks && locks[owner] == lock
      ensures owner in old(locks) ==> locks == old(locks)
      ensures owner !in old(locks) ==> fresh(lock) && locks == old(locks)[owner := lock]
      ensures forall o :: HeldBy(o) == old(HeldBy(o))
    {
      if owner in locks {
        return locks[owner];
      }
      lock := new RWMutex();
      locks := locks[owner := lock];
    }

    /** One attempt at the read side. A context that ends before the lock is
        granted, before the call or during the wait, takes nothing; otherwise a
        free lock is granted and a writer makes the caller wait and try again. */
    method Shared(owner: int, t: ThreadId, cancelled: bool) returns (a: Acquisition)
      requires Valid()
      modifies this`locks, locks.Values
      ensures Valid() && owner in locks
      ensures a.Cancelled? <==> cancelled
      ensures a.Waiting? <==> !cancelled && old(HeldBy(owner)).writer.Some?
      ensures HeldBy(owner) == if a.Granted? then ReadLock(old(HeldBy(owner)), t) else old(HeldBy(owner))
      ensures forall o :: o != owner ==> HeldBy(o) == old(HeldBy(o))
      ensures old(Exclusion(HeldBy(owner))) ==> Exclusion(HeldBy(owner))
    {
      var lock := ForTenant(owner);
      if cancelled {
        return Cancelled;
      }
      if !CanShare(lock.held) {
        return Waiting;
      }
      lock.held := ReadLock(lock.held, t);
      return Granted;
    }

    /** One attempt at the write side, which any holder makes wait. */
    method Exclusive(owner: int, t: ThreadId, cancelled: bool) returns (a: Acquisition)
      requires Valid()
      modifies this`locks, locks.Values
      ensures Valid() && owner in locks
      ensures a.Cancelled? <==> cancelled
      ensures a.Waiting? <==>
        !cancelled && (old(HeldBy(owner)).writer.Some? || old(HeldBy(owner)).readers != {})
      ensures HeldBy(owner) == if a.Granted? then WriteLock(old(HeldBy(owner)), t) else old(HeldBy(owner))
      ensures forall o :: o != owner ==> HeldBy(o) == old(HeldBy(o))
      ensures old(Exclusion(HeldBy(owner))) ==> Exclusion(HeldBy(owner))
    {
      var lock := ForTenant(owner);
      if cancelled {
        return Cancelled;
      }
      if !CanExclude(lock.held) {
        return Waiting;
      }
      lock.held := WriteLock(lock.held, t);
      return Granted;
    }

    /** The release of either side. */
    method Release(owner: int, t: ThreadId)
      requires Valid() && owner in locks
      requires HeldBy(owner).writer == Some(t) || t in HeldBy(owner).readers
      modifies locks[owner]
      ensures Valid()
      ensures HeldBy(owner) ==
        if old(HeldBy(owner)).writer == Some(t) then WriteUnlock(old(HeldBy(owner)))
        else ReadUnlock(old(HeldBy(owner)), t)
      ensures forall o :: o != owner ==> HeldBy(o) == old(HeldBy(o))
    {
      var lock := locks[owner];
      lock.held := if lock.held.writer == Some(t) then WriteUnlock(lock.held) else ReadUnlock(lock.held, t);
    }
  }
}
