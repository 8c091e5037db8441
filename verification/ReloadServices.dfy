/** The services behind the reload protocol: the lock in Redis, and one instance's cache with its reload and its
    sync handler, as they run when nothing comes between. The protocol interleaves the same steps. */
module ReloadServices {
  import opened Prelude
  import opened ReloadProtocol

  class CacheService {
    const now: nat
    var lock: Option<Lock>

    constructor (now: nat, lock: Option<Lock>)
      ensures this.now == now && this.lock == lock
    {
      this.now, this.lock := now, lock;
    }

    /** What a reader of the key sees: an expired key is gone. */
    ghost function Current(): Option<Lock>
      reads this
    {
      if lock.Some? && now < lock.value.expires then lock else None
    }

    method Acquire(owner: Instance, ttlMs: nat, id: nat) returns (acquired: bool)
      modifies this`lock
      ensures (lock, acquired) == SetNx(old(lock), now, Lock(owner, now + ttlMs, id))
      ensures acquired <==> old(Current()).None?
      ensures Current() == if acquired && ttlMs > 0 then Some(Lock(owner, now + ttlMs, id)) else old(Current())
    {
      acquired := lock.None? || lock.value.expires <= now;
      if acquired {
        lock := Some(Lock(owner, now + ttlMs, id));
      }
    }

    method Release(owner: Instance) returns (deleted: bool)
      modifies this`lock
      ensures lock == CompareAndDelete(old(lock), now, owner)
      ensures deleted <==> old(Current()).Some? && old(Current()).value.owner == owner
      ensures Current() == if deleted then None else old(Current())
    {
      deleted := lock.Some? && now < lock.value.expires && lock.value.owner == owner;
      if deleted {
        lock := None;
      }
    }
  }

  /** A cache service on one instance: `listed` and `served` as in the protocol. */
  class CacheInstance {
    const instanceId: Instance
    const cacheService: CacheService
    var listed: Snapshot
    var served: Snapshot
    var loaded: bool

    constructor (instanceId: Instance, cacheService: CacheService)
      ensures this.instanceId == instanceId && this.cacheService == cacheService && View() == Node([], [], false)
    {
      this.instanceId, this.cacheService := instanceId, cacheService;
      listed, served, loaded := [], [], false;
    }

    ghost function View(): Node
      reads this
    {
      Node(listed, served, loaded)
    }

    method HandleMessage(m: Message)
      modifies this
      ensures View() == Handle(old(View()), instanceId, m)
    {
      if m.author == instanceId {
        return;
      }
      listed := m.snapshot;
      served := m.snapshot;
      loaded := true;
    }

    /** Acquire, load, publish, install, release. A load that throws still releases; a lock that is taken ends the
        call, and the cache waits for the other instance's sync. */
    method Reload(database: Option<Snapshot>, id: nat) returns (published: Option<Message>, threw: bool)
      modifies this, cacheService
      ensures old(cacheService.Current()).Some? ==>
                published.None? && !threw && View() == old(View()) && cacheService.lock == old(cacheService.lock)
      ensures old(cacheService.Current()).None? ==>
                && cacheService.Current().None? && (threw <==> database.None?)
                && (database.Some? ==>
                      published == Some(Message(instanceId, database.value)) && View() == Node(database.value, database.value, true))
                && (database.None? ==> published.None? && View() == old(View()))
    {
      published, threw := None, false;
      var acquired := cacheService.Acquire(instanceId, RELOAD_LOCK_TTL, id);
      if !acquired {
        return;
      }
      if database.Some? {
        listed := database.value;
        published := Some(Message(instanceId, database.value));
        served := database.value;
        loaded := true;
      } else {
        threw := true;
      }
      var _ := cacheService.Release(instanceId);
    }
  }
}
