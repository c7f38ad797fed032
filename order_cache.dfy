/**
  The resilient order store. Writes go to a remote key-value store that may
  fail; a failed write is buffered in two in-process maps (`localCache`, read
  as a fallback, and `pendingItemsToStoreInRedis`, replayed by a periodic
  sweep), each entry carrying an expiry instant.

  Every remote call takes its outcome as an argument (true: the call
  succeeded), and the current instant `now` is an argument as well. Instants
  and durations are integers in milliseconds.
 */
module OrderCache {
  import opened CommonModel

  /** The prefix of every order key in the remote store. */
  const ORDER_PREFIX: string := "order:"

  /** The default time an entry stays in the in-process maps: 30 minutes. */
  const DEFAULT_TTL: int := 30 * 60 * 1000

  /** A buffered order and the instant after which it is dropped. */
  datatype Entry = Entry(value: OrderEvent, expiresAt: int)

  /** Expired strictly after `expiresAt`; at that very instant it is still live. */
  predicate Expired(entry: Entry, now: int)
  {
    now > entry.expiresAt
  }

  /** The key an order is stored under: the prefix followed by the order id. */
  function BuildKey(orderId: string): (key: string)
    ensures |key| == |ORDER_PREFIX| + |orderId|
    ensures key[..|ORDER_PREFIX|] == ORDER_PREFIX && key[|ORDER_PREFIX|..] == orderId
  {
    ORDER_PREFIX + orderId
  }

  /** Distinct orders never share a key. */
  lemma BuildKeyInjective(a: string, b: string)
    ensures BuildKey(a) == BuildKey(b) <==> a == b
  {
    if BuildKey(a) == BuildKey(b) {
      assert a == BuildKey(a)[|ORDER_PREFIX|..];
    }
  }

  /** The whole state the service acts on: its two maps and the remote store. */
  datatype Store = Store(
    local: map<string, Entry>,
    pending: map<string, Entry>,
    remote: map<string, OrderEvent>)

  /**
    What every operation keeps: each pending key is also in the local cache
    with the identical entry, and each cached entry sits under its order's key.
   */
  predicate Inv(s: Store)
  {
    && (forall k :: k in s.pending ==> k in s.local && s.local[k] == s.pending[k])
    && (forall k :: k in s.local ==> k == BuildKey(s.local[k].value.orderId))
  }

  /** A remote `get`: a hit when the call succeeds and the key is present. */
  function RemoteGet(remote: map<string, OrderEvent>, key: string, readOk: bool): (r: Option<OrderEvent>)
    ensures !readOk ==> r.None?
    ensures readOk ==> (r.Some? <==> key in remote)
    ensures r.Some? ==> key in remote && r.value == remote[key]
  {
    if readOk && key in remote then Some(remote[key]) else None
  }

  /** `saveOrder` on the whole state. */
  function Save(s: Store, event: OrderEvent, now: int, ttl: int, setOk: bool): Store
  {
    var key := BuildKey(event.orderId);
    if setOk then
      Store(s.local, s.pending - {key}, s.remote[key := event])
    else
      var entry := Entry(event, now + ttl);
      Store(s.local[key := entry], s.pending[key := entry], s.remote)
  }

  /** The state after a read and the order it returns. */
  datatype Read = Read(store: Store, order: Option<OrderEvent>)

  /** `getOrder` on the whole state; `backfillOk` is the outcome of the self-healing write. */
  function Get(s: Store, orderId: string, now: int, readOk: bool, backfillOk: bool): Read
  {
    var key := BuildKey(orderId);
    var fromRedis := RemoteGet(s.remote, key, readOk);
    if fromRedis.Some? then Read(s, fromRedis)
    else if key !in s.local || Expired(s.local[key], now) then
      Read(Store(s.local - {key}, s.pending - {key}, s.remote), None)
    else
      var entry := s.local[key];
      if backfillOk then Read(Store(s.local, s.pending - {key}, s.remote[key := entry.value]), Some(entry.value))
      else Read(s, Some(entry.value))
  }

  /**
    The record `setOrderStatus` reads: the remote one, else a live local
    entry; unlike a read, nothing is purged or written back.
   */
  function Resolve(s: Store, key: string, now: int, readOk: bool): Option<OrderEvent>
  {
    var fromRedis := RemoteGet(s.remote, key, readOk);
    if fromRedis.Some? then fromRedis
    else if key in s.local && !Expired(s.local[key], now) then Some(s.local[key].value)
    else None
  }

  /** The state after a status update, and whether a record was found to update. */
  datatype Update = Update(store: Store, updated: bool)

  /**
    `setOrderStatus` on the whole state. A record taken from the local cache is
    changed in place before it is saved, so the cached entry (and the pending
    entry, which is the same object) already carries the new status.
   */
  function SetStatus(s: Store, orderId: string, status: InventoryStatus, now: int, ttl: int,
                     readOk: bool, setOk: bool): Update
  {
    var key := BuildKey(orderId);
    var fromRedis := RemoteGet(s.remote, key, readOk);
    if fromRedis.Some? then
      Update(Save(s, fromRedis.value.(status := status), now, ttl, setOk), true)
    else if key in s.local && !Expired(s.local[key], now) then
      var entry := s.local[key];
      var changed := Entry(entry.value.(status := status), entry.expiresAt);
      var pending := if key in s.pending then s.pending[key := changed] else s.pending;
      Update(Save(Store(s.local[key := changed], pending, s.remote), changed.value, now, ttl, setOk), true)
    else
      Update(s, false)
  }

  /** Pending keys whose entry has expired at `now`. */
  function ExpiredKeys(pending: map<string, Entry>, now: int): set<string>
  {
    set k | k in pending && Expired(pending[k], now)
  }

  /** Pending keys that are live at `now` and whose replay succeeds. */
  function ReplayedKeys(pending: map<string, Entry>, now: int, setOk: string -> bool): set<string>
  {
    set k | k in pending && !Expired(pending[k], now) && setOk(k)
  }

  /** The values a sweep writes to the remote store. */
  function Replayed(pending: map<string, Entry>, keys: set<string>): map<string, OrderEvent>
  {
    map k | k in keys && k in pending :: pending[k].value
  }

  /**
    `flushPendingToRedis` on the whole state: expired entries leave both maps;
    a live entry is replayed and leaves the pending map when the replay succeeds.
   */
  function Flush(s: Store, now: int, setOk: string -> bool): Store
  {
    if s.pending == map[] then s
    else
      var gone := ExpiredKeys(s.pending, now);
      var replayed := ReplayedKeys(s.pending, now, setOk);
      Store(s.local - gone, s.pending - gone - replayed, s.remote + Replayed(s.pending, replayed))
  }

  /** The keys a sweep makes a remote `set` for. */
  function FlushAttempts(s: Store, now: int): set<string>
  {
    if s.pending == map[] then {} else s.pending.Keys - ExpiredKeys(s.pending, now)
  }

  class OrderCacheService {
    var localCache: map<string, Entry>
    var pendingItemsToStoreInRedis: map<string, Entry>
    /** The remote key-value store, as far as order keys go. */
    var remote: map<string, OrderEvent>
    const ttl: int

    function State(): Store
      reads this
    {
      Store(localCache, pendingItemsToStoreInRedis, remote)
    }

    ghost predicate Valid()
      reads this
    {
      Inv(State())
    }

    /** A service with empty maps in front of a remote store holding `remote0`. */
    constructor (ttl: int, remote0: map<string, OrderEvent>)
      ensures Valid()
      ensures this.ttl == ttl
      ensures State() == Store(map[], map[], remote0)
    {
      this.ttl := ttl;
      localCache := map[];
      pendingItemsToStoreInRedis := map[];
      remote := remote0;
    }

    /** A service with the ttl the field is initialised with, 30 minutes. */
    constructor Default(remote0: map<string, OrderEvent>)
      ensures Valid()
      ensures ttl == DEFAULT_TTL
      ensures State() == Store(map[], map[], remote0)
    {
      ttl := DEFAULT_TTL;
      localCache := map[];
      pendingItemsToStoreInRedis := map[];
      remote := remote0;
    }

    /** A remote `set` whose outcome is `setOk`; a failed one changes nothing. */
    method TryWriteRedis(key: string, value: OrderEvent, setOk: bool) returns (ok: bool)
      modifies this`remote
      ensures ok == setOk
      ensures remote == if setOk then old(remote)[key := value] else old(remote)
    {
      if setOk {
        remote := remote[key := value];
      }
      ok := setOk;
    }

    method SaveOrder(event: OrderEvent, now: int, setOk: bool) returns (key: string)
      requires Valid()
      modifies this
      ensures Valid()
      ensures key == BuildKey(event.orderId)
      ensures State() == Save(old(State()), event, now, ttl, setOk)
    {
      ghost var s0 := State();
      key := BuildKey(event.orderId);
      var isRedisOk := TryWriteRedis(key, event, setOk);
      if isRedisOk {
        pendingItemsToStoreInRedis := pendingItemsToStoreInRedis - {key};
      } else {
        var localCacheEntry := Entry(event, now + ttl);
        localCache := localCache[key := localCacheEntry];
        pendingItemsToStoreInRedis := pendingItemsToStoreInRedis[key := localCacheEntry];
      }
      assert State() == Save(s0, event, now, ttl, setOk);
      SavePreservesInv(s0, event, now, ttl, setOk);
    }

    method SetOrderStatus(orderId: string, status: InventoryStatus, now: int, readOk: bool, setOk: bool)
      returns (updated: bool)
      requires Valid()
      modifies this
      ensures Valid()
      ensures Update(State(), updated) == SetStatus(old(State()), orderId, status, now, ttl, readOk, setOk)
    {
      SetStatusPreservesInv(State(), orderId, status, now, ttl, readOk, setOk);
      var key := BuildKey(orderId);
      var updatedOrder := RemoteGet(remote, key, readOk);
      if updatedOrder.None? {
        if key in localCache && !Expired(localCache[key], now) {
          // The cached record itself gets the new status, in both maps that hold it.
          var entryLocal := localCache[key];
          var changed := Entry(entryLocal.value.(status := status), entryLocal.expiresAt);
          localCache := localCache[key := changed];
          if key in pendingItemsToStoreInRedis {
            pendingItemsToStoreInRedis := pendingItemsToStoreInRedis[key := changed];
          }
          updatedOrder := Some(changed.value);
        }
        if updatedOrder.None? {
          // The source fails here, on an assertion or a null dereference.
          return false;
        }
      } else {
        updatedOrder := Some(updatedOrder.value.(status := status));
      }
      SavePreservesInv(State(), updatedOrder.value, now, ttl, setOk);
      var _ := SaveOrder(updatedOrder.value, now, setOk);
      updated := true;
    }

    method FlushPendingToRedis(now: int, setOk: string -> bool) returns (attempted: set<string>)
      requires Valid()
      modifies this
      ensures Valid()
      ensures State() == Flush(old(State()), now, setOk)
      ensures attempted == FlushAttempts(old(State()), now)
    {
      ghost var s0 := State();
      attempted := {};
      if pendingItemsToStoreInRedis == map[] {
        assert State() == Flush(s0, now, setOk);
        FlushPreservesInv(s0, now, setOk);
        return;
      }
      var todo := pendingItemsToStoreInRedis.Keys;
      FlushStart(s0, now, setOk);
      while todo != {}
        invariant FlushInvariant(s0, now, setOk, todo, State(), attempted)
        decreases todo
      {
        var key :| key in todo;
        FlushStep(s0, now, setOk, todo, key, State(), attempted);
        var tried := FlushKey(key, now, setOk(key));
        if tried {
          attempted := attempted + {key};
        }
        todo := todo - {key};
      }
      FlushDone(s0, now, setOk, State(), attempted);
      FlushPreservesInv(s0, now, setOk);
    }

    /** One turn of the sweep: the pending entry under `key` is dropped or replayed. */
    method FlushKey(key: string, now: int, setOk: bool) returns (tried: bool)
      requires key in pendingItemsToStoreInRedis
      modifies this
      ensures tried == !Expired(old(pendingItemsToStoreInRedis)[key], now)
      ensures State() == SweepKey(old(State()), key, now, setOk)
    {
      var entry := pendingItemsToStoreInRedis[key];
      if Expired(entry, now) {
        localCache := localCache - {key};
        pendingItemsToStoreInRedis := pendingItemsToStoreInRedis - {key};
        return false;
      }
      var ok := TryWriteRedis(key, entry.value, setOk);
      if ok {
        pendingItemsToStoreInRedis := pendingItemsToStoreInRedis - {key};
      }
      tried := true;
    }

    method GetOrder(orderId: string, now: int, readOk: bool, backfillOk: bool)
      returns (order: Option<OrderEvent>)
      requires Valid()
      modifies this
      ensures Valid()
      ensures Read(State(), order) == Get(old(State()), orderId, now, readOk, backfillOk)
    {
      GetPreservesInv(State(), orderId, now, readOk, backfillOk);
      var key := BuildKey(orderId);
      var fromRedis := RemoteGet(remote, key, readOk);
      if fromRedis.Some? {
        return fromRedis;
      }
      if key !in localCache || Expired(localCache[key], now) {
        localCache := localCache - {key};
        pendingItemsToStoreInRedis := pendingItemsToStoreInRedis - {key};
        return None;
      }
      var entry := localCache[key];
      var ok := TryWriteRedis(key, entry.value, backfillOk);
      if ok {
        pendingItemsToStoreInRedis := pendingItemsToStoreInRedis - {key};
      }
      order := Some(entry.value);
    }
  }

  // ---------------------------------------------------------------------------
  // A sweep, one key at a time
  // ---------------------------------------------------------------------------

  /** The state once the sweep has handled the pending keys in `done`. */
  function Swept(s: Store, now: int, setOk: string -> bool, done: set<string>): Store
  {
    var gone := ExpiredKeys(s.pending, now) * done;
    var replayed := ReplayedKeys(s.pending, now, setOk) * done;
    Store(s.local - gone, s.pending - gone - replayed, s.remote + Replayed(s.pending, replayed))
  }

  lemma SweptNothing(s: Store, now: int, setOk: string -> bool)
    ensures Swept(s, now, setOk, {}) == s
  {
    assert Replayed(s.pending, {}) == map[];
    assert s.remote + map[] == s.remote;
  }

  lemma SweptAll(s: Store, now: int, setOk: string -> bool)
    requires s.pending != map[]
    ensures Swept(s, now, setOk, s.pending.Keys) == Flush(s, now, setOk)
  {
  }

  /** What the sweep does with the pending entry under `k`. */
  function SweepKey(t: Store, k: string, now: int, setOk: bool): Store
    requires k in t.pending
  {
    if Expired(t.pending[k], now) then Store(t.local - {k}, t.pending - {k}, t.remote)
    else if setOk then Store(t.local, t.pending - {k}, t.remote[k := t.pending[k].value])
    else t
  }

  /** Handling one more key is one SweepKey step. */
  lemma SweptStep(s: Store, now: int, setOk: string -> bool, done: set<string>, k: string)
    requires k in s.pending && k !in done
    ensures var t := Swept(s, now, setOk, done);
      && k in t.pending && t.pending[k] == s.pending[k]
      && Swept(s, now, setOk, done + {k}) == SweepKey(t, k, now, setOk(k))
  {
    if Expired(s.pending[k], now) {
      SweptStepExpired(s, now, setOk, done, k);
    } else if setOk(k) {
      SweptStepReplayed(s, now, setOk, done, k);
    } else {
      assert ExpiredKeys(s.pending, now) * (done + {k}) == ExpiredKeys(s.pending, now) * done;
      assert ReplayedKeys(s.pending, now, setOk) * (done + {k}) == ReplayedKeys(s.pending, now, setOk) * done;
    }
  }

  lemma SweptStepExpired(s: Store, now: int, setOk: string -> bool, done: set<string>, k: string)
    requires k in s.pending && k !in done && Expired(s.pending[k], now)
    ensures var t := Swept(s, now, setOk, done);
      Swept(s, now, setOk, done + {k}) == Store(t.local - {k}, t.pending - {k}, t.remote)
  {
    var gone := ExpiredKeys(s.pending, now) * done;
    var replayed := ReplayedKeys(s.pending, now, setOk) * done;
    assert ExpiredKeys(s.pending, now) * (done + {k}) == gone + {k};
    assert ReplayedKeys(s.pending, now, setOk) * (done + {k}) == replayed;
    RemoveOneMore(s.local, gone, {}, k);
    RemoveOneMore(s.pending, gone, replayed, k);
  }

  lemma SweptStepReplayed(s: Store, now: int, setOk: string -> bool, done: set<string>, k: string)
    requires k in s.pending && k !in done && !Expired(s.pending[k], now) && setOk(k)
    ensures var t := Swept(s, now, setOk, done);
      Swept(s, now, setOk, done + {k}) == Store(t.local, t.pending - {k}, t.remote[k := s.pending[k].value])
  {
    var gone := ExpiredKeys(s.pending, now) * done;
    var replayed := ReplayedKeys(s.pending, now, setOk) * done;
    assert ExpiredKeys(s.pending, now) * (done + {k}) == gone;
    assert ReplayedKeys(s.pending, now, setOk) * (done + {k}) == replayed + {k};
    RemoveOneMoreSecond(s.pending, gone, replayed, k);
    ReplayedOneMore(s.pending, replayed, k);
  }

  /** What holds between two turns of a sweep whose keys in `todo` are still to be visited. */
  ghost predicate FlushInvariant(s0: Store, now: int, setOk: string -> bool, todo: set<string>,
                                 current: Store, attempted: set<string>)
  {
    && todo <= s0.pending.Keys
    && current == Swept(s0, now, setOk, s0.pending.Keys - todo)
    && attempted == s0.pending.Keys - todo - ExpiredKeys(s0.pending, now)
  }

  lemma FlushStart(s0: Store, now: int, setOk: string -> bool)
    ensures FlushInvariant(s0, now, setOk, s0.pending.Keys, s0, {})
  {
    assert s0.pending.Keys - s0.pending.Keys == {};
    SweptNothing(s0, now, setOk);
  }

  /** One turn of the sweep keeps the invariant. */
  lemma FlushStep(s0: Store, now: int, setOk: string -> bool, todo: set<string>, key: string,
                  current: Store, attempted: set<string>)
    requires FlushInvariant(s0, now, setOk, todo, current, attempted)
    requires key in todo
    ensures key in current.pending && current.pending[key] == s0.pending[key]
    ensures FlushInvariant(s0, now, setOk, todo - {key}, SweepKey(current, key, now, setOk(key)),
                           if Expired(s0.pending[key], now) then attempted else attempted + {key})
  {
    var done := s0.pending.Keys - todo;
    assert s0.pending.Keys - (todo - {key}) == done + {key};
    SweptStep(s0, now, setOk, done, key);
  }

  lemma FlushDone(s0: Store, now: int, setOk: string -> bool, current: Store, attempted: set<string>)
    requires s0.pending != map[]
    requires FlushInvariant(s0, now, setOk, {}, current, attempted)
    ensures current == Flush(s0, now, setOk)
    ensures attempted == FlushAttempts(s0, now)
  {
    assert s0.pending.Keys - {} == s0.pending.Keys;
    SweptAll(s0, now, setOk);
  }

  /** Removing one more key on top of two removals. */
  lemma RemoveOneMore<K, V>(m: map<K, V>, a: set<K>, b: set<K>, k: K)
    ensures m - (a + {k}) - b == (m - a - b) - {k}
  {
  }

  lemma RemoveOneMoreSecond<K, V>(m: map<K, V>, a: set<K>, b: set<K>, k: K)
    ensures m - a - (b + {k}) == (m - a - b) - {k}
  {
  }

  /** Replaying one more key adds exactly its value. */
  lemma ReplayedOneMore(pending: map<string, Entry>, keys: set<string>, k: string)
    requires k in pending
    ensures Replayed(pending, keys + {k}) == Replayed(pending, keys)[k := pending[k].value]
  {
  }

  // ---------------------------------------------------------------------------
  // The invariant is kept by every operation
  // ---------------------------------------------------------------------------

  lemma SavePreservesInv(s: Store, event: OrderEvent, now: int, ttl: int, setOk: bool)
    requires Inv(s)
    ensures Inv(Save(s, event, now, ttl, setOk))
  {
  }

  lemma GetPreservesInv(s: Store, orderId: string, now: int, readOk: bool, backfillOk: bool)
    requires Inv(s)
    ensures Inv(Get(s, orderId, now, readOk, backfillOk).store)
  {
  }

  lemma SetStatusPreservesInv(s: Store, orderId: string, status: InventoryStatus, now: int, ttl: int,
                              readOk: bool, setOk: bool)
    requires Inv(s)
    ensures Inv(SetStatus(s, orderId, status, now, ttl, readOk, setOk).store)
  {
  }

  lemma FlushPreservesInv(s: Store, now: int, setOk: string -> bool)
    requires Inv(s)
    ensures Inv(Flush(s, now, setOk))
  {
  }

  // ---------------------------------------------------------------------------
  // What each operation promises
  // ---------------------------------------------------------------------------

  /**
    A successful save writes the remote store and drops only the pending copy;
    a failed one buffers the same new entry in both maps. No other key changes.
   */
  lemma SaveOutcome(s: Store, event: OrderEvent, now: int, ttl: int, setOk: bool)
    ensures var t := Save(s, event, now, ttl, setOk);
      var key := BuildKey(event.orderId);
      && (setOk ==> key !in t.pending && t.local == s.local && key in t.remote && t.remote[key] == event)
      && (!setOk ==> && key in t.local && key in t.pending
                     && t.local[key] == t.pending[key] == Entry(event, now + ttl)
                     && t.remote == s.remote)
      && t.local - {key} == s.local - {key}
      && t.pending - {key} == s.pending - {key}
      && t.remote - {key} == s.remote - {key}
  {
  }

  /** A remote hit is returned as it is, and nothing changes. */
  lemma GetRemoteHit(s: Store, orderId: string, now: int, readOk: bool, backfillOk: bool)
    requires readOk && BuildKey(orderId) in s.remote
    ensures Get(s, orderId, now, readOk, backfillOk) == Read(s, Some(s.remote[BuildKey(orderId)]))
  {
  }

  /**
    When the remote store misses or fails and there is no live local entry,
    the key leaves both maps and the read returns nothing.
   */
  lemma GetMissPurges(s: Store, orderId: string, now: int, readOk: bool, backfillOk: bool)
    requires RemoteGet(s.remote, BuildKey(orderId), readOk).None?
    requires BuildKey(orderId) !in s.local || Expired(s.local[BuildKey(orderId)], now)
    ensures var r := Get(s, orderId, now, readOk, backfillOk);
      var key := BuildKey(orderId);
      && r.order == None
      && key !in r.store.local && key !in r.store.pending
      && r.store.local == s.local - {key} && r.store.pending == s.pending - {key}
      && r.store.remote == s.remote
  {
  }

  /**
    A live local entry is returned whatever the back-fill does; a successful
    back-fill writes it to the remote store and drops only the pending copy.
   */
  lemma GetLiveEntry(s: Store, orderId: string, now: int, readOk: bool, backfillOk: bool)
    requires RemoteGet(s.remote, BuildKey(orderId), readOk).None?
    requires BuildKey(orderId) in s.local && !Expired(s.local[BuildKey(orderId)], now)
    ensures var r := Get(s, orderId, now, readOk, backfillOk);
      var key := BuildKey(orderId);
      var value := s.local[key].value;
      && r.order == Some(value)
      && (backfillOk ==> r.store == Store(s.local, s.pending - {key}, s.remote[key := value]))
      && (!backfillOk ==> r.store == s)
  {
  }

  /**
    Write-then-read with the remote store down: after a failed save, a read
    whose remote call fails too returns the saved order until the entry expires.
   */
  lemma ReadAfterFailedWrite(s: Store, event: OrderEvent, now: int, ttl: int, later: int, backfillOk: bool)
    requires later <= now + ttl
    ensures Get(Save(s, event, now, ttl, false), event.orderId, later, false, backfillOk).order == Some(event)
  {
  }

  /** Write-then-read with the remote store up. */
  lemma ReadAfterWrite(s: Store, event: OrderEvent, now: int, ttl: int, later: int, backfillOk: bool)
    ensures Get(Save(s, event, now, ttl, true), event.orderId, later, true, backfillOk).order == Some(event)
  {
  }

  /** A sweep over an empty pending map makes no remote call and changes nothing. */
  lemma FlushEmpty(s: Store, now: int, setOk: string -> bool)
    requires s.pending == map[]
    ensures Flush(s, now, setOk) == s && FlushAttempts(s, now) == {}
  {
  }

  /**
    A sweep, key by key: an expired entry leaves both maps without a remote
    call; a live one is replayed and leaves the pending map exactly when the
    replay succeeds, staying unchanged otherwise. Keys not pending are untouched.
   */
  lemma FlushPerKey(s: Store, now: int, setOk: string -> bool, k: string)
    ensures var f := Flush(s, now, setOk);
      var tried := FlushAttempts(s, now);
      && (k in s.pending && Expired(s.pending[k], now) ==>
            k !in f.local && k !in f.pending && k !in tried && (k in f.remote <==> k in s.remote)
            && (k in s.remote ==> f.remote[k] == s.remote[k]))
      && (k in s.pending && !Expired(s.pending[k], now) ==>
            && k in tried
            && (k in f.pending <==> !setOk(k))
            && (k in f.pending ==> f.pending[k] == s.pending[k])
            && (setOk(k) ==> k in f.remote && f.remote[k] == s.pending[k].value)
            && (!setOk(k) ==> (k in f.remote <==> k in s.remote) && (k in s.remote ==> f.remote[k] == s.remote[k]))
            && (k in f.local <==> k in s.local) && (k in s.local ==> f.local[k] == s.local[k]))
      && (k !in s.pending ==>
            && k !in tried && k !in f.pending
            && (k in f.local <==> k in s.local) && (k in s.local ==> f.local[k] == s.local[k])
            && (k in f.remote <==> k in s.remote) && (k in s.remote ==> f.remote[k] == s.remote[k]))
  {
  }

  /** The record `setOrderStatus` reads is the one a read would return. */
  lemma ResolveAgreesWithGet(s: Store, orderId: string, now: int, readOk: bool, backfillOk: bool)
    ensures Resolve(s, BuildKey(orderId), now, readOk) == Get(s, orderId, now, readOk, backfillOk).order
  {
  }

  /**
    When a record resolves, `setOrderStatus` saves that record with only its
    status replaced, under the record's own key. A record taken from the local
    cache is changed in place first, so after a successful write the cached
    entry carries the new status with its old expiry. No other key changes.
   */
  lemma SetStatusSavesRecord(s: Store, orderId: string, status: InventoryStatus, now: int, ttl: int,
                             readOk: bool, setOk: bool)
    requires Inv(s)
    requires Resolve(s, BuildKey(orderId), now, readOk).Some?
    ensures var record := Resolve(s, BuildKey(orderId), now, readOk).value;
      var changed := OrderEvent(record.orderId, record.customerName, record.items, status);
      var key := BuildKey(record.orderId);
      var fromLocal := RemoteGet(s.remote, BuildKey(orderId), readOk).None?;
      var u := SetStatus(s, orderId, status, now, ttl, readOk, setOk);
      && u.updated
      && (setOk ==> key in u.store.remote && u.store.remote[key] == changed && key !in u.store.pending)
      && (setOk && fromLocal ==>
            key in s.local && u.store.local == s.local[key := Entry(changed, s.local[key].expiresAt)])
      && (setOk && !fromLocal ==> u.store.local == s.local)
      && (!setOk ==> && key in u.store.local && key in u.store.pending
                     && u.store.local[key] == u.store.pending[key] == Entry(changed, now + ttl)
                     && u.store.remote == s.remote)
      && u.store.local - {key} == s.local - {key}
      && u.store.pending - {key} == s.pending - {key}
      && u.store.remote - {key} == s.remote - {key}
  {
    var key := BuildKey(orderId);
    if RemoteGet(s.remote, key, readOk).None? {
      var entry := s.local[key];
      var updated := Entry(entry.value.(status := status), entry.expiresAt);
      var pending := if key in s.pending then s.pending[key := updated] else s.pending;
      SaveOutcome(Store(s.local[key := updated], pending, s.remote), updated.value, now, ttl, setOk);
    } else {
      SaveOutcome(s, RemoteGet(s.remote, key, readOk).value.(status := status), now, ttl, setOk);
    }
  }

  /** When nothing resolves, the update fails and nothing at all changes. */
  lemma SetStatusNoRecord(s: Store, orderId: string, status: InventoryStatus, now: int, ttl: int,
                          readOk: bool, setOk: bool)
    requires Resolve(s, BuildKey(orderId), now, readOk).None?
    ensures SetStatus(s, orderId, status, now, ttl, readOk, setOk) == Update(s, false)
  {
  }

  /**
    Recovery: a save while the remote store is down is served from the local
    cache; once the store is back, the next sweep replays it exactly once and
    drops the pending copy, and later reads are answered by the remote store.
   */
  lemma RecoveryScenario(s: Store, event: OrderEvent, ttl: int, saved: int, read: int, swept: int,
                         setOk: string -> bool, later: int, backfillOk: bool)
    requires Inv(s)
    requires read <= saved + ttl && swept <= saved + ttl
    requires setOk(BuildKey(event.orderId))
    ensures var key := BuildKey(event.orderId);
      var s1 := Save(s, event, saved, ttl, false);
      var r1 := Get(s1, event.orderId, read, false, false);
      var s2 := Flush(r1.store, swept, setOk);
      && r1 == Read(s1, Some(event))
      && key in FlushAttempts(r1.store, swept)
      && key !in s2.pending && key in s2.remote && s2.remote[key] == event
      && Get(s2, event.orderId, later, true, backfillOk) == Read(s2, Some(event))
  {
    var key := BuildKey(event.orderId);
    var s1 := Save(s, event, saved, ttl, false);
    assert s1.pending[key] == Entry(event, saved + ttl);
    FlushPerKey(s1, swept, setOk, key);
  }

  /**
    Expiry: a buffered entry past its expiry is dropped by the next sweep, and
    a read then finds nothing when the remote store never had the order.
   */
  lemma ExpiryScenario(s: Store, orderId: string, now: int, setOk: string -> bool,
                       later: int, readOk: bool, backfillOk: bool)
    requires Inv(s)
    requires BuildKey(orderId) in s.pending && s.pending[BuildKey(orderId)].expiresAt < now
    requires BuildKey(orderId) !in s.remote
    ensures var f := Flush(s, now, setOk);
      var key := BuildKey(orderId);
      && key !in f.local && key !in f.pending
      && Get(f, orderId, later, readOk, backfillOk).order == None
  {
    FlushPerKey(s, now, setOk, BuildKey(orderId));
  }
}
