/**
  The pending-notification queue. An inventory result is announced at once
  when its order can be looked up; otherwise it waits, under the key
  `orderId:STATUS`, for five minutes, and a periodic sweep retries the lookup.

  A lookup's outcome is an argument (`Lookup`); the current instant `now` is an
  argument; instants are integers in milliseconds. Announcing a result is
  modelled as appending a `Notification` to the `sent` sequence.
 */
module Notifications {
  import opened CommonModel

  /** How long an unannounced result waits: five minutes. */
  const TTL: int := 5 * 60 * 1000

  datatype Pending = Pending(event: InventoryCheckResultEvent, expiresAt: int)

  /** Expired strictly after `expiresAt`. */
  predicate Expired(pending: Pending, now: int)
  {
    now > pending.expiresAt
  }

  /** What one lookup of an order through the order cache gave. */
  datatype Lookup = Found(order: OrderEvent) | Absent | Threw

  /** `getOrder`: a lookup that throws counts as no order. */
  function GetOrder(lookup: Lookup): Option<OrderEvent>
  {
    match lookup
    case Found(order) => Some(order)
    case Absent => None
    case Threw => None
  }

  /** The announcement made for an order and its inventory result. */
  datatype Notification =
    | Approved(orderId: string, customerName: string, items: seq<OrderItem>)
    | Rejected(orderId: string, customerName: string, issues: seq<InventoryIssue>)

  function SendNotification(order: OrderEvent, event: InventoryCheckResultEvent): Notification
  {
    if event.status == APPROVED then Approved(order.orderId, order.customerName, order.items)
    else Rejected(order.orderId, order.customerName, event.issues)
  }

  /**
    The announcement is Approved, with the order's items, exactly when the
    result is APPROVED, and Rejected, with the result's issues, otherwise.
   */
  lemma NotificationKind(order: OrderEvent, event: InventoryCheckResultEvent)
    ensures var n := SendNotification(order, event);
      && (n.Approved? <==> event.status == APPROVED)
      && (n.Approved? ==> n.items == order.items)
      && (n.Rejected? ==> n.issues == event.issues)
      && n.orderId == order.orderId && n.customerName == order.customerName
  {
  }

  /** The name of a status as Java's `toString` spells it. */
  function StatusName(status: InventoryStatus): string
  {
    match status
    case PENDING => "PENDING"
    case APPROVED => "APPROVED"
    case REJECTED => "REJECTED"
  }

  function BuildKey(orderId: string, status: InventoryStatus): string
  {
    orderId + ":" + StatusName(status)
  }

  /**
    The status a queue key was built with, read from its last characters:
    only PENDING ends in 'G', and APPROVED and REJECTED differ in their first letter.
   */
  function KeyStatus(key: string): InventoryStatus
    requires |key| >= 8
  {
    if key[|key| - 1] == 'G' then PENDING
    else if key[|key| - 8] == 'A' then APPROVED
    else REJECTED
  }

  /** A key gives back its status, and its order id as the part before it. */
  lemma KeyStatusOfBuildKey(orderId: string, status: InventoryStatus)
    ensures var key := BuildKey(orderId, status);
      && |key| == |orderId| + 1 + |StatusName(status)| >= 8
      && KeyStatus(key) == status
      && key[..|orderId|] == orderId
  {
    var key := BuildKey(orderId, status);
    var name := StatusName(status);
    assert key == (orderId + ":") + name;
    assert key[|key| - |name|..] == name;
  }

  /**
    Keys never collide: even an order id containing ':' cannot make two
    different (order, status) pairs share a key.
   */
  lemma BuildKeyInjective(a: string, s: InventoryStatus, b: string, t: InventoryStatus)
    ensures BuildKey(a, s) == BuildKey(b, t) <==> a == b && s == t
  {
    KeyStatusOfBuildKey(a, s);
    KeyStatusOfBuildKey(b, t);
  }

  /** The queue's state: waiting results and the announcements made so far. */
  datatype Queue = Queue(pending: map<string, Pending>, sent: seq<Notification>)

  /** `handleInventoryResult` on the queue. */
  function Handle(q: Queue, event: InventoryCheckResultEvent, now: int, lookup: Lookup): Queue
  {
    match GetOrder(lookup)
    case Some(order) => Queue(q.pending, q.sent + [SendNotification(order, event)])
    case None => Queue(q.pending[BuildKey(event.orderId, event.status) := Pending(event, now + TTL)], q.sent)
  }

  /** Waiting keys whose entry has expired at `now`. */
  function ExpiredKeys(pending: map<string, Pending>, now: int): set<string>
  {
    set k | k in pending && Expired(pending[k], now)
  }

  /** Live waiting keys whose lookup finds the order. */
  function ResolvedKeys(pending: map<string, Pending>, now: int, lookup: string -> Lookup): set<string>
  {
    set k | k in pending && !Expired(pending[k], now) && GetOrder(lookup(k)).Some?
  }

  /** The waiting map once a sweep has handled the keys in `done`. */
  function SweptPending(pending: map<string, Pending>, now: int, lookup: string -> Lookup, done: set<string>)
    : map<string, Pending>
  {
    pending - (ExpiredKeys(pending, now) * done) - (ResolvedKeys(pending, now, lookup) * done)
  }

  /** The keys a sweep looks an order up for: the live ones. */
  function LookedUp(pending: map<string, Pending>, now: int): set<string>
  {
    if pending == map[] then {} else pending.Keys - ExpiredKeys(pending, now)
  }

  predicate Dispatchable(pending: map<string, Pending>, keys: seq<string>, lookup: string -> Lookup)
  {
    forall i :: 0 <= i < |keys| ==> keys[i] in pending && lookup(keys[i]).Found?
  }

  /** The announcements for the waiting entries under `keys`, in that order. */
  function Dispatches(pending: map<string, Pending>, keys: seq<string>, lookup: string -> Lookup)
    : seq<Notification>
    requires Dispatchable(pending, keys, lookup)
  {
    if keys == [] then []
    else
      var k := keys[|keys| - 1];
      Dispatches(pending, keys[..|keys| - 1], lookup) + [SendNotification(lookup(k).order, pending[k].event)]
  }

  predicate NoDuplicates(keys: seq<string>)
  {
    forall i, j :: 0 <= i < j < |keys| ==> keys[i] != keys[j]
  }

  class NotificationService {
    var pendingNotifications: map<string, Pending>
    /** Every announcement made, oldest first. */
    var sent: seq<Notification>

    function State(): Queue
      reads this
    {
      Queue(pendingNotifications, sent)
    }

    constructor ()
      ensures State() == Queue(map[], [])
    {
      pendingNotifications := map[];
      sent := [];
    }

    method HandleInventoryResult(event: InventoryCheckResultEvent, now: int, lookup: Lookup)
      modifies this
      ensures State() == Handle(old(State()), event, now, lookup)
    {
      var orderFromCache := GetOrder(lookup);
      if orderFromCache.Some? {
        sent := sent + [SendNotification(orderFromCache.value, event)];
        return;
      }
      var key := BuildKey(event.orderId, event.status);
      pendingNotifications := pendingNotifications[key := Pending(event, now + TTL)];
    }

    /**
      `processPending`: expired entries are dropped unannounced; a live entry
      whose order is found is announced and dropped; any other stays. The
      sweep visits the keys in no fixed order, which `dispatched` records.
     */
    method ProcessPending(now: int, lookup: string -> Lookup) returns (lookedUp: set<string>, dispatched: seq<string>)
      modifies this
      ensures lookedUp == LookedUp(old(pendingNotifications), now)
      ensures pendingNotifications == SweptPending(old(pendingNotifications), now, lookup, old(pendingNotifications).Keys)
      ensures NoDuplicates(dispatched)
      ensures (set k | k in dispatched) == ResolvedKeys(old(pendingNotifications), now, lookup)
      ensures Dispatchable(old(pendingNotifications), dispatched, lookup)
      ensures sent == old(sent) + Dispatches(old(pendingNotifications), dispatched, lookup)
    {
      lookedUp, dispatched := {}, [];
      ghost var P := pendingNotifications;
      ghost var sent0 := sent;
      if pendingNotifications == map[] {
        assert SweptPending(P, now, lookup, P.Keys) == P;
        return;
      }
      var todo := pendingNotifications.Keys;
      SweepStart(P, now, lookup, sent0);
      while todo != {}
        invariant SweepInvariant(P, now, lookup, todo, pendingNotifications, lookedUp, dispatched, sent0, sent)
        decreases todo
      {
        var key :| key in todo;
        SweepStep(P, now, lookup, todo, key, pendingNotifications, lookedUp, dispatched, sent0, sent);
        var consulted, announced := ProcessKey(key, now, lookup(key));
        if consulted {
          lookedUp := lookedUp + {key};
        }
        if announced {
          dispatched := dispatched + [key];
        }
        todo := todo - {key};
      }
      SweepDone(P, now, lookup, pendingNotifications, lookedUp, dispatched, sent0, sent);
    }

    /**
      One turn of the sweep, for the waiting entry under `key`; `consulted`
      tells whether the order was looked up, which happens only for a live entry.
     */
    method ProcessKey(key: string, now: int, lookup: Lookup) returns (consulted: bool, announced: bool)
      requires key in pendingNotifications
      modifies this
      ensures var p := old(pendingNotifications)[key];
        && consulted == !Expired(p, now)
        && announced == (consulted && lookup.Found?)
        && pendingNotifications == (if !consulted || announced then old(pendingNotifications) - {key}
                                   else old(pendingNotifications))
        && sent == (if announced then old(sent) + [SendNotification(lookup.order, p.event)] else old(sent))
    {
      var pending := pendingNotifications[key];
      if Expired(pending, now) {
        pendingNotifications := pendingNotifications - {key};
        return false, false;
      }
      consulted := true;
      var order := GetOrder(lookup);
      if order.Some? {
        sent := sent + [SendNotification(order.value, pending.event)];
        pendingNotifications := pendingNotifications - {key};
        return consulted, true;
      }
      announced := false;
    }
  }

  /**
    What holds between two turns of a sweep over `pending` whose keys in `todo`
    are still to be visited.
   */
  ghost predicate SweepInvariant(
    pending: map<string, Pending>, now: int, lookup: string -> Lookup, todo: set<string>,
    current: map<string, Pending>, lookedUp: set<string>, dispatched: seq<string>,
    sent0: seq<Notification>, sent: seq<Notification>)
  {
    && todo <= pending.Keys
    && current == SweptPending(pending, now, lookup, pending.Keys - todo)
    && lookedUp == pending.Keys - todo - ExpiredKeys(pending, now)
    && NoDuplicates(dispatched)
    && (forall k :: k in dispatched <==> k in ResolvedKeys(pending, now, lookup) && k !in todo)
    && Dispatchable(pending, dispatched, lookup)
    && sent == sent0 + Dispatches(pending, dispatched, lookup)
  }

  lemma SweepStart(pending: map<string, Pending>, now: int, lookup: string -> Lookup, sent0: seq<Notification>)
    ensures SweepInvariant(pending, now, lookup, pending.Keys, pending, {}, [], sent0, sent0)
  {
    assert SweptPending(pending, now, lookup, {}) == pending;
  }

  /** One turn of the sweep keeps the invariant. */
  lemma SweepStep(
    pending: map<string, Pending>, now: int, lookup: string -> Lookup, todo: set<string>, key: string,
    current: map<string, Pending>, lookedUp: set<string>, dispatched: seq<string>,
    sent0: seq<Notification>, sent: seq<Notification>)
    requires SweepInvariant(pending, now, lookup, todo, current, lookedUp, dispatched, sent0, sent)
    requires key in todo
    ensures key in current && current[key] == pending[key]
    ensures var expired := Expired(pending[key], now);
      var announced := !expired && lookup(key).Found?;
      SweepInvariant(pending, now, lookup, todo - {key},
        if expired || announced then current - {key} else current,
        if expired then lookedUp else lookedUp + {key},
        if announced then dispatched + [key] else dispatched,
        sent0,
        if announced then sent + [SendNotification(lookup(key).order, pending[key].event)] else sent)
  {
    var done := pending.Keys - todo;
    assert pending.Keys - (todo - {key}) == done + {key};
    SweptPendingStep(pending, now, lookup, done, key);
    var expired := Expired(pending[key], now);
    var announced := !expired && lookup(key).Found?;
    assert key in ResolvedKeys(pending, now, lookup) <==> announced;
    assert key in ExpiredKeys(pending, now) <==> expired;
    if announced {
      DispatchesSnoc(pending, dispatched, key, lookup);
    }
  }

  lemma SweepDone(
    pending: map<string, Pending>, now: int, lookup: string -> Lookup,
    current: map<string, Pending>, lookedUp: set<string>, dispatched: seq<string>,
    sent0: seq<Notification>, sent: seq<Notification>)
    requires pending != map[]
    requires SweepInvariant(pending, now, lookup, {}, current, lookedUp, dispatched, sent0, sent)
    ensures lookedUp == LookedUp(pending, now)
    ensures current == SweptPending(pending, now, lookup, pending.Keys)
    ensures (set k | k in dispatched) == ResolvedKeys(pending, now, lookup)
  {
    assert pending.Keys - {} == pending.Keys;
  }

  /** Handling one more key drops it exactly when it is expired or resolved. */
  lemma SweptPendingStep(pending: map<string, Pending>, now: int, lookup: string -> Lookup, done: set<string>, k: string)
    requires k in pending && k !in done
    ensures var before := SweptPending(pending, now, lookup, done);
      && k in before && before[k] == pending[k]
      && SweptPending(pending, now, lookup, done + {k}) ==
        if Expired(pending[k], now) || lookup(k).Found? then before - {k} else before
  {
  }

  lemma DispatchesSnoc(pending: map<string, Pending>, keys: seq<string>, k: string, lookup: string -> Lookup)
    requires Dispatchable(pending, keys, lookup) && k in pending && lookup(k).Found?
    ensures Dispatchable(pending, keys + [k], lookup)
    ensures Dispatches(pending, keys + [k], lookup) ==
      Dispatches(pending, keys, lookup) + [SendNotification(lookup(k).order, pending[k].event)]
  {
    assert (keys + [k])[..|keys|] == keys;
  }

  // ---------------------------------------------------------------------------
  // What each operation promises
  // ---------------------------------------------------------------------------

  /** A result whose order is found is announced once, and nothing is queued. */
  lemma HandleResolved(q: Queue, event: InventoryCheckResultEvent, now: int, lookup: Lookup)
    requires lookup.Found?
    ensures var r := Handle(q, event, now, lookup);
      r.pending == q.pending && r.sent == q.sent + [SendNotification(lookup.order, event)]
  {
  }

  /**
    A result whose order is not found waits under `orderId:STATUS` for the
    ttl; only that key changes, so a result with another status for the same
    order keeps its own slot.
   */
  lemma HandleQueued(q: Queue, event: InventoryCheckResultEvent, now: int, lookup: Lookup)
    requires !lookup.Found?
    ensures var r := Handle(q, event, now, lookup);
      var key := BuildKey(event.orderId, event.status);
      && r.sent == q.sent
      && key in r.pending && r.pending[key] == Pending(event, now + TTL)
      && r.pending - {key} == q.pending - {key}
      && forall other :: other != event.status ==>
           var k2 := BuildKey(event.orderId, other);
           (k2 in r.pending <==> k2 in q.pending) && (k2 in q.pending ==> r.pending[k2] == q.pending[k2])
  {
    forall other | other != event.status {
      BuildKeyInjective(event.orderId, event.status, event.orderId, other);
    }
  }

  /** A lookup that throws is handled exactly like an absent order. */
  lemma ThrowingLookupIsAbsent(q: Queue, event: InventoryCheckResultEvent, now: int)
    ensures GetOrder(Threw) == GetOrder(Absent) == None
    ensures Handle(q, event, now, Threw) == Handle(q, event, now, Absent)
  {
  }

  /** A sweep over an empty queue looks nothing up and announces nothing. */
  lemma SweepEmpty(pending: map<string, Pending>, now: int, lookup: string -> Lookup)
    requires pending == map[]
    ensures LookedUp(pending, now) == {} && ResolvedKeys(pending, now, lookup) == {}
    ensures SweptPending(pending, now, lookup, pending.Keys) == pending
  {
  }

  /**
    A sweep, key by key: an expired entry is dropped without a lookup or an
    announcement; a live entry whose order is found is announced and dropped;
    a live entry whose order is not found stays unchanged.
   */
  lemma SweepPerKey(pending: map<string, Pending>, now: int, lookup: string -> Lookup, k: string)
    requires k in pending
    ensures var after := SweptPending(pending, now, lookup, pending.Keys);
      && (Expired(pending[k], now) ==>
            k !in after && k !in LookedUp(pending, now) && k !in ResolvedKeys(pending, now, lookup))
      && (!Expired(pending[k], now) && lookup(k).Found? ==>
            k !in after && k in LookedUp(pending, now) && k in ResolvedKeys(pending, now, lookup))
      && (!Expired(pending[k], now) && !lookup(k).Found? ==>
            k in after && after[k] == pending[k] && k in LookedUp(pending, now)
            && k !in ResolvedKeys(pending, now, lookup))
  {
    assert k in ExpiredKeys(pending, now) <==> Expired(pending[k], now);
    assert k in ResolvedKeys(pending, now, lookup) <==> !Expired(pending[k], now) && lookup(k).Found?;
  }

  /** The i-th announcement of a sweep is the one for the i-th dispatched key. */
  lemma {:induction false} DispatchesAt(pending: map<string, Pending>, keys: seq<string>, lookup: string -> Lookup, i: nat)
    requires Dispatchable(pending, keys, lookup) && i < |keys|
    ensures |Dispatches(pending, keys, lookup)| == |keys|
    ensures Dispatches(pending, keys, lookup)[i] == SendNotification(lookup(keys[i]).order, pending[keys[i]].event)
  {
    var init := keys[..|keys| - 1];
    assert Dispatchable(pending, init, lookup);
    if i < |init| {
      DispatchesAt(pending, init, lookup, i);
    } else if init != [] {
      DispatchesAt(pending, init, lookup, 0);
    }
  }
}
