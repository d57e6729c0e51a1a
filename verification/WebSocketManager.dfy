/**
 One worker's `WebSocketManager`, updating its five dictionaries in place.
 Each method is proved against the registry functions of module `ConnectionRegistry`.
 */
module WebSocketManagers {
  import opened Options
  import opened ConnectionRegistry
  import opened Envelope

  /** A message on the broker channel; a codec that loses nothing carries it between workers. */
  datatype BrokerMessage = BrokerMessage(
    tenantKey: TenantKey,
    event: Json,
    excludeClient: Option<ClientId>,
    origin: Option<string>,
    control: Option<string>)

  function Members(order: seq<ClientId>): set<ClientId> {
    set c | c in order
  }

  lemma MembersGrow(order: seq<ClientId>, i: nat, reachable: set<ClientId>)
    requires i < |order|
    requires forall j, k :: 0 <= j < k < |order| ==> order[j] != order[k]
    ensures order[i] !in Members(order[..i])
    ensures Members(order[..i + 1]) == Members(order[..i]) + {order[i]}
    ensures |Members(order[..i + 1]) * reachable|
            == |Members(order[..i]) * reachable| + if order[i] in reachable then 1 else 0
  {
    var done := Members(order[..i]);
    assert Members(order[..i + 1]) == done + {order[i]};
    if order[i] in reachable {
      assert (done + {order[i]}) * reachable == done * reachable + {order[i]};
    } else {
      assert (done + {order[i]}) * reachable == done * reachable;
    }
  }

  /** The next client of a snapshot of registered ones has not been evicted with those before it. */
  lemma StillRegistered(r: Registry, order: seq<ClientId>, i: nat)
    requires i < |order| && Members(order) <= r.active.Keys && order[i] !in Members(order[..i])
    ensures order[i] in Evict(r, Members(order[..i])).active
  {
    assert order[i] in Members(order);
  }

  /** Creating an empty bucket and then filling it is adding. */
  lemma AddStepwise(m: map<string, set<ClientId>>, key: string, c: ClientId)
    ensures var n := if key in m then m else m[key := {}];
            n[key := n[key] + {c}] == AddTo(m, key, c)
  {
  }

  lemma TargetsAreRegistered(r: Registry, t: TenantKey, exclude: Option<ClientId>)
    requires Inv(r)
    ensures Targets(r, t, exclude) <= r.active.Keys
  {
    forall c | c in Targets(r, t, exclude) ensures c in r.active {
      assert InBucket(r.tenants, t, c);
    }
  }

  lemma ToldSplit(r: Registry, e: EntityKey, order: seq<ClientId>, reachable: set<ClientId>, told: set<ClientId>,
                  failed: seq<ClientId>)
    requires e in r.entitySubs && forall c :: c in order <==> c in r.entitySubs[e]
    requires told == set c | c in order && c in r.active && c in reachable
    requires forall c :: c in failed <==> c in order && c in r.active && c !in reachable
    ensures told == Subscribers(r, e) * reachable && Members(failed) == Subscribers(r, e) - reachable
  {
  }

  lemma NobodyToTell(r: Registry, e: EntityKey, reachable: set<ClientId>)
    requires Inv(r) && e !in r.entitySubs
    ensures Subscribers(r, e) * reachable == {} && Evict(r, Subscribers(r, e) - reachable) == r
  {
    assert Subscribers(r, e) - reachable == {};
    EvictNone(r);
  }

  const DISCONNECT_TENANT := "disconnect_tenant"

  /**
   What the outside world does during one call: whose socket answers in time, whose send or close raises
   an exception that the handlers around it do not catch, whether the broker takes a message, the clock.
   */
  datatype World = World(reachable: set<ClientId>, raising: set<ClientId>, brokerUp: bool, now: string)

  /** How a call ends; `Raised` is an exception past the handlers. */
  datatype Outcome<T> = Done(value: T) | Rejected(error: EnvelopeError) | Raised

  /** The handler closure that one attach of one manager makes. */
  datatype Handler = Handler(owner: string, turn: nat)

  /** As far as managers see it, a broker is the set of handlers it calls for every message. */
  class EventBroker {
    var handlers: set<Handler>

    constructor ()
      ensures handlers == {}
    {
      handlers := {};
    }

    method Subscribe(h: Handler)
      modifies this
      ensures handlers == old(handlers) + {h}
    {
      handlers := handlers + {h};
    }

    method Unsubscribe(h: Handler)
      modifies this
      ensures handlers == old(handlers) - {h}
    {
      handlers := handlers - {h};
    }
  }

  class WebSocketManager {
    var activeConnections: map<ClientId, Socket>
    var authContexts: map<ClientId, AuthContext>
    var subscriptions: map<ClientId, set<EntityKey>>
    var entitySubscribers: map<EntityKey, set<ClientId>>
    var tenantConnections: map<TenantKey, set<ClientId>>
    const brokerOrigin: string
    var eventBroker: EventBroker?
    /** The handler that the stored unsubscribe call would take off the broker. */
    var subscribed: Option<Handler>
    var attaches: nat
    var publishToBrokerEnabled: bool
    /** Every message this worker has handed to the broker, oldest first. */
    var published: seq<BrokerMessage>

    ghost function Model(): Registry
      reads this
    {
      Registry(activeConnections, authContexts, subscriptions, entitySubscribers, tenantConnections)
    }

    ghost predicate Valid()
      reads this
    {
      Inv(Model())
    }

    constructor (origin: string)
      ensures Valid() && Model() == EMPTY
      ensures brokerOrigin == origin && published == [] && eventBroker == null && subscribed == None
        && !publishToBrokerEnabled
    {
      activeConnections, authContexts, subscriptions := map[], map[], map[];
      entitySubscribers, tenantConnections := map[], map[];
      brokerOrigin := origin;
      eventBroker, subscribed, attaches, publishToBrokerEnabled := null, None, 0, false;
      published := [];
    }

    /** Of this manager's handlers, `broker` has the current one if it is the attached broker, and no other. */
    ghost predicate HandledOnce(broker: EventBroker)
      reads this, broker
    {
      forall h :: h in broker.handlers && h.owner == brokerOrigin <==> broker == eventBroker && subscribed == Some(h)
    }

    /**
     However often and to whichever broker the manager is attached, its messages are handled once:
     the handler of the attach before is taken off, wherever it was, and the new one put on. The
     handlers of other managers stay. Publishing is switched off when this is the only worker.
     */
    method AttachBroker(broker: EventBroker, workerCount: nat)
      requires HandledOnce(broker) && (eventBroker != null ==> HandledOnce(eventBroker))
      requires subscribed.Some? ==>
        eventBroker != null && subscribed.value.owner == brokerOrigin && subscribed.value.turn < attaches
      modifies this`eventBroker, this`subscribed, this`attaches, this`publishToBrokerEnabled
      modifies broker, if eventBroker != null then {eventBroker} else {}
      ensures HandledOnce(broker) && eventBroker == broker && subscribed.Some?
      ensures old(eventBroker) != null ==> HandledOnce(old(eventBroker))
      ensures subscribed.value.owner == brokerOrigin && old(attaches) <= subscribed.value.turn < attaches
      ensures forall h: Handler :: h.owner != brokerOrigin ==> (h in broker.handlers <==> old(h in broker.handlers))
      ensures publishToBrokerEnabled <==> workerCount > 1
    {
      if subscribed.Some? {
        eventBroker.Unsubscribe(subscribed.value);
        subscribed := None;
      }
      eventBroker := broker;
      publishToBrokerEnabled := workerCount > 1;
      var handler := Handler(brokerOrigin, attaches);
      attaches := attaches + 1;
      broker.Subscribe(handler);
      subscribed := Some(handler);
    }

    method IndexTenantConnection(c: ClientId, t: TenantKey)
      modifies this`tenantConnections
      ensures tenantConnections == Index(old(tenantConnections), c, t)
    {
      if t != "" {
        if t !in tenantConnections {
          tenantConnections := tenantConnections[t := {}];
        }
        tenantConnections := tenantConnections[t := tenantConnections[t] + {c}];
      }
    }

    method DeindexTenantConnection(c: ClientId, t: TenantKey)
      modifies this`tenantConnections
      ensures tenantConnections == Deindex(old(tenantConnections), c, t)
    {
      if t != "" {
        if t in tenantConnections {
          tenantConnections := tenantConnections[t := tenantConnections[t] - {c}];
          if tenantConnections[t] == {} {
            tenantConnections := tenantConnections - {t};
          }
        }
        return;
      }
      ghost var was := tenantConnections;
      var emptyKeys: set<TenantKey> := {};
      var todo := tenantConnections.Keys;
      while todo != {}
        invariant todo <= was.Keys == tenantConnections.Keys
        invariant forall k :: k in was ==> tenantConnections[k] == if k in todo then was[k] else was[k] - {c}
        invariant emptyKeys == set k | k in was && k !in todo && was[k] - {c} == {}
        decreases todo
      {
        var key :| key in todo;
        tenantConnections := tenantConnections[key := tenantConnections[key] - {c}];
        if tenantConnections[key] == {} {
          emptyKeys := emptyKeys + {key};
        }
        todo := todo - {key};
      }
      tenantConnections := tenantConnections - emptyKeys;
    }

    /** All map writes come before the one await, which closes the socket returned here. */
    method Connect(w: Socket, c: ClientId, auth: AuthContext) returns (superseded: Option<Socket>)
      requires Valid()
      modifies this`activeConnections, this`authContexts, this`subscriptions, this`tenantConnections
      ensures Valid() && Model() == ConnectionRegistry.Connect(old(Model()), c, w, auth)
      ensures superseded == (if c in old(activeConnections) && old(activeConnections)[c] != w
                             then Some(old(activeConnections)[c]) else None)
    {
      ConnectKeepsInv(Model(), c, w, auth);
      var existing := if c in activeConnections then Some(activeConnections[c]) else None;
      var oldTenant := TenantOf(if c in authContexts then authContexts[c] else Empty);
      if oldTenant != "" && oldTenant != TenantOf(auth) {
        DeindexTenantConnection(c, oldTenant);
      }
      activeConnections := activeConnections[c := w];
      authContexts := authContexts[c := auth];
      subscriptions := subscriptions[c := {}];
      IndexTenantConnection(c, TenantOf(auth));
      superseded := if existing.Some? && existing.value != w then existing else None;
    }

    method Disconnect(c: ClientId, w: Option<Socket>)
      requires Valid()
      modifies this`activeConnections, this`authContexts, this`subscriptions, this`entitySubscribers
      modifies this`tenantConnections
      ensures Valid() && Model() == ConnectionRegistry.Disconnect(old(Model()), c, w)
    {
      DisconnectKeepsInv(Model(), c, w);
      if w.Some? && c in activeConnections && activeConnections[c] != w.value {
        return;
      }
      DeindexTenantConnection(c, TenantOf(if c in authContexts then authContexts[c] else Empty));
      if c in activeConnections {
        activeConnections := activeConnections - {c};
      }
      if c in authContexts {
        authContexts := authContexts - {c};
      }
      if c in subscriptions {
        CleanUpSubscriptions(c);
      }
    }

    method CleanUpSubscriptions(c: ClientId)
      requires c in subscriptions
      modifies this`subscriptions, this`entitySubscribers
      ensures subscriptions == old(subscriptions) - {c}
      ensures entitySubscribers == RemoveFromAll(old(entitySubscribers), old(subscriptions)[c], c)
    {
      ghost var was, mine := entitySubscribers, subscriptions[c];
      var todo := subscriptions[c];
      assert RemoveFromAll(was, {}, c) == was;
      while todo != {}
        invariant todo <= mine && subscriptions == old(subscriptions)
        invariant entitySubscribers == RemoveFromAll(was, mine - todo, c)
        decreases todo
      {
        var e :| e in todo;
        assert mine - (todo - {e}) == mine - todo + {e};
        if e in entitySubscribers {
          entitySubscribers := entitySubscribers[e := entitySubscribers[e] - {c}];
          if entitySubscribers[e] == {} {
            entitySubscribers := entitySubscribers - {e};
          }
        }
        todo := todo - {e};
      }
      assert mine - todo == mine;
      subscriptions := subscriptions - {c};
    }

    method Subscribe(c: ClientId, entityType: string, entityId: string, t: Option<TenantKey>)
      returns (denied: Option<SubscribeError>)
      requires Valid()
      modifies this`subscriptions, this`entitySubscribers
      ensures Valid()
      ensures match ConnectionRegistry.Subscribe(old(Model()), c, entityType + ":" + entityId, t)
              case Ok(r) => denied == None && Model() == r
              case Err(e) => denied == Some(e) && Model() == old(Model())
    {
      var e := entityType + ":" + entityId;
      if !MaySubscribe(if c in authContexts then authContexts[c] else Empty, t) {
        return Some(Forbidden);
      }
      SubscribeKeepsInv(Model(), c, e, t);
      AddStepwise(entitySubscribers, e, c);
      if c in subscriptions {
        subscriptions := subscriptions[c := subscriptions[c] + {e}];
      }
      if e !in entitySubscribers {
        entitySubscribers := entitySubscribers[e := {}];
      }
      entitySubscribers := entitySubscribers[e := entitySubscribers[e] + {c}];
      denied := None;
    }

    method Unsubscribe(c: ClientId, entityType: string, entityId: string)
      requires Valid()
      modifies this`subscriptions, this`entitySubscribers
      ensures Valid() && Model() == ConnectionRegistry.Unsubscribe(old(Model()), c, entityType + ":" + entityId)
    {
      var e := entityType + ":" + entityId;
      UnsubscribeKeepsInv(Model(), c, e);
      if c in subscriptions {
        subscriptions := subscriptions[c := subscriptions[c] - {e}];
      }
      if e in entitySubscribers {
        entitySubscribers := entitySubscribers[e := entitySubscribers[e] - {c}];
        if entitySubscribers[e] == {} {
          entitySubscribers := entitySubscribers - {e};
        }
      }
    }

    /** `list(ids)`: the members in some order, each once. */
    static method Snapshot(ids: set<ClientId>) returns (order: seq<ClientId>)
      ensures forall c :: c in order <==> c in ids
      ensures forall i, j :: 0 <= i < j < |order| ==> order[i] != order[j]
      ensures |order| == |ids|
    {
      order := [];
      var todo := ids;
      while todo != {}
        invariant todo <= ids && |order| + |todo| == |ids|
        invariant forall c :: c in order <==> c in ids && c !in todo
        invariant forall i, j :: 0 <= i < j < |order| ==> order[i] != order[j]
        decreases todo
      {
        var c :| c in todo;
        order := order + [c];
        todo := todo - {c};
      }
    }

    method DisconnectAll(order: seq<ClientId>)
      requires Valid()
      modifies this`activeConnections, this`authContexts, this`subscriptions, this`entitySubscribers
      modifies this`tenantConnections
      ensures Valid() && Model() == Evict(old(Model()), Members(order))
    {
      ghost var was := Model();
      EvictNone(was);
      assert Members(order[..0]) == {};
      for i := 0 to |order|
        invariant Valid() && Model() == Evict(was, Members(order[..i]))
      {
        EvictOneMore(was, Members(order[..i]), order[i]);
        assert Members(order[..i + 1]) == Members(order[..i]) + {order[i]};
        Disconnect(order[i], None);
      }
      assert order[..|order|] == order;
    }

    /**
     Sends to each client of the snapshot; returns who was reached and who failed, in order, and whether
     some send raised. The sends are independent, so a raise does not keep the others from their clients.
     */
    method SendAll(order: seq<ClientId>, reachable: set<ClientId>, raising: set<ClientId>)
      returns (sent: set<ClientId>, failed: seq<ClientId>, raised: bool)
      requires forall i, j :: 0 <= i < j < |order| ==> order[i] != order[j]
      ensures sent == set c | c in order && c in activeConnections && c in reachable - raising
      ensures raised <==> exists c :: c in order && c in activeConnections && c in raising
      ensures forall c :: c in failed <==> c in order && c !in sent && !(c in activeConnections && c in raising)
    {
      sent, failed, raised := {}, [], false;
      for i := 0 to |order|
        invariant sent == set c | c in order[..i] && c in activeConnections && c in reachable - raising
        invariant raised <==> exists c :: c in order[..i] && c in activeConnections && c in raising
        invariant forall c :: c in failed <==>
          c in order[..i] && c !in sent && !(c in activeConnections && c in raising)
      {
        assert order[..i + 1] == order[..i] + [order[i]];
        if order[i] in activeConnections && order[i] in raising {
          raised := true;
        } else if order[i] in activeConnections && order[i] in reachable {
          sent := sent + {order[i]};
        } else {
          failed := failed + [order[i]];
        }
      }
    }

    /** The sends of one fan-out and, unless one of them raises, the eviction of whoever could not be reached. */
    method FanOut(targets: set<ClientId>, reachable: set<ClientId>, raising: set<ClientId>)
      returns (sent: set<ClientId>, raised: bool)
      requires Valid() && targets <= activeConnections.Keys
      modifies this`activeConnections, this`authContexts, this`subscriptions, this`entitySubscribers
      modifies this`tenantConnections
      ensures Valid() && (raised <==> targets * raising != {})
      ensures Model() == if raised then old(Model()) else Evict(old(Model()), targets - reachable)
      ensures sent == targets * (reachable - raising)
    {
      var order := Snapshot(targets);
      var failed;
      sent, failed, raised := SendAll(order, reachable, raising);
      assert sent == targets * (reachable - raising);
      assert raised <==> targets * raising != {} by {
        if c :| c in order && c in activeConnections && c in raising {
          assert c in targets * raising;
        }
        if c :| c in targets * raising {
          assert c in order && c in activeConnections && c in raising;
        }
      }
      if !raised {
        assert Members(failed) == targets - reachable;
        DisconnectAll(failed);
      }
    }

    method PublishIfEnabled(publish: bool, message: BrokerMessage, world: World)
      modifies this`published
      ensures published == old(published)
                + (if publish && eventBroker != null && publishToBrokerEnabled && world.brokerUp then [message] else [])
    {
      if publish && eventBroker != null && publishToBrokerEnabled && world.brokerUp {
        published := published + [message];
      }
    }

    /**
     The fan-out of one event, run here without interruption: every indexed client of the tenant except
     the excluded one is sent the envelope. If and only if no send raises, the failures are evicted and
     the envelope is published when asked to and enabled; otherwise the call ends there.
     */
    method BroadcastEventToTenant(t: TenantKey, event: Json, exclude: Option<ClientId>, publish: bool, world: World)
      returns (outcome: Outcome<set<ClientId>>, reached: set<ClientId>)
      requires Valid()
      modifies this`activeConnections, this`authContexts, this`subscriptions, this`entitySubscribers
      modifies this`tenantConnections, this`published
      ensures Valid()
      ensures match Normalise(t, event, world.now)
              case Err(e) => outcome == Rejected(e) && reached == {} && Model() == old(Model())
                && published == old(published)
              case Ok(envelope) =>
                var targets := Targets(old(Model()), t, exclude);
                && reached == targets * (world.reachable - world.raising)
                && (outcome.Raised? <==> targets * world.raising != {})
                && (outcome.Raised? ==> Model() == old(Model()) && published == old(published))
                && (!outcome.Raised? ==>
                      && outcome == Done(reached) && Model() == Evict(old(Model()), targets - world.reachable)
                      && published == old(published)
                           + (if publish && eventBroker != null && publishToBrokerEnabled && world.brokerUp
                              then [BrokerMessage(t, envelope, exclude, Some(brokerOrigin), None)] else []))
    {
      var normalised := Normalise(t, event, world.now);
      if normalised.Err? {
        return Rejected(normalised.error), {};
      }
      var targets := if t in tenantConnections then set c | c in tenantConnections[t] && exclude != Some(c) else {};
      assert targets == Targets(Model(), t, exclude);
      TargetsAreRegistered(Model(), t, exclude);
      var raised;
      reached, raised := FanOut(targets, world.reachable, world.raising);
      if raised {
        return Raised, reached;
      }
      PublishIfEnabled(publish, BrokerMessage(t, normalised.value, exclude, Some(brokerOrigin), None), world);
      outcome := Done(reached);
    }

    /** Closes the sockets one after the other; `closed` clients are deregistered before a close raises, if one does. */
    method CloseAll(order: seq<ClientId>, reachable: set<ClientId>, raising: set<ClientId>)
      returns (closedCount: nat, closed: nat)
      requires Valid()
      requires forall i, j :: 0 <= i < j < |order| ==> order[i] != order[j]
      requires Members(order) <= activeConnections.Keys
      modifies this`activeConnections, this`authContexts, this`subscriptions, this`entitySubscribers
      modifies this`tenantConnections
      ensures Valid() && closed <= |order| && Model() == Evict(old(Model()), Members(order[..closed]))
      ensures closedCount == |Members(order[..closed]) * reachable| && Members(order[..closed]) !! raising
      ensures closed < |order| ==> order[closed] in raising
    {
      ghost var was := Model();
      closedCount := 0;
      EvictNone(was);
      assert Members(order[..0]) == {};
      for i := 0 to |order|
        invariant Valid() && Model() == Evict(was, Members(order[..i]))
        invariant closedCount == |Members(order[..i]) * reachable| && Members(order[..i]) !! raising
      {
        var c := order[i];
        MembersGrow(order, i, reachable);
        StillRegistered(was, order, i);
        if c in activeConnections && c in raising {
          return closedCount, i;
        }
        if c in activeConnections && c in reachable {
          closedCount := closedCount + 1;
        }
        EvictOneMore(was, Members(order[..i]), c);
        Disconnect(c, None);
      }
      closed := |order|;
    }

    /** The loop over a snapshot of the targets: all of them are `gone` if and only if no close raises. */
    method CloseSnapshot(targets: set<ClientId>, reachable: set<ClientId>, raising: set<ClientId>)
      returns (closedCount: nat, raised: bool, ghost gone: set<ClientId>)
      requires Valid() && targets <= activeConnections.Keys
      modifies this`activeConnections, this`authContexts, this`subscriptions, this`entitySubscribers
      modifies this`tenantConnections
      ensures Valid() && Model() == Evict(old(Model()), gone)
      ensures gone <= targets && gone !! raising && (gone == targets <==> targets !! raising)
      ensures raised <==> !(targets !! raising)
      ensures !raised ==> closedCount == |targets * reachable|
    {
      var order := Snapshot(targets);
      assert Members(order) == targets;
      var closed;
      closedCount, closed := CloseAll(order, reachable, raising);
      gone := Members(order[..closed]);
      raised := closed < |order|;
      if raised {
        assert order[closed] in targets && order[closed] in raising;
      } else {
        assert order[..closed] == order;
      }
    }

    /**
     Force-closes the live sockets of a tenant. The loop walks a snapshot, since each `Disconnect` shrinks
     the very bucket it was taken from. A close that fails in time is only not counted; one that raises
     ends the call: all of the tenant's clients are `gone`, and the other workers told, if and only if none raises.
     */
    method CloseTenantSockets(t: TenantKey, publish: bool, world: World)
      returns (outcome: Outcome<nat>, ghost gone: set<ClientId>)
      requires Valid()
      modifies this`activeConnections, this`authContexts, this`subscriptions, this`entitySubscribers
      modifies this`tenantConnections, this`published
      ensures Valid() && Model() == Evict(old(Model()), gone)
      ensures t == "" ==> outcome == Rejected(EmptyTenant) && gone == {} && published == old(published)
      ensures t != "" ==>
        var targets := Targets(old(Model()), t, None);
        && gone <= targets && gone !! world.raising
        && (gone == targets <==> targets !! world.raising)
        && outcome == (if targets !! world.raising then Done(|targets * world.reachable|) else Raised)
        && published == old(published)
             + (if targets !! world.raising && publish && eventBroker != null && publishToBrokerEnabled
               && world.brokerUp
                then [BrokerMessage(t, Object(map[]), None, Some(brokerOrigin), Some("disconnect_tenant"))] else [])
    {
      if t == "" {
        EvictNone(Model());
        gone := {};
        return Rejected(EmptyTenant), gone;
      }
      ghost var was := Model();
      var targets := if t in tenantConnections then tenantConnections[t] else {};
      assert targets == Targets(was, t, None);
      TargetsAreRegistered(was, t, None);
      var closedCount, raised;
      closedCount, raised, gone := CloseSnapshot(targets, world.reachable, world.raising);
      if raised {
        return Raised, gone;
      }
      PublishIfEnabled(publish, BrokerMessage(t, Object(map[]), None, Some(brokerOrigin), Some(DISCONNECT_TENANT)),
        world);
      outcome := Done(closedCount);
    }

    /** Whether a message from the broker is this manager's own. */
    predicate IsEcho(message: BrokerMessage) {
      message.origin == Some(brokerOrigin) && brokerOrigin != ""
    }

    /**
     The broker handler: drops its own echo, and whatever it handles it never publishes again. The broker
     swallows what the handler raises; the clients in `gone` have been deregistered by then.
     */
    method HandleBrokerMessage(message: BrokerMessage, world: World) returns (ghost gone: set<ClientId>)
      requires Valid()
      modifies this`activeConnections, this`authContexts, this`subscriptions, this`entitySubscribers
      modifies this`tenantConnections, this`published
      ensures Valid() && published == old(published) && Model() == Evict(old(Model()), gone)
      ensures IsEcho(message) || message.tenantKey == "" ==> gone == {}
      ensures !IsEcho(message) && message.tenantKey != "" && message.control == Some("disconnect_tenant") ==>
        var targets := Targets(old(Model()), message.tenantKey, None);
        gone <= targets && gone !! world.raising && (gone == targets <==> targets !! world.raising)
      ensures !IsEcho(message) && message.control != Some("disconnect_tenant") ==>
        var targets := Targets(old(Model()), message.tenantKey, message.excludeClient);
        gone == if Normalise(message.tenantKey, message.event, world.now).Ok? && targets !! world.raising
                then targets - world.reachable else {}
    {
      EvictNone(Model());
      gone := {};
      if message.origin.Some? && message.origin.value != "" && message.origin.value == brokerOrigin {
        return;
      }
      if message.control == Some(DISCONNECT_TENANT) {
        var _, closed := CloseTenantSockets(message.tenantKey, false, world);
        gone := closed;
        return;
      }
      ghost var targets := Targets(Model(), message.tenantKey, message.excludeClient);
      var outcome, _ := BroadcastEventToTenant(message.tenantKey, message.event, message.excludeClient, false, world);
      if outcome.Done? {
        gone := targets - world.reachable;
      }
    }

    /**
     Tells every registered subscriber of an entity; unregistered ids left in the bucket are skipped.
     While the buckets are isolated, nobody told is of another tenant than the entity's `owner`.
     */
    method NotifyEntityUpdate(entityType: string, entityId: string, world: World, ghost owner: EntityKey -> TenantKey)
      returns (notified: set<ClientId>)
      requires Valid()
      modifies this`activeConnections, this`authContexts, this`subscriptions, this`entitySubscribers
      modifies this`tenantConnections
      ensures Valid()
      ensures var told := Subscribers(old(Model()), entityType + ":" + entityId);
              notified == told * world.reachable && Model() == Evict(old(Model()), told - world.reachable)
      ensures BucketsIsolated(old(Model()), owner) ==>
        forall c :: c in notified ==> MayHear(AuthOf(old(Model()), c), entityType + ":" + entityId, owner)
    {
      var e := entityType + ":" + entityId;
      if e in entitySubscribers {
        var disconnected;
        notified, disconnected := NotifyBucket(e, world.reachable);
        DisconnectAll(disconnected);
      } else {
        NobodyToTell(Model(), e, world.reachable);
        notified := {};
      }
    }

    method NotifyBucket(e: EntityKey, reachable: set<ClientId>) returns (notified: set<ClientId>, failed: seq<ClientId>)
      requires e in entitySubscribers
      ensures notified == Subscribers(Model(), e) * reachable && Members(failed) == Subscribers(Model(), e) - reachable
    {
      var order := Snapshot(entitySubscribers[e]);
      notified, failed := NotifyAll(order, reachable);
      ToldSplit(Model(), e, order, reachable, notified, failed);
    }

    /** Like `SendAll`, but an id with no connection is passed over instead of counted as failed. */
    method NotifyAll(order: seq<ClientId>, reachable: set<ClientId>)
      returns (notified: set<ClientId>, failed: seq<ClientId>)
      ensures notified == set c | c in order && c in activeConnections && c in reachable
      ensures forall c :: c in failed <==> c in order && c in activeConnections && c !in reachable
    {
      notified, failed := {}, [];
      for i := 0 to |order|
        invariant notified == set c | c in order[..i] && c in activeConnections && c in reachable
        invariant forall c :: c in failed <==> c in order[..i] && c in activeConnections && c !in reachable
      {
        if order[i] in activeConnections {
          if order[i] in reachable {
            notified := notified + {order[i]};
          } else {
            failed := failed + [order[i]];
          }
        }
      }
    }
  }

  /** On a run that never reconnected over live subscriptions, an entity update reaches exactly
      the registered clients that hold a subscription to it. */
  lemma NotifiedAreSubscribers(r: Registry, e: EntityKey)
    requires Inv(r) && ExactInverse(r)
    ensures Subscribers(r, e) == set c | c in r.subs && e in r.subs[c]
  {
  }
}
