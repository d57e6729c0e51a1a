/**
 The connection registry of one worker, as values: the five maps that
 `WebSocketManager` keeps, the effect of each of its await-free stretches of
 code on them, and what every run of those stretches keeps.
 */
module ConnectionRegistry {
  import opened Options

  type ClientId = string
  type TenantKey = string
  type EntityKey = string
  /** The identity of one accepted WebSocket object. */
  type Socket = nat

  datatype UserInfo = UserInfo(tenantKey: Option<TenantKey>)

  /** An auth context; `Empty` is the empty dictionary a missing context is replaced by. */
  datatype AuthContext =
    | Empty
    | Context(tenantKey: Option<TenantKey>, setup: bool, user: Option<UserInfo>)

  /** The tenant a context is indexed under; "" (which is never indexed) when it names none. */
  function TenantOf(auth: AuthContext): TenantKey {
    if auth.Context? && auth.tenantKey.Some? then auth.tenantKey.value else ""
  }

  datatype Registry = Registry(
    active: map<ClientId, Socket>,
    auth: map<ClientId, AuthContext>,
    subs: map<ClientId, set<EntityKey>>,
    entitySubs: map<EntityKey, set<ClientId>>,
    tenants: map<TenantKey, set<ClientId>>)

  const EMPTY := Registry(map[], map[], map[], map[], map[])

  // ---------------------------------------------------------------- buckets

  predicate InBucket(m: map<string, set<ClientId>>, key: string, c: ClientId) {
    key in m && c in m[key]
  }

  ghost predicate NoEmptyBucket(m: map<string, set<ClientId>>) {
    forall key :: key in m ==> m[key] != {}
  }

  function AddTo(m: map<string, set<ClientId>>, key: string, c: ClientId): (r: map<string, set<ClientId>>)
    ensures forall k, d :: InBucket(r, k, d) <==> InBucket(m, k, d) || (k == key && d == c)
    ensures NoEmptyBucket(m) ==> NoEmptyBucket(r)
  {
    m[key := (if key in m then m[key] else {}) + {c}]
  }

  function RemoveFrom(m: map<string, set<ClientId>>, key: string, c: ClientId): (r: map<string, set<ClientId>>)
    ensures forall k, d :: InBucket(r, k, d) <==> InBucket(m, k, d) && !(k == key && d == c)
    ensures NoEmptyBucket(m) ==> NoEmptyBucket(r)
  {
    if key !in m then m
    else if m[key] - {c} == {} then
      assert forall d :: d in m[key] && d != c ==> d in m[key] - {c};
      m - {key}
    else m[key := m[key] - {c}]
  }

  /** Takes `c` out of every bucket named in `keys`, dropping the buckets this empties. */
  function RemoveFromAll(m: map<string, set<ClientId>>, keys: set<string>, c: ClientId): (r: map<string, set<ClientId>>)
    ensures forall k, d :: InBucket(r, k, d) <==> InBucket(m, k, d) && !(k in keys && d == c)
    ensures NoEmptyBucket(m) ==> NoEmptyBucket(r)
  {
    assert forall k, d :: k in m && d in m[k] && d != c ==> d in m[k] - {c};
    map k | k in m && !(k in keys && m[k] - {c} == {}) :: if k in keys then m[k] - {c} else m[k]
  }

  // ------------------------------------------------------- the atomic steps

  function Index(tenants: map<TenantKey, set<ClientId>>, c: ClientId, t: TenantKey): map<TenantKey, set<ClientId>> {
    if t != "" then AddTo(tenants, t, c) else tenants
  }

  /** With no tenant to go by, the client is scrubbed from every bucket. */
  function Deindex(tenants: map<TenantKey, set<ClientId>>, c: ClientId, t: TenantKey): map<TenantKey, set<ClientId>> {
    if t != "" then RemoveFrom(tenants, t, c) else RemoveFromAll(tenants, tenants.Keys, c)
  }

  function AuthOf(r: Registry, c: ClientId): AuthContext {
    if c in r.auth then r.auth[c] else Empty
  }

  function Connect(r: Registry, c: ClientId, w: Socket, auth: AuthContext): Registry {
    var oldTenant := TenantOf(AuthOf(r, c));
    var tenants := if oldTenant != "" && oldTenant != TenantOf(auth)
                   then Deindex(r.tenants, c, oldTenant) else r.tenants;
    Registry(r.active[c := w], r.auth[c := auth], r.subs[c := {}], r.entitySubs, Index(tenants, c, TenantOf(auth)))
  }

  /** Another socket than the given one owns the id: the caller's teardown is stale. */
  predicate Superseded(r: Registry, c: ClientId, w: Option<Socket>) {
    w.Some? && c in r.active && r.active[c] != w.value
  }

  function Disconnect(r: Registry, c: ClientId, w: Option<Socket>): Registry {
    if Superseded(r, c, w) then r
    else Registry(
      r.active - {c},
      r.auth - {c},
      r.subs - {c},
      if c in r.subs then RemoveFromAll(r.entitySubs, r.subs[c], c) else r.entitySubs,
      Deindex(r.tenants, c, TenantOf(AuthOf(r, c))))
  }

  /** Whether a client with this context may subscribe to an entity of tenant `entityTenant`. */
  predicate MaySubscribe(auth: AuthContext, entityTenant: Option<TenantKey>) {
    if auth.Context? && auth.setup then true
    else if auth.Empty? then false
    else
      var userTenant := if auth.user.Some? && auth.user.value.tenantKey.Some?
                        then auth.user.value.tenantKey.value else "";
      if userTenant == "" then false
      else !(entityTenant.Some? && entityTenant.value != "" && userTenant != entityTenant.value)
  }

  datatype SubscribeError = Forbidden

  function Subscribe(r: Registry, c: ClientId, e: EntityKey, entityTenant: Option<TenantKey>): Result<Registry,
                     SubscribeError> {
    if !MaySubscribe(AuthOf(r, c), entityTenant) then Err(Forbidden)
    else Ok(r.(
      subs := if c in r.subs then r.subs[c := r.subs[c] + {e}] else r.subs,
      entitySubs := AddTo(r.entitySubs, e, c)))
  }

  function Unsubscribe(r: Registry, c: ClientId, e: EntityKey): Registry {
    r.(subs := if c in r.subs then r.subs[c := r.subs[c] - {e}] else r.subs,
       entitySubs := RemoveFrom(r.entitySubs, e, c))
  }

  datatype Op =
    | OpConnect(client: ClientId, socket: Socket, auth: AuthContext)
    | OpDisconnect(client: ClientId, teardown: Option<Socket>)
    | OpSubscribe(client: ClientId, entity: EntityKey, entityTenant: Option<TenantKey>)
    | OpUnsubscribe(client: ClientId, entity: EntityKey)

  /** One await-free stretch. Send failures, heartbeats and revocations all evict by `OpDisconnect(c, None)`. */
  function Step(r: Registry, op: Op): Registry {
    match op
    case OpConnect(c, w, auth) => Connect(r, c, w, auth)
    case OpDisconnect(c, w) => Disconnect(r, c, w)
    case OpSubscribe(c, e, t) =>
      var out := Subscribe(r, c, e, t);
      if out.Ok? then out.value else r
    case OpUnsubscribe(c, e) => Unsubscribe(r, c, e)
  }

  function Run(r: Registry, ops: seq<Op>): Registry
    decreases |ops|
  {
    if ops == [] then r else Run(Step(r, ops[0]), ops[1..])
  }

  // --------------------------------------------------------- the invariant

  /** Full scan: the client is registered and its context carries the non-empty tenant `t`. */
  predicate Carries(r: Registry, t: TenantKey, c: ClientId) {
    t != "" && c in r.auth && TenantOf(r.auth[c]) == t
  }

  ghost predicate SubsIndexed(r: Registry) {
    forall c, e :: c in r.subs && e in r.subs[c] ==> InBucket(r.entitySubs, e, c)
  }

  ghost predicate Inv(r: Registry) {
    && r.active.Keys == r.auth.Keys == r.subs.Keys
    && (forall t, c :: InBucket(r.tenants, t, c) <==> Carries(r, t, c))
    && NoEmptyBucket(r.tenants)
    && NoEmptyBucket(r.entitySubs)
    && SubsIndexed(r)
  }

  lemma ConnectKeepsInv(r: Registry, c: ClientId, w: Socket, auth: AuthContext)
    requires Inv(r)
    ensures Inv(Connect(r, c, w, auth))
  {
    var s := Connect(r, c, w, auth);
    forall t, d ensures InBucket(s.tenants, t, d) <==> Carries(s, t, d) {
      assert InBucket(r.tenants, t, d) <==> Carries(r, t, d);
    }
  }

  lemma DisconnectKeepsInv(r: Registry, c: ClientId, w: Option<Socket>)
    requires Inv(r)
    ensures Inv(Disconnect(r, c, w))
  {
    var s := Disconnect(r, c, w);
    if !Superseded(r, c, w) {
      forall t, d ensures InBucket(s.tenants, t, d) <==> Carries(s, t, d) {
        assert InBucket(r.tenants, t, d) <==> Carries(r, t, d);
      }
    }
  }

  lemma SubscribeKeepsInv(r: Registry, c: ClientId, e: EntityKey, t: Option<TenantKey>)
    requires Inv(r) && Subscribe(r, c, e, t).Ok?
    ensures Inv(Subscribe(r, c, e, t).value)
  {
    var s := Subscribe(r, c, e, t).value;
    forall t', d ensures InBucket(s.tenants, t', d) <==> Carries(s, t', d) {
      assert InBucket(r.tenants, t', d) <==> Carries(r, t', d);
    }
  }

  lemma UnsubscribeKeepsInv(r: Registry, c: ClientId, e: EntityKey)
    requires Inv(r)
    ensures Inv(Unsubscribe(r, c, e))
  {
    var s := Unsubscribe(r, c, e);
    forall t, d ensures InBucket(s.tenants, t, d) <==> Carries(s, t, d) {
      assert InBucket(r.tenants, t, d) <==> Carries(r, t, d);
    }
  }

  lemma StepKeepsInv(r: Registry, op: Op)
    requires Inv(r)
    ensures Inv(Step(r, op))
  {
    match op
    case OpConnect(c, w, auth) => ConnectKeepsInv(r, c, w, auth);
    case OpDisconnect(c, w) => DisconnectKeepsInv(r, c, w);
    case OpSubscribe(c, e, t) =>
      if Subscribe(r, c, e, t).Ok? {
        SubscribeKeepsInv(r, c, e, t);
      }
    case OpUnsubscribe(c, e) => UnsubscribeKeepsInv(r, c, e);
  }

  lemma {:induction false} RunKeepsInv(r: Registry, ops: seq<Op>)
    requires Inv(r)
    ensures Inv(Run(r, ops))
    decreases |ops|
  {
    if ops != [] {
      StepKeepsInv(r, ops[0]);
      RunKeepsInv(Step(r, ops[0]), ops[1..]);
    }
  }

  // ------------------------------------------------------- tenant fan-out

  /** What `broadcast_event_to_tenant` snapshots from the tenant index. */
  function Targets(r: Registry, t: TenantKey, exclude: Option<ClientId>): set<ClientId> {
    if t in r.tenants then set c | c in r.tenants[t] && exclude != Some(c) else {}
  }

  /** At every await point of every interleaving the indexed fan-out is the filter over all connections. */
  lemma IndexedFanOutIsFullScan(ops: seq<Op>, t: TenantKey, exclude: Option<ClientId>)
    requires t != ""
    ensures var r := Run(EMPTY, ops);
            && r.active.Keys == r.auth.Keys == r.subs.Keys
            && (forall k :: k in r.tenants ==> k != "" && r.tenants[k] != {})
            && Targets(r, t, exclude)
               == set c | c in r.active && c in r.auth && r.auth[c].Context? && r.auth[c].tenantKey == Some(t)
                          && exclude != Some(c)
  {
    RunKeepsInv(EMPTY, ops);
    var r := Run(EMPTY, ops);
    forall k | k in r.tenants ensures k != "" && r.tenants[k] != {} {
      var c :| c in r.tenants[k];
      assert InBucket(r.tenants, k, c);
    }
    var scan := set c | c in r.active && c in r.auth && r.auth[c].Context? && r.auth[c].tenantKey == Some(t)
                        && exclude != Some(c);
    forall c ensures c in Targets(r, t, exclude) <==> c in scan {
      assert InBucket(r.tenants, t, c) <==> Carries(r, t, c);
    }
  }

  // --------------------------------------- one client at a time is enough

  /** What the registry says of one client id. */
  datatype Client = Absent | Registered(socket: Socket, auth: AuthContext, subs: set<EntityKey>)

  function View(r: Registry, c: ClientId): Client {
    if c in r.active && c in r.auth && c in r.subs then Registered(r.active[c], r.auth[c], r.subs[c]) else Absent
  }

  /** The simple machine the five maps implement for each id: latest connect wins. */
  function ClientStep(v: Client, op: Op): Client {
    match op
    case OpConnect(_, w, auth) => Registered(w, auth, {})
    case OpDisconnect(_, w) => if v.Registered? && w.Some? && w.value != v.socket then v else Absent
    case OpSubscribe(_, e, t) => if v.Registered? && MaySubscribe(v.auth, t) then v.(subs := v.subs + {e}) else v
    case OpUnsubscribe(_, e) => if v.Registered? then v.(subs := v.subs - {e}) else v
  }

  function ClientRun(v: Client, ops: seq<Op>): Client
    decreases |ops|
  {
    if ops == [] then v else ClientRun(ClientStep(v, ops[0]), ops[1..])
  }

  function OpsOn(ops: seq<Op>, c: ClientId): seq<Op>
    decreases |ops|
  {
    if ops == [] then []
    else (if ops[0].client == c then [ops[0]] else []) + OpsOn(ops[1..], c)
  }

  lemma StepProjects(r: Registry, op: Op, c: ClientId)
    requires Inv(r)
    ensures View(Step(r, op), c) == if op.client == c then ClientStep(View(r, c), op) else View(r, c)
  {
  }

  /** The registry refines independent per-id machines: what a run leaves for `c` depends only on the ops on `c`. */
  lemma {:induction false} RunProjects(r: Registry, ops: seq<Op>, c: ClientId)
    requires Inv(r)
    ensures View(Run(r, ops), c) == ClientRun(View(r, c), OpsOn(ops, c))
    decreases |ops|
  {
    if ops != [] {
      StepKeepsInv(r, ops[0]);
      StepProjects(r, ops[0], c);
      RunProjects(Step(r, ops[0]), ops[1..], c);
      if ops[0].client == c {
        assert OpsOn(ops, c)[0] == ops[0] && OpsOn(ops, c)[1..] == OpsOn(ops[1..], c);
      } else {
        assert OpsOn(ops, c) == OpsOn(ops[1..], c);
      }
    }
  }

  /**
   An op that cannot touch the registration of `c` by socket `w`: it is on another id, or tears another
   socket down.
   */
  predicate Stale(op: Op, c: ClientId, w: Socket) {
    op.client == c ==> op.OpDisconnect? && op.teardown.Some? && op.teardown.value != w
  }

  lemma {:induction false} StaleOpsChangeNothing(v: Client, ops: seq<Op>, c: ClientId)
    requires v.Registered?
    requires forall i :: 0 <= i < |ops| ==> Stale(ops[i], c, v.socket)
    ensures ClientRun(v, OpsOn(ops, c)) == v
    decreases |ops|
  {
    if ops != [] {
      assert Stale(ops[0], c, v.socket);
      assert forall i :: 0 <= i < |ops[1..]| ==> ops[1..][i] == ops[i + 1];
      StaleOpsChangeNothing(v, ops[1..], c);
      if ops[0].client == c {
        assert OpsOn(ops, c)[0] == ops[0] && OpsOn(ops, c)[1..] == OpsOn(ops[1..], c);
      } else {
        assert OpsOn(ops, c) == OpsOn(ops[1..], c);
      }
    }
  }

  /** Latest connect wins: teardowns of superseded sockets, whenever they come, leave the new registration whole. */
  lemma LatestConnectWins(before: seq<Op>, c: ClientId, w: Socket, auth: AuthContext, after: seq<Op>, t: TenantKey)
    requires forall i :: 0 <= i < |after| ==> Stale(after[i], c, w)
    ensures var r := Run(Connect(Run(EMPTY, before), c, w, auth), after);
            && View(r, c) == Registered(w, auth, {})
            && (InBucket(r.tenants, t, c) <==> t != "" && auth.Context? && auth.tenantKey == Some(t))
  {
    RunKeepsInv(EMPTY, before);
    var r0 := Run(EMPTY, before);
    var op := OpConnect(c, w, auth);
    StepKeepsInv(r0, op);
    var r1 := Step(r0, op);
    RunProjects(r1, after, c);
    StaleOpsChangeNothing(View(r1, c), after, c);
    RunKeepsInv(r1, after);
    assert InBucket(Run(r1, after).tenants, t, c) <==> Carries(Run(r1, after), t, c);
  }

  /** A context that names a tenant is sent that tenant's events and no other's, whatever its user and setup flag. */
  lemma IndexedUnderOwnTenant(before: seq<Op>, c: ClientId, w: Socket, setup: bool, user: Option<UserInfo>,
                              t: TenantKey, after: seq<Op>)
    requires t != "" && forall i :: 0 <= i < |after| ==> Stale(after[i], c, w)
    ensures var r := Run(Connect(Run(EMPTY, before), c, w, Context(Some(t), setup, user)), after);
            && c in Targets(r, t, None)
            && (forall k :: k in r.tenants && c in r.tenants[k] ==> k == t)
  {
    var auth := Context(Some(t), setup, user);
    var r := Run(Connect(Run(EMPTY, before), c, w, auth), after);
    LatestConnectWins(before, c, w, auth, after, t);
    assert InBucket(r.tenants, t, c);
    forall k | k in r.tenants && c in r.tenants[k] ensures k == t {
      LatestConnectWins(before, c, w, auth, after, k);
      assert InBucket(r.tenants, k, c);
    }
  }

  /** A context without a tenant is in no bucket. */
  lemma NotIndexedWithoutTenant(before: seq<Op>, c: ClientId, w: Socket, auth: AuthContext, after: seq<Op>)
    requires auth == Empty || (auth.Context? && (auth.tenantKey == None || auth.tenantKey == Some("")))
    requires forall i :: 0 <= i < |after| ==> Stale(after[i], c, w)
    ensures var r := Run(Connect(Run(EMPTY, before), c, w, auth), after);
            forall k :: k in r.tenants ==> c !in r.tenants[k]
  {
    var r := Run(Connect(Run(EMPTY, before), c, w, auth), after);
    forall k | k in r.tenants ensures c !in r.tenants[k] {
      LatestConnectWins(before, c, w, auth, after, k);
      assert InBucket(r.tenants, k, c) <==> c in r.tenants[k];
    }
  }

  // ------------------------------------------------- who may subscribe

  function UserTenant(auth: AuthContext): TenantKey {
    if auth.Context? && auth.user.Some? && auth.user.value.tenantKey.Some? then auth.user.value.tenantKey.value else ""
  }

  /**
   Who may subscribe, on the context's fields: a setup connection always; otherwise a user with a tenant,
   to entities of that tenant and to those whose tenant is not given.
   */
  lemma MaySubscribeIff(auth: AuthContext, entityTenant: Option<TenantKey>)
    ensures auth == Empty ==> !MaySubscribe(auth, entityTenant)
    ensures auth.Context? && auth.setup ==> MaySubscribe(auth, entityTenant)
    ensures auth.Context? && !auth.setup && auth.user.Some? && auth.user.value.tenantKey.Some? ==>
      var u := auth.user.value.tenantKey.value;
      MaySubscribe(auth, entityTenant) <==> u != "" && entityTenant in {None, Some(""), Some(u)}
    ensures auth.Context? && !auth.setup && (auth.user.None? || auth.user.value.tenantKey.None?) ==>
      !MaySubscribe(auth, entityTenant)
  {
  }

  predicate IsSetup(auth: AuthContext) {
    auth.Context? && auth.setup
  }

  /** Every held subscription is to an entity of the holder's own tenant, setup connections apart. */
  ghost predicate Isolated(r: Registry, owner: EntityKey -> TenantKey) {
    forall c, e :: c in r.subs && e in r.subs[c] ==>
      c in r.auth && (IsSetup(r.auth[c]) || UserTenant(r.auth[c]) == owner(e))
  }

  /** The subscribe names the non-empty tenant that owns the entity, as the WebSocket endpoint resolves it. */
  predicate NamesOwner(op: Op, owner: EntityKey -> TenantKey) {
    op.OpSubscribe? ==> owner(op.entity) != "" && op.entityTenant == Some(owner(op.entity))
  }

  /** No run lets a client hold a subscription across tenants; and nothing else is refused. */
  lemma {:induction false} SubscriptionsStayInTenant(r: Registry, ops: seq<Op>, owner: EntityKey -> TenantKey)
    requires Inv(r) && Isolated(r, owner)
    requires forall i :: 0 <= i < |ops| ==> NamesOwner(ops[i], owner)
    ensures Isolated(Run(r, ops), owner)
    ensures forall c, e :: owner(e) != "" ==>
      (Subscribe(r, c, e, Some(owner(e))).Ok? <==> IsSetup(AuthOf(r, c)) || UserTenant(AuthOf(r, c)) == owner(e))
    decreases |ops|
  {
    if ops != [] {
      assert NamesOwner(ops[0], owner);
      StepKeepsInv(r, ops[0]);
      assert forall i :: 0 <= i < |ops[1..]| ==> ops[1..][i] == ops[i + 1];
      SubscriptionsStayInTenant(Step(r, ops[0]), ops[1..], owner);
    }
  }

  /**
   Delivery reads the entity buckets: whoever is registered there is of the entity's own tenant, setup
   connections apart.
   */
  ghost predicate BucketsIsolated(r: Registry, owner: EntityKey -> TenantKey) {
    forall c, e :: InBucket(r.entitySubs, e, c) && c in r.auth ==> MayHear(r.auth[c], e, owner)
  }

  predicate MayHear(auth: AuthContext, e: EntityKey, owner: EntityKey -> TenantKey) {
    IsSetup(auth) || UserTenant(auth) == owner(e)
  }

  /** The op connects an id that sits in the bucket of an entity its new context may not hear of. */
  ghost predicate HandsOver(r: Registry, op: Op, owner: EntityKey -> TenantKey) {
    op.OpConnect? && exists e :: InBucket(r.entitySubs, e, op.client) && !MayHear(op.auth, e, owner)
  }

  lemma ConnectKeepsIsolatedIff(r: Registry, op: Op, owner: EntityKey -> TenantKey)
    requires BucketsIsolated(r, owner) && op.OpConnect?
    ensures BucketsIsolated(Step(r, op), owner) <==> !HandsOver(r, op, owner)
  {
    var s := Step(r, op);
    if HandsOver(r, op, owner) {
      var e :| InBucket(r.entitySubs, e, op.client) && !MayHear(op.auth, e, owner);
      assert InBucket(s.entitySubs, e, op.client) && s.auth[op.client] == op.auth;
    }
  }

  /** A step keeps the entity buckets to their tenants if and only if it hands no id in them over to another one. */
  lemma StepKeepsIsolatedIff(r: Registry, op: Op, owner: EntityKey -> TenantKey)
    requires Inv(r) && BucketsIsolated(r, owner) && NamesOwner(op, owner)
    ensures BucketsIsolated(Step(r, op), owner) <==> !HandsOver(r, op, owner)
  {
    if op.OpConnect? {
      ConnectKeepsIsolatedIff(r, op, owner);
    }
  }

  ghost predicate NeverHandsOver(r: Registry, ops: seq<Op>, owner: EntityKey -> TenantKey)
    decreases |ops|
  {
    ops == [] || (!HandsOver(r, ops[0], owner) && NeverHandsOver(Step(r, ops[0]), ops[1..], owner))
  }

  lemma {:induction false} RunKeepsIsolated(r: Registry, ops: seq<Op>, owner: EntityKey -> TenantKey)
    requires Inv(r) && BucketsIsolated(r, owner) && NeverHandsOver(r, ops, owner)
    requires forall i :: 0 <= i < |ops| ==> NamesOwner(ops[i], owner)
    ensures Inv(Run(r, ops)) && BucketsIsolated(Run(r, ops), owner)
    decreases |ops|
  {
    if ops != [] {
      assert NamesOwner(ops[0], owner);
      StepKeepsInv(r, ops[0]);
      StepKeepsIsolatedIff(r, ops[0], owner);
      assert forall i :: 0 <= i < |ops[1..]| ==> ops[1..][i] == ops[i + 1];
      RunKeepsIsolated(Step(r, ops[0]), ops[1..], owner);
    }
  }

  /** The registered members of an entity's bucket, whom an update of the entity is sent to. */
  function Subscribers(r: Registry, e: EntityKey): set<ClientId> {
    set c | c in r.active && InBucket(r.entitySubs, e, c)
  }

  /**
   From boot, over runs that hand no subscribed id over, everyone an entity update is sent to is of the
   entity's tenant.
   */
  lemma UpdatesStayInTenant(ops: seq<Op>, owner: EntityKey -> TenantKey, e: EntityKey, c: ClientId)
    requires NeverHandsOver(EMPTY, ops, owner) && forall i :: 0 <= i < |ops| ==> NamesOwner(ops[i], owner)
    requires c in Subscribers(Run(EMPTY, ops), e)
    ensures MayHear(AuthOf(Run(EMPTY, ops), c), e, owner)
  {
    RunKeepsIsolated(EMPTY, ops, owner);
  }

  /**
   An entity update in progress: whoever of its snapshot is still to be told may, if registered, hear of the
   entity.
   */
  ghost predicate WaitingMayHear(r: Registry, waiting: set<ClientId>, e: EntityKey, owner: EntityKey -> TenantKey) {
    forall c :: c in waiting && c in r.auth ==> MayHear(r.auth[c], e, owner)
  }

  /**
   What happens during the awaits of an entity update keeps it to its tenant if and only if it hands no
   waiting id over.
   */
  lemma AwaitKeepsWaitingIff(r: Registry, op: Op, waiting: set<ClientId>, e: EntityKey, owner: EntityKey -> TenantKey)
    requires Inv(r) && WaitingMayHear(r, waiting, e, owner)
    ensures WaitingMayHear(Step(r, op), waiting, e, owner)
            <==> !(op.OpConnect? && op.client in waiting && !MayHear(op.auth, e, owner))
  {
    if op.OpConnect? {
      assert Step(r, op).auth == r.auth[op.client := op.auth];
    } else {
      assert forall c :: c in Step(r, op).auth ==> c in r.auth && Step(r, op).auth[c] == r.auth[c];
    }
  }

  /** Over any ops between the snapshot of an entity update and one of its sends, none of which hands a waiting
      id over, the send reaches a registration of the entity's tenant. */
  lemma {:induction false} UpdateInProgressStaysInTenant(r: Registry, ops: seq<Op>, waiting: set<ClientId>,
                                                         e: EntityKey, owner: EntityKey -> TenantKey, c: ClientId)
    requires Inv(r) && WaitingMayHear(r, waiting, e, owner)
    requires forall i :: 0 <= i < |ops| && ops[i].OpConnect? && ops[i].client in waiting ==>
      MayHear(ops[i].auth, e, owner)
    requires c in waiting && c in Run(r, ops).active
    ensures MayHear(AuthOf(Run(r, ops), c), e, owner)
    decreases |ops|
  {
    if ops != [] {
      AwaitKeepsWaitingIff(r, ops[0], waiting, e, owner);
      StepKeepsInv(r, ops[0]);
      assert forall i :: 0 <= i < |ops[1..]| ==> ops[1..][i] == ops[i + 1];
      UpdateInProgressStaysInTenant(Step(r, ops[0]), ops[1..], waiting, e, owner, c);
    }
  }

  /** The snapshot of an entity update starts out that way while the buckets are isolated. */
  lemma SnapshotMayHear(r: Registry, e: EntityKey, owner: EntityKey -> TenantKey)
    requires BucketsIsolated(r, owner)
    ensures WaitingMayHear(r, if e in r.entitySubs then r.entitySubs[e] else {}, e, owner)
  {
    assert e in r.entitySubs ==> forall c :: c in r.entitySubs[e] ==> InBucket(r.entitySubs, e, c);
  }

  function UserOf(t: TenantKey): AuthContext {
    Context(Some(t), false, Some(UserInfo(Some(t))))
  }

  /** The condition is needed: a subscribed id that reconnects under another tenant is sent the old tenant's updates. */
  lemma ReconnectHearsOldTenant(c: ClientId, w1: Socket, w2: Socket, e: EntityKey)
    ensures var ops := [OpConnect(c, w1, UserOf("a")), OpSubscribe(c, e, Some("a")), OpConnect(c, w2, UserOf("b"))];
            var r := Run(EMPTY, ops);
            && (forall i :: 0 <= i < |ops| ==> NamesOwner(ops[i], (k: EntityKey) => "a"))
            && c in Subscribers(r, e) && r.active[c] == w2 && UserTenant(AuthOf(r, c)) == "b"
            && !MayHear(AuthOf(r, c), e, (k: EntityKey) => "a")
  {
    var ops := [OpConnect(c, w1, UserOf("a")), OpSubscribe(c, e, Some("a")), OpConnect(c, w2, UserOf("b"))];
    var r1 := Connect(EMPTY, c, w1, UserOf("a"));
    var r2 := Subscribe(r1, c, e, Some("a")).value;
    var r3 := Connect(r2, c, w2, UserOf("b"));
    assert InBucket(r2.entitySubs, e, c);
    assert Step(EMPTY, ops[0]) == r1 && Step(r1, ops[1]) == r2 && Step(r2, ops[2]) == r3;
    assert ops[1..][0] == ops[1] && ops[1..][1..][0] == ops[2];
    assert Run(EMPTY, ops) == Run(r1, ops[1..]) == Run(r2, ops[1..][1..]) == r3;
  }

  // ------------------------------------------------- subscription maps

  /** The two subscription maps are exact inverses. */
  ghost predicate ExactInverse(r: Registry) {
    forall c, e :: InBucket(r.entitySubs, e, c) <==> c in r.subs && e in r.subs[c]
  }

  /** A connect that discards live subscriptions: the id is still registered and holds some. */
  predicate Discards(r: Registry, op: Op) {
    op.OpConnect? && op.client in r.subs && r.subs[op.client] != {}
  }

  /** The maps stay exact inverses in a step exactly when it is not a reconnect over live subscriptions. */
  lemma StepKeepsInverseIff(r: Registry, op: Op)
    requires Inv(r) && ExactInverse(r)
    ensures ExactInverse(Step(r, op)) <==> !Discards(r, op)
  {
  }

  ghost predicate NeverDiscards(r: Registry, ops: seq<Op>)
    decreases |ops|
  {
    ops == [] || (!Discards(r, ops[0]) && NeverDiscards(Step(r, ops[0]), ops[1..]))
  }

  lemma {:induction false} RunKeepsInverse(r: Registry, ops: seq<Op>)
    requires Inv(r) && ExactInverse(r) && NeverDiscards(r, ops)
    ensures Inv(Run(r, ops)) && ExactInverse(Run(r, ops))
    decreases |ops|
  {
    if ops != [] {
      StepKeepsInv(r, ops[0]);
      StepKeepsInverseIff(r, ops[0]);
      RunKeepsInverse(Step(r, ops[0]), ops[1..]);
    }
  }

  ghost predicate Traceless(r: Registry, c: ClientId) {
    && c !in r.active && c !in r.auth && c !in r.subs
    && (forall t :: !InBucket(r.tenants, t, c))
    && (forall e :: !InBucket(r.entitySubs, e, c))
  }

  /** In any reachable state a disconnect that is not stale clears every trace of the client,
      save entity buckets it was left in by a reconnect. */
  lemma DisconnectClearsIff(r: Registry, c: ClientId, w: Option<Socket>)
    requires Inv(r) && !Superseded(r, c, w)
    ensures Traceless(Disconnect(r, c, w), c)
            <==> forall e :: InBucket(r.entitySubs, e, c) ==> c in r.subs && e in r.subs[c]
  {
  }

  /** On runs that never reconnect over live subscriptions, disconnect removes every trace. */
  lemma DisconnectLeavesNoTrace(ops: seq<Op>, c: ClientId)
    requires NeverDiscards(EMPTY, ops)
    ensures Traceless(Disconnect(Run(EMPTY, ops), c, None), c)
  {
    RunKeepsInverse(EMPTY, ops);
    var r := Run(EMPTY, ops);
    forall e | InBucket(r.entitySubs, e, c) ensures c in r.subs && e in r.subs[c] {
    }
    DisconnectClearsIff(r, c, None);
  }

  /** The reconnect caveat is real: subscribe, reconnect under the same id, disconnect, and a trace stays. */
  lemma ReconnectLeavesATrace(c: ClientId, w1: Socket, w2: Socket, e: EntityKey)
    ensures var auth := Context(Some("t"), false, Some(UserInfo(Some("t"))));
            var r := Run(EMPTY,
              [OpConnect(c, w1, auth), OpSubscribe(c, e, None), OpConnect(c, w2, auth), OpDisconnect(c, Some(w2))]);
            View(r, c) == Absent && InBucket(r.entitySubs, e, c)
  {
    var auth := Context(Some("t"), false, Some(UserInfo(Some("t"))));
    var r1 := Connect(EMPTY, c, w1, auth);
    var r2 := Subscribe(r1, c, e, None).value;
    var r3 := Connect(r2, c, w2, auth);
    var r4 := Disconnect(r3, c, Some(w2));
    var ops := [OpConnect(c, w1, auth), OpSubscribe(c, e, None), OpConnect(c, w2, auth), OpDisconnect(c, Some(w2))];
    assert Step(EMPTY, ops[0]) == r1;
    assert Step(r1, ops[1]) == r2;
    assert Step(r2, ops[2]) == r3;
    assert Step(r3, ops[3]) == r4;
    assert ops[1..][0] == ops[1] && ops[1..][1..][0] == ops[2] && ops[1..][1..][1..][0] == ops[3];
    assert Run(EMPTY, ops) == Run(r1, ops[1..]) == Run(r2, ops[1..][1..]) == Run(r3, ops[1..][1..][1..]) == r4;
    assert InBucket(r2.entitySubs, e, c);
    assert InBucket(r4.entitySubs, e, c);
  }

  // ------------------------------------------------- evicting many clients

  /** The members of `cs` whose own subscription set names `e`. */
  function Leaving(r: Registry, cs: set<ClientId>, e: EntityKey): set<ClientId> {
    set c | c in cs && c in r.subs && e in r.subs[c]
  }

  /** The registry without the clients `cs`, in one go. */
  function Evict(r: Registry, cs: set<ClientId>): Registry {
    Registry(
      r.active - cs, r.auth - cs, r.subs - cs,
      map e | e in r.entitySubs && r.entitySubs[e] - Leaving(r, cs, e) != {} :: r.entitySubs[e] - Leaving(r, cs, e),
      map t | t in r.tenants && r.tenants[t] - cs != {} :: r.tenants[t] - cs)
  }

  lemma SameBuckets(m: map<string, set<ClientId>>, n: map<string, set<ClientId>>)
    requires NoEmptyBucket(m) && NoEmptyBucket(n)
    requires forall k, c :: InBucket(m, k, c) <==> InBucket(n, k, c)
    ensures m == n
  {
    forall k ensures k in m <==> k in n {
      if k in m {
        var c :| c in m[k];
        assert InBucket(m, k, c);
      }
      if k in n {
        var c :| c in n[k];
        assert InBucket(n, k, c);
      }
    }
    forall k | k in m ensures m[k] == n[k] {
      forall c ensures c in m[k] <==> c in n[k] {
        assert InBucket(m, k, c) <==> InBucket(n, k, c);
      }
    }
  }

  lemma EvictBuckets(r: Registry, cs: set<ClientId>)
    ensures var s := Evict(r, cs);
      && NoEmptyBucket(s.entitySubs) && NoEmptyBucket(s.tenants)
      && (forall e, c :: InBucket(s.entitySubs, e, c) <==> InBucket(r.entitySubs, e, c) && c !in Leaving(r, cs, e))
      && (forall t, c :: InBucket(s.tenants, t, c) <==> InBucket(r.tenants, t, c) && c !in cs)
  {
    var s := Evict(r, cs);
    forall e, c ensures InBucket(s.entitySubs, e, c) <==> InBucket(r.entitySubs, e, c) && c !in Leaving(r, cs, e) {
      if InBucket(r.entitySubs, e, c) && c !in Leaving(r, cs, e) {
        assert c in r.entitySubs[e] - Leaving(r, cs, e);
      }
    }
    forall t, c ensures InBucket(s.tenants, t, c) <==> InBucket(r.tenants, t, c) && c !in cs {
      if InBucket(r.tenants, t, c) && c !in cs {
        assert c in r.tenants[t] - cs;
      }
    }
  }

  /** Evicting a set is the invariant-keeping removal of exactly those clients; no other client's entry moves. */
  lemma EvictKeepsInv(r: Registry, cs: set<ClientId>)
    requires Inv(r)
    ensures Inv(Evict(r, cs))
    ensures forall c :: View(Evict(r, cs), c) == if c in cs then Absent else View(r, c)
    ensures ExactInverse(r) ==> ExactInverse(Evict(r, cs))
  {
    EvictBuckets(r, cs);
    var s := Evict(r, cs);
    forall t, c ensures InBucket(s.tenants, t, c) <==> Carries(s, t, c) {
      assert InBucket(r.tenants, t, c) <==> Carries(r, t, c);
    }
  }

  lemma EvictNone(r: Registry)
    requires Inv(r)
    ensures Evict(r, {}) == r
  {
    var s := Evict(r, {});
    EvictBuckets(r, {});
    SameBuckets(s.entitySubs, r.entitySubs);
    SameBuckets(s.tenants, r.tenants);
  }

  lemma EvictOneMoreEntities(r: Registry, cs: set<ClientId>, c: ClientId)
    requires Inv(r)
    ensures Disconnect(Evict(r, cs), c, None).entitySubs == Evict(r, cs + {c}).entitySubs
  {
    var s, all := Evict(r, cs), Evict(r, cs + {c});
    var one := Disconnect(s, c, None).entitySubs;
    EvictBuckets(r, cs);
    EvictBuckets(r, cs + {c});
    forall e, d ensures InBucket(one, e, d) <==> InBucket(all.entitySubs, e, d) {
      assert InBucket(one, e, d) <==> InBucket(s.entitySubs, e, d) && !(d == c && c in s.subs && e in s.subs[c]);
    }
    SameBuckets(one, all.entitySubs);
  }

  lemma EvictOneMoreTenants(r: Registry, cs: set<ClientId>, c: ClientId)
    requires Inv(r)
    ensures Disconnect(Evict(r, cs), c, None).tenants == Evict(r, cs + {c}).tenants
  {
    var s, all := Evict(r, cs), Evict(r, cs + {c});
    var one := Disconnect(s, c, None).tenants;
    EvictBuckets(r, cs);
    EvictBuckets(r, cs + {c});
    forall t, d ensures InBucket(one, t, d) <==> InBucket(all.tenants, t, d) {
      assert InBucket(r.tenants, t, d) <==> Carries(r, t, d);
    }
    SameBuckets(one, all.tenants);
  }

  /** The removal loops: disconnecting one more client evicts one more. */
  lemma EvictOneMore(r: Registry, cs: set<ClientId>, c: ClientId)
    requires Inv(r)
    ensures Disconnect(Evict(r, cs), c, None) == Evict(r, cs + {c})
  {
    EvictOneMoreEntities(r, cs, c);
    EvictOneMoreTenants(r, cs, c);
    var one, all := Disconnect(Evict(r, cs), c, None), Evict(r, cs + {c});
    assert one.active == all.active && one.auth == all.auth && one.subs == all.subs;
  }

  lemma BucketHasMember(m: map<string, set<ClientId>>, key: string)
    requires NoEmptyBucket(m)
    ensures key in m ==> exists c :: InBucket(m, key, c)
  {
    if key in m {
      var c :| c in m[key];
      assert InBucket(m, key, c);
    }
  }

  /** Closing a tenant's sockets: nobody of the tenant is left and every other client's entry is as it was. */
  lemma RevocationEmptiesTenant(r: Registry, t: TenantKey)
    requires Inv(r) && t != ""
    ensures var s := Evict(r, Targets(r, t, None));
            && t !in s.tenants
            && (forall c :: !Carries(s, t, c))
            && (forall c :: !Carries(r, t, c) ==> View(s, c) == View(r, c))
  {
    var cs := Targets(r, t, None);
    var s := Evict(r, cs);
    EvictKeepsInv(r, cs);
    forall c ensures !Carries(s, t, c) && (!Carries(r, t, c) ==> View(s, c) == View(r, c)) {
      assert InBucket(r.tenants, t, c) <==> Carries(r, t, c);
      assert InBucket(s.tenants, t, c) <==> Carries(s, t, c);
    }
    BucketHasMember(s.tenants, t);
  }
}
