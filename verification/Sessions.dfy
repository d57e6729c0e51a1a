/**
 The MCP session table: rows are minted at `initialize`, bound to a principal,
 extended under a per-worker debounce, resurrected through the unique
 constraint, and reaped. One step is one database statement or one await-free
 stretch of a request, so requests of any number of callers and workers interleave.
 */
module Sessions {
  import opened Options
  import opened MintedIds

  /** Seconds. */
  type Time = real

  const LIFETIME: Time := 24.0 * 3600.0
  const REAP_AFTER: Time := 48.0 * 3600.0
  const EXTEND_DEBOUNCE: Time := 30.0

  /** The authenticated caller of a request. */
  datatype Caller = Caller(tenant: string, apiKey: Option<string>, user: Option<string>)

  datatype Row = Row(pk: nat, tenant: string, apiKey: Option<string>, user: Option<string>, lastAccessed: Time,
                     expires: Option<Time>)

  predicate HasPrincipal(p: Caller) {
    p.apiKey.Some? || p.user.Some?
  }

  /** Whom a row is bound to. */
  predicate SameBinding(r: Row, q: Row) {
    r.pk == q.pk && r.tenant == q.tenant && r.apiKey == q.apiKey && r.user == q.user
  }

  /** The principal-scoped SELECT of a resurrection. */
  predicate OwnedSql(r: Row, p: Caller) {
    && r.tenant == p.tenant
    && if p.apiKey.Some? then r.apiKey == p.apiKey else r.apiKey.None? && r.user == p.user
  }

  /** The in-memory ownership test of a read; no principal means no binding. */
  predicate BelongsToCaller(r: Row, apiKey: Option<string>, user: Option<string>) {
    if apiKey.Some? then r.apiKey == apiKey
    else if user.Some? then r.apiKey.None? && r.user == user
    else true
  }

  /** The two ownership tests agree exactly for the callers that have a principal. */
  lemma OwnershipTestsAgreeIff(p: Caller)
    ensures (forall r: Row :: OwnedSql(r, p) <==> r.tenant == p.tenant && BelongsToCaller(r, p.apiKey, p.user)) <==>
      HasPrincipal(p)
  {
    if !HasPrincipal(p) {
      var foreign := Row(0, p.tenant, Some("key"), None, 0.0, None);
      assert BelongsToCaller(foreign, p.apiKey, p.user) && !OwnedSql(foreign, p);
    }
  }

  lemma OwnedIsBelongs(rows: map<SessionId, Row>, id: SessionId, p: Caller)
    requires HasPrincipal(p)
    ensures id in rows ==>
      (OwnedSql(rows[id], p) <==> rows[id].tenant == p.tenant && BelongsToCaller(rows[id], p.apiKey, p.user))
  {
    OwnershipTestsAgreeIff(p);
  }

  predicate Expired(r: Row, now: Time) {
    r.expires.Some? && now > r.expires.value
  }

  /** `extend_expiration`: the clock is read twice. */
  function Extended(r: Row, first: Time, second: Time): Row {
    r.(expires := Some(first + LIFETIME), lastAccessed := second)
  }

  function Fresh(pk: nat, p: Caller, first: Time, second: Time): Row {
    Extended(Row(pk, p.tenant, p.apiKey, p.user, first, None), first, second)
  }

  function Read(rows: map<SessionId, Row>, id: SessionId, tenant: Option<string>, apiKey: Option<string>,
                user: Option<string>, now: Time): Option<Row> {
    if id in rows && (tenant.Some? ==> rows[id].tenant == tenant.value) && BelongsToCaller(rows[id], apiKey, user)
       && !Expired(rows[id], now)
    then Some(rows[id]) else None
  }

  function OwnedRow(rows: map<SessionId, Row>, id: SessionId, p: Caller): Option<Row> {
    if id in rows && OwnedSql(rows[id], p) then Some(rows[id]) else None
  }

  predicate Reapable(r: Row, now: Time) {
    r.lastAccessed < now - REAP_AFTER
  }

  function Reap(rows: map<SessionId, Row>, now: Time): map<SessionId, Row> {
    map id | id in rows && !Reapable(rows[id], now) :: rows[id]
  }

  /** The update by primary key that a commit emits: the times the request computed, on whatever the row is by now. */
  function Write(rows: map<SessionId, Row>, id: SessionId, row: Row): map<SessionId, Row> {
    if id in rows && rows[id].pk == row.pk
      then rows[id := rows[id].(expires := row.expires, lastAccessed := row.lastAccessed)] else rows
  }

  predicate StillThere(rows: map<SessionId, Row>, id: SessionId, pk: nat) {
    id in rows && rows[id].pk == pk
  }

  // ------------------------------------------------------ reading the definitions

  /** A freshly bound row: whose it is, on the callers' own fields, and how long it lasts. */
  lemma FreshIsOwnedIff(pk: nat, p: Caller, q: Caller, first: Time, second: Time)
    ensures var r := Fresh(pk, p, first, second);
            && r.pk == pk && r.tenant == p.tenant && r.apiKey == p.apiKey && r.user == p.user
            && r.expires == Some(first + 24.0 * 3600.0) && r.lastAccessed == second
            && (OwnedSql(r, q) <==>
                  q.tenant == p.tenant
                  && if q.apiKey.Some? then p.apiKey == q.apiKey else p.apiKey == None && p.user == q.user)
  {
  }

  /** What a read hands out, on the row's fields: in a given tenant, the principal's, and not past its expiry. */
  lemma ReadIff(rows: map<SessionId, Row>, id: SessionId, tenant: Option<string>, apiKey: Option<string>,
                user: Option<string>, now: Time)
    ensures var found := Read(rows, id, tenant, apiKey, user, now);
            && (found.Some? <==>
                  && id in rows
                  && (tenant == None || tenant == Some(rows[id].tenant))
                  && (apiKey.Some? ==> rows[id].apiKey == apiKey)
                  && (apiKey.None? && user.Some? ==> rows[id].apiKey == None && rows[id].user == user)
                  && (rows[id].expires.Some? ==> now <= rows[id].expires.value))
            && (found.Some? ==> found.value == rows[id])
  {
  }

  /** The reaper takes exactly the rows that nobody has accessed for 48 hours, and changes none of the others. */
  lemma ReapIff(rows: map<SessionId, Row>, now: Time, id: SessionId)
    ensures var left := Reap(rows, now);
            && (id in left <==> id in rows && rows[id].lastAccessed >= now - 48.0 * 3600.0)
            && (id in left ==> left[id] == rows[id])
  {
  }

  /** The debounce lets a key through the first time, and then once 30 seconds have passed. */
  lemma DueIff<K>(fired: map<K, Time>, key: K, now: Time)
    ensures Due(fired, key, now) <==> (key in fired ==> now - fired[key] >= 30.0)
  {
  }

  // ---------------------------------------------------------- the system

  /**
   Where a non-initialize request carrying a session id is. `Extending` and `Saving` hold the row with
   its new times, computed at `mark` but not yet committed; a `Saving` one is when the debounce let it through.
   */
  datatype Pc =
    | Getting
    | Selecting
    | Inserting
    | Reselecting
    | Extending(row: Row, mark: Time)
    | Using(row: Row)
    | Saving(row: Row, mark: Time)
    | Served(row: Row)
    | NotFound
    | Vanished        // the row was gone when the commit came
    | CommitFailed

  datatype Call = Call(caller: Caller, id: SessionId, worker: nat, pc: Pc)

  datatype Slot = Slot(worker: nat, id: SessionId)

  datatype System = System(
    rows: map<SessionId, Row>,
    nextPk: nat,
    clock: Time,
    fired: map<Slot, Time>,     // the debounce memo of each worker
    unsaved: set<Slot>,         // history: marks whose extension is not committed, or overwritten by an older one
    calls: map<nat, Call>)

  datatype Step =
    | Tick(later: Time)
    | Initialize(caller: Caller, id: SessionId, later: Time)
    | Arrive(call: nat, caller: Caller, id: SessionId, worker: nat)
    | Get(call: nat)
    | Select(call: nat, later: Time)
    | Insert(call: nat, later: Time)
    | Reselect(call: nat, later: Time)
    | Extend(call: nat, ok: bool)
    | Use(call: nat, later: Time)
    | Commit(call: nat, ok: bool)
    | Touch(id: SessionId)
    | ReapAll

  predicate Enabled(s: System, step: Step) {
    match step
    case Tick(later) => s.clock <= later
    case Initialize(p, id, later) => Minted(id) && id !in s.rows && HasPrincipal(p) && s.clock <= later
    case Arrive(i, p, _, _) => i !in s.calls && HasPrincipal(p)
    case Get(i) => i in s.calls && s.calls[i].pc.Getting?
    case Select(i, later) => i in s.calls && s.calls[i].pc.Selecting? && s.clock <= later
    case Insert(i, later) => i in s.calls && s.calls[i].pc.Inserting? && s.clock <= later
    case Reselect(i, later) => i in s.calls && s.calls[i].pc.Reselecting? && s.clock <= later
    case Extend(i, _) => i in s.calls && s.calls[i].pc.Extending?
    case Use(i, later) => i in s.calls && s.calls[i].pc.Using? && s.clock <= later
    case Commit(i, _) => i in s.calls && s.calls[i].pc.Saving?
    case Touch(id) => id in s.rows && !Expired(s.rows[id], s.clock)
    case ReapAll => true
  }

  function At(s: System, i: nat, pc: Pc): System
    requires i in s.calls
  {
    s.(calls := s.calls[i := s.calls[i].(pc := pc)])
  }

  /** `should_run`: at least the window since the memo last let this key through. */
  predicate Due<K(==)>(fired: map<K, Time>, key: K, now: Time) {
    key !in fired || now - fired[key] >= EXTEND_DEBOUNCE
  }

  /** The marks of an id that are newer than an extension written with this expiry. */
  function Newer(fired: map<Slot, Time>, id: SessionId, expires: Option<Time>): set<Slot> {
    set slot | slot in fired && slot.id == id && (expires.Some? ==> fired[slot] + LIFETIME > expires.value)
  }

  function SlotOf(c: Call): Slot {
    Slot(c.worker, c.id)
  }

  function Next(s: System, step: Step): System
    requires Enabled(s, step)
  {
    match step
    case Tick(later) => s.(clock := later)
    case Initialize(p, id, later) =>
      s.(rows := s.rows[id := Fresh(s.nextPk, p, s.clock, later)], nextPk := s.nextPk + 1, clock := later)
    case Arrive(i, p, id, w) => s.(calls := s.calls[i := Call(p, id, w, Getting)])
    case Get(i) =>
      var c := s.calls[i];
      var found := Read(s.rows, c.id, Some(c.caller.tenant), c.caller.apiKey, c.caller.user, s.clock);
      if found.Some? then At(s, i, Using(found.value))
      else if !Minted(c.id) || !HasPrincipal(c.caller) then At(s, i, NotFound)
      else At(s, i, Selecting)
    case Select(i, later) =>
      var found := OwnedRow(s.rows, s.calls[i].id, s.calls[i].caller);
      At(s, i, if found.Some? then Extending(Extended(found.value, s.clock, later), s.clock)
               else Inserting).(clock := later)
    case Insert(i, later) =>
      var c := s.calls[i];
      if c.id in s.rows then At(s, i, Reselecting)
      else
        var row := Fresh(s.nextPk, c.caller, s.clock, later);
        At(s, i, Using(row)).(rows := s.rows[c.id := row], nextPk := s.nextPk + 1, clock := later)
    case Reselect(i, later) =>
      var found := OwnedRow(s.rows, s.calls[i].id, s.calls[i].caller);
      At(s, i, if found.Some? then Extending(Extended(found.value, s.clock, later), s.clock)
               else NotFound).(clock := later)
    case Extend(i, ok) =>
      var c := s.calls[i];
      if !ok then At(s, i, CommitFailed)
      else if !StillThere(s.rows, c.id, c.pc.row.pk) then At(s, i, Vanished)
      else At(s, i, Using(c.pc.row))
           .(rows := Write(s.rows, c.id, c.pc.row), unsaved := s.unsaved + Newer(s.fired, c.id, c.pc.row.expires))
    case Use(i, later) =>
      var c := s.calls[i];
      if !Due(s.fired, SlotOf(c), s.clock) then At(s, i, Served(c.pc.row)).(clock := later)
      else At(s, i, Saving(Extended(c.pc.row, s.clock, later), s.clock))
           .(fired := s.fired[SlotOf(c) := s.clock], unsaved := s.unsaved + {SlotOf(c)}, clock := later)
    case Commit(i, ok) =>
      var c := s.calls[i];
      if !ok then At(s, i, CommitFailed)
      else if !StillThere(s.rows, c.id, c.pc.row.pk) then At(s, i, Vanished)
      else At(s, i, Served(c.pc.row))
           .(rows := Write(s.rows, c.id, c.pc.row),
             unsaved := (s.unsaved - {SlotOf(c)}) + Newer(s.fired, c.id, c.pc.row.expires))
    case Touch(id) => s.(rows := s.rows[id := s.rows[id].(lastAccessed := s.clock)])
    case ReapAll => s.(rows := Reap(s.rows, s.clock))
  }

  ghost predicate Legal(s: System, steps: seq<Step>)
    decreases |steps|
  {
    steps == [] || (Enabled(s, steps[0]) && Legal(Next(s, steps[0]), steps[1..]))
  }

  ghost function Run(s: System, steps: seq<Step>): System
    requires Legal(s, steps)
    decreases |steps|
  {
    if steps == [] then s else Run(Next(s, steps[0]), steps[1..])
  }

  // ------------------------------------------------------------ ownership

  /** What a request holds: the row in its hands, if any. */
  predicate Holds(pc: Pc) {
    pc.Extending? || pc.Using? || pc.Saving? || pc.Served?
  }

  ghost predicate RowsWell(rows: map<SessionId, Row>, nextPk: nat, clock: Time) {
    && (forall id :: id in rows ==> Minted(id) && rows[id].pk < nextPk)
    && (forall id, other :: id in rows && other in rows && rows[id].pk == rows[other].pk ==> id == other)
    && (forall id :: id in rows ==> TimesWell(rows[id], clock))
  }

  predicate TimesWell(row: Row, clock: Time) {
    row.lastAccessed <= clock && row.expires.Some? && row.expires.value <= row.lastAccessed + LIFETIME
  }

  predicate CallWell(rows: map<SessionId, Row>, nextPk: nat, clock: Time, c: Call) {
    && HasPrincipal(c.caller)
    && (c.pc.Selecting? || c.pc.Inserting? || c.pc.Reselecting? ==> Minted(c.id))
    && (Holds(c.pc) ==>
          && OwnedSql(c.pc.row, c.caller) && c.pc.row.pk < nextPk
          && (StillThere(rows, c.id, c.pc.row.pk) ==> SameBinding(rows[c.id], c.pc.row)))
    && (c.pc.Extending? || c.pc.Saving? ==> TimesWell(c.pc.row, clock))
    && (c.pc.Extending? || c.pc.Saving? ==> c.pc.row.expires == Some(c.pc.mark + LIFETIME))
  }

  ghost predicate Inv(s: System) {
    && RowsWell(s.rows, s.nextPk, s.clock)
    && (forall i :: i in s.calls ==> CallWell(s.rows, s.nextPk, s.clock, s.calls[i]))
  }

  /** How the table moves in any step: a row stays bound as it was, or it is a new row. */
  ghost predicate Advances(rows: map<SessionId, Row>, next: map<SessionId, Row>, nextPk: nat) {
    forall id :: id in next ==>
      || (id in rows && SameBinding(next[id], rows[id]))
      || (id !in rows && next[id].pk >= nextPk)
  }

  lemma NextAdvances(s: System, step: Step)
    requires Enabled(s, step)
    ensures Advances(s.rows, Next(s, step).rows, s.nextPk)
  {
  }

  lemma NextGoesOn(s: System, step: Step)
    requires Enabled(s, step)
    ensures var n := Next(s, step); n.clock >= s.clock && n.nextPk >= s.nextPk
  {
  }

  lemma FreshKeepsRows(rows: map<SessionId, Row>, nextPk: nat, id: SessionId, p: Caller, clock: Time, later: Time)
    requires RowsWell(rows, nextPk, clock) && Minted(id) && id !in rows && clock <= later
    ensures RowsWell(rows[id := Fresh(nextPk, p, clock, later)], nextPk + 1, later)
  {
  }

  lemma WriteKeepsRows(rows: map<SessionId, Row>, nextPk: nat, id: SessionId, row: Row, clock: Time)
    requires RowsWell(rows, nextPk, clock) && TimesWell(row, clock)
    ensures RowsWell(Write(rows, id, row), nextPk, clock)
  {
  }

  lemma InsertKeepsRows(s: System, i: nat, later: Time)
    requires Inv(s) && Enabled(s, Insert(i, later))
    ensures var n := Next(s, Insert(i, later)); RowsWell(n.rows, n.nextPk, n.clock)
  {
    assert CallWell(s.rows, s.nextPk, s.clock, s.calls[i]);
    if s.calls[i].id !in s.rows {
      FreshKeepsRows(s.rows, s.nextPk, s.calls[i].id, s.calls[i].caller, s.clock, later);
    }
  }

  lemma CommitKeepsRows(s: System, i: nat, ok: bool, resurrects: bool)
    requires Inv(s) && Enabled(s, if resurrects then Extend(i, ok) else Commit(i, ok))
    ensures var n := Next(s, if resurrects then Extend(i, ok) else Commit(i, ok)); RowsWell(n.rows, n.nextPk, n.clock)
  {
    assert CallWell(s.rows, s.nextPk, s.clock, s.calls[i]);
    WriteKeepsRows(s.rows, s.nextPk, s.calls[i].id, s.calls[i].pc.row, s.clock);
  }

  lemma TouchKeepsRows(s: System, id: SessionId)
    requires RowsWell(s.rows, s.nextPk, s.clock) && Enabled(s, Touch(id))
    ensures RowsWell(Next(s, Touch(id)).rows, s.nextPk, s.clock)
  {
  }

  lemma ReapKeepsRows(rows: map<SessionId, Row>, nextPk: nat, clock: Time)
    requires RowsWell(rows, nextPk, clock)
    ensures RowsWell(Reap(rows, clock), nextPk, clock)
  {
  }

  lemma RowsStayWell(rows: map<SessionId, Row>, nextPk: nat, clock: Time, later: Time)
    requires RowsWell(rows, nextPk, clock) && clock <= later
    ensures RowsWell(rows, nextPk, later)
  {
  }

  lemma NextKeepsRows(s: System, step: Step)
    requires Inv(s) && Enabled(s, step)
    ensures RowsWell(Next(s, step).rows, Next(s, step).nextPk, Next(s, step).clock)
  {
    match step
    case Initialize(p, id, later) => FreshKeepsRows(s.rows, s.nextPk, id, p, s.clock, later);
    case Insert(i, later) => InsertKeepsRows(s, i, later);
    case Extend(i, ok) => CommitKeepsRows(s, i, ok, true);
    case Commit(i, ok) => CommitKeepsRows(s, i, ok, false);
    case Touch(id) => TouchKeepsRows(s, id);
    case ReapAll => ReapKeepsRows(s.rows, s.nextPk, s.clock);
    case _ => RowsStayWell(s.rows, s.nextPk, s.clock, Next(s, step).clock);
  }

  lemma CallStaysWell(s: System, n: System, c: Call)
    requires CallWell(s.rows, s.nextPk, s.clock, c)
    requires Advances(s.rows, n.rows, s.nextPk) && n.clock >= s.clock && n.nextPk >= s.nextPk
    ensures CallWell(n.rows, n.nextPk, n.clock, c)
  {
  }

  /** The row a request is handed was read from the table in this very step, its new times apart. */
  lemma HandedStaysWell(rows: map<SessionId, Row>, nextPk: nat, clock: Time, c: Call)
    requires RowsWell(rows, nextPk, clock) && HasPrincipal(c.caller)
    requires c.pc.Extending? || c.pc.Using?
    requires c.id in rows && SameBinding(rows[c.id], c.pc.row) && OwnedSql(c.pc.row, c.caller)
    requires c.pc.Extending? ==> TimesWell(c.pc.row, clock) && c.pc.row.expires == Some(c.pc.mark + LIFETIME)
    ensures CallWell(rows, nextPk, clock, c)
  {
  }

  lemma ReadStaysWell(s: System, i: nat)
    requires Inv(s) && Enabled(s, Get(i))
    ensures var n := Next(s, Get(i)); CallWell(n.rows, n.nextPk, n.clock, n.calls[i])
  {
    var c := s.calls[i];
    var found := Read(s.rows, c.id, Some(c.caller.tenant), c.caller.apiKey, c.caller.user, s.clock);
    assert CallWell(s.rows, s.nextPk, s.clock, c);
    if found.Some? {
      OwnershipTestsAgreeIff(c.caller);
      HandedStaysWell(s.rows, s.nextPk, s.clock, c.(pc := Using(found.value)));
    }
  }

  lemma SelectStaysWell(s: System, i: nat, later: Time, again: bool)
    requires Inv(s) && Enabled(s, if again then Reselect(i, later) else Select(i, later))
    ensures var n := Next(s, if again then Reselect(i, later) else Select(i, later));
            CallWell(n.rows, n.nextPk, n.clock, n.calls[i])
  {
    assert CallWell(s.rows, s.nextPk, s.clock, s.calls[i]);
  }

  lemma InsertStaysWell(s: System, i: nat, later: Time)
    requires Inv(s) && Enabled(s, Insert(i, later))
    ensures var n := Next(s, Insert(i, later)); CallWell(n.rows, n.nextPk, n.clock, n.calls[i])
  {
  }

  lemma ExtendStaysWell(s: System, i: nat, ok: bool)
    requires Inv(s) && Enabled(s, Extend(i, ok))
    ensures var n := Next(s, Extend(i, ok)); CallWell(n.rows, n.nextPk, n.clock, n.calls[i])
  {
    assert CallWell(s.rows, s.nextPk, s.clock, s.calls[i]);
  }

  lemma UseStaysWell(s: System, i: nat, later: Time)
    requires Inv(s) && Enabled(s, Use(i, later))
    ensures var n := Next(s, Use(i, later)); CallWell(n.rows, n.nextPk, n.clock, n.calls[i])
  {
    assert CallWell(s.rows, s.nextPk, s.clock, s.calls[i]);
  }

  lemma CommitStaysWell(s: System, i: nat, ok: bool)
    requires Inv(s) && Enabled(s, Commit(i, ok))
    ensures var n := Next(s, Commit(i, ok)); CallWell(n.rows, n.nextPk, n.clock, n.calls[i])
  {
    assert CallWell(s.rows, s.nextPk, s.clock, s.calls[i]);
  }

  /** The call a step is of. */
  function CallOf(step: Step): Option<nat> {
    match step
    case Arrive(i, _, _, _) => Some(i)
    case Get(i) => Some(i)
    case Select(i, _) => Some(i)
    case Insert(i, _) => Some(i)
    case Reselect(i, _) => Some(i)
    case Extend(i, _) => Some(i)
    case Use(i, _) => Some(i)
    case Commit(i, _) => Some(i)
    case _ => None
  }

  lemma OthersStay(s: System, step: Step, i: nat)
    requires Enabled(s, step) && CallOf(step) != Some(i) && i in Next(s, step).calls
    ensures i in s.calls && Next(s, step).calls[i] == s.calls[i]
  {
  }

  lemma OwnCallStaysWell(s: System, step: Step, i: nat)
    requires Inv(s) && Enabled(s, step) && CallOf(step) == Some(i) && i in Next(s, step).calls
    ensures var n := Next(s, step); CallWell(n.rows, n.nextPk, n.clock, n.calls[i])
  {
    match step
    case Get(_) => ReadStaysWell(s, i);
    case Select(_, later) => SelectStaysWell(s, i, later, false);
    case Reselect(_, later) => SelectStaysWell(s, i, later, true);
    case Insert(_, later) => InsertStaysWell(s, i, later);
    case Extend(_, ok) => ExtendStaysWell(s, i, ok);
    case Use(_, later) => UseStaysWell(s, i, later);
    case Commit(_, ok) => CommitStaysWell(s, i, ok);
    case Arrive(_, _, _, _) =>
  }

  /** In every step: unique minted ids, honest timestamps, and nobody holds a row that is not their own. */
  lemma NextKeepsInv(s: System, step: Step)
    requires Inv(s) && Enabled(s, step)
    ensures Inv(Next(s, step))
  {
    var n := Next(s, step);
    NextAdvances(s, step);
    NextGoesOn(s, step);
    NextKeepsRows(s, step);
    forall i | i in n.calls ensures CallWell(n.rows, n.nextPk, n.clock, n.calls[i]) {
      if CallOf(step) == Some(i) {
        OwnCallStaysWell(s, step, i);
      } else {
        OthersStay(s, step, i);
        CallStaysWell(s, n, s.calls[i]);
      }
    }
  }

  lemma {:induction false} RunKeepsInv(s: System, steps: seq<Step>)
    requires Inv(s) && Legal(s, steps)
    ensures Inv(Run(s, steps))
    decreases |steps|
  {
    if steps != [] {
      NextKeepsInv(s, steps[0]);
      RunKeepsInv(Next(s, steps[0]), steps[1..]);
    }
  }

  /**
   A row leaves the table, or its binding, only when the reaper takes it; and then it has been expired for
   over a day.
   */
  lemma OnlyTheReaperUnbinds(s: System, step: Step, id: SessionId)
    requires Inv(s) && Enabled(s, step) && id in s.rows
    ensures var n := Next(s, step);
            if step.ReapAll? && Reapable(s.rows[id], s.clock)
            then id !in n.rows && s.clock - s.rows[id].expires.value > LIFETIME
            else id in n.rows && SameBinding(n.rows[id], s.rows[id])
  {
    NextAdvances(s, step);
  }

  /** The run never reaps the row of `id`. */
  ghost predicate NeverReaped(s: System, steps: seq<Step>, id: SessionId)
    requires Legal(s, steps)
    decreases |steps|
  {
    steps == [] ||
    (!(steps[0].ReapAll? && id in s.rows && Reapable(s.rows[id], s.clock))
      && NeverReaped(Next(s, steps[0]), steps[1..], id))
  }

  /**
   Across any interleaving of any callers, the (tenant, key, user) bound to an id changes only after its row
   is reaped.
   */
  lemma {:induction false} BindingIsStable(s: System, steps: seq<Step>, id: SessionId)
    requires Inv(s) && Legal(s, steps) && id in s.rows && NeverReaped(s, steps, id)
    ensures id in Run(s, steps).rows && SameBinding(Run(s, steps).rows[id], s.rows[id])
    decreases |steps|
  {
    if steps != [] {
      OnlyTheReaperUnbinds(s, steps[0], id);
      NextKeepsInv(s, steps[0]);
      BindingIsStable(Next(s, steps[0]), steps[1..], id);
    }
  }

  const BOOT := System(map[], 0, 0.0, map[], {}, map[])

  /** In every run from an empty table, every row handed to a request is the caller's own, by both ownership tests. */
  lemma ServedRowsAreTheCallers(steps: seq<Step>, i: nat)
    requires Legal(BOOT, steps) && i in Run(BOOT, steps).calls && Holds(Run(BOOT, steps).calls[i].pc)
    ensures var c := Run(BOOT, steps).calls[i];
            && OwnedSql(c.pc.row, c.caller)
            && c.pc.row.tenant == c.caller.tenant && BelongsToCaller(c.pc.row, c.caller.apiKey, c.caller.user)
  {
    RunKeepsInv(BOOT, steps);
    var c := Run(BOOT, steps).calls[i];
    assert CallWell(Run(BOOT, steps).rows, Run(BOOT, steps).nextPk, Run(BOOT, steps).clock, c);
    OwnershipTestsAgreeIff(c.caller);
  }

  // ------------------------------------------------------ the race

  /** Where a call on an unreaped id can stand, given the row the id now has. */
  predicate Consistent(rows: map<SessionId, Row>, c: Call) {
    && (c.pc.Reselecting? ==> c.id in rows)
    && (Holds(c.pc) ==> StillThere(rows, c.id, c.pc.row.pk))
    && (c.pc.NotFound? ==> !Minted(c.id) || (c.id in rows && !OwnedSql(rows[c.id], c.caller)))
    && !c.pc.Vanished?
  }

  ghost predicate RaceInv(s: System, id: SessionId) {
    forall i :: i in s.calls && s.calls[i].id == id ==> Consistent(s.rows, s.calls[i])
  }

  lemma ExtendStaysConsistent(s: System, i: nat, ok: bool)
    requires Enabled(s, Extend(i, ok)) && Consistent(s.rows, s.calls[i])
    ensures Consistent(Next(s, Extend(i, ok)).rows, Next(s, Extend(i, ok)).calls[i])
  {
  }

  lemma UseStaysConsistent(s: System, i: nat, later: Time)
    requires Enabled(s, Use(i, later)) && Consistent(s.rows, s.calls[i])
    ensures Consistent(Next(s, Use(i, later)).rows, Next(s, Use(i, later)).calls[i])
  {
  }

  lemma CommitStaysConsistent(s: System, i: nat, ok: bool)
    requires Enabled(s, Commit(i, ok)) && Consistent(s.rows, s.calls[i])
    ensures Consistent(Next(s, Commit(i, ok)).rows, Next(s, Commit(i, ok)).calls[i])
  {
  }

  lemma InsertStaysConsistent(s: System, i: nat, later: Time)
    requires Enabled(s, Insert(i, later))
    ensures Consistent(Next(s, Insert(i, later)).rows, Next(s, Insert(i, later)).calls[i])
  {
  }

  lemma LookupStaysConsistent(s: System, i: nat, later: Time, again: bool)
    requires Enabled(s, if again then Reselect(i, later) else Select(i, later)) && Consistent(s.rows, s.calls[i])
    ensures var n := Next(s, if again then Reselect(i, later) else Select(i, later)); Consistent(n.rows, n.calls[i])
  {
  }

  lemma GetStaysConsistent(s: System, i: nat)
    requires Inv(s) && Enabled(s, Get(i)) && Consistent(s.rows, s.calls[i])
    ensures Consistent(Next(s, Get(i)).rows, Next(s, Get(i)).calls[i])
  {
    assert CallWell(s.rows, s.nextPk, s.clock, s.calls[i]);
  }

  lemma OwnCallStaysConsistent(s: System, step: Step, i: nat)
    requires Inv(s) && Enabled(s, step) && CallOf(step) == Some(i) && i in Next(s, step).calls
    requires i in s.calls ==> Consistent(s.rows, s.calls[i])
    ensures Consistent(Next(s, step).rows, Next(s, step).calls[i])
  {
    match step
    case Extend(_, ok) => ExtendStaysConsistent(s, i, ok);
    case Use(_, later) => UseStaysConsistent(s, i, later);
    case Commit(_, ok) => CommitStaysConsistent(s, i, ok);
    case Insert(_, later) => InsertStaysConsistent(s, i, later);
    case Get(_) => GetStaysConsistent(s, i);
    case Select(_, later) => LookupStaysConsistent(s, i, later, false);
    case Reselect(_, later) => LookupStaysConsistent(s, i, later, true);
    case Arrive(_, _, _, _) =>
  }

  lemma NextKeepsRace(s: System, step: Step, id: SessionId)
    requires Inv(s) && Enabled(s, step) && RaceInv(s, id)
    requires !(step.ReapAll? && id in s.rows && Reapable(s.rows[id], s.clock))
    ensures RaceInv(Next(s, step), id)
  {
    var n := Next(s, step);
    if id in s.rows {
      OnlyTheReaperUnbinds(s, step, id);
    }
    forall i | i in n.calls && n.calls[i].id == id ensures Consistent(n.rows, n.calls[i]) {
      if CallOf(step) == Some(i) {
        assert i in s.calls ==> s.calls[i].id == id;
        OwnCallStaysConsistent(s, step, i);
      } else {
        OthersStay(s, step, i);
      }
    }
  }

  lemma {:induction false} RunKeepsRace(s: System, steps: seq<Step>, id: SessionId)
    requires Inv(s) && Legal(s, steps) && RaceInv(s, id) && NeverReaped(s, steps, id)
    ensures RaceInv(Run(s, steps), id)
    decreases |steps|
  {
    if steps != [] {
      NextKeepsRace(s, steps[0], id);
      NextKeepsInv(s, steps[0]);
      RunKeepsRace(Next(s, steps[0]), steps[1..], id);
    }
  }

  /**
   The resurrection race, and the 404 of every interleaving: any number of callers present the same
   id, whatever the table holds of it, and nothing of it is reaped. An answered caller has the one row
   if that row's principal is its own, and is refused if and only if the id is malformed or bound to
   another; no caller is left without an answer but by a failed commit of its own.
   */
  lemma ResurrectionRace(s: System, steps: seq<Step>, id: SessionId, i: nat)
    requires Inv(s) && (forall k :: k in s.calls ==> s.calls[k].id != id)
    requires Legal(s, steps) && NeverReaped(s, steps, id)
    requires i in Run(s, steps).calls && Run(s, steps).calls[i].id == id
    requires var pc := Run(s, steps).calls[i].pc; pc.Served? || pc.NotFound? || pc.Vanished? || pc.CommitFailed?
    ensures var n := Run(s, steps);
            var c := n.calls[i];
            && (c.pc.Served? || c.pc.NotFound? || c.pc.CommitFailed?)
            && (!c.pc.CommitFailed? && Printed(id) ==> id in n.rows)
            && (id in n.rows ==> forall other :: other in n.rows && n.rows[other].pk == n.rows[id].pk ==> other == id)
            && (c.pc.Served? ==> id in n.rows && SameBinding(c.pc.row, n.rows[id]) && OwnedSql(n.rows[id], c.caller))
            && (!c.pc.CommitFailed? ==>
              (c.pc.NotFound? <==> !Printed(id) || (id in n.rows && !OwnedSql(n.rows[id], c.caller))))
  {
    MintedIsPrinted(id);
    RunKeepsRace(s, steps, id);
    RunKeepsInv(s, steps);
    var n := Run(s, steps);
    assert Consistent(n.rows, n.calls[i]);
    assert CallWell(n.rows, n.nextPk, n.clock, n.calls[i]);
  }

  /** At its reselect a call is refused exactly when the id is bound to another principal or tenant. */
  lemma RefusedIff(s: System, i: nat, later: Time)
    requires Inv(s) && Enabled(s, Reselect(i, later)) && RaceInv(s, s.calls[i].id)
    ensures Next(s, Reselect(i, later)).calls[i].pc.NotFound? <==>
            s.calls[i].id in s.rows && !OwnedSql(s.rows[s.calls[i].id], s.calls[i].caller)
  {
  }

  // -------------------------------------------------------- expiry times

  /** The row is there, and good for a lifetime from `time` on. */
  predicate ExtendedSince(rows: map<SessionId, Row>, id: SessionId, time: Time) {
    id in rows && rows[id].expires.Some? && rows[id].expires.value >= time + LIFETIME
  }

  /** Behind every mark that still suppresses extensions, unless it is listed as unsaved, is the row's extension. */
  ghost predicate MemoBacked(s: System) {
    forall slot :: slot in s.fired ==>
      && s.fired[slot] <= s.clock
      && (slot !in s.unsaved && !Due(s.fired, slot, s.clock) ==> ExtendedSince(s.rows, slot.id, s.fired[slot]))
  }

  /** A row that a recent mark has extended is out of the reaper's reach. */
  lemma RecentIsNotReaped(s: System, id: SessionId, time: Time)
    requires RowsWell(s.rows, s.nextPk, s.clock) && ExtendedSince(s.rows, id, time) && s.clock - time < EXTEND_DEBOUNCE
    ensures ExtendedSince(Reap(s.rows, s.clock), id, time)
  {
  }

  lemma ReapKeepsBacked(s: System)
    requires Inv(s) && MemoBacked(s)
    ensures MemoBacked(Next(s, ReapAll))
  {
    forall slot | slot in s.fired && slot !in s.unsaved && !Due(s.fired, slot, s.clock)
      ensures ExtendedSince(Reap(s.rows, s.clock), slot.id, s.fired[slot])
    {
      RecentIsNotReaped(s, slot.id, s.fired[slot]);
    }
  }

  lemma ExtendKeepsBacked(s: System, i: nat, ok: bool)
    requires Inv(s) && MemoBacked(s) && Enabled(s, Extend(i, ok))
    ensures MemoBacked(Next(s, Extend(i, ok)))
  {
    assert CallWell(s.rows, s.nextPk, s.clock, s.calls[i]);
  }

  lemma CommitKeepsBacked(s: System, i: nat, ok: bool)
    requires Inv(s) && MemoBacked(s) && Enabled(s, Commit(i, ok))
    ensures MemoBacked(Next(s, Commit(i, ok)))
  {
    assert CallWell(s.rows, s.nextPk, s.clock, s.calls[i]);
  }

  lemma InsertKeepsBacked(s: System, i: nat, later: Time)
    requires MemoBacked(s) && Enabled(s, Insert(i, later))
    ensures MemoBacked(Next(s, Insert(i, later)))
  {
  }

  lemma NextKeepsBacked(s: System, step: Step)
    requires Inv(s) && MemoBacked(s) && Enabled(s, step)
    ensures MemoBacked(Next(s, step))
  {
    match step
    case ReapAll => ReapKeepsBacked(s);
    case Extend(i, ok) => ExtendKeepsBacked(s, i, ok);
    case Commit(i, ok) => CommitKeepsBacked(s, i, ok);
    case Insert(i, later) => InsertKeepsBacked(s, i, later);
    case _ =>
  }

  lemma {:induction false} RunKeepsBacked(s: System, steps: seq<Step>)
    requires Inv(s) && MemoBacked(s) && Legal(s, steps)
    ensures Inv(Run(s, steps)) && MemoBacked(Run(s, steps))
    decreases |steps|
  {
    if steps != [] {
      NextKeepsBacked(s, steps[0]);
      NextKeepsInv(s, steps[0]);
      RunKeepsBacked(Next(s, steps[0]), steps[1..]);
    }
  }

  /** What a use at time `t` is promised of its row. */
  predicate LifetimeLeft(rows: map<SessionId, Row>, id: SessionId, t: Time) {
    id in rows && rows[id].expires.Some? && rows[id].expires.value >= t + 24.0 * 3600.0 - 30.0
  }

  /** A debounced use is served with its lifetime left, unless the mark is listed as unsaved. */
  lemma SuppressedUse(s: System, i: nat, later: Time)
    requires MemoBacked(s) && Enabled(s, Use(i, later))
    requires !Due(s.fired, SlotOf(s.calls[i]), s.clock) && SlotOf(s.calls[i]) !in s.unsaved
    ensures var n := Next(s, Use(i, later)); n.calls[i].pc.Served? && LifetimeLeft(n.rows, s.calls[i].id, s.clock)
  {
  }

  /** The marks of an id, on any worker, made after this moment. */
  function NewerMarks(fired: map<Slot, Time>, id: SessionId, mark: Time): set<Slot> {
    set slot | slot in fired && slot.id == id && fired[slot] > mark
  }

  /**
   A use that is not debounced is served exactly when its extension is committed, a lifetime from when it
   was let through; its own mark is then saved, and exactly the later marks of the id are overwritten.
   */
  lemma CommittedUse(s: System, i: nat, ok: bool)
    requires Inv(s) && Enabled(s, Commit(i, ok))
    ensures var n := Next(s, Commit(i, ok));
            && (n.calls[i].pc.Served? <==> ok && StillThere(s.rows, s.calls[i].id, s.calls[i].pc.row.pk))
            && (n.calls[i].pc.Served? ==>
                  s.calls[i].id in n.rows && n.rows[s.calls[i].id].expires == Some(s.calls[i].pc.mark + 24.0 * 3600.0))
            && n.unsaved == (if n.calls[i].pc.Served?
                 then s.unsaved - {SlotOf(s.calls[i])} + NewerMarks(s.fired, s.calls[i].id, s.calls[i].pc.mark)
                 else s.unsaved)
  {
    assert CallWell(s.rows, s.nextPk, s.clock, s.calls[i]);
  }

  /** A resurrection reaches its use exactly when its extension is committed on a row still there, good for 24 hours. */
  lemma CommittedResurrection(s: System, i: nat, ok: bool)
    requires Inv(s) && Enabled(s, Extend(i, ok))
    ensures var n, c := Next(s, Extend(i, ok)), s.calls[i];
            && (n.calls[i].pc.Using? <==> ok && c.id in s.rows && s.rows[c.id].pk == c.pc.row.pk)
            && (n.calls[i].pc.CommitFailed? <==> !ok)
            && (n.calls[i].pc.Using? ==>
                  c.id in n.rows && n.rows[c.id].expires == Some(c.pc.mark + 24.0 * 3600.0))
            && n.unsaved == s.unsaved + (if n.calls[i].pc.Using? then NewerMarks(s.fired, c.id, c.pc.mark) else {})
  {
    assert CallWell(s.rows, s.nextPk, s.clock, s.calls[i]);
  }

  /** Bumping last access keeps a row from the reaper for 48 hours from then on, and moves nothing else of it. */
  lemma TouchKeepsFromReaper(s: System, id: SessionId, later: Time)
    requires Enabled(s, Touch(id)) && s.clock <= later
    ensures var n := Next(Next(Next(s, Touch(id)), Tick(later)), ReapAll);
            && (id in n.rows <==> later - s.clock <= 48.0 * 3600.0)
            && (id in n.rows ==> n.rows[id] == s.rows[id].(lastAccessed := s.clock))
  {
  }

  /**
   In every run of any number of workers and callers, a use at time t is served with at least
   t + 24h - 30s left on its row: at once, if it is debounced by a mark whose extension is committed
   and not overwritten by an older one; and when its own extension is committed otherwise.
   */
  lemma EveryUseLeavesLifetime(steps: seq<Step>, i: nat, step: Step)
    requires Legal(BOOT, steps) && Enabled(Run(BOOT, steps), step) && CallOf(step) == Some(i)
    requires Next(Run(BOOT, steps), step).calls[i].pc.Served?
    ensures var s := Run(BOOT, steps);
            var c := s.calls[i];
            && (c.pc.Saving? || (c.pc.Using? && !Due(s.fired, SlotOf(c), s.clock)))
            && (c.pc.Saving? || SlotOf(c) !in s.unsaved ==>
                  LifetimeLeft(Next(s, step).rows, c.id, if c.pc.Saving? then c.pc.mark else s.clock))
  {
    RunKeepsBacked(BOOT, steps);
    var s := Run(BOOT, steps);
    match step
    case Use(_, later) =>
      if SlotOf(s.calls[i]) !in s.unsaved && !Due(s.fired, SlotOf(s.calls[i]), s.clock) {
        SuppressedUse(s, i, later);
      }
    case Commit(_, ok) => CommittedUse(s, i, ok);
    case _ =>
  }

  /** The step commits an extension of the row of `id`. */
  predicate WritesRow(s: System, step: Step, id: SessionId)
    requires Enabled(s, step)
  {
    && (step.Extend? || step.Commit?) && step.ok
    && s.calls[step.call].id == id && StillThere(s.rows, id, s.calls[step.call].pc.row.pk)
  }

  /** The step makes the row of `id`. */
  predicate MakesRow(s: System, step: Step, id: SessionId)
    requires Enabled(s, step)
  {
    (step.Initialize? && step.id == id) || (step.Insert? && s.calls[step.call].id == id && id !in s.rows)
  }

  predicate ReapsRow(s: System, step: Step, id: SessionId) {
    step.ReapAll? && id in s.rows && Reapable(s.rows[id], s.clock)
  }

  /**
   A row extended since `mark` stays so unless an extension computed before `mark` is committed over it, or
   it is reaped.
   */
  lemma ExtensionIsKeptIff(s: System, step: Step, id: SessionId, mark: Time)
    requires Inv(s) && Enabled(s, step) && ExtendedSince(s.rows, id, mark)
    ensures ExtendedSince(Next(s, step).rows, id, mark)
            <==> !(WritesRow(s, step, id) && s.calls[step.call].pc.mark < mark) && !ReapsRow(s, step, id)
  {
    if step.Extend? || step.Commit? {
      assert CallWell(s.rows, s.nextPk, s.clock, s.calls[step.call]);
    }
  }

  /**
   A row not extended since `mark` becomes so exactly when it is made, or an extension computed since is
   committed.
   */
  lemma ExtensionIsGainedIff(s: System, step: Step, id: SessionId, mark: Time)
    requires Inv(s) && Enabled(s, step) && mark <= s.clock && !ExtendedSince(s.rows, id, mark)
    ensures ExtendedSince(Next(s, step).rows, id, mark)
            <==> MakesRow(s, step, id) || (WritesRow(s, step, id) && s.calls[step.call].pc.mark >= mark)
  {
    if step.Extend? || step.Commit? {
      assert CallWell(s.rows, s.nextPk, s.clock, s.calls[step.call]);
    }
  }

  /** When the extension last committed to the row was computed; nothing while there is no row. */
  function WrittenAfter(s: System, step: Step, id: SessionId, before: Option<Time>): Option<Time>
    requires Enabled(s, step)
  {
    if MakesRow(s, step, id) then Some(s.clock)
    else if WritesRow(s, step, id) then Some(s.calls[step.call].pc.mark)
    else if ReapsRow(s, step, id) then None
    else before
  }

  ghost function LastWritten(s: System, steps: seq<Step>, id: SessionId, before: Option<Time>): Option<Time>
    requires Legal(s, steps)
    decreases |steps|
  {
    if steps == [] then before
      else LastWritten(Next(s, steps[0]), steps[1..], id, WrittenAfter(s, steps[0], id, before))
  }

  predicate WrittenAs(rows: map<SessionId, Row>, id: SessionId, written: Option<Time>) {
    if written.Some? then id in rows && rows[id].expires == Some(written.value + LIFETIME) else id !in rows
  }

  lemma StepWrites(s: System, step: Step, id: SessionId, before: Option<Time>)
    requires Inv(s) && Enabled(s, step) && WrittenAs(s.rows, id, before)
    ensures WrittenAs(Next(s, step).rows, id, WrittenAfter(s, step, id, before))
  {
    if step.Extend? || step.Commit? {
      assert CallWell(s.rows, s.nextPk, s.clock, s.calls[step.call]);
    }
  }

  /**
   Over any run the expiry of a row is a lifetime after the extension last committed to it was computed,
   whoever's it was.
   */
  lemma {:induction false} ExpiryIsLastWritten(s: System, steps: seq<Step>, id: SessionId, before: Option<Time>)
    requires Inv(s) && Legal(s, steps) && WrittenAs(s.rows, id, before)
    ensures WrittenAs(Run(s, steps).rows, id, LastWritten(s, steps, id, before))
    decreases |steps|
  {
    if steps != [] {
      StepWrites(s, steps[0], id, before);
      NextKeepsInv(s, steps[0]);
      ExpiryIsLastWritten(Next(s, steps[0]), steps[1..], id, WrittenAfter(s, steps[0], id, before));
    }
  }

  /**
   While a mark suppresses extensions, all uses find their lifetime left if and only if the row is good from
   the mark on.
   */
  lemma WindowIsLeftIff(rows: map<SessionId, Row>, id: SessionId, mark: Time, clock: Time)
    requires mark <= clock < mark + EXTEND_DEBOUNCE
    ensures (forall t :: clock <= t < mark + EXTEND_DEBOUNCE ==> LifetimeLeft(rows, id, t)) <==>
      ExtendedSince(rows, id, mark)
  {
    if !ExtendedSince(rows, id, mark) {
      if id !in rows || rows[id].expires.None? || rows[id].expires.value < clock + LIFETIME - EXTEND_DEBOUNCE {
        assert !LifetimeLeft(rows, id, clock);
      } else {
        var t := (rows[id].expires.value - LIFETIME + EXTEND_DEBOUNCE + mark + EXTEND_DEBOUNCE) / 2.0;
        assert clock <= t < mark + EXTEND_DEBOUNCE && !LifetimeLeft(rows, id, t);
      }
    }
  }

  /**
   The exact condition, on the steps of any run from boot: all the uses that a mark can still suppress find
   their lifetime left if and only if there is a row and the extension last committed to it, or its making,
   was computed no earlier than the mark.
   */
  lemma SuppressedUsesMeetIff(steps: seq<Step>, slot: Slot)
    requires Legal(BOOT, steps)
    requires var s := Run(BOOT, steps); slot in s.fired && !Due(s.fired, slot, s.clock)
    ensures var s, written := Run(BOOT, steps), LastWritten(BOOT, steps, slot.id, None);
            (forall t :: s.clock <= t < s.fired[slot] + EXTEND_DEBOUNCE ==> LifetimeLeft(s.rows, slot.id, t))
            <==> written.Some? && written.value >= s.fired[slot]
  {
    RunKeepsBacked(BOOT, steps);
    ExpiryIsLastWritten(BOOT, steps, slot.id, None);
    var s := Run(BOOT, steps);
    WindowIsLeftIff(s.rows, slot.id, s.fired[slot], s.clock);
  }

  /** One session, minted at time 0, of the caller `p`. */
  function OneSession(id: SessionId, p: Caller, clock: Time, fired: map<Slot, Time>, unsaved: set<Slot>,
                      calls: map<nat, Call>): System {
    System(map[id := Fresh(0, p, 0.0, 0.0)], 1, clock, fired, unsaved, calls)
  }

  lemma OneSessionIsRead(id: SessionId, p: Caller, now: Time)
    requires HasPrincipal(p) && now <= 86400.0
    ensures Read(map[id := Fresh(0, p, 0.0, 0.0)], id, Some(p.tenant), p.apiKey, p.user, now)
      == Some(Fresh(0, p, 0.0, 0.0))
  {
  }

  /** From state to state by one step each. */
  ghost predicate Trace(states: seq<System>, steps: seq<Step>) {
    && |states| == |steps| + 1
    && forall k :: 0 <= k < |steps| ==> Enabled(states[k], steps[k]) && states[k + 1] == Next(states[k], steps[k])
  }

  function FirstRead(id: SessionId, p: Caller): seq<Step> {
    [Initialize(p, id, 0.0), Tick(72000.0), Arrive(0, p, id, 0), Get(0)]
  }

  /** A request that reads the session 20 hours on. */
  lemma FirstReads(id: SessionId, p: Caller) returns (states: seq<System>)
    requires Minted(id) && HasPrincipal(p)
    ensures Trace(states, FirstRead(id, p)) && states[0] == BOOT
    ensures states[4] == OneSession(id, p, 72000.0, map[], {}, map[0 := Call(p, id, 0, Using(Fresh(0, p, 0.0, 0.0)))])
  {
    OneSessionIsRead(id, p, 72000.0);
    var s1 := OneSession(id, p, 0.0, map[], {}, map[]);
    var s2 := OneSession(id, p, 72000.0, map[], {}, map[]);
    var s3 := OneSession(id, p, 72000.0, map[], {}, map[0 := Call(p, id, 0, Getting)]);
    var s4 := OneSession(id, p, 72000.0, map[], {}, map[0 := Call(p, id, 0, Using(Fresh(0, p, 0.0, 0.0)))]);
    states := [BOOT, s1, s2, s3, s4];
  }

  /** Its extension is let through and its commit fails. */
  lemma FirstFails(id: SessionId, p: Caller, s: System) returns (states: seq<System>)
    requires s == OneSession(id, p, 72000.0, map[], {}, map[0 := Call(p, id, 0, Using(Fresh(0, p, 0.0, 0.0)))])
    ensures Trace(states, [Use(0, 72000.0), Commit(0, false)]) && states[0] == s
    ensures states[2]
      == OneSession(id, p, 72000.0, map[Slot(0, id) := 72000.0], {Slot(0, id)}, map[0 := Call(p, id, 0, CommitFailed)])
  {
    var row, mark := Fresh(0, p, 0.0, 0.0), map[Slot(0, id) := 72000.0];
    var saving := Saving(Extended(row, 72000.0, 72000.0), 72000.0);
    var s5 := OneSession(id, p, 72000.0, mark, {Slot(0, id)}, map[0 := Call(p, id, 0, saving)]);
    var s6 := OneSession(id, p, 72000.0, mark, {Slot(0, id)}, map[0 := Call(p, id, 0, CommitFailed)]);
    states := [s, s5, s6];
  }

  /** The retry is debounced. */
  lemma RetryIsServed(id: SessionId, p: Caller, s: System) returns (states: seq<System>)
    requires HasPrincipal(p)
    requires s == OneSession(id, p, 72000.0, map[Slot(0, id) := 72000.0], {Slot(0, id)},
      map[0 := Call(p, id, 0, CommitFailed)])
    ensures Trace(states, [Tick(72010.0), Arrive(1, p, id, 0), Get(1), Use(1, 72010.0)]) && states[0] == s
    ensures states[4] == OneSession(id, p, 72010.0, map[Slot(0, id) := 72000.0], {Slot(0, id)},
                                    map[0 := Call(p, id, 0, CommitFailed),
                                      1 := Call(p, id, 0, Served(Fresh(0, p, 0.0, 0.0)))])
  {
    var row, mark, failed := Fresh(0, p, 0.0, 0.0), map[Slot(0, id) := 72000.0], Call(p, id, 0, CommitFailed);
    OneSessionIsRead(id, p, 72010.0);
    var s7 := OneSession(id, p, 72010.0, mark, {Slot(0, id)}, map[0 := failed]);
    var s8 := OneSession(id, p, 72010.0, mark, {Slot(0, id)}, map[0 := failed, 1 := Call(p, id, 0, Getting)]);
    var s9 := OneSession(id, p, 72010.0, mark, {Slot(0, id)}, map[0 := failed, 1 := Call(p, id, 0, Using(row))]);
    var s10 := OneSession(id, p, 72010.0, mark, {Slot(0, id)}, map[0 := failed, 1 := Call(p, id, 0, Served(row))]);
    states := [s, s7, s8, s9, s10];
  }

  lemma {:induction false} TraceRuns(states: seq<System>, steps: seq<Step>)
    requires Trace(states, steps)
    ensures Legal(states[0], steps) && Run(states[0], steps) == states[|steps|]
    decreases |steps|
  {
    if steps != [] {
      TraceRuns(states[1..], steps[1..]);
    }
  }

  lemma {:induction false} RunsOn(s: System, front: seq<Step>, back: seq<Step>)
    requires Legal(s, front) && Legal(Run(s, front), back)
    ensures Legal(s, front + back) && Run(s, front + back) == Run(Run(s, front), back)
    decreases |front|
  {
    if front == [] {
      assert front + back == back;
    } else {
      assert (front + back)[0] == front[0] && (front + back)[1..] == front[1..] + back;
      RunsOn(Next(s, front[0]), front[1..], back);
    }
  }

  /**
   The condition is needed: the mark stays when its commit fails, and the retry ten seconds later is served
   with four hours left.
   */
  lemma FailedCommitSuppressesTheRetry(id: SessionId, p: Caller) returns (steps: seq<Step>)
    requires Minted(id) && HasPrincipal(p)
    ensures Legal(BOOT, steps)
    ensures var n := Run(BOOT, steps);
            && 1 in n.calls && n.calls[1].pc.Served? && id in n.rows
            && n.rows[id].expires == Some(86400.0) && n.clock == 72010.0 && !LifetimeLeft(n.rows, id, n.clock)
  {
    var read := FirstReads(id, p);
    TraceRuns(read, FirstRead(id, p));
    var failing := FirstFails(id, p, read[4]);
    TraceRuns(failing, [Use(0, 72000.0), Commit(0, false)]);
    var served := RetryIsServed(id, p, failing[2]);
    var retry := [Tick(72010.0), Arrive(1, p, id, 0), Get(1), Use(1, 72010.0)];
    TraceRuns(served, retry);
    RunsOn(read[4], [Use(0, 72000.0), Commit(0, false)], retry);
    RunsOn(BOOT, FirstRead(id, p), [Use(0, 72000.0), Commit(0, false)] + retry);
    steps := FirstRead(id, p) + ([Use(0, 72000.0), Commit(0, false)] + retry);
  }

  // ------------------------------------------------- one worker's manager

  datatype CreateError = IntegrityError

  /** `Raised`: the request ends with the exception of a failed commit. */
  datatype Verdict = Passthrough | Serve(row: Row) | NotFound404 | Raised

  /** Whether the session id is currently bound to somebody else than this caller. */
  predicate BoundToAnother(rows: map<SessionId, Row>, id: SessionId, p: Caller) {
    id in rows && !OwnedSql(rows[id], p)
  }

  // -------------------------------------------------- one request on its own

  /** What is left of a call that holds its row, with no other step in between. */
  ghost function UsedAlone(s: System, i: nat, later: Time, commits: bool): System
    requires i in s.calls && s.calls[i].pc.Using? && s.clock <= later
  {
    var used := Next(Next(s, Tick(later)), Use(i, later));
    if used.calls[i].pc.Saving? then Next(used, Commit(i, commits)) else used
  }

  /** The look-ups of a call that found no live row, up to the row in hand or the refusal. */
  ghost function ResurrectedAlone(s: System, i: nat, later: Time): System
    requires i in s.calls && s.calls[i].pc.Selecting? && s.clock <= later
  {
    var selected := Next(s, Select(i, if s.calls[i].id in s.rows then later else s.clock));
    var inserted := if selected.calls[i].pc.Inserting? then Next(selected, Insert(i, later)) else selected;
    var again := if inserted.calls[i].pc.Reselecting? then Next(inserted, Reselect(i, later)) else inserted;
    if again.calls[i].pc.Extending? then Next(again, Extend(i, true)) else again
  }

  /** All the steps of one call. */
  ghost function Alone(s: System, i: nat, later: Time, commits: bool): System
    requires Inv(s) && i in s.calls && s.calls[i].pc.Getting? && s.clock <= later
  {
    var got := Next(s, Get(i));
    var looked := if got.calls[i].pc.Selecting? then ResurrectedAlone(got, i, later) else got;
    if looked.calls[i].pc.Using? && looked.clock <= later then UsedAlone(looked, i, later, commits) else looked
  }

  /** The row in hand is the one in the table. */
  predicate InHand(s: System, i: nat) {
    i in s.calls && s.calls[i].pc.Using? && s.calls[i].id in s.rows && s.rows[s.calls[i].id] == s.calls[i].pc.row
  }

  ghost predicate UsedUp(s: System, n: System, i: nat, later: Time, commits: bool)
    requires InHand(s, i) && i in n.calls
  {
    var c := s.calls[i];
    var slot := Slot(c.worker, c.id);
    var due := slot in s.fired ==> later - s.fired[slot] >= 30.0;
    && (if due && !commits then n.calls[i].pc == CommitFailed else n.calls[i].pc.Served?)
    && n.rows == (if due && commits
         then s.rows[c.id := s.rows[c.id].(expires := Some(later + 24.0 * 3600.0), lastAccessed := later)] else s.rows)
    && n.fired == (if due then s.fired[slot := later] else s.fired)
    && n.unsaved == (if !due then s.unsaved else if commits then s.unsaved - {slot} else s.unsaved + {slot})
  }

  lemma UsedAloneIs(s: System, i: nat, later: Time, commits: bool)
    requires InHand(s, i) && s.clock <= later
    requires forall slot :: slot in s.fired ==> s.fired[slot] <= s.clock
    ensures i in UsedAlone(s, i, later, commits).calls && UsedUp(s, UsedAlone(s, i, later, commits), i, later, commits)
  {
    var used := Next(Next(s, Tick(later)), Use(i, later));
    if used.calls[i].pc.Saving? {
      assert Newer(used.fired, used.calls[i].id, used.calls[i].pc.row.expires) == {};
    }
  }

  ghost predicate Resurrected(s: System, n: System, i: nat, later: Time)
    requires i in s.calls && i in n.calls
  {
    var c := s.calls[i];
    && n.clock == later && n.fired == s.fired && n.unsaved == s.unsaved
    && n.calls[i].id == c.id && n.calls[i].worker == c.worker
    && (if BoundToAnother(s.rows, c.id, c.caller) then n.calls[i].pc == NotFound && n.rows == s.rows
        else
          && InHand(n, i) && n.rows == s.rows[c.id := n.rows[c.id]] && OwnedSql(n.rows[c.id], c.caller)
          && (c.id in s.rows ==> SameBinding(n.rows[c.id], s.rows[c.id]))
          && n.rows[c.id].expires == Some(s.clock + 24.0 * 3600.0) && n.rows[c.id].lastAccessed == later)
  }

  lemma ResurrectedAloneIs(s: System, i: nat, later: Time)
    requires Inv(s) && i in s.calls && s.calls[i].pc.Selecting? && s.clock <= later
    requires forall slot :: slot in s.fired ==> s.fired[slot] <= s.clock
    ensures i in ResurrectedAlone(s, i, later).calls && Resurrected(s, ResurrectedAlone(s, i, later), i, later)
  {
    var selected := Next(s, Select(i, if s.calls[i].id in s.rows then later else s.clock));
    if selected.calls[i].pc.Extending? {
      assert Newer(s.fired, s.calls[i].id, selected.calls[i].pc.row.expires) == {};
    }
  }

  /**
   What a request that runs from `s` to `n` on its own does: it is refused if and only if its id is printed from no
   128-bit value or is bound to another; its row is the live one, or the expired or missing one made good for 24
   hours from its arrival; and its use extends that row if and only if the worker let none through in 30 seconds
   and the commit succeeds.
   */
  ghost predicate Answered(s: System, n: System, i: nat, later: Time, commits: bool)
    requires i in s.calls && i in n.calls
  {
    var c, pc := s.calls[i], n.calls[i].pc;
    var slot := Slot(c.worker, c.id);
    var due := slot in s.fired ==> later - s.fired[slot] >= 30.0;
    if !Printed(c.id) || BoundToAnother(s.rows, c.id, c.caller)
    then pc == NotFound && n.rows == s.rows && n.fired == s.fired && n.unsaved == s.unsaved
    else
      && (if due && !commits then pc == CommitFailed else pc.Served?)
      && c.id in n.rows && n.rows == s.rows[c.id := n.rows[c.id]] && OwnedSql(n.rows[c.id], c.caller)
      && (c.id in s.rows ==> SameBinding(n.rows[c.id], s.rows[c.id]))
      && (if due && commits
          then n.rows[c.id].expires == Some(later + 24.0 * 3600.0) && n.rows[c.id].lastAccessed == later
          else if c.id in s.rows && (s.rows[c.id].expires.Some? ==> s.clock <= s.rows[c.id].expires.value)
          then n.rows == s.rows
          else n.rows[c.id].expires == Some(s.clock + 24.0 * 3600.0) && n.rows[c.id].lastAccessed == later)
      && n.fired == (if due then s.fired[slot := later] else s.fired)
      && n.unsaved == (if !due then s.unsaved else if commits then s.unsaved - {slot} else s.unsaved + {slot})
  }

  /** A look-up hands out the caller's live row; without one, a printed id goes on to be resurrected. */
  lemma GetIs(s: System, i: nat)
    requires Inv(s) && i in s.calls && s.calls[i].pc.Getting?
    ensures var c := s.calls[i];
            var live := && c.id in s.rows && OwnedSql(s.rows[c.id], c.caller)
                        && (s.rows[c.id].expires.Some? ==> s.clock <= s.rows[c.id].expires.value);
            Next(s, Get(i)) == At(s, i, if live then Using(s.rows[c.id])
                                        else if Printed(c.id) then Selecting else NotFound)
    ensures s.calls[i].id in s.rows ==> Printed(s.calls[i].id)
  {
    var c := s.calls[i];
    MintedIsPrinted(c.id);
    OwnershipTestsAgreeIff(c.caller);
    assert CallWell(s.rows, s.nextPk, s.clock, c);
  }

  lemma LiveAlone(s: System, i: nat, later: Time, commits: bool)
    requires Inv(s) && MemoBacked(s) && i in s.calls && s.calls[i].pc.Getting? && s.clock <= later
    requires !Next(s, Get(i)).calls[i].pc.Selecting?
    ensures i in Alone(s, i, later, commits).calls && Answered(s, Alone(s, i, later, commits), i, later, commits)
  {
    var got := Next(s, Get(i));
    GetIs(s, i);
    if got.calls[i].pc.Using? {
      UsedAloneIs(got, i, later, commits);
    }
  }

  lemma AnsweredAfter(s: System, got: System, found: System, n: System, i: nat, later: Time, commits: bool)
    requires i in s.calls && Printed(s.calls[i].id) && got == At(s, i, Selecting) && i in found.calls && i in n.calls
    requires var c := s.calls[i];
             !(c.id in s.rows && OwnedSql(s.rows[c.id], c.caller)
               && (s.rows[c.id].expires.Some? ==> s.clock <= s.rows[c.id].expires.value))
    requires Resurrected(got, found, i, later)
    requires if InHand(found, i) then UsedUp(found, n, i, later, commits) else n == found
    ensures Answered(s, n, i, later, commits)
  {
  }

  lemma ResurrectingAlone(s: System, i: nat, later: Time, commits: bool)
    requires Inv(s) && MemoBacked(s) && i in s.calls && s.calls[i].pc.Getting? && s.clock <= later
    requires Next(s, Get(i)).calls[i].pc.Selecting?
    ensures i in Alone(s, i, later, commits).calls && Answered(s, Alone(s, i, later, commits), i, later, commits)
  {
    var got := Next(s, Get(i));
    GetIs(s, i);
    NextKeepsInv(s, Get(i));
    var found := ResurrectedAlone(got, i, later);
    ResurrectedAloneIs(got, i, later);
    if InHand(found, i) {
      UsedAloneIs(found, i, later, commits);
    }
    AnsweredAfter(s, got, found, Alone(s, i, later, commits), i, later, commits);
  }

  /** A request that no other step interleaves with does in the machine what `ApplySessionLifecycle` promises. */
  lemma RequestAlone(s: System, i: nat, later: Time, commits: bool)
    requires Inv(s) && MemoBacked(s) && i in s.calls && s.calls[i].pc.Getting? && s.clock <= later
    ensures i in Alone(s, i, later, commits).calls && Answered(s, Alone(s, i, later, commits), i, later, commits)
  {
    if Next(s, Get(i)).calls[i].pc.Selecting? {
      ResurrectingAlone(s, i, later, commits);
    } else {
      LiveAlone(s, i, later, commits);
    }
  }

  /** The session table seen by one worker, whose requests run here one after the other. */
  class MCPSessionManager {
    var rows: map<SessionId, Row>
    var nextPk: nat
    var lastFired: map<SessionId, Time>

    ghost predicate Valid(now: Time)
      reads this
    {
      RowsWell(rows, nextPk, now)
    }

    constructor ()
      ensures rows == map[] && nextPk == 0 && lastFired == map[]
    {
      rows, nextPk, lastFired := map[], 0, map[];
    }

    /** A plain INSERT: the unique constraint on the id is the only way it fails. */
    method CreateSession(id: SessionId, p: Caller, now: Time, later: Time) returns (outcome: Result<Row, CreateError>)
      requires Valid(now) && Minted(id) && now <= later
      modifies this`rows, this`nextPk
      ensures Valid(later)
      ensures old(id in rows) ==> outcome == Err(IntegrityError) && rows == old(rows) && nextPk == old(nextPk)
      ensures old(id !in rows) ==>
        && outcome == Ok(Fresh(old(nextPk), p, now, later))
        && rows == old(rows)[id := outcome.value] && nextPk == old(nextPk) + 1
    {
      if id in rows {
        return Err(IntegrityError);
      }
      FreshKeepsRows(rows, nextPk, id, p, now, later);
      var row := Extended(Row(nextPk, p.tenant, p.apiKey, p.user, now, None), now, later);
      rows := rows[id := row];
      nextPk := nextPk + 1;
      outcome := Ok(row);
    }

    method GetSession(id: SessionId, tenant: Option<string>, apiKey: Option<string>, user: Option<string>, now: Time)
      returns (session: Option<Row>)
      ensures session == Read(rows, id, tenant, apiKey, user, now)
      ensures session.Some? <==>
        && id in rows
        && (tenant == None || tenant == Some(rows[id].tenant))
        && (apiKey.Some? ==> rows[id].apiKey == apiKey)
        && (apiKey.None? && user.Some? ==> rows[id].apiKey == None && rows[id].user == user)
        && (rows[id].expires.Some? ==> now <= rows[id].expires.value)
    {
      if id !in rows || (tenant.Some? && rows[id].tenant != tenant.value) {
        return None;
      }
      if !BelongsToCaller(rows[id], apiKey, user) {
        return None;
      }
      if rows[id].expires.Some? && now > rows[id].expires.value {
        return None;
      }
      session := Some(rows[id]);
    }

    /**
     Extends the caller's own row, or inserts one for an unknown id; refuses a malformed id or one bound to
     another.
     */
    method ResurrectSession(id: SessionId, p: Caller, now: Time, later: Time) returns (session: Option<Row>)
      requires Valid(now) && now <= later
      modifies this`rows, this`nextPk
      ensures Valid(later)
      ensures session.None? <==> !Printed(id) || !HasPrincipal(p) || BoundToAnother(old(rows), id, p)
      ensures session.None? ==> rows == old(rows) && nextPk == old(nextPk)
      ensures session.Some? ==>
        && OwnedSql(session.value, p) && rows == old(rows)[id := session.value]
        && session.value.expires == Some(now + LIFETIME) && session.value.lastAccessed == later
        && (old(id in rows) ==> SameBinding(session.value, old(rows)[id]) && nextPk == old(nextPk))
    {
      MintedIsPrinted(id);
      if !Minted(id) || !HasPrincipal(p) {
        return None;
      }
      var row := OwnedRow(rows, id, p);
      if row.None? {
        var created := CreateSession(id, p, now, later);
        if created.Ok? {
          return Some(created.value);
        }
        row := OwnedRow(rows, id, p);
        if row.None? {
          return None;
        }
      }
      WriteKeepsRows(rows, nextPk, id, Extended(row.value, now, later), later);
      rows := rows[id := Extended(row.value, now, later)];
      session := Some(rows[id]);
    }

    /**
     A non-initialize request with this session header. With a database and a caller that has a
     principal, it is a 404 exactly when the id is malformed or bound to another principal or
     tenant: never for the caller's own expired row, never for an unknown well-formed id. The
     extension's commit may fail; the debounce has been marked by then.
     */
    method ApplySessionLifecycle(header: Option<SessionId>, databaseUp: bool, p: Caller, now: Time, later: Time,
                                 commits: bool)
      returns (verdict: Verdict)
      requires Valid(now) && now <= later && HasPrincipal(p)
      modifies this
      ensures Valid(later)
      ensures verdict.Passthrough? <==> header.None? || header.value == ""
      ensures header.Some? && header.value != "" && databaseUp ==>
        (verdict.NotFound404? <==> !Printed(header.value) || BoundToAnother(old(rows), header.value, p))
      ensures header.Some? && header.value != "" && !databaseUp ==> verdict.NotFound404?
      ensures verdict.Raised? || verdict.Serve? ==>
        (verdict.Raised? <==> old(Due(lastFired, header.value, later)) && !commits)
      ensures verdict.Serve? ==>
        OwnedSql(verdict.row, p) && header.value in rows && SameBinding(rows[header.value], verdict.row)
      ensures verdict.Passthrough? || verdict.NotFound404? ==> rows == old(rows) && lastFired == old(lastFired)
      ensures verdict.Serve? || verdict.Raised? ==>
        var id := header.value;
        var due := old(Due(lastFired, id, later));
        && lastFired == (if due then old(lastFired)[id := later] else old(lastFired))
        && id in rows
        && if due && commits then rows[id].expires == Some(later + LIFETIME) && rows[id].lastAccessed == later
           else if Read(old(rows), id, Some(p.tenant), p.apiKey, p.user, now).Some? then rows == old(rows)
           else rows[id].expires == Some(now + LIFETIME) && rows[id].lastAccessed == later
      ensures forall id :: id in old(rows) && header != Some(id) ==> id in rows && rows[id] == old(rows)[id]
    {
      if header.None? || header.value == "" {
        return Passthrough;
      }
      if !databaseUp {
        return NotFound404;
      }
      var id := header.value;
      OwnedIsBelongs(rows, id, p);
      MintedIsPrinted(id);
      var session := GetSession(id, Some(p.tenant), p.apiKey, p.user, now);
      if session.None? {
        session := ResurrectSession(id, p, now, later);
      } else {
        assert forall k :: k in rows ==> rows[k].lastAccessed <= later;
      }
      if session.None? {
        return NotFound404;
      }
      var raised := ExtendIfDue(id, session.value, later, commits);
      verdict := if raised then Raised else Serve(session.value);
    }

    /**
     Pushes the expiry of the row in hand out again, at most once per debounce window; the mark stays if the
     commit fails.
     */
    method ExtendIfDue(id: SessionId, session: Row, now: Time, commits: bool) returns (raised: bool)
      requires Valid(now) && id in rows && rows[id] == session
      modifies this`rows, this`lastFired
      ensures Valid(now)
      ensures raised <==> old(Due(lastFired, id, now)) && !commits
      ensures lastFired == if old(Due(lastFired, id, now)) then old(lastFired)[id := now] else old(lastFired)
      ensures rows == if old(Due(lastFired, id, now)) && commits then old(rows)[id := Extended(session, now, now)]
        else old(rows)
    {
      if Due(lastFired, id, now) {
        lastFired := lastFired[id := now];
        if !commits {
          return true;
        }
        WriteKeepsRows(rows, nextPk, id, Extended(session, now, now), now);
        rows := rows[id := Extended(session, now, now)];
      }
      raised := false;
    }

    /** Bumps last access only; the expiry stays. */
    method UpdateSessionData(id: SessionId, tenant: Option<string>, now: Time) returns (updated: bool)
      requires Valid(now)
      modifies this`rows
      ensures Valid(now)
      ensures updated <==>
        old(id in rows && (tenant.Some? ==> rows[id].tenant == tenant.value) && !Expired(rows[id], now))
      ensures rows == if updated then old(rows)[id := old(rows)[id].(lastAccessed := now)] else old(rows)
    {
      var session := GetSession(id, tenant, None, None, now);
      if session.None? {
        return false;
      }
      rows := rows[id := session.value.(lastAccessed := now)];
      updated := true;
    }

    /** Deletes what nobody has accessed for 48 hours; every such row has been expired for over 24. */
    method CleanupExpiredSessions(now: Time) returns (count: nat)
      requires Valid(now)
      modifies this`rows
      ensures Valid(now) && rows == Reap(old(rows), now) && count == |old(rows).Keys| - |rows.Keys|
      ensures forall id :: id in rows <==> id in old(rows) && old(rows)[id].lastAccessed >= now - 48.0 * 3600.0
      ensures forall id :: id in old(rows) && id !in rows ==> now - old(rows)[id].expires.value > LIFETIME
    {
      var stale := set id | id in rows && rows[id].lastAccessed < now - REAP_AFTER;
      count := |stale|;
      assert (rows - stale).Keys == rows.Keys - stale;
      assert rows - stale == Reap(rows, now);
      rows := rows - stale;
    }
  }
}
