/**
 N workers, each with its own registry, joined by the LISTEN/NOTIFY broker.
 A fan-out or a revocation is a task that gives way to other steps between
 any two sends or closes; a published message is one undelivered pair per worker.
 */
module Cluster {
  import opened Options
  import opened ConnectionRegistry

  type WorkerId = nat
  type MsgId = nat

  datatype Kind = Event(exclude: Option<ClientId>) | Revocation

  datatype Message = Message(home: WorkerId, origin: string, tenant: TenantKey, kind: Kind)

  /** Message `msg` on worker `worker`. */
  datatype Slot = Slot(msg: MsgId, worker: WorkerId)

  /**
   A running fan-out or revocation: who is still to be served, whose send failed, and whether a send or
   close has raised past the handlers. The sends of a fan-out go on after that, but nobody is evicted
   and nothing is published; a revocation is over.
   */
  datatype Task = Task(waiting: set<ClientId>, failed: set<ClientId>, raised: bool)

  /** One successful send, with the tenant of the registration it went to. */
  datatype Receipt = Receipt(slot: Slot, client: ClientId, tenant: TenantKey)

  datatype Cluster = Cluster(
    origins: seq<string>,
    regs: seq<Registry>,
    messages: map<MsgId, Message>,
    tasks: map<Slot, Task>,
    inFlight: set<Slot>,
    notifications: nat,
    log: seq<Receipt>)

  datatype Step =
    | Local(worker: WorkerId, op: Op)
    | Originate(slot: Slot, tenant: TenantKey, kind: Kind)
    | Send(slot: Slot, client: ClientId, ok: bool)
    | Close(slot: Slot, client: ClientId)
    | Raise(slot: Slot, client: ClientId)
    | Sweep(slot: Slot)
    | Finish(slot: Slot, brokerUp: bool)
    | Receive(slot: Slot)
    | Lose(slot: Slot)

  predicate Running(s: Cluster, slot: Slot) {
    slot in s.tasks && slot.msg in s.messages && slot.worker < |s.regs|
  }

  predicate Enabled(s: Cluster, step: Step) {
    match step
    case Local(w, _) => w < |s.regs|
    case Originate(slot, t, _) => slot.worker < |s.regs| == |s.origins| && slot.msg !in s.messages && t != ""
    case Send(slot, c, _) => Running(s, slot) && s.messages[slot.msg].kind.Event? && c in s.tasks[slot].waiting
    case Close(slot, c) => Running(s, slot) && s.messages[slot.msg].kind.Revocation? && c in s.tasks[slot].waiting
    case Raise(slot, c) => Running(s, slot) && c in s.tasks[slot].waiting && c in s.regs[slot.worker].active
    case Sweep(slot) => Running(s, slot) && s.tasks[slot].waiting == {} && s.tasks[slot].failed != {}
      && !s.tasks[slot].raised
    case Finish(slot, _) => Running(s, slot) && s.tasks[slot].waiting == {}
      && (s.tasks[slot].failed == {} || s.tasks[slot].raised)
    case Receive(slot) => slot in s.inFlight && slot.msg in s.messages && slot.worker < |s.regs| == |s.origins|
    case Lose(slot) => slot in s.inFlight
  }

  function Audience(r: Registry, m: Message): set<ClientId> {
    Targets(r, m.tenant, if m.kind.Event? then m.kind.exclude else None)
  }

  function AllSlots(msg: MsgId, workers: nat): set<Slot> {
    set w: nat | w < workers :: Slot(msg, w)
  }

  /** The origin-echo guard. */
  predicate IsEcho(s: Cluster, slot: Slot)
    requires slot.msg in s.messages && slot.worker < |s.origins|
  {
    var origin := s.messages[slot.msg].origin;
    origin != "" && origin == s.origins[slot.worker]
  }

  function Next(s: Cluster, step: Step): Cluster
    requires Enabled(s, step)
  {
    match step
    case Local(w, op) => s.(regs := s.regs[w := ConnectionRegistry.Step(s.regs[w], op)])
    case Originate(slot, t, kind) =>
      var m := Message(slot.worker, s.origins[slot.worker], t, kind);
      s.(messages := s.messages[slot.msg := m],
         tasks := s.tasks[slot := Task(Audience(s.regs[slot.worker], m), {}, false)])
    case Send(slot, c, ok) =>
      var r, task := s.regs[slot.worker], s.tasks[slot];
      if ok && c in r.active then
        s.(tasks := s.tasks[slot := task.(waiting := task.waiting - {c})],
           log := s.log + [Receipt(slot, c, TenantOf(AuthOf(r, c)))])
      else
        s.(tasks := s.tasks[slot := task.(waiting := task.waiting - {c}, failed := task.failed + {c})])
    case Close(slot, c) =>
      var w, task := slot.worker, s.tasks[slot];
      s.(regs := s.regs[w := Disconnect(s.regs[w], c, None)],
         tasks := s.tasks[slot := task.(waiting := task.waiting - {c})])
    case Raise(slot, c) =>
      var task := s.tasks[slot];
      var left := if s.messages[slot.msg].kind.Event? then task.waiting - {c} else {};
      s.(tasks := s.tasks[slot := task.(waiting := left, raised := true)])
    case Sweep(slot) =>
      var w, task := slot.worker, s.tasks[slot];
      s.(regs := s.regs[w := Evict(s.regs[w], task.failed)],
         tasks := s.tasks[slot := task.(failed := {})])
    case Finish(slot, brokerUp) =>
      var publish := s.messages[slot.msg].home == slot.worker && |s.regs| > 1 && brokerUp && !s.tasks[slot].raised;
      s.(tasks := s.tasks - {slot},
         inFlight := if publish then s.inFlight + AllSlots(slot.msg, |s.regs|) else s.inFlight,
         notifications := if publish then s.notifications + 1 else s.notifications)
    case Receive(slot) =>
      var rest := s.(inFlight := s.inFlight - {slot});
      if IsEcho(s, slot) then rest
      else rest.(tasks := s.tasks[slot := Task(Audience(s.regs[slot.worker], s.messages[slot.msg]), {}, false)])
    case Lose(slot) => s.(inFlight := s.inFlight - {slot})
  }

  ghost predicate Legal(s: Cluster, steps: seq<Step>)
    decreases |steps|
  {
    steps == [] || (Enabled(s, steps[0]) && Legal(Next(s, steps[0]), steps[1..]))
  }

  ghost function After(s: Cluster, steps: seq<Step>): Cluster
    requires Legal(s, steps)
    decreases |steps|
  {
    if steps == [] then s else After(Next(s, steps[0]), steps[1..])
  }

  // ------------------------------------------------------------ invariant

  /** Every worker has its own non-empty origin. */
  ghost predicate Wired(origins: seq<string>, workers: nat) {
    && |origins| == workers
    && (forall v, w :: 0 <= v < w < |origins| ==> origins[v] != origins[w])
    && (forall w :: 0 <= w < |origins| ==> origins[w] != "")
  }

  ghost predicate KnownMessages(messages: map<MsgId, Message>, origins: seq<string>) {
    forall id :: id in messages ==>
      messages[id].home < |origins| && messages[id].origin == origins[messages[id].home] && messages[id].tenant != ""
  }

  ghost predicate KnownReceipts(messages: map<MsgId, Message>, log: seq<Receipt>) {
    forall i :: 0 <= i < |log| ==> log[i].slot.msg in messages
  }

  /** While its home task runs a message is nowhere else, and a slot is never both undelivered and running. */
  ghost predicate KnownSlots(messages: map<MsgId, Message>, running: set<Slot>, inFlight: set<Slot>, workers: nat) {
    && (forall slot :: slot in running + inFlight ==> slot.msg in messages && slot.worker < workers)
    && (forall slot, home ::
          (slot in running + inFlight && home in running && home.msg == slot.msg
            && home.worker == messages[slot.msg].home) ==>
          slot == home && slot !in inFlight)
    && running !! inFlight
  }

  ghost predicate Relaying(s: Cluster) {
    && Wired(s.origins, |s.regs|)
    && KnownMessages(s.messages, s.origins)
    && KnownReceipts(s.messages, s.log)
    && KnownSlots(s.messages, s.tasks.Keys, s.inFlight, |s.regs|)
  }

  lemma EchoIsHome(s: Cluster, slot: Slot)
    requires Wired(s.origins, |s.regs|) && KnownMessages(s.messages, s.origins)
    requires slot.msg in s.messages && slot.worker < |s.regs|
    ensures IsEcho(s, slot) <==> slot.worker == s.messages[slot.msg].home
  {
  }

  ghost predicate WellKept(s: Cluster) {
    forall w :: 0 <= w < |s.regs| ==> ConnectionRegistry.Inv(s.regs[w])
  }

  ghost predicate Inv(s: Cluster) {
    Relaying(s) && WellKept(s)
  }

  lemma NextKeepsInv(s: Cluster, step: Step)
    requires Inv(s) && Enabled(s, step)
    ensures Inv(Next(s, step))
  {
    NextKeepsWellKept(s, step);
    NextKeepsRelaying(s, step);
  }

  lemma NextKeepsRelaying(s: Cluster, step: Step)
    requires Relaying(s) && Enabled(s, step)
    ensures Relaying(Next(s, step))
  {
    match step
    case Originate(_, _, _) => OriginateKeepsRelaying(s, step);
    case Finish(_, _) => FinishKeepsRelaying(s, step);
    case Receive(_) => ReceiveKeepsRelaying(s, step);
    case Send(slot, c, ok) => SendKeepsRelaying(s, slot, c, ok);
    case _ => OtherKeepsRelaying(s, step);
  }

  lemma SendKeepsRelaying(s: Cluster, slot: Slot, c: ClientId, ok: bool)
    requires Relaying(s) && Enabled(s, Send(slot, c, ok))
    ensures Relaying(Next(s, Send(slot, c, ok)))
  {
    assert Next(s, Send(slot, c, ok)).tasks.Keys == s.tasks.Keys;
  }

  lemma OtherKeepsRelaying(s: Cluster, step: Step)
    requires Relaying(s) && Enabled(s, step) && (step.Local? || step.Lose? || step.Close? || step.Raise? || step.Sweep?)
    ensures Relaying(Next(s, step))
  {
    assert Next(s, step).tasks.Keys == s.tasks.Keys;
  }

  lemma OriginateKeepsRelaying(s: Cluster, step: Step)
    requires Relaying(s) && Enabled(s, step) && step.Originate?
    ensures Relaying(Next(s, step))
  {
    assert Next(s, step).tasks.Keys == s.tasks.Keys + {step.slot};
  }

  lemma FinishKeepsRelaying(s: Cluster, step: Step)
    requires Relaying(s) && Enabled(s, step) && step.Finish?
    ensures Relaying(Next(s, step))
  {
    assert Next(s, step).tasks.Keys == s.tasks.Keys - {step.slot};
  }

  lemma ReceiveKeepsRelaying(s: Cluster, step: Step)
    requires Relaying(s) && Enabled(s, step) && step.Receive?
    ensures Relaying(Next(s, step))
  {
    var slot := step.slot;
    assert slot.worker == s.messages[slot.msg].home ==> IsEcho(s, slot);
    assert !IsEcho(s, slot) ==> Next(s, step).tasks.Keys == s.tasks.Keys + {slot};
  }

  lemma NextKeepsWellKept(s: Cluster, step: Step)
    requires Inv(s) && Enabled(s, step)
    ensures WellKept(Next(s, step))
  {
    match step
    case Local(w, op) => StepKeepsInv(s.regs[w], op);
    case Close(slot, c) => StepKeepsInv(s.regs[slot.worker], OpDisconnect(c, None));
    case Sweep(slot) => EvictKeepsInv(s.regs[slot.worker], s.tasks[slot].failed);
    case _ =>
  }

  lemma {:induction false} RunKeepsInv(s: Cluster, steps: seq<Step>)
    requires Inv(s) && Legal(s, steps)
    ensures Inv(After(s, steps))
    decreases |steps|
  {
    if steps != [] {
      NextKeepsInv(s, steps[0]);
      RunKeepsInv(Next(s, steps[0]), steps[1..]);
    }
  }

  // ----------------------------------------------- deliveries are conserved

  function Received(log: seq<Receipt>, slot: Slot, c: ClientId): nat {
    if log == [] then 0
    else
      var last := log[|log| - 1];
      Received(log[..|log| - 1], slot, c) + if last.slot == slot && last.client == c then 1 else 0
  }

  lemma ReceivedGrows(log: seq<Receipt>, r: Receipt, slot: Slot, c: ClientId)
    ensures Received(log + [r], slot, c) == Received(log, slot, c) + if r.slot == slot && r.client == c then 1 else 0
  {
  }

  lemma {:induction false} UnknownNeverReceived(messages: map<MsgId, Message>, log: seq<Receipt>, slot: Slot,
                                                c: ClientId)
    requires KnownReceipts(messages, log) && slot.msg !in messages
    ensures Received(log, slot, c) == 0
    decreases |log|
  {
    if log != [] {
      UnknownNeverReceived(messages, log[..|log| - 1], slot, c);
    }
  }

  /** The home task of the message is running and may yet publish it. */
  predicate ToPublish(s: Cluster, msg: MsgId)
    requires msg in s.messages
  {
    var home := Slot(msg, s.messages[msg].home);
    home in s.tasks && !s.tasks[home].raised
  }

  /** Message `slot.msg` is still to be handled on `slot.worker`: on its way, or to be published. */
  predicate Unhandled(s: Cluster, slot: Slot) {
    slot.msg in s.messages && slot.worker != s.messages[slot.msg].home && (slot in s.inFlight || ToPublish(s, slot.msg))
  }

  /**
   What the cluster still owes a client: one handling of the message, while it is unhandled there or the
   client waits.
   */
  function Owed(s: Cluster, slot: Slot, c: ClientId): nat {
    if Unhandled(s, slot) || (slot in s.tasks && c in s.tasks[slot].waiting) then 1 else 0
  }

  /** What a step leaves alone it does not owe differently. */
  lemma OwedSame(s: Cluster, n: Cluster, slot: Slot, c: ClientId)
    requires n.messages == s.messages && n.inFlight == s.inFlight && n.tasks.Keys == s.tasks.Keys
    requires slot in s.tasks ==> (c in n.tasks[slot].waiting <==> c in s.tasks[slot].waiting)
    requires slot.msg in s.messages && slot.worker != s.messages[slot.msg].home ==>
      (ToPublish(n, slot.msg) <==> ToPublish(s, slot.msg))
    ensures Owed(n, slot, c) == Owed(s, slot, c)
    ensures Unhandled(n, slot) <==> Unhandled(s, slot)
  {
  }

  lemma OriginatePaysOnce(s: Cluster, step: Step, slot: Slot, c: ClientId)
    requires Relaying(s) && Enabled(s, step) && step.Originate?
    ensures var n := Next(s, step);
            slot.msg in n.messages ==>
              Received(n.log, slot, c) + Owed(n, slot, c)
              <= if slot.msg in s.messages then Received(s.log, slot, c) + Owed(s, slot, c) else 1
  {
    if slot.msg !in s.messages {
      UnknownNeverReceived(s.messages, s.log, slot, c);
    }
  }

  /** Between two states the account of a client does not grow. */
  predicate NoDearer(s: Cluster, n: Cluster, slot: Slot, c: ClientId) {
    Received(n.log, slot, c) + Owed(n, slot, c) <= Received(s.log, slot, c) + Owed(s, slot, c)
  }

  lemma SendPaysOnce(s: Cluster, at: Slot, d: ClientId, ok: bool, slot: Slot, c: ClientId)
    requires KnownSlots(s.messages, s.tasks.Keys, s.inFlight, |s.regs|) && Enabled(s, Send(at, d, ok))
    ensures NoDearer(s, Next(s, Send(at, d, ok)), slot, c)
  {
  }

  lemma FinishPaysOnce(s: Cluster, at: Slot, brokerUp: bool, slot: Slot, c: ClientId)
    requires Enabled(s, Finish(at, brokerUp))
    ensures NoDearer(s, Next(s, Finish(at, brokerUp)), slot, c)
  {
  }

  lemma ReceivePaysOnce(s: Cluster, at: Slot, slot: Slot, c: ClientId)
    requires Wired(s.origins, |s.regs|) && KnownMessages(s.messages, s.origins) && Enabled(s, Receive(at))
    ensures NoDearer(s, Next(s, Receive(at)), slot, c)
  {
  }

  lemma LosePaysOnce(s: Cluster, at: Slot, slot: Slot, c: ClientId)
    requires Enabled(s, Lose(at))
    ensures NoDearer(s, Next(s, Lose(at)), slot, c)
  {
  }

  lemma LocalPaysOnce(s: Cluster, step: Step, slot: Slot, c: ClientId)
    requires Enabled(s, step) && (step.Local? || step.Close? || step.Raise? || step.Sweep?)
    ensures NoDearer(s, Next(s, step), slot, c)
  {
  }

  /** No step but the origination makes a client owed; a send pays exactly what it owed. */
  lemma DebtIsPaidOnce(s: Cluster, step: Step, slot: Slot, c: ClientId)
    requires Relaying(s) && Enabled(s, step)
    ensures var n := Next(s, step);
            slot.msg in n.messages ==>
              Received(n.log, slot, c) + Owed(n, slot, c)
              <= if slot.msg in s.messages then Received(s.log, slot, c) + Owed(s, slot, c) else 1
  {
    match step
    case Originate(_, _, _) => OriginatePaysOnce(s, step, slot, c);
    case Send(at, d, ok) => SendPaysOnce(s, at, d, ok, slot, c);
    case Finish(at, brokerUp) => FinishPaysOnce(s, at, brokerUp, slot, c);
    case Receive(at) => ReceivePaysOnce(s, at, slot, c);
    case Lose(at) => LosePaysOnce(s, at, slot, c);
    case _ => LocalPaysOnce(s, step, slot, c);
  }

  lemma {:induction false} DebtOverRun(s: Cluster, steps: seq<Step>, slot: Slot, c: ClientId)
    requires Inv(s) && Legal(s, steps)
    requires slot.msg in s.messages ==> Received(s.log, slot, c) + Owed(s, slot, c) <= 1
    ensures var n := After(s, steps);
            slot.msg in n.messages ==> Received(n.log, slot, c) + Owed(n, slot, c) <= 1
    decreases |steps|
  {
    if steps != [] {
      DebtIsPaidOnce(s, steps[0], slot, c);
      NextKeepsInv(s, steps[0]);
      DebtOverRun(Next(s, steps[0]), steps[1..], slot, c);
    }
  }

  /** A cluster at boot: nothing sent, nothing running, empty registries. */
  ghost predicate Booted(s: Cluster) {
    && Wired(s.origins, |s.regs|)
    && (forall w :: 0 <= w < |s.regs| ==> s.regs[w] == EMPTY)
    && s.messages == map[] && s.tasks == map[] && s.inFlight == {} && s.notifications == 0 && s.log == []
  }

  lemma BootedIsInv(s: Cluster)
    requires Booted(s)
    ensures Inv(s)
  {
  }

  /**
   In every run of any number of workers, whatever is reconnected, lost or failed, no worker sends a client
   a message twice.
   */
  lemma AtMostOnce(s: Cluster, steps: seq<Step>, slot: Slot, c: ClientId)
    requires Booted(s) && Legal(s, steps)
    ensures Received(After(s, steps).log, slot, c) <= 1
  {
    BootedIsInv(s);
    DebtOverRun(s, steps, slot, c);
    RunKeepsInv(s, steps);
    var n := After(s, steps);
    if slot.msg !in n.messages {
      UnknownNeverReceived(n.messages, n.log, slot, c);
    }
  }

  // ----------------------------------------------------- exactly once

  /**
   A step that lets one client down: its send fails; a send or close raises for it or for anyone of its
   revocation; the home task of a message that it is to get elsewhere raises for the first time, or its publish
   fails; or the notification is lost.
   */
  predicate Fails(s: Cluster, step: Step, slot: Slot, c: ClientId) {
    && slot.msg in s.messages
    && var m := s.messages[slot.msg];
       match step
       case Send(at, d, ok) => at == slot && d == c && !ok
       case Raise(at, d) =>
         if at == slot then d == c || m.kind.Revocation? else at == Slot(slot.msg, m.home) && ToPublish(s, slot.msg)
       case Finish(at, brokerUp) =>
         at == Slot(slot.msg, m.home) && at != slot && ToPublish(s, slot.msg) && !brokerUp
       case Lose(at) => at == slot && slot.worker != m.home
       case _ => false
  }

  /** The run neither fails the client nor unregisters it from the tenant, at any point. */
  ghost predicate Faithful(s: Cluster, steps: seq<Step>, slot: Slot, t: TenantKey, c: ClientId)
    requires Legal(s, steps)
    decreases |steps|
  {
    && slot.worker < |s.regs| && Carries(s.regs[slot.worker], t, c)
    && (steps == [] || (!Fails(s, steps[0], slot, c) && Faithful(Next(s, steps[0]), steps[1..], slot, t, c)))
  }

  predicate IsFor(m: Message, t: TenantKey, c: ClientId) {
    m.tenant == t && m.kind.Event? && m.kind.exclude != Some(c)
  }

  /** Nothing of the message is running or undelivered. */
  ghost predicate Quiet(s: Cluster, msg: MsgId) {
    && (forall slot :: slot in s.tasks ==> slot.msg != msg)
    && (forall slot :: slot in s.inFlight ==> slot.msg != msg)
  }

  lemma RegisteredIsTargeted(r: Registry, m: Message, c: ClientId)
    requires ConnectionRegistry.Inv(r) && Carries(r, m.tenant, c) && (m.kind.Revocation? || m.kind.exclude != Some(c))
    ensures c in Audience(r, m) && c in r.active
  {
  }

  /** What a registered client of the message's audience has received plus what it is owed is one. */
  ghost predicate Squared(s: Cluster, slot: Slot, t: TenantKey, c: ClientId) {
    slot.msg in s.messages && IsFor(s.messages[slot.msg], t, c) ==> Received(s.log, slot, c) + Owed(s, slot, c) == 1
  }

  lemma OriginateKeepsSquared(s: Cluster, step: Step, slot: Slot, t: TenantKey, c: ClientId)
    requires Relaying(s) && Enabled(s, step) && step.Originate? && slot.worker < |s.regs|
    requires ConnectionRegistry.Inv(s.regs[slot.worker]) && Carries(s.regs[slot.worker], t, c)
    requires Squared(s, slot, t, c)
    ensures Squared(Next(s, step), slot, t, c)
  {
    var n := Next(s, step);
    if slot.msg == step.slot.msg {
      UnknownNeverReceived(s.messages, s.log, slot, c);
      if IsFor(n.messages[slot.msg], t, c) && slot == step.slot {
        RegisteredIsTargeted(s.regs[slot.worker], n.messages[slot.msg], c);
      }
    } else {
      assert Owed(n, slot, c) == Owed(s, slot, c);
    }
  }

  /** The message is for the client, whose account is square. */
  ghost predicate SquaredFor(s: Cluster, slot: Slot, t: TenantKey, c: ClientId) {
    slot.msg in s.messages && IsFor(s.messages[slot.msg], t, c) && Squared(s, slot, t, c)
  }

  lemma SendKeepsSquared(s: Cluster, at: Slot, d: ClientId, ok: bool, slot: Slot, t: TenantKey, c: ClientId)
    requires KnownSlots(s.messages, s.tasks.Keys, s.inFlight, |s.regs|) && Enabled(s, Send(at, d, ok))
    requires slot == at && c == d && ok ==> c in s.regs[slot.worker].active
    requires Squared(s, slot, t, c)
    ensures !Fails(s, Send(at, d, ok), slot, c) ==> Squared(Next(s, Send(at, d, ok)), slot, t, c)
    ensures SquaredFor(s, slot, t, c) && Fails(s, Send(at, d, ok), slot, c) ==>
      !Squared(Next(s, Send(at, d, ok)), slot, t, c)
  {
  }

  lemma ReceiveOwesSame(s: Cluster, at: Slot, slot: Slot, c: ClientId)
    requires Wired(s.origins, |s.regs|) && KnownMessages(s.messages, s.origins) && Enabled(s, Receive(at)) && at != slot
    ensures Owed(Next(s, Receive(at)), slot, c) == Owed(s, slot, c)
  {
    EchoIsHome(s, at);
  }

  lemma ReceiveKeepsSquared(s: Cluster, at: Slot, slot: Slot, t: TenantKey, c: ClientId)
    requires Relaying(s) && Enabled(s, Receive(at)) && slot.worker < |s.regs|
    requires ConnectionRegistry.Inv(s.regs[slot.worker]) && Carries(s.regs[slot.worker], t, c)
    requires Squared(s, slot, t, c)
    ensures Squared(Next(s, Receive(at)), slot, t, c)
  {
    if slot != at {
      ReceiveOwesSame(s, at, slot, c);
    } else if slot.msg in s.messages && IsFor(s.messages[slot.msg], t, c) {
      EchoIsHome(s, at);
      RegisteredIsTargeted(s.regs[slot.worker], s.messages[slot.msg], c);
    }
  }

  lemma FinishKeepsSquared(s: Cluster, at: Slot, brokerUp: bool, slot: Slot, t: TenantKey, c: ClientId)
    requires Enabled(s, Finish(at, brokerUp)) && slot.worker < |s.regs|
    requires Squared(s, slot, t, c) && !Fails(s, Finish(at, brokerUp), slot, c)
    ensures Squared(Next(s, Finish(at, brokerUp)), slot, t, c)
  {
  }

  lemma UnpublishedIsNotOwed(s: Cluster, at: Slot, slot: Slot, t: TenantKey, c: ClientId)
    requires KnownSlots(s.messages, s.tasks.Keys, s.inFlight, |s.regs|) && Enabled(s, Finish(at, false))
    requires SquaredFor(s, slot, t, c) && Fails(s, Finish(at, false), slot, c)
    ensures !Squared(Next(s, Finish(at, false)), slot, t, c)
  {
    assert at in s.tasks.Keys + s.inFlight;
    assert slot !in s.tasks.Keys && slot !in s.inFlight;
    assert Owed(s, slot, c) == 1;
  }

  lemma LoseKeepsSquared(s: Cluster, at: Slot, slot: Slot, t: TenantKey, c: ClientId)
    requires Relaying(s) && Enabled(s, Lose(at)) && Squared(s, slot, t, c)
    ensures !Fails(s, Lose(at), slot, c) ==> Squared(Next(s, Lose(at)), slot, t, c)
    ensures SquaredFor(s, slot, t, c) && Fails(s, Lose(at), slot, c) ==> !Squared(Next(s, Lose(at)), slot, t, c)
  {
  }

  lemma CloseKeepsSquared(s: Cluster, at: Slot, d: ClientId, slot: Slot, t: TenantKey, c: ClientId)
    requires Enabled(s, Close(at, d)) && Squared(s, slot, t, c)
    ensures Squared(Next(s, Close(at, d)), slot, t, c)
  {
  }

  lemma RaiseKeepsSquared(s: Cluster, at: Slot, d: ClientId, slot: Slot, t: TenantKey, c: ClientId)
    requires Relaying(s) && Enabled(s, Raise(at, d)) && Squared(s, slot, t, c)
    ensures !Fails(s, Raise(at, d), slot, c) ==> Squared(Next(s, Raise(at, d)), slot, t, c)
    ensures SquaredFor(s, slot, t, c) && Fails(s, Raise(at, d), slot, c) ==>
      !Squared(Next(s, Raise(at, d)), slot, t, c)
  {
    if !Fails(s, Raise(at, d), slot, c) {
      OwedSame(s, Next(s, Raise(at, d)), slot, c);
    }
  }

  lemma SweepKeepsSquared(s: Cluster, at: Slot, slot: Slot, t: TenantKey, c: ClientId)
    requires Enabled(s, Sweep(at)) && Squared(s, slot, t, c)
    ensures Squared(Next(s, Sweep(at)), slot, t, c)
  {
  }

  /** A step keeps the account of a registered client square if and only if it does not fail the client. */
  lemma DebtIsKeptIff(s: Cluster, step: Step, slot: Slot, t: TenantKey, c: ClientId)
    requires Inv(s) && Enabled(s, step) && slot.worker < |s.regs|
    requires Carries(s.regs[slot.worker], t, c) && Squared(s, slot, t, c)
    ensures !Fails(s, step, slot, c) ==> Squared(Next(s, step), slot, t, c)
    ensures SquaredFor(s, slot, t, c) ==> (Squared(Next(s, step), slot, t, c) <==> !Fails(s, step, slot, c))
  {
    match step
    case Originate(_, _, _) => OriginateKeepsSquared(s, step, slot, t, c);
    case Send(at, d, ok) => SendKeepsSquared(s, at, d, ok, slot, t, c);
    case Receive(at) => ReceiveKeepsSquared(s, at, slot, t, c);
    case Finish(at, brokerUp) =>
      if !Fails(s, step, slot, c) {
        FinishKeepsSquared(s, at, brokerUp, slot, t, c);
      } else if SquaredFor(s, slot, t, c) {
        UnpublishedIsNotOwed(s, at, slot, t, c);
      }
    case Lose(at) => LoseKeepsSquared(s, at, slot, t, c);
    case Close(at, d) => CloseKeepsSquared(s, at, d, slot, t, c);
    case Raise(at, d) => RaiseKeepsSquared(s, at, d, slot, t, c);
    case Sweep(at) => SweepKeepsSquared(s, at, slot, t, c);
    case Local(w, op) => OwedSame(s, Next(s, step), slot, c);
  }

  /**
   Once all that is in flight for an event has been consumed, every client that was registered
   under the tenant throughout, was not excluded, and was failed by no send, raise, publish or
   notification, has received the event exactly once, on whichever worker it is.
   */
  lemma {:induction false} ExactlyOnce(s: Cluster, steps: seq<Step>, slot: Slot, t: TenantKey, c: ClientId)
    requires Inv(s) && Legal(s, steps) && Faithful(s, steps, slot, t, c)
    requires Squared(s, slot, t, c)
    ensures var n := After(s, steps);
            slot.msg in n.messages && IsFor(n.messages[slot.msg], t, c) && Quiet(n, slot.msg) ==>
              Received(n.log, slot, c) == 1
    decreases |steps|
  {
    if steps != [] {
      DebtIsKeptIff(s, steps[0], slot, t, c);
      NextKeepsInv(s, steps[0]);
      ExactlyOnce(Next(s, steps[0]), steps[1..], slot, t, c);
    }
  }

  /** A client that an event excludes is neither waiting for it nor has it received it, on any worker. */
  ghost predicate Spares(s: Cluster, slot: Slot, c: ClientId) {
    slot.msg in s.messages && s.messages[slot.msg].kind == Event(Some(c)) ==>
      Received(s.log, slot, c) == 0 && (slot in s.tasks ==> c !in s.tasks[slot].waiting)
  }

  lemma OriginateSpares(s: Cluster, at: Slot, t: TenantKey, kind: Kind, slot: Slot, c: ClientId)
    requires KnownReceipts(s.messages, s.log) && Enabled(s, Originate(at, t, kind)) && Spares(s, slot, c)
    requires KnownSlots(s.messages, s.tasks.Keys, s.inFlight, |s.regs|)
    ensures Spares(Next(s, Originate(at, t, kind)), slot, c)
  {
    if slot.msg == at.msg {
      UnknownNeverReceived(s.messages, s.log, slot, c);
      assert slot in s.tasks ==> slot in s.tasks.Keys + s.inFlight;
    }
  }

  lemma SendSpares(s: Cluster, at: Slot, d: ClientId, ok: bool, slot: Slot, c: ClientId)
    requires Enabled(s, Send(at, d, ok)) && Spares(s, slot, c)
    ensures Spares(Next(s, Send(at, d, ok)), slot, c)
  {
    var n := Next(s, Send(at, d, ok));
    if n.log != s.log {
      ReceivedGrows(s.log, n.log[|s.log|], slot, c);
    }
  }

  lemma ReceiveSpares(s: Cluster, at: Slot, slot: Slot, c: ClientId)
    requires Enabled(s, Receive(at)) && Spares(s, slot, c)
    ensures Spares(Next(s, Receive(at)), slot, c)
  {
  }

  lemma RaiseSpares(s: Cluster, at: Slot, d: ClientId, slot: Slot, c: ClientId)
    requires Enabled(s, Raise(at, d)) && Spares(s, slot, c)
    ensures Spares(Next(s, Raise(at, d)), slot, c)
  {
  }

  lemma NextSpares(s: Cluster, step: Step, slot: Slot, c: ClientId)
    requires Relaying(s) && Enabled(s, step) && Spares(s, slot, c)
    ensures Spares(Next(s, step), slot, c)
  {
    match step
    case Originate(at, t, kind) => OriginateSpares(s, at, t, kind, slot, c);
    case Send(at, d, ok) => SendSpares(s, at, d, ok, slot, c);
    case Receive(at) => ReceiveSpares(s, at, slot, c);
    case Raise(at, d) => RaiseSpares(s, at, d, slot, c);
    case _ =>
  }

  /** Over any run the client that an event excludes is sent it by no worker. */
  lemma {:induction false} ExcludedNeverReceives(s: Cluster, steps: seq<Step>, slot: Slot, c: ClientId)
    requires Relaying(s) && Legal(s, steps) && Spares(s, slot, c)
    ensures Spares(After(s, steps), slot, c)
    decreases |steps|
  {
    if steps != [] {
      NextSpares(s, steps[0], slot, c);
      NextKeepsRelaying(s, steps[0]);
      ExcludedNeverReceives(Next(s, steps[0]), steps[1..], slot, c);
    }
  }

  // ------------------------------------------------- over all the workers

  /** How often a client has received a message, on whichever worker. */
  function ReceivedAnywhere(log: seq<Receipt>, msg: MsgId, c: ClientId): nat {
    if log == [] then 0
    else
      var last := log[|log| - 1];
      ReceivedAnywhere(log[..|log| - 1], msg, c) + if last.slot.msg == msg && last.client == c then 1 else 0
  }

  /** Every receipt of the message by the client is from worker `w`. */
  ghost predicate OnlyFrom(log: seq<Receipt>, msg: MsgId, c: ClientId, w: WorkerId) {
    forall i :: 0 <= i < |log| && log[i].slot.msg == msg && log[i].client == c ==> log[i].slot.worker == w
  }

  lemma {:induction false} OneWorkerCounts(log: seq<Receipt>, msg: MsgId, c: ClientId, w: WorkerId)
    requires OnlyFrom(log, msg, c, w)
    ensures ReceivedAnywhere(log, msg, c) == Received(log, Slot(msg, w), c)
    decreases |log|
  {
    if log != [] {
      OneWorkerCounts(log[..|log| - 1], msg, c, w);
    }
  }

  /** The id is registered on no other worker than `w`. */
  ghost predicate OnlyOn(s: Cluster, c: ClientId, w: WorkerId) {
    forall v :: 0 <= v < |s.regs| && c in s.regs[v].active ==> v == w
  }

  ghost predicate StaysOn(s: Cluster, steps: seq<Step>, c: ClientId, w: WorkerId)
    requires Legal(s, steps)
    decreases |steps|
  {
    OnlyOn(s, c, w) && (steps == [] || StaysOn(Next(s, steps[0]), steps[1..], c, w))
  }

  lemma NextOnlyFrom(s: Cluster, step: Step, msg: MsgId, c: ClientId, w: WorkerId)
    requires Enabled(s, step) && OnlyOn(s, c, w) && OnlyFrom(s.log, msg, c, w)
    ensures OnlyFrom(Next(s, step).log, msg, c, w)
  {
  }

  lemma {:induction false} RunOnlyFrom(s: Cluster, steps: seq<Step>, msg: MsgId, c: ClientId, w: WorkerId)
    requires Legal(s, steps) && StaysOn(s, steps, c, w) && OnlyFrom(s.log, msg, c, w)
    ensures OnlyFrom(After(s, steps).log, msg, c, w)
    decreases |steps|
  {
    if steps != [] {
      NextOnlyFrom(s, steps[0], msg, c, w);
      RunOnlyFrom(Next(s, steps[0]), steps[1..], msg, c, w);
    }
  }

  lemma NotYetReceived(s: Cluster, msg: MsgId, c: ClientId, w: WorkerId)
    requires Relaying(s) && msg !in s.messages
    ensures OnlyFrom(s.log, msg, c, w) && Received(s.log, Slot(msg, w), c) == 0
  {
    UnknownNeverReceived(s.messages, s.log, Slot(msg, w), c);
  }

  /**
   From before a message exists: a client registered on one worker at most, reconnecting as it likes,
   receives it once at most.
   */
  lemma AtMostOnceAnywhere(s: Cluster, steps: seq<Step>, msg: MsgId, c: ClientId, w: WorkerId)
    requires Inv(s) && msg !in s.messages && Legal(s, steps) && StaysOn(s, steps, c, w)
    ensures ReceivedAnywhere(After(s, steps).log, msg, c) <= 1
  {
    var n, slot := After(s, steps), Slot(msg, w);
    NotYetReceived(s, msg, c, w);
    RunOnlyFrom(s, steps, msg, c, w);
    OneWorkerCounts(n.log, msg, c, w);
    DebtOverRun(s, steps, slot, c);
    RunKeepsInv(s, steps);
    if msg !in n.messages {
      UnknownNeverReceived(n.messages, n.log, slot, c);
    }
  }

  /**
   And if it was registered there throughout and failed by nothing, it has received it exactly once, over
   all the workers.
   */
  lemma ExactlyOnceAnywhere(s: Cluster, steps: seq<Step>, slot: Slot, t: TenantKey, c: ClientId)
    requires Inv(s) && slot.msg !in s.messages && Legal(s, steps)
    requires Faithful(s, steps, slot, t, c) && StaysOn(s, steps, c, slot.worker)
    ensures var n := After(s, steps);
            slot.msg in n.messages && IsFor(n.messages[slot.msg], t, c) && Quiet(n, slot.msg) ==>
              ReceivedAnywhere(n.log, slot.msg, c) == 1
  {
    NotYetReceived(s, slot.msg, c, slot.worker);
    RunOnlyFrom(s, steps, slot.msg, c, slot.worker);
    OneWorkerCounts(After(s, steps).log, slot.msg, c, slot.worker);
    ExactlyOnce(s, steps, slot, t, c);
  }

  /** Two workers that both have the client `c` of tenant "a". */
  function TwoWorkers(c: ClientId): Cluster {
    var r := Connect(EMPTY, c, 0, TENANT_A);
    Cluster(["o", "p"], [r, r], map[], map[], {}, 0, [])
  }

  lemma TwoWorkersInv(c: ClientId)
    ensures Inv(TwoWorkers(c)) && Targets(Connect(EMPTY, c, 0, TENANT_A), "a", None) == {c}
  {
    OneClientInv(c);
    assert TwoWorkers(c).origins[0] != TwoWorkers(c).origins[1];
  }

  /** The same when the first worker has sent an event to `c` and published it. */
  function SentAtHome(c: ClientId): Cluster {
    TwoWorkers(c).(messages := map[0 := Message(0, "o", "a", Event(None))], inFlight := AllSlots(0, 2),
      notifications := 1,
                   log := [Receipt(Slot(0, 0), c, "a")])
  }

  lemma SendsAtHome(c: ClientId) returns (steps: seq<Step>)
    ensures Legal(TwoWorkers(c), steps) && After(TwoWorkers(c), steps) == SentAtHome(c)
  {
    TwoWorkersInv(c);
    var home, s0 := Slot(0, 0), TwoWorkers(c);
    var s1 := Next(s0, Originate(home, "a", Event(None)));
    assert s1.tasks == map[home := Task({c}, {}, false)] && {c} - {c} == {};
    var s2 := Next(s1, Send(home, c, true));
    assert s2.tasks == map[home := Task({}, {}, false)];
    assert Next(s2, Finish(home, true)) == SentAtHome(c);
    Cons(s2, Finish(home, true), []);
    Cons(s1, Send(home, c, true), [Finish(home, true)] + []);
    steps := [Originate(home, "a", Event(None))] + ([Send(home, c, true)] + ([Finish(home, true)] + []));
    Cons(s0, Originate(home, "a", Event(None)), [Send(home, c, true)] + ([Finish(home, true)] + []));
  }

  lemma SendsAtPeer(c: ClientId) returns (steps: seq<Step>)
    ensures Legal(SentAtHome(c), steps)
    ensures After(SentAtHome(c), steps).log == [Receipt(Slot(0, 0), c, "a"), Receipt(Slot(0, 1), c, "a")]
  {
    TwoWorkersInv(c);
    var peer, s0 := Slot(0, 1), SentAtHome(c);
    assert peer in AllSlots(0, 2);
    var s1 := Next(s0, Receive(peer));
    assert s1.tasks == map[peer := Task({c}, {}, false)];
    Cons(s1, Send(peer, c, true), []);
    steps := [Receive(peer)] + ([Send(peer, c, true)] + []);
    Cons(s0, Receive(peer), [Send(peer, c, true)] + []);
  }

  /** The condition is needed: an id registered on two workers receives the message on each. */
  lemma TwiceOnTwoWorkers(c: ClientId) returns (steps: seq<Step>)
    ensures Inv(TwoWorkers(c)) && Legal(TwoWorkers(c), steps)
    ensures ReceivedAnywhere(After(TwoWorkers(c), steps).log, 0, c) == 2
  {
    TwoWorkersInv(c);
    var front := SendsAtHome(c);
    var back := SendsAtPeer(c);
    Chain(TwoWorkers(c), front, back);
    steps := front + back;
    TwoReceipts(After(SentAtHome(c), back).log, 0, c);
  }

  lemma TwoReceipts(log: seq<Receipt>, msg: MsgId, c: ClientId)
    requires |log| == 2 && log[0].slot.msg == log[1].slot.msg == msg && log[0].client == log[1].client == c
    ensures ReceivedAnywhere(log, msg, c) == 2
  {
    assert log[..1][..0] == [] && ReceivedAnywhere(log[..1], msg, c) == 1;
  }

  // ------------------------------------------------------ tenant safety

  /** Whom a task may still act on: its own sends only, or the removals to come as well. */
  function Grip(m: Message, task: Task, removals: bool): set<ClientId> {
    if removals then task.waiting + task.failed else if m.kind.Event? then task.waiting else {}
  }

  predicate Gripped(s: Cluster, slot: Slot, c: ClientId, removals: bool) {
    slot in s.tasks && slot.msg in s.messages && c in Grip(s.messages[slot.msg], s.tasks[slot], removals)
  }

  /** Whoever a task may still act on is, if registered at all, registered under the task's tenant. */
  ghost predicate Held(s: Cluster, removals: bool) {
    forall slot, c :: Gripped(s, slot, c, removals) ==> HoldsOwn(s, slot, c)
  }

  predicate HoldsOwn(s: Cluster, slot: Slot, c: ClientId) {
    && slot.msg in s.messages && slot.worker < |s.regs|
    && (c in s.regs[slot.worker].auth ==> TenantOf(s.regs[slot.worker].auth[c]) == s.messages[slot.msg].tenant)
  }

  /** The step does not hand an id that a running task may still act on over to another tenant. */
  ghost predicate TenantStable(s: Cluster, step: Step, removals: bool) {
    step.Local? && step.op.OpConnect? ==>
      forall slot :: Gripped(s, slot, step.op.client, removals) && slot.worker == step.worker ==>
        TenantOf(step.op.auth) == s.messages[slot.msg].tenant
  }

  lemma AudienceIsOwn(r: Registry, m: Message, c: ClientId)
    requires ConnectionRegistry.Inv(r) && c in Audience(r, m)
    ensures Carries(r, m.tenant, c)
  {
  }

  lemma LocalKeepsHeldIff(s: Cluster, w: WorkerId, op: Op, removals: bool)
    requires Relaying(s) && Held(s, removals) && Enabled(s, Local(w, op))
    ensures Held(Next(s, Local(w, op)), removals) <==> TenantStable(s, Local(w, op), removals)
  {
    var n := Next(s, Local(w, op));
    forall slot, c | Gripped(s, slot, c, removals)
      ensures Gripped(n, slot, c, removals)
      ensures HoldsOwn(n, slot, c) <==>
              (op.OpConnect? && slot.worker == w && c == op.client ==> TenantOf(op.auth) == s.messages[slot.msg].tenant)
    {
      assert HoldsOwn(s, slot, c);
    }
    assert forall slot, c :: Gripped(n, slot, c, removals) ==> Gripped(s, slot, c, removals);
  }

  lemma StartKeepsHeld(s: Cluster, step: Step, removals: bool)
    requires Inv(s) && Held(s, removals) && Enabled(s, step) && (step.Originate? || step.Receive?)
    ensures Held(Next(s, step), removals)
  {
    var n := Next(s, step);
    forall slot, c | Gripped(n, slot, c, removals) ensures HoldsOwn(n, slot, c) {
      if slot == step.slot && (step.Originate? || !IsEcho(s, slot)) {
        AudienceIsOwn(s.regs[slot.worker], n.messages[slot.msg], c);
      } else {
        assert slot in s.tasks.Keys + s.inFlight;
        assert Gripped(s, slot, c, removals) && HoldsOwn(s, slot, c);
      }
    }
  }

  /** Tasks that only shrink, and registrations that only go, keep to their tenants. */
  lemma ShrinkingKeepsHeld(s: Cluster, n: Cluster, removals: bool)
    requires Held(s, removals) && n.messages == s.messages && |n.regs| == |s.regs|
    requires forall slot, c :: Gripped(n, slot, c, removals) ==> Gripped(s, slot, c, removals)
    requires forall w, c :: 0 <= w < |n.regs| && c in n.regs[w].auth ==>
      c in s.regs[w].auth && n.regs[w].auth[c] == s.regs[w].auth[c]
    ensures Held(n, removals)
  {
  }

  lemma ServeKeepsHeld(s: Cluster, step: Step, removals: bool)
    requires Held(s, removals) && Enabled(s, step)
    requires step.Send? || step.Close? || step.Raise? || step.Sweep? || step.Finish? || step.Lose?
    ensures Held(Next(s, step), removals)
  {
    var n := Next(s, step);
    assert forall slot, c :: Gripped(n, slot, c, removals) ==> Gripped(s, slot, c, removals);
    ShrinkingKeepsHeld(s, n, removals);
  }

  /**
   A step keeps every running task to its own tenant exactly when it hands no id the task may act on over to
   another one.
   */
  lemma HeldIff(s: Cluster, step: Step, removals: bool)
    requires Inv(s) && Held(s, removals) && Enabled(s, step)
    ensures Held(Next(s, step), removals) <==> TenantStable(s, step, removals)
  {
    match step
    case Local(w, op) => LocalKeepsHeldIff(s, w, op, removals);
    case Originate(_, _, _) => StartKeepsHeld(s, step, removals);
    case Receive(_) => StartKeepsHeld(s, step, removals);
    case _ => ServeKeepsHeld(s, step, removals);
  }

  /** Every send so far went to a registration of the event's own tenant. */
  ghost predicate SentInTenant(s: Cluster) {
    forall i :: 0 <= i < |s.log| ==>
      s.log[i].slot.msg in s.messages && s.log[i].tenant == s.messages[s.log[i].slot.msg].tenant
  }

  lemma SendInTenantIff(s: Cluster, slot: Slot, c: ClientId)
    requires Inv(s) && SentInTenant(s) && Enabled(s, Send(slot, c, true))
    ensures SentInTenant(Next(s, Send(slot, c, true))) <==> HoldsOwn(s, slot, c)
  {
    var n := Next(s, Send(slot, c, true));
    if c in s.regs[slot.worker].active {
      assert n.log[|s.log|] == Receipt(slot, c, TenantOf(s.regs[slot.worker].auth[c]));
      assert forall i :: 0 <= i < |s.log| ==> n.log[i] == s.log[i];
    }
  }

  /** What `Held` without removals means for the next send; `HeldIff` and `NeverAcrossTenants` are about the steps. */
  lemma SendsStayInTenantIff(s: Cluster)
    requires Inv(s) && SentInTenant(s)
    ensures (forall slot, c :: Enabled(s, Send(slot, c, true)) ==> SentInTenant(Next(s, Send(slot, c, true)))) <==>
      Held(s, false)
  {
    forall slot, c ensures Gripped(s, slot, c, false) <==> Enabled(s, Send(slot, c, true)) {
      if slot in s.tasks {
        assert slot in s.tasks.Keys + s.inFlight;
      }
    }
    forall slot, c | Enabled(s, Send(slot, c, true)) ensures SentInTenant(Next(s, Send(slot, c, true))) <==>
      HoldsOwn(s, slot, c) {
      SendInTenantIff(s, slot, c);
    }
  }

  ghost predicate StableRun(s: Cluster, steps: seq<Step>, removals: bool)
    requires Legal(s, steps)
    decreases |steps|
  {
    steps == [] || (TenantStable(s, steps[0], removals) && StableRun(Next(s, steps[0]), steps[1..], removals))
  }

  lemma NextStaysInTenant(s: Cluster, step: Step)
    requires Inv(s) && Held(s, false) && SentInTenant(s) && Enabled(s, step)
    ensures SentInTenant(Next(s, step))
  {
    if step.Send? && step.ok {
      assert Gripped(s, step.slot, step.client, false);
      SendInTenantIff(s, step.slot, step.client);
    }
  }

  /**
   Over any run in which no id that an event has still to be sent to changes tenant, no event reaches a
   client of another tenant.
   */
  lemma {:induction false} NeverAcrossTenants(s: Cluster, steps: seq<Step>)
    requires Inv(s) && Held(s, false) && SentInTenant(s) && Legal(s, steps) && StableRun(s, steps, false)
    ensures Held(After(s, steps), false) && SentInTenant(After(s, steps))
    decreases |steps|
  {
    if steps != [] {
      NextStaysInTenant(s, steps[0]);
      HeldIff(s, steps[0], false);
      NextKeepsInv(s, steps[0]);
      NeverAcrossTenants(Next(s, steps[0]), steps[1..]);
    }
  }

  /** Fan-outs and revocations of one tenant leave the entries of every other client, on every worker, as they were. */
  lemma OtherTenantsUntouched(s: Cluster, step: Step, w: WorkerId, d: ClientId)
    requires Inv(s) && Held(s, true) && Enabled(s, step) && !step.Local? && w < |s.regs|
    requires step.slot.msg in s.messages ==> !Carries(s.regs[w], s.messages[step.slot.msg].tenant, d)
    ensures View(Next(s, step).regs[w], d) == View(s.regs[w], d)
  {
    match step
    case Close(slot, c) =>
      assert Gripped(s, slot, c, true) && HoldsOwn(s, slot, c);
    case Sweep(slot) =>
      EvictKeepsInv(s.regs[slot.worker], s.tasks[slot].failed);
      if slot.worker == w && d in s.tasks[slot].failed {
        assert Gripped(s, slot, d, true) && HoldsOwn(s, slot, d);
      }
    case _ =>
  }

  const TENANT_A := Context(Some("a"), false, None)
  const TENANT_B := Context(Some("b"), false, None)

  /** One worker with the single client `c`, of tenant "a". */
  function OneClient(c: ClientId): Cluster {
    Cluster(["o"], [Connect(EMPTY, c, 0, TENANT_A)], map[], map[], {}, 0, [])
  }

  lemma OneClientInv(c: ClientId)
    ensures Inv(OneClient(c)) && Held(OneClient(c), true)
    ensures Targets(OneClient(c).regs[0], "a", None) == {c}
  {
  }

  /**
   The condition is needed: a fan-out that loses the race to a reconnect under another tenant sends to that
   tenant.
   */
  lemma HandoverDuringFanOut(c: ClientId)
    ensures var steps := [Originate(Slot(0, 0), "a", Event(None)), Local(0, OpConnect(c, 1, TENANT_B)),
      Send(Slot(0, 0), c, true)];
            && Inv(OneClient(c)) && Held(OneClient(c), true) && Legal(OneClient(c), steps)
            && After(OneClient(c), steps).log == [Receipt(Slot(0, 0), c, "b")]
  {
    OneClientInv(c);
    var at := Slot(0, 0);
    var steps := [Originate(at, "a", Event(None)), Local(0, OpConnect(c, 1, TENANT_B)), Send(at, c, true)];
    var s1 := Next(OneClient(c), steps[0]);
    assert s1.tasks == map[at := Task({c}, {}, false)];
    var s2 := Next(s1, steps[1]);
    assert TenantOf(AuthOf(s2.regs[0], c)) == "b";
    var s3 := Next(s2, steps[2]);
    assert s3.log == [Receipt(at, c, "b")];
    LastStep(s2, steps, 2);
    assert steps[1..][0] == steps[1] && steps[1..][1..] == steps[2..];
    assert Legal(s1, steps[1..]) && After(s1, steps[1..]) == s3;
  }

  lemma LastStep(s: Cluster, steps: seq<Step>, i: nat)
    requires |steps| == i + 1 && Enabled(s, steps[i])
    ensures Legal(s, steps[i..]) && After(s, steps[i..]) == Next(s, steps[i])
  {
  }

  // --------------------------------------------------------- revocation

  /** Socket `k` is the live registration of `c` on worker `w`. */
  predicate Alive(s: Cluster, w: WorkerId, c: ClientId, k: Socket) {
    w < |s.regs| && c in s.regs[w].active && s.regs[w].active[c] == k
  }

  predicate Revokes(s: Cluster, msg: MsgId, t: TenantKey) {
    msg in s.messages && s.messages[msg].kind.Revocation? && s.messages[msg].tenant == t
  }

  /** While socket `k` lives it is a client of `t`, and a revocation of `t` still has it to close. */
  ghost predicate Doomed(s: Cluster, slot: Slot, t: TenantKey, c: ClientId, k: Socket) {
    Alive(s, slot.worker, c, k) ==>
      && Carries(s.regs[slot.worker], t, c)
      && (Revokes(s, slot.msg, t) ==> Owed(s, slot, c) == 1)
  }

  /** Every accepted connection is a new socket, so `k` is not presented again. */
  predicate Presents(step: Step, w: WorkerId, c: ClientId, k: Socket) {
    step.Local? && step.worker == w && step.op.OpConnect? && step.op.client == c && step.op.socket == k
  }

  lemma LocalKeepsDoomed(s: Cluster, w: WorkerId, op: Op, slot: Slot, t: TenantKey, c: ClientId, k: Socket)
    requires Enabled(s, Local(w, op)) && slot.worker < |s.regs|
    requires s.regs[slot.worker].active.Keys == s.regs[slot.worker].auth.Keys
    requires Doomed(s, slot, t, c, k) && !Presents(Local(w, op), slot.worker, c, k)
    ensures Doomed(Next(s, Local(w, op)), slot, t, c, k)
  {
  }

  lemma CloseKeepsDoomed(s: Cluster, at: Slot, d: ClientId, slot: Slot, t: TenantKey, c: ClientId, k: Socket)
    requires Enabled(s, Close(at, d)) && slot.worker < |s.regs|
    requires s.regs[slot.worker].active.Keys == s.regs[slot.worker].auth.Keys
    requires Doomed(s, slot, t, c, k)
    ensures Doomed(Next(s, Close(at, d)), slot, t, c, k)
  {
  }

  lemma SweepKeepsDoomed(s: Cluster, at: Slot, slot: Slot, t: TenantKey, c: ClientId, k: Socket)
    requires Enabled(s, Sweep(at)) && slot.worker < |s.regs|
    requires s.regs[slot.worker].active.Keys == s.regs[slot.worker].auth.Keys
    requires Doomed(s, slot, t, c, k)
    ensures Doomed(Next(s, Sweep(at)), slot, t, c, k)
  {
  }

  lemma OriginateKeepsDoomed(s: Cluster, at: Slot, t': TenantKey, kind: Kind, slot: Slot, t: TenantKey, c: ClientId,
                             k: Socket)
    requires Enabled(s, Originate(at, t', kind)) && slot.worker < |s.regs|
      && ConnectionRegistry.Inv(s.regs[slot.worker])
    requires Doomed(s, slot, t, c, k)
    ensures Doomed(Next(s, Originate(at, t', kind)), slot, t, c, k)
  {
  }

  lemma ReceiveKeepsDoomed(s: Cluster, at: Slot, slot: Slot, t: TenantKey, c: ClientId, k: Socket)
    requires Relaying(s) && Enabled(s, Receive(at)) && slot.worker < |s.regs|
      && ConnectionRegistry.Inv(s.regs[slot.worker])
    requires Doomed(s, slot, t, c, k)
    ensures Doomed(Next(s, Receive(at)), slot, t, c, k)
  {
    EchoIsHome(s, at);
    if Alive(s, slot.worker, c, k) && Revokes(s, slot.msg, t) && slot == at {
      RegisteredIsTargeted(s.regs[slot.worker], s.messages[slot.msg], c);
    }
  }

  lemma SendKeepsDoomed(s: Cluster, at: Slot, d: ClientId, ok: bool, slot: Slot, t: TenantKey, c: ClientId, k: Socket)
    requires Enabled(s, Send(at, d, ok)) && slot.worker < |s.regs| && Doomed(s, slot, t, c, k)
    ensures Doomed(Next(s, Send(at, d, ok)), slot, t, c, k)
  {
  }

  lemma RaiseKeepsDoomed(s: Cluster, at: Slot, d: ClientId, slot: Slot, t: TenantKey, c: ClientId, k: Socket)
    requires Enabled(s, Raise(at, d)) && Doomed(s, slot, t, c, k) && !Fails(s, Raise(at, d), slot, c)
    ensures Doomed(Next(s, Raise(at, d)), slot, t, c, k)
  {
    OwedSame(s, Next(s, Raise(at, d)), slot, c);
  }

  lemma FinishKeepsDoomed(s: Cluster, at: Slot, brokerUp: bool, slot: Slot, t: TenantKey, c: ClientId, k: Socket)
    requires Enabled(s, Finish(at, brokerUp)) && slot.worker < |s.regs|
    requires Doomed(s, slot, t, c, k) && !Fails(s, Finish(at, brokerUp), slot, c)
    ensures Doomed(Next(s, Finish(at, brokerUp)), slot, t, c, k)
  {
  }

  lemma NextKeepsDoomed(s: Cluster, step: Step, slot: Slot, t: TenantKey, c: ClientId, k: Socket)
    requires Inv(s) && Enabled(s, step) && slot.worker < |s.regs|
    requires Doomed(s, slot, t, c, k) && !Presents(step, slot.worker, c, k) && !Fails(s, step, slot, c)
    ensures Doomed(Next(s, step), slot, t, c, k)
  {
    match step
    case Local(w, op) => LocalKeepsDoomed(s, w, op, slot, t, c, k);
    case Originate(at, t', kind) => OriginateKeepsDoomed(s, at, t', kind, slot, t, c, k);
    case Receive(at) => ReceiveKeepsDoomed(s, at, slot, t, c, k);
    case Send(at, d, ok) => SendKeepsDoomed(s, at, d, ok, slot, t, c, k);
    case Finish(at, brokerUp) => FinishKeepsDoomed(s, at, brokerUp, slot, t, c, k);
    case Close(at, d) => CloseKeepsDoomed(s, at, d, slot, t, c, k);
    case Raise(at, d) => RaiseKeepsDoomed(s, at, d, slot, t, c, k);
    case Sweep(at) => SweepKeepsDoomed(s, at, slot, t, c, k);
    case Lose(_) =>
  }

  /** No close, publish or notification of the message fails the client, and socket `k` is not presented again. */
  ghost predicate Delivering(s: Cluster, steps: seq<Step>, slot: Slot, c: ClientId, k: Socket)
    requires Legal(s, steps)
    decreases |steps|
  {
    steps == [] ||
    (!Fails(s, steps[0], slot, c) && !Presents(steps[0], slot.worker, c, k)
      && Delivering(Next(s, steps[0]), steps[1..], slot, c, k))
  }

  /**
   After `disconnect_tenant(t)` has started on one worker and all its control messages are
   handled, no worker still has a socket of `t` that was registered before that worker's
   handling step: the start state is any in which the worker has yet to handle the message.
   */
  lemma {:induction false} RevocationReachesAll(s: Cluster, steps: seq<Step>, slot: Slot, t: TenantKey, c: ClientId,
                                                k: Socket)
    requires Inv(s) && Legal(s, steps) && slot.worker < |s.regs|
    requires slot.msg !in s.messages || Unhandled(s, slot) || !Alive(s, slot.worker, c, k) || Doomed(s, slot, t, c, k)
    requires Alive(s, slot.worker, c, k) ==> Carries(s.regs[slot.worker], t, c)
    requires Delivering(s, steps, slot, c, k)
    ensures var n := After(s, steps);
            Revokes(n, slot.msg, t) && Quiet(n, slot.msg) ==> !Alive(n, slot.worker, c, k)
    decreases |steps|
  {
    assert Doomed(s, slot, t, c, k);
    if steps != [] {
      NextKeepsDoomed(s, steps[0], slot, t, c, k);
      NextKeepsInv(s, steps[0]);
      assert |Next(s, steps[0]).regs| == |s.regs|;
      RevocationReachesAll(Next(s, steps[0]), steps[1..], slot, t, c, k);
    }
  }

  // ---------------------------------------------------- the relay ends

  /** The home tasks still running: the only ones that may yet publish. */
  function HomeTasks(running: set<Slot>, messages: map<MsgId, Message>): set<Slot> {
    set slot | slot in running && slot.msg in messages && slot.worker == messages[slot.msg].home
  }

  function WaitingSends(tasks: map<Slot, Task>): set<(Slot, ClientId)> {
    set slot, c | slot in tasks && c in tasks[slot].waiting :: (slot, c)
  }

  function FailedSends(tasks: map<Slot, Task>): set<(Slot, ClientId)> {
    set slot, c | slot in tasks && c in tasks[slot].failed :: (slot, c)
  }

  predicate Internal(step: Step) {
    !step.Local? && !step.Originate?
  }

  /** The work left, most significant first. */
  datatype Work = Work(home: nat, inFlight: nat, waiting: nat, failed: nat, tasks: nat)

  function WorkOf(s: Cluster): Work {
    Work(|HomeTasks(s.tasks.Keys, s.messages)|, |s.inFlight|, |WaitingSends(s.tasks)|, |FailedSends(s.tasks)|,
      |s.tasks.Keys|)
  }

  predicate Less(m: Work, n: Work) {
    || m.home < n.home
    || (m.home == n.home && (m.inFlight < n.inFlight
        || (m.inFlight == n.inFlight && (m.waiting < n.waiting
            || (m.waiting == n.waiting && (m.failed < n.failed
                || (m.failed == n.failed && m.tasks < n.tasks)))))))
  }

  lemma ProperSubsetIsSmaller<T>(a: set<T>, b: set<T>, x: T)
    requires a <= b && x in b && x !in a
    ensures |a| < |b|
  {
    assert b == a + (b - a) && a !! b - a;
    assert x in b - a;
  }

  lemma ServingOneShrinks(tasks: map<Slot, Task>, slot: Slot, c: ClientId, task: Task)
    requires slot in tasks && c in tasks[slot].waiting && task.waiting <= tasks[slot].waiting - {c}
    ensures |WaitingSends(tasks[slot := task])| < |WaitingSends(tasks)|
  {
    ProperSubsetIsSmaller(WaitingSends(tasks[slot := task]), WaitingSends(tasks), (slot, c));
  }

  lemma SweepingShrinks(tasks: map<Slot, Task>, slot: Slot)
    requires slot in tasks && tasks[slot].failed != {}
    ensures WaitingSends(tasks[slot := tasks[slot].(failed := {})]) == WaitingSends(tasks)
    ensures |FailedSends(tasks[slot := tasks[slot].(failed := {})])| < |FailedSends(tasks)|
  {
    var c :| c in tasks[slot].failed;
    ProperSubsetIsSmaller(FailedSends(tasks[slot := tasks[slot].(failed := {})]), FailedSends(tasks), (slot, c));
  }

  lemma EndingShrinks(tasks: map<Slot, Task>, messages: map<MsgId, Message>, slot: Slot)
    requires slot in tasks && tasks[slot].waiting == {} && slot.msg in messages
    ensures (tasks - {slot}).Keys == tasks.Keys - {slot}
    ensures HomeTasks(tasks.Keys - {slot}, messages) == HomeTasks(tasks.Keys, messages) - {slot}
    ensures slot in HomeTasks(tasks.Keys, messages) <==> slot.worker == messages[slot.msg].home
    ensures WaitingSends(tasks - {slot}) == WaitingSends(tasks) && |FailedSends(tasks - {slot})| <= |FailedSends(tasks)|
  {
    SubsetIsNoLarger(FailedSends(tasks - {slot}), FailedSends(tasks));
  }

  lemma ServeDecreases(s: Cluster, step: Step)
    requires Enabled(s, step) && (step.Send? || step.Close? || step.Raise? || step.Sweep?)
    ensures Less(WorkOf(Next(s, step)), WorkOf(s))
    ensures Next(s, step).tasks.Keys == s.tasks.Keys
  {
    var n, slot := Next(s, step), step.slot;
    assert n.tasks.Keys == s.tasks.Keys;
    if step.Sweep? {
      SweepingShrinks(s.tasks, slot);
    } else {
      assert n.tasks == s.tasks[slot := n.tasks[slot]];
      ServingOneShrinks(s.tasks, slot, step.client, n.tasks[slot]);
    }
  }

  lemma FinishDecreases(s: Cluster, step: Step)
    requires Enabled(s, step) && step.Finish?
    ensures Less(WorkOf(Next(s, step)), WorkOf(s))
  {
    EndingShrinks(s.tasks, s.messages, step.slot);
  }

  lemma ReceiveKeepsHomeTasks(s: Cluster, slot: Slot)
    requires Wired(s.origins, |s.regs|) && KnownMessages(s.messages, s.origins) && Enabled(s, Receive(slot))
    ensures var n := Next(s, Receive(slot));
            n.messages == s.messages && HomeTasks(n.tasks.Keys, n.messages) == HomeTasks(s.tasks.Keys, s.messages)
  {
  }

  lemma ReceiveDecreases(s: Cluster, step: Step)
    requires Wired(s.origins, |s.regs|) && KnownMessages(s.messages, s.origins)
    requires Enabled(s, step) && (step.Receive? || step.Lose?)
    ensures Less(WorkOf(Next(s, step)), WorkOf(s))
  {
    if step.Receive? {
      ReceiveKeepsHomeTasks(s, step.slot);
    }
    assert Next(s, step).inFlight == s.inFlight - {step.slot};
  }

  /**
   Whatever goes wrong on the way, every step that is not a new local call uses up work: no message
   circulates for ever.
   */
  lemma InternalStepsDecrease(s: Cluster, step: Step)
    requires Relaying(s) && Enabled(s, step) && Internal(step)
    ensures Less(WorkOf(Next(s, step)), WorkOf(s))
  {
    match step
    case Finish(_, _) => FinishDecreases(s, step);
    case Receive(_) => ReceiveDecreases(s, step);
    case Lose(_) => ReceiveDecreases(s, step);
    case _ => ServeDecreases(s, step);
  }

  ghost predicate AllInternal(steps: seq<Step>) {
    forall i :: 0 <= i < |steps| ==> Internal(steps[i])
  }

  lemma SomeStepEnabled(s: Cluster) returns (step: Step)
    requires Relaying(s) && (s.tasks != map[] || s.inFlight != {})
    ensures Internal(step) && Enabled(s, step)
  {
    if s.tasks != map[] {
      var slot :| slot in s.tasks;
      assert slot in s.tasks.Keys + s.inFlight;
      var task := s.tasks[slot];
      if task.waiting != {} {
        var c :| c in task.waiting;
        step := if s.messages[slot.msg].kind.Event? then Send(slot, c, true) else Close(slot, c);
      } else if task.failed != {} && !task.raised {
        step := Sweep(slot);
      } else {
        step := Finish(slot, true);
      }
    } else {
      var slot :| slot in s.inFlight;
      assert slot in s.tasks.Keys + s.inFlight;
      step := Receive(slot);
    }
  }

  lemma OneMoreStep(s: Cluster, step: Step, rest: seq<Step>)
    requires Enabled(s, step) && Internal(step) && Legal(Next(s, step), rest) && AllInternal(rest)
    ensures AllInternal([step] + rest)
    ensures Legal(s, [step] + rest) && After(s, [step] + rest) == After(Next(s, step), rest)
  {
  }

  /** From every reachable state, without a new call, the relay can and must come to rest with nothing undelivered. */
  lemma RelayComesToRest(s: Cluster) returns (steps: seq<Step>)
    requires Relaying(s)
    ensures AllInternal(steps) && Legal(s, steps)
    ensures After(s, steps).tasks == map[] && After(s, steps).inFlight == {}
    decreases WorkOf(s).home, WorkOf(s).inFlight, WorkOf(s).waiting, WorkOf(s).failed, WorkOf(s).tasks
  {
    if s.tasks == map[] && s.inFlight == {} {
      return [];
    }
    var step := SomeStepEnabled(s);
    var n := NextAtWork(s, step);
    var rest := RelayComesToRest(n);
    OneMoreStep(s, step, rest);
    steps := [step] + rest;
  }

  lemma NextAtWork(s: Cluster, step: Step) returns (n: Cluster)
    requires Relaying(s) && Enabled(s, step) && Internal(step)
    ensures n == Next(s, step) && Relaying(n) && Less(WorkOf(n), WorkOf(s))
  {
    n := Next(s, step);
    InternalStepsDecrease(s, step);
    NextKeepsRelaying(s, step);
  }

  /** One publish for each local call at most: what has been published and may still be is covered by the calls made. */
  ghost predicate PublishesCovered(s: Cluster) {
    s.notifications + |HomeTasks(s.tasks.Keys, s.messages)| <= |s.messages.Keys|
  }

  lemma SubsetIsNoLarger<T>(a: set<T>, b: set<T>)
    requires a <= b
    ensures |a| <= |b|
  {
    assert b == a + (b - a);
  }

  lemma NewMessageCovers(running: set<Slot>, messages: map<MsgId, Message>, slot: Slot, m: Message)
    requires slot.msg !in messages
    requires forall at :: at in running ==> at.msg in messages
    ensures |messages[slot.msg := m].Keys| == |messages.Keys| + 1
    ensures |HomeTasks(running + {slot}, messages[slot.msg := m])| <= |HomeTasks(running, messages)| + 1
  {
    assert messages[slot.msg := m].Keys == messages.Keys + {slot.msg};
    var more, all := HomeTasks(running, messages) + {slot}, HomeTasks(running + {slot}, messages[slot.msg := m]);
    assert all <= more;
    SubsetIsNoLarger(all, more);
  }

  lemma OriginateKeepsCovered(s: Cluster, step: Step)
    requires forall at :: at in s.tasks.Keys ==> at.msg in s.messages
    requires PublishesCovered(s) && Enabled(s, step) && step.Originate?
    ensures PublishesCovered(Next(s, step))
  {
    var n, m := Next(s, step), Message(step.slot.worker, s.origins[step.slot.worker], step.tenant, step.kind);
    NewMessageCovers(s.tasks.Keys, s.messages, step.slot, m);
    assert n.messages == s.messages[step.slot.msg := m] && n.notifications == s.notifications;
    assert n.tasks.Keys == s.tasks.Keys + {step.slot};
  }

  lemma FinishKeepsCovered(s: Cluster, slot: Slot, brokerUp: bool)
    requires PublishesCovered(s) && Enabled(s, Finish(slot, brokerUp))
    ensures PublishesCovered(Next(s, Finish(slot, brokerUp)))
  {
    EndingShrinks(s.tasks, s.messages, slot);
  }

  lemma ReceiveKeepsCovered(s: Cluster, slot: Slot)
    requires Wired(s.origins, |s.regs|) && KnownMessages(s.messages, s.origins)
    requires PublishesCovered(s) && Enabled(s, Receive(slot))
    ensures PublishesCovered(Next(s, Receive(slot)))
  {
    ReceiveKeepsHomeTasks(s, slot);
  }

  lemma NextKeepsCovered(s: Cluster, step: Step)
    requires Relaying(s) && PublishesCovered(s) && Enabled(s, step)
    ensures PublishesCovered(Next(s, step))
  {
    match step
    case Local(_, _) =>
    case Originate(slot, _, _) =>
      assert forall at :: at in s.tasks.Keys ==> at in s.tasks.Keys + s.inFlight;
      OriginateKeepsCovered(s, step);
    case Finish(slot, brokerUp) => FinishKeepsCovered(s, slot, brokerUp);
    case Receive(slot) => ReceiveKeepsCovered(s, slot);
    case Lose(_) =>
    case _ => ServeDecreases(s, step);
  }

  /** Relaying never publishes: over any run the broker is handed at most one message per local call. */
  lemma {:induction false} PublishesAtMostCalls(s: Cluster, steps: seq<Step>)
    requires Relaying(s) && PublishesCovered(s) && Legal(s, steps)
    ensures After(s, steps).notifications <= |After(s, steps).messages.Keys|
    decreases |steps|
  {
    if steps != [] {
      NextKeepsCovered(s, steps[0]);
      NextKeepsRelaying(s, steps[0]);
      PublishesAtMostCalls(Next(s, steps[0]), steps[1..]);
    }
  }

  // --------------------------------- an uninterrupted fan-out is a broadcast

  lemma Cons(s: Cluster, step: Step, rest: seq<Step>)
    requires Enabled(s, step) && Legal(Next(s, step), rest)
    ensures Legal(s, [step] + rest) && After(s, [step] + rest) == After(Next(s, step), rest)
  {
  }

  lemma {:induction false} Chain(s: Cluster, front: seq<Step>, back: seq<Step>)
    requires Legal(s, front) && Legal(After(s, front), back)
    ensures Legal(s, front + back) && After(s, front + back) == After(After(s, front), back)
    decreases |front|
  {
    if front == [] {
      assert front + back == back;
    } else {
      assert front == [front[0]] + front[1..];
      Chain(Next(s, front[0]), front[1..], back);
      Cons(s, front[0], front[1..] + back);
      assert front + back == [front[0]] + (front[1..] + back);
    }
  }

  /** What is left when every waiting client of a task has been tried once. */
  function Tried(task: Task, reachable: set<ClientId>, raising: set<ClientId>): Task {
    Task({}, task.failed + (task.waiting - reachable - raising), task.raised || task.waiting * raising != {})
  }

  /**
   After `steps` from `s`, these waiting clients of the task have been tried, and exactly the reachable ones
   have received.
   */
  ghost predicate TriedAll(s: Cluster, n: Cluster, slot: Slot, reachable: set<ClientId>, raising: set<ClientId>)
    requires slot in s.tasks
  {
    && n == s.(tasks := s.tasks[slot := Tried(s.tasks[slot], reachable, raising)], log := n.log)
    && forall c :: Received(n.log, slot, c)
                   == Received(s.log, slot, c) + if c in s.tasks[slot].waiting * (reachable - raising) then 1 else 0
  }

  /**
   The sends of a task, one after the other: the reachable clients receive, some raise, the others are noted
   as failed.
   */
  lemma SendRound(s: Cluster, slot: Slot, reachable: set<ClientId>, raising: set<ClientId>) returns (steps: seq<Step>)
    requires Running(s, slot) && s.messages[slot.msg].kind.Event?
    requires s.tasks[slot].waiting <= s.regs[slot.worker].active.Keys
    ensures Legal(s, steps) && TriedAll(s, After(s, steps), slot, reachable, raising)
    decreases |s.tasks[slot].waiting|
  {
    var task := s.tasks[slot];
    if task.waiting == {} {
      assert Tried(task, reachable, raising) == task;
      assert s.tasks[slot := task] == s.tasks;
      steps := [];
    } else {
      var c :| c in task.waiting;
      var step, m := SendOne(s, slot, c, reachable, raising);
      var rest := SendRound(m, slot, reachable, raising);
      Cons(s, step, rest);
      steps := [step] + rest;
      OneRoundMore(s, m, After(m, rest), slot, c, reachable, raising);
    }
  }

  /** One waiting client has been tried. */
  ghost predicate TriedOne(s: Cluster, m: Cluster, slot: Slot, c: ClientId, reachable: set<ClientId>,
                           raising: set<ClientId>)
    requires slot in s.tasks
  {
    var task := s.tasks[slot];
    && m == s.(tasks := s.tasks[slot := TaskWithout(task, c, reachable, raising)], log := m.log)
    && forall d :: Received(m.log, slot, d)
                   == Received(s.log, slot, d) + if d == c && c in reachable - raising then 1 else 0
  }

  function TaskWithout(task: Task, c: ClientId, reachable: set<ClientId>, raising: set<ClientId>): Task {
    Task(task.waiting - {c},
         if c in reachable + raising then task.failed else task.failed + {c},
         task.raised || c in raising)
  }

  lemma TriedAgain(task: Task, c: ClientId, reachable: set<ClientId>, raising: set<ClientId>)
    requires c in task.waiting
    ensures Tried(TaskWithout(task, c, reachable, raising), reachable, raising) == Tried(task, reachable, raising)
  {
    var left := TaskWithout(task, c, reachable, raising);
    assert task.waiting * raising == left.waiting * raising + if c in raising then {c} else {};
    assert left.failed + (left.waiting - reachable - raising) == task.failed + (task.waiting - reachable - raising);
  }

  lemma OneRoundMore(s: Cluster, m: Cluster, n: Cluster, slot: Slot, c: ClientId, reachable: set<ClientId>,
                     raising: set<ClientId>)
    requires slot in s.tasks && slot in m.tasks && c in s.tasks[slot].waiting
    requires TriedOne(s, m, slot, c, reachable, raising) && TriedAll(m, n, slot, reachable, raising)
    ensures TriedAll(s, n, slot, reachable, raising)
  {
    TriedAgain(s.tasks[slot], c, reachable, raising);
    var tried := Tried(s.tasks[slot], reachable, raising);
    assert m.tasks[slot := tried] == s.tasks[slot := tried];
  }

  lemma SendOne(s: Cluster, slot: Slot, c: ClientId, reachable: set<ClientId>, raising: set<ClientId>)
    returns (step: Step, m: Cluster)
    requires Running(s, slot) && s.messages[slot.msg].kind.Event? && c in s.tasks[slot].waiting
    requires c in s.regs[slot.worker].active
    ensures Enabled(s, step) && m == Next(s, step) && TriedOne(s, m, slot, c, reachable, raising)
  {
    step := if c in raising then Raise(slot, c) else Send(slot, c, c in reachable);
    m := Next(s, step);
    forall d
      ensures Received(m.log, slot, d) == Received(s.log, slot, d) + if d == c && c in reachable - raising then 1 else 0
    {
      if c in reachable - raising {
        ReceivedGrows(s.log, m.log[|s.log|], slot, d);
      }
    }
  }

  lemma EvictNoneOfMany(r: Registry, cs: set<ClientId>)
    requires ConnectionRegistry.Inv(r) && cs == {}
    ensures Evict(r, cs) == r
  {
    EvictNone(r);
  }

  lemma EndTask(s: Cluster, slot: Slot, brokerUp: bool) returns (steps: seq<Step>)
    requires Running(s, slot) && s.tasks[slot].waiting == {} && ConnectionRegistry.Inv(s.regs[slot.worker])
    ensures Legal(s, steps)
    ensures var n, task := After(s, steps), s.tasks[slot];
            && n.regs == (if task.raised then s.regs
              else s.regs[slot.worker := Evict(s.regs[slot.worker], task.failed)])
            && n.tasks == s.tasks - {slot} && n.log == s.log
            && n.inFlight
              == s.inFlight + (if s.messages[slot.msg].home == slot.worker && |s.regs| > 1 && brokerUp && !task.raised
                                           then AllSlots(slot.msg, |s.regs|) else {})
  {
    var finish := Finish(slot, brokerUp);
    if s.tasks[slot].failed == {} || s.tasks[slot].raised {
      if !s.tasks[slot].raised {
        EvictNoneOfMany(s.regs[slot.worker], s.tasks[slot].failed);
        assert s.regs[slot.worker := s.regs[slot.worker]] == s.regs;
      }
      Cons(s, finish, []);
      steps := [finish] + [];
    } else {
      var m := Next(s, Sweep(slot));
      Cons(m, finish, []);
      Cons(s, Sweep(slot), [finish] + []);
      steps := [Sweep(slot)] + ([finish] + []);
      assert m.tasks - {slot} == s.tasks - {slot};
    }
  }

  /**
   The cluster's steps, run without interruption, do what `WebSocketManager.BroadcastEventToTenant`
   promises: the reachable targets each receive the event once; and if no send raises the others are
   evicted, and the message goes out to every worker when there are several and the broker takes it.
   */
  lemma FanOutIsBroadcast(s: Cluster, slot: Slot, t: TenantKey, exclude: Option<ClientId>, reachable: set<ClientId>,
                          raising: set<ClientId>, brokerUp: bool)
    returns (steps: seq<Step>)
    requires Inv(s) && Enabled(s, Originate(slot, t, Event(exclude)))
    ensures Legal(s, steps)
    ensures var n, targets := After(s, steps), Targets(s.regs[slot.worker], t, exclude);
            var quiet := targets * raising == {};
            && n.regs == (if quiet then s.regs[slot.worker := Evict(s.regs[slot.worker], targets - reachable)]
              else s.regs)
            && (forall c :: Received(n.log, slot, c) == if c in targets * (reachable - raising) then 1 else 0)
            && n.inFlight
              == s.inFlight + (if |s.regs| > 1 && brokerUp && quiet then AllSlots(slot.msg, |s.regs|) else {})
  {
    var start := Originate(slot, t, Event(exclude));
    var m := Next(s, start);
    var targets := Targets(s.regs[slot.worker], t, exclude);
    assert m.tasks[slot] == Task(targets, {}, false);
    forall c | c in targets ensures c in m.regs[slot.worker].active {
      AudienceIsOwn(s.regs[slot.worker], m.messages[slot.msg], c);
    }
    forall c ensures Received(s.log, slot, c) == 0 {
      UnknownNeverReceived(s.messages, s.log, slot, c);
    }
    var sends := SendRound(m, slot, reachable, raising);
    var sent := After(m, sends);
    assert sent.tasks[slot] == Tried(Task(targets, {}, false), reachable, raising);
    assert targets * raising == {} ==> sent.tasks[slot].failed == targets - reachable;
    var ends := EndTask(sent, slot, brokerUp);
    Chain(m, sends, ends);
    Cons(s, start, sends + ends);
    steps := [start] + (sends + ends);
  }

  // ------------------------------------------------------------- raises

  /** Two workers of one tenant: client `d` on the first, `c` on the second. */
  function OneEach(d: ClientId, c: ClientId): Cluster {
    Cluster(["o", "p"], [Connect(EMPTY, d, 0, TENANT_A), Connect(EMPTY, c, 1, TENANT_A)], map[], map[], {}, 0, [])
  }

  lemma OneEachInv(d: ClientId, c: ClientId)
    ensures Inv(OneEach(d, c)) && Targets(OneEach(d, c).regs[0], "a", None) == {d}
    ensures Carries(OneEach(d, c).regs[1], "a", c)
  {
    OneClientInv(d);
    StepKeepsInv(EMPTY, OpConnect(c, 1, TENANT_A));
    assert OneEach(d, c).origins[0] != OneEach(d, c).origins[1];
  }

  /**
   A single client whose send or close raises ends it all: nothing is published, so `c` on the other worker
   is neither sent the event nor closed by the revocation, and `d` itself is still registered.
   */
  lemma RaiseEndsTheRelay(d: ClientId, c: ClientId, kind: Kind) returns (steps: seq<Step>)
    requires kind == Event(None) || kind == Revocation
    ensures Inv(OneEach(d, c))
      && steps == [Originate(Slot(0, 0), "a", kind), Raise(Slot(0, 0), d), Finish(Slot(0, 0), true)]
    ensures Legal(OneEach(d, c), steps)
    ensures var n := After(OneEach(d, c), steps);
            && 0 in n.messages && n.messages[0].kind == kind && Quiet(n, 0) && n.log == []
            && n.regs == OneEach(d, c).regs && Alive(n, 0, d, 0) && Alive(n, 1, c, 1)
  {
    OneEachInv(d, c);
    var home, s0 := Slot(0, 0), OneEach(d, c);
    var s1 := Next(s0, Originate(home, "a", kind));
    assert s1.tasks == map[home := Task({d}, {}, false)] && {d} - {d} == {};
    var s2 := Next(s1, Raise(home, d));
    assert s2.tasks == map[home := Task({}, {}, true)];
    var s3 := Next(s2, Finish(home, true));
    assert s3.tasks == map[];
    Cons(s2, Finish(home, true), []);
    Cons(s1, Raise(home, d), [Finish(home, true)] + []);
    Cons(s0, Originate(home, "a", kind), [Raise(home, d)] + ([Finish(home, true)] + []));
    steps := [Originate(home, "a", kind)] + ([Raise(home, d)] + ([Finish(home, true)] + []));
  }
}
