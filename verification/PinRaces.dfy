/**
 The same lockout with requests in flight at once. A handler reads the user row, awaits the PIN
 comparison and then writes the counter it read plus one, so concurrent requests overwrite each other's
 counts. Only requests with a wrong PIN matter here, and there is no successful reset in the runs.
 */
module PinRaces {
  import opened Options
  import opened PinLockout

  /** What a request in flight has read, when, and how many locking comparisons had been made by then. */
  datatype Reading = Reading(read: nat, loaded: Time, before: nat)

  /** A wrong comparison that set the lockout. */
  datatype Locking = Locking(at: Time, loaded: Time, before: nat)

  datatype Race = Race(
    failed: nat,
    lockoutUntil: Option<Time>,
    clock: Time,
    flight: map<nat, Reading>,
    counts: multiset<nat>,        // history: the counter each wrong comparison so far had read
    lockings: seq<Locking>)       // history

  datatype Step =
    | Load(id: nat, now: Time)
    | Compare(id: nat, now: Time)

  predicate Enabled(s: Race, step: Step) {
    s.clock <= step.now && (step.Load? <==> step.id !in s.flight)
  }

  predicate IsLocked(s: Race, now: Time) {
    s.lockoutUntil.Some? && now < s.lockoutUntil.value
  }

  function Next(s: Race, step: Step): Race
    requires Enabled(s, step)
  {
    match step
    case Load(id, now) =>
      if IsLocked(s, now) then s.(clock := now)
      else s.(clock := now, flight := s.flight[id := Reading(s.failed, now, |s.lockings|)])
    case Compare(id, now) =>
      var r := s.flight[id];
      var counted := s.(failed := r.read + 1, clock := now, flight := s.flight - {id},
        counts := s.counts + multiset{r.read});
      if r.read + 1 < MAX_ATTEMPTS then counted
      else counted.(lockoutUntil := Some(now + LOCKOUT), lockings := s.lockings + [Locking(now, r.loaded, r.before)])
  }

  ghost predicate Legal(s: Race, steps: seq<Step>)
    decreases |steps|
  {
    steps == [] || (Enabled(s, steps[0]) && Legal(Next(s, steps[0]), steps[1..]))
  }

  ghost function Run(s: Race, steps: seq<Step>): Race
    requires Legal(s, steps)
    decreases |steps|
  {
    if steps == [] then s else Run(Next(s, steps[0]), steps[1..])
  }

  /** Never more than `k` wrong requests are in flight. */
  ghost predicate AtMostInFlight(s: Race, steps: seq<Step>, k: nat)
    requires Legal(s, steps)
    decreases |steps|
  {
    |s.flight| <= k && (steps == [] || AtMostInFlight(Next(s, steps[0]), steps[1..], k))
  }

  function Start(clock: Time): Race {
    Race(0, None, clock, map[], multiset{}, [])
  }

  // --------------------------------------------- how often a count is read

  function ReadingOf(flight: map<nat, Reading>, v: nat): set<nat> {
    set id | id in flight && flight[id].read == v
  }

  /** How often the counter has been set to `v`. */
  function TimesSet(counts: multiset<nat>, v: nat): nat {
    if v == 0 then 1 else counts[v - 1]
  }

  /** At most `k` requests read a count each time it is set: while it stands, none of them has been compared. */
  predicate ReadsBounded(s: Race, k: nat, v: nat) {
    if s.failed == v then TimesSet(s.counts, v) >= 1 && s.counts[v] <= k * (TimesSet(s.counts, v) - 1)
    else s.counts[v] + |ReadingOf(s.flight, v)| <= k * TimesSet(s.counts, v)
  }

  lemma AtMostAll(flight: map<nat, Reading>, v: nat)
    ensures |ReadingOf(flight, v)| <= |flight|
  {
    SubsetIsNoLarger(ReadingOf(flight, v), flight.Keys);
  }

  lemma SubsetIsNoLarger(a: set<nat>, b: set<nat>)
    requires a <= b
    ensures |a| <= |b|
  {
    assert b == a + (b - a);
  }

  lemma OneFewerReading(flight: map<nat, Reading>, id: nat, v: nat)
    requires id in flight
    ensures |ReadingOf(flight - {id}, v)| == |ReadingOf(flight, v)| - if flight[id].read == v then 1 else 0
  {
    if flight[id].read == v {
      assert ReadingOf(flight, v) == ReadingOf(flight - {id}, v) + {id};
    } else {
      assert ReadingOf(flight, v) == ReadingOf(flight - {id}, v);
    }
  }

  lemma OneMoreReading(flight: map<nat, Reading>, id: nat, r: Reading, v: nat)
    requires id !in flight && r.read != v
    ensures ReadingOf(flight[id := r], v) == ReadingOf(flight, v)
  {
  }

  lemma LoadKeepsBounded(s: Race, id: nat, now: Time, k: nat, v: nat)
    requires Enabled(s, Load(id, now)) && ReadsBounded(s, k, v)
    ensures ReadsBounded(Next(s, Load(id, now)), k, v)
  {
    if !IsLocked(s, now) && s.failed != v {
      OneMoreReading(s.flight, id, Reading(s.failed, now, |s.lockings|), v);
    }
  }

  lemma CompareKeepsBounded(s: Race, id: nat, now: Time, k: nat, v: nat)
    requires Enabled(s, Compare(id, now)) && ReadsBounded(s, k, v) && |s.flight| <= k
    ensures ReadsBounded(Next(s, Compare(id, now)), k, v)
  {
    var n, r := Next(s, Compare(id, now)), s.flight[id];
    var before, after := TimesSet(s.counts, v), TimesSet(n.counts, v);
    AtMostAll(s.flight, v);
    OneFewerReading(s.flight, id, v);
    assert after == before + if r.read + 1 == v then 1 else 0;
    assert n.counts[v] == s.counts[v] + if r.read == v then 1 else 0;
    if s.failed == v {
      assert k * (before - 1) + k == k * before;
    }
    assert after > before ==> k * after == k * before + k;
  }

  ghost predicate AllReadsBounded(s: Race, k: nat) {
    forall v: nat :: ReadsBounded(s, k, v)
  }

  lemma NextKeepsBounded(s: Race, step: Step, k: nat)
    requires Enabled(s, step) && AllReadsBounded(s, k) && |s.flight| <= k
    ensures AllReadsBounded(Next(s, step), k)
  {
    forall v: nat ensures ReadsBounded(Next(s, step), k, v) {
      match step
      case Load(id, now) => LoadKeepsBounded(s, id, now, k, v);
      case Compare(id, now) => CompareKeepsBounded(s, id, now, k, v);
    }
  }

  /** Wrong comparisons that had read a count of at most three. */
  function LowReads(counts: multiset<nat>): nat {
    counts[0] + counts[1] + counts[2] + counts[3]
  }

  lemma LowReadsBounded(s: Race, k: nat)
    requires AllReadsBounded(s, k)
    ensures LowReads(s.counts) <= k + k * k + k * k * k + k * k * k * k
  {
    ReadAtMost(s, k, 0);
    ReadAtMost(s, k, 1);
    ReadAtMost(s, k, 2);
    ReadAtMost(s, k, 3);
    Grows(k, s.counts[0], k);
    Grows(k, s.counts[1], k * k);
    Grows(k, s.counts[2], k * k * k);
    assert k * (k * k) == k * k * k && k * (k * k * k) == k * k * k * k;
  }

  lemma ReadAtMost(s: Race, k: nat, v: nat)
    requires ReadsBounded(s, k, v)
    ensures s.counts[v] <= k * TimesSet(s.counts, v)
  {
    if s.failed == v {
      Grows(k, TimesSet(s.counts, v) - 1, TimesSet(s.counts, v));
    }
  }

  lemma Grows(k: nat, a: int, b: int)
    requires a <= b
    ensures k * a <= k * b
  {
  }

  // ------------------------------------------------- lockouts in between

  /** Who had started by the j-th locking comparison and has locked since, that one included. */
  function OldLockings(lockings: seq<Locking>, j: nat): nat {
    if |lockings| <= j then 0
    else OldLockings(lockings[..|lockings| - 1], j) + if lockings[|lockings| - 1].before <= j then 1 else 0
  }

  function OldReadings(flight: map<nat, Reading>, j: nat): set<nat> {
    set id | id in flight && flight[id].before <= j
  }

  ghost predicate OldBounded(s: Race, k: nat) {
    forall j: nat :: OldLockings(s.lockings, j) + |OldReadings(s.flight, j)| <= k
  }

  /** The lockout is that of the last locking comparison, and they are in order. */
  ghost predicate InOrder(s: Race) {
    && (s.lockoutUntil == if s.lockings == [] then None else Some(s.lockings[|s.lockings| - 1].at + LOCKOUT))
    && (forall i, j :: 0 <= i <= j < |s.lockings| ==> s.lockings[i].at <= s.lockings[j].at <= s.clock)
  }

  /** A request that started after a locking comparison started after its lockout. */
  ghost predicate LockingsWaited(s: Race) {
    forall i :: 0 <= i < |s.lockings| ==>
      && s.lockings[i].before <= i && s.lockings[i].loaded <= s.lockings[i].at
      && WaitedOut(s.lockings, s.lockings[i].before, s.lockings[i].loaded)
  }

  ghost predicate FlightWaited(s: Race) {
    forall id :: id in s.flight ==>
      && s.flight[id].before <= |s.lockings| && s.flight[id].loaded <= s.clock
      && WaitedOut(s.lockings, s.flight[id].before, s.flight[id].loaded)
  }

  predicate WaitedOut(lockings: seq<Locking>, before: nat, loaded: Time) {
    forall j :: 0 <= j < before && j < |lockings| ==> loaded >= lockings[j].at + LOCKOUT
  }

  ghost predicate LockoutsKept(s: Race) {
    InOrder(s) && LockingsWaited(s) && FlightWaited(s)
  }

  lemma LoadKeepsLockouts(s: Race, id: nat, now: Time)
    requires Enabled(s, Load(id, now)) && LockoutsKept(s)
    ensures LockoutsKept(Next(s, Load(id, now)))
  {
    var n := Next(s, Load(id, now));
    if !IsLocked(s, now) {
      assert WaitedOut(s.lockings, |s.lockings|, now);
    }
    assert InOrder(n) && LockingsWaited(n);
  }

  lemma AppendKeepsWaited(lockings: seq<Locking>, l: Locking, before: nat, loaded: Time)
    requires before <= |lockings| && WaitedOut(lockings, before, loaded)
    ensures WaitedOut(lockings + [l], before, loaded)
  {
  }

  lemma CompareKeepsInOrder(s: Race, id: nat, now: Time)
    requires Enabled(s, Compare(id, now)) && InOrder(s)
    ensures InOrder(Next(s, Compare(id, now)))
  {
  }

  lemma CompareKeepsWaited(s: Race, id: nat, now: Time)
    requires Enabled(s, Compare(id, now)) && LockingsWaited(s) && FlightWaited(s)
    ensures LockingsWaited(Next(s, Compare(id, now))) && FlightWaited(Next(s, Compare(id, now)))
  {
    var n, r := Next(s, Compare(id, now)), s.flight[id];
    if n.lockings != s.lockings {
      var l := Locking(now, r.loaded, r.before);
      forall i | 0 <= i < |n.lockings|
        ensures WaitedOut(n.lockings, n.lockings[i].before, n.lockings[i].loaded)
      {
        AppendKeepsWaited(s.lockings, l, n.lockings[i].before, n.lockings[i].loaded);
      }
      forall other | other in n.flight ensures WaitedOut(n.lockings, n.flight[other].before, n.flight[other].loaded) {
        AppendKeepsWaited(s.lockings, l, n.flight[other].before, n.flight[other].loaded);
      }
    }
  }

  lemma CompareKeepsLockouts(s: Race, id: nat, now: Time)
    requires Enabled(s, Compare(id, now)) && LockoutsKept(s)
    ensures LockoutsKept(Next(s, Compare(id, now)))
  {
    CompareKeepsInOrder(s, id, now);
    CompareKeepsWaited(s, id, now);
  }

  lemma LoadKeepsOld(s: Race, id: nat, now: Time, k: nat, j: nat)
    requires Enabled(s, Load(id, now)) && OldBounded(s, k)
    requires |Next(s, Load(id, now)).flight| <= k
    ensures var n := Next(s, Load(id, now)); OldLockings(n.lockings, j) + |OldReadings(n.flight, j)| <= k
  {
    var n := Next(s, Load(id, now));
    if j < |s.lockings| {
      assert OldReadings(n.flight, j) == OldReadings(s.flight, j);
    } else {
      SubsetIsNoLarger(OldReadings(n.flight, j), n.flight.Keys);
    }
  }

  lemma OneFewerOld(flight: map<nat, Reading>, id: nat, j: nat)
    requires id in flight
    ensures |OldReadings(flight - {id}, j)| == |OldReadings(flight, j)| - if flight[id].before <= j then 1 else 0
  {
    if flight[id].before <= j {
      assert OldReadings(flight, j) == OldReadings(flight - {id}, j) + {id};
    } else {
      assert OldReadings(flight, j) == OldReadings(flight - {id}, j);
    }
  }

  lemma OneMoreOld(lockings: seq<Locking>, l: Locking, j: nat)
    ensures OldLockings(lockings + [l], j) <= OldLockings(lockings, j) + if l.before <= j then 1 else 0
  {
    assert (lockings + [l])[..|lockings|] == lockings;
  }

  lemma CompareKeepsOld(s: Race, id: nat, now: Time, k: nat, j: nat)
    requires Enabled(s, Compare(id, now)) && OldBounded(s, k)
    ensures var n := Next(s, Compare(id, now)); OldLockings(n.lockings, j) + |OldReadings(n.flight, j)| <= k
  {
    var r := s.flight[id];
    OneFewerOld(s.flight, id, j);
    OneMoreOld(s.lockings, Locking(now, r.loaded, r.before), j);
    assert OldLockings(s.lockings, j) + |OldReadings(s.flight, j)| <= k;
  }

  lemma NextKeepsOld(s: Race, step: Step, k: nat)
    requires Enabled(s, step) && OldBounded(s, k) && |Next(s, step).flight| <= k
    ensures OldBounded(Next(s, step), k)
  {
    var n := Next(s, step);
    forall j: nat ensures OldLockings(n.lockings, j) + |OldReadings(n.flight, j)| <= k {
      match step
      case Load(id, now) => LoadKeepsOld(s, id, now, k, j);
      case Compare(id, now) => CompareKeepsOld(s, id, now, k, j);
    }
  }

  lemma {:induction false} PrefixIsNoOlder(lockings: seq<Locking>, m: nat, j: nat)
    requires m <= |lockings|
    ensures OldLockings(lockings[..m], j) <= OldLockings(lockings, j)
    decreases |lockings|
  {
    if m < |lockings| {
      PrefixIsNoOlder(lockings[..|lockings| - 1], m, j);
      assert lockings[..|lockings| - 1][..m] == lockings[..m];
    } else {
      assert lockings[..m] == lockings;
    }
  }

  lemma {:induction false} AllOldCount(lockings: seq<Locking>, j: nat, m: nat)
    requires j <= m <= |lockings| && forall i :: j <= i < m ==> lockings[i].before <= j
    ensures OldLockings(lockings[..m], j) == m - j
    decreases m
  {
    if j < m {
      AllOldCount(lockings, j, m - 1);
      assert lockings[..m][..m - 1] == lockings[..m - 1];
    }
  }

  /** With at most k in flight, the k-th locking comparison after any other comes at least a lockout later. */
  lemma LockingsAreSpaced(s: Race, k: nat, j: nat)
    requires LockoutsKept(s) && OldBounded(s, k) && j + k < |s.lockings|
    ensures s.lockings[j + k].at >= s.lockings[j].at + LOCKOUT
  {
    if forall i :: j <= i < j + k + 1 ==> s.lockings[i].before <= j {
      AllOldCount(s.lockings, j, j + k + 1);
      PrefixIsNoOlder(s.lockings, j + k + 1, j);
      assert false;
    } else {
      var i :| j <= i < j + k + 1 && s.lockings[i].before > j;
      assert WaitedOut(s.lockings, s.lockings[i].before, s.lockings[i].loaded);
    }
  }

  lemma {:induction false} ManyLockingsTakeLong(s: Race, k: nat, i: nat, rounds: nat)
    requires LockoutsKept(s) && OldBounded(s, k) && i + k * rounds < |s.lockings|
    ensures s.lockings[i + k * rounds].at >= s.lockings[i].at + LOCKOUT * rounds
    decreases rounds
  {
    if rounds > 0 {
      assert k * rounds == k * (rounds - 1) + k;
      ManyLockingsTakeLong(s, k, i, rounds - 1);
      LockingsAreSpaced(s, k, i + k * (rounds - 1));
    }
  }

  // --------------------------------------------------------- over a run

  ghost predicate Inv(s: Race, k: nat) {
    && AllReadsBounded(s, k) && LockoutsKept(s) && OldBounded(s, k)
    && |s.counts| == LowReads(s.counts) + |s.lockings|
  }

  lemma CompareKeepsTotal(s: Race, id: nat, now: Time)
    requires Enabled(s, Compare(id, now)) && |s.counts| == LowReads(s.counts) + |s.lockings|
    ensures var n := Next(s, Compare(id, now)); |n.counts| == LowReads(n.counts) + |n.lockings|
  {
    var n, r := Next(s, Compare(id, now)), s.flight[id];
    assert forall v: nat :: n.counts[v] == s.counts[v] + if r.read == v then 1 else 0;
  }

  lemma StartIsInv(clock: Time, k: nat)
    ensures Inv(Start(clock), k)
  {
    forall v: nat ensures ReadsBounded(Start(clock), k, v) {
      assert ReadingOf(map[], v) == {};
    }
    forall j: nat ensures OldLockings([], j) + |OldReadings(map[], j)| <= k {
      assert OldReadings(map[], j) == {};
    }
  }

  lemma NextKeepsInv(s: Race, step: Step, k: nat)
    requires Inv(s, k) && Enabled(s, step) && |s.flight| <= k && |Next(s, step).flight| <= k
    ensures Inv(Next(s, step), k) && Grown(s, Next(s, step))
  {
    NextKeepsBounded(s, step, k);
    NextKeepsOld(s, step, k);
    match step
    case Load(id, now) => LoadKeepsLockouts(s, id, now);
    case Compare(id, now) =>
      CompareKeepsLockouts(s, id, now);
      CompareKeepsTotal(s, id, now);
  }

  /** Later on, the history has only been added to, and by nothing earlier than now. */
  ghost predicate Grown(s: Race, n: Race) {
    && s.clock <= n.clock && s.counts <= n.counts && LowReads(s.counts) <= LowReads(n.counts)
    && s.lockings <= n.lockings
    && (forall i :: |s.lockings| <= i < |n.lockings| ==> s.clock <= n.lockings[i].at)
  }

  lemma {:induction false} RunKeepsInv(s: Race, steps: seq<Step>, k: nat)
    requires Inv(s, k) && Legal(s, steps) && AtMostInFlight(s, steps, k)
    ensures Inv(Run(s, steps), k) && Grown(s, Run(s, steps))
    decreases |steps|
  {
    if steps != [] {
      NextKeepsInv(s, steps[0], k);
      RunKeepsInv(Next(s, steps[0]), steps[1..], k);
    }
  }

  lemma RoundsExceed(duration: nat)
    ensures LOCKOUT * (1 + duration / (15 * 60)) > duration
  {
  }

  lemma LockingIsBefore(s: Race, i: nat)
    requires InOrder(s) && i < |s.lockings|
    ensures s.lockings[i].at <= s.clock
  {
  }

  /** The locking comparisons after the first `from`, if all were made within the duration. */
  lemma LockingsInDuration(s: Race, k: nat, from: nat, since: Time, duration: nat)
    requires LockoutsKept(s) && OldBounded(s, k) && from <= |s.lockings| && s.clock - since <= duration
    requires forall i :: from <= i < |s.lockings| ==> since <= s.lockings[i].at
    ensures |s.lockings| - from <= k * (1 + duration / (15 * 60))
  {
    var rounds := 1 + duration / (15 * 60);
    RoundsExceed(duration);
    if |s.lockings| - from > k * rounds {
      ManyLockingsTakeLong(s, k, from, rounds);
      LockingIsBefore(s, from + k * rounds);
    }
  }

  /**
   With at most k wrong requests in flight at once, over any mix of both endpoints and any interleaving,
   the wrong comparisons made between two moments of a run at most D apart number at most
   (k + k^2 + k^3 + k^4) + k * (1 + floor(D / 15 min)). With k = 1 this is the bound of serialised requests.
   */
  lemma WrongComparisonsInFlight(clock: Time, first: seq<Step>, later: seq<Step>, k: nat, duration: nat)
    requires Legal(Start(clock), first) && AtMostInFlight(Start(clock), first, k)
    requires var s := Run(Start(clock), first);
             Legal(s, later) && AtMostInFlight(s, later, k) && Run(s, later).clock - s.clock <= duration
    ensures var s := Run(Start(clock), first);
            var n := Run(s, later);
            && |n.counts| - |s.counts| <= k + k * k + k * k * k + k * k * k * k + k * (1 + duration / (15 * 60))
            && (k == 1 ==> |n.counts| - |s.counts| <= 5 + duration / (15 * 60))
  {
    StartIsInv(clock, k);
    RunKeepsInv(Start(clock), first, k);
    var s := Run(Start(clock), first);
    RunKeepsInv(s, later, k);
    var n := Run(s, later);
    LowReadsBounded(n, k);
    LockingsInDuration(n, k, |s.lockings|, s.clock, duration);
  }

  /** A request that no other overlaps does what the handlers do to the account. */
  lemma SerialRequestIsStep(s: Race, a: Account, r: Request, id: nat)
    requires a.failed == s.failed && a.lockoutUntil == s.lockoutUntil && HasPin(a) && r.pin != a.pin.value
    requires r.ResetPassword? ==> !r.rateLimited && r.newPassword == r.confirmPassword
    requires s.clock <= r.checked <= r.stamped && id !in s.flight
    ensures var m, b := Next(s, Load(id, r.checked)), PinLockout.Step(a, r);
            && (id in m.flight <==> ComparesWrong(a, r))
            && var n := if id in m.flight then Next(m, Compare(id, r.stamped)) else m;
               && n.failed == b.failed && n.lockoutUntil == b.lockoutUntil && n.flight == s.flight
               && n.clock == (if ComparesWrong(a, r) then r.stamped else r.checked)
               && n.counts == (if ComparesWrong(a, r) then s.counts + multiset{a.failed} else s.counts)
               && n.lockings == s.lockings + (if ComparesWrong(a, r) && a.failed >= 4
                    then [Locking(r.stamped, r.checked, |s.lockings|)] else [])
  {
  }

  // ----------------------------------------------------- the bound is missed

  function Loads(from: nat, k: nat, now: Time): seq<Step>
    requires from <= k
    decreases k - from
  {
    if from == k then [] else [Load(from, now)] + Loads(from + 1, k, now)
  }

  function Compares(from: nat, k: nat, now: Time): seq<Step>
    requires from <= k
    decreases k - from
  {
    if from == k then [] else [Compare(from, now)] + Compares(from + 1, k, now)
  }

  /** The requests `from` to `k` are in flight, all having read the count zero. */
  ghost predicate Waiting(s: Race, from: nat, k: nat, now: Time) {
    && s.clock == now && s.lockoutUntil == None && s.lockings == []
    && (forall id :: id in s.flight <==> from <= id < k)
    && (forall id :: id in s.flight ==> s.flight[id].read == 0)
  }

  lemma {:induction false} AllLoad(s: Race, from: nat, k: nat, now: Time)
    requires from <= k && Waiting(s, 0, from, now) && s.failed == 0
    ensures Legal(s, Loads(from, k, now))
    ensures var n := Run(s, Loads(from, k, now)); Waiting(n, 0, k, now) && n.counts == s.counts && n.failed == 0
    decreases k - from
  {
    if from < k {
      assert Loads(from, k, now)[1..] == Loads(from + 1, k, now);
      AllLoad(Next(s, Load(from, now)), from + 1, k, now);
    }
  }

  lemma {:induction false} AllCompare(s: Race, from: nat, k: nat, now: Time)
    requires from <= k && Waiting(s, from, k, now)
    ensures Legal(s, Compares(from, k, now))
    ensures var n := Run(s, Compares(from, k, now));
            Waiting(n, k, k, now) && |n.counts| == |s.counts| + k - from && (from < k ==> n.failed == 1)
    decreases k - from
  {
    if from < k {
      assert Compares(from, k, now)[1..] == Compares(from + 1, k, now);
      var n := Next(s, Compare(from, now));
      assert n.failed == 1;
      AllCompare(n, from + 1, k, now);
    }
  }

  lemma {:induction false} RunsOn(s: Race, front: seq<Step>, back: seq<Step>)
    requires Legal(s, front) && Legal(Run(s, front), back)
    ensures Legal(s, front + back) && Run(s, front + back) == Run(Run(s, front), back)
    decreases |front|
  {
    if front == [] {
      assert front + back == back;
    } else {
      assert (front + back)[0] == front[0] && (front + back)[1..] == front[1..] + back;
      RunsOn(Next(s, front[0]), front[1..], back);
    }
  }

  /**
   The bound of serialised requests is missed: any number of requests at one moment all compare, and count
   as a single failure.
   */
  lemma ConcurrentRequestsCountOnce(now: Time, k: nat) returns (steps: seq<Step>)
    requires k > 0
    ensures Legal(Start(now), steps)
    ensures var n := Run(Start(now), steps);
            n.clock == now && |n.counts| == k && n.failed == 1 && n.lockoutUntil == None
  {
    AllLoad(Start(now), 0, k, now);
    var s := Run(Start(now), Loads(0, k, now));
    AllCompare(s, 0, k, now);
    RunsOn(Start(now), Loads(0, k, now), Compares(0, k, now));
    steps := Loads(0, k, now) + Compares(0, k, now);
  }
}
