/**
 The recovery-PIN lockout that two endpoints share: five wrong PINs lock the
 account for 15 minutes, and every wrong PIN after that locks it again.
 */
module PinLockout {
  import opened Options

  /** Seconds. */
  type Time = int

  const LOCKOUT: Time := 15 * 60
  const MAX_ATTEMPTS := 5

  /** What the endpoints read and write of a user; the PIN hash is an equality oracle for the PIN. */
  datatype Account = Account(pin: Option<string>, failed: nat, lockoutUntil: Option<Time>, epoch: nat, password: string)

  /** One request. `checked` is the clock when the lockout is tested, `stamped` when a new one is set. */
  datatype Request =
    | VerifyPin(pin: string, checked: Time, stamped: Time)
    | ResetPassword(pin: string, newPassword: string, confirmPassword: string, rateLimited: bool, checked: Time,
      stamped: Time)

  datatype Response =
    | RateLimited
    | PasswordsDiffer
    | InvalidUsernameOrPin
    | LockedOut(minutes: int)
    | LockoutTriggered
    | WrongPin(remaining: nat)
    | PinValid
    | ResetDone

  predicate HasPin(a: Account) {
    a.pin.Some? && a.pin.value != ""
  }

  predicate Locked(a: Account, now: Time) {
    a.lockoutUntil.Some? && now < a.lockoutUntil.value
  }

  /** The request gets as far as comparing PINs. */
  predicate Compares(a: Account, r: Request) {
    && (r.ResetPassword? ==> !r.rateLimited && r.newPassword == r.confirmPassword)
    && HasPin(a) && !Locked(a, r.checked)
  }

  predicate ComparesWrong(a: Account, r: Request) {
    Compares(a, r) && r.pin != a.pin.value
  }

  predicate Resets(a: Account, r: Request) {
    Compares(a, r) && r.pin == a.pin.value && r.ResetPassword?
  }

  /** The account after a request: a wrong PIN counts and, from the fifth on, locks; a reset starts afresh. */
  function Step(a: Account, r: Request): Account {
    if ComparesWrong(a, r) then
      a.(failed := a.failed + 1, lockoutUntil := if a.failed + 1 >= MAX_ATTEMPTS then Some(r.stamped + LOCKOUT)
        else a.lockoutUntil)
    else if Resets(a, r) then
      Account(a.pin, 0, None, a.epoch + 1, r.newPassword)
    else a
  }

  function Run(a: Account, requests: seq<Request>): Account
    decreases |requests|
  {
    if requests == [] then a else Run(Step(a, requests[0]), requests[1..])
  }

  /** When the wrong comparisons of a run were made. */
  function WrongTimes(a: Account, requests: seq<Request>): seq<Time>
    decreases |requests|
  {
    if requests == [] then []
    else (if ComparesWrong(a, requests[0]) then [requests[0].checked] else [])
         + WrongTimes(Step(a, requests[0]), requests[1..])
  }

  /** Requests one after the other under a clock that never goes back. */
  predicate Serialised(requests: seq<Request>, since: Time)
    decreases |requests|
  {
    requests == [] ||
    (since <= requests[0].checked <= requests[0].stamped && Serialised(requests[1..], requests[0].stamped))
  }

  ghost predicate NoReset(a: Account, requests: seq<Request>)
    decreases |requests|
  {
    requests == [] || (!Resets(a, requests[0]) && NoReset(Step(a, requests[0]), requests[1..]))
  }

  /** Five failures always come with a lockout time. */
  predicate LockoutSet(a: Account) {
    a.failed >= MAX_ATTEMPTS ==> a.lockoutUntil.Some?
  }

  ghost predicate Sorted(times: seq<Time>, since: Time) {
    && (forall k :: 0 <= k < |times| ==> since <= times[k])
    && (forall j, k :: 0 <= j <= k < |times| ==> times[j] <= times[k])
  }

  lemma {:induction false} WrongTimesSorted(a: Account, requests: seq<Request>, since: Time)
    requires Serialised(requests, since)
    ensures Sorted(WrongTimes(a, requests), since)
    decreases |requests|
  {
    if requests != [] {
      WrongTimesSorted(Step(a, requests[0]), requests[1..], requests[0].stamped);
    }
  }

  /**
   After `failed` failures already counted, wrong comparisons at these times keep a lockout apart once five
   are counted.
   */
  ghost predicate Spaced(w: seq<Time>, failed: nat) {
    forall j, k :: 0 <= j && k == j + 1 && k < |w| && failed + k >= MAX_ATTEMPTS ==> w[k] >= w[j] + LOCKOUT
  }

  /** From the fifth wrong comparison on, each comes at least a lockout after the one before. */
  lemma {:induction false} Spacing(a: Account, requests: seq<Request>, since: Time)
    requires LockoutSet(a) && Serialised(requests, since) && NoReset(a, requests)
    ensures var w := WrongTimes(a, requests);
            && (a.failed >= MAX_ATTEMPTS && w != [] ==> w[0] >= a.lockoutUntil.value)
            && Spaced(w, a.failed)
    decreases |requests|
  {
    if requests != [] {
      var r, b := requests[0], Step(a, requests[0]);
      Spacing(b, requests[1..], r.stamped);
      var w, v := WrongTimes(a, requests), WrongTimes(b, requests[1..]);
      if ComparesWrong(a, r) {
        assert w == [r.checked] + v;
        forall j, k | 0 <= j && k == j + 1 && k < |w| && a.failed + k >= MAX_ATTEMPTS ensures w[k] >= w[j] + LOCKOUT {
          if j > 0 {
            assert v[k - 1] >= v[j - 1] + LOCKOUT;
          }
        }
      } else {
        assert w == v;
      }
    }
  }

  /** An account nobody has failed on since it was made, or since its last reset. */
  predicate Unlocked(a: Account) {
    a.failed == 0 && a.lockoutUntil == None
  }

  /**
   The n-th wrong comparison, n >= 5, comes at least 15 * (n - 5) minutes after the fifth, over any mix of
   both endpoints.
   */
  lemma {:induction false} NthWrongComparison(a: Account, requests: seq<Request>, since: Time, n: nat)
    requires Unlocked(a) && Serialised(requests, since) && NoReset(a, requests)
    requires 5 <= n <= |WrongTimes(a, requests)|
    ensures var w := WrongTimes(a, requests); w[n - 1] >= w[4] + 15 * 60 * (n - 5)
    decreases n
  {
    if n > 5 {
      NthWrongComparison(a, requests, since, n - 1);
      Spacing(a, requests, since);
      var w := WrongTimes(a, requests);
      assert w[n - 1] >= w[n - 2] + LOCKOUT;
    }
  }

  lemma {:induction false} SpacedBetween(w: seq<Time>, i: nat, j: nat)
    requires 4 <= i <= j < |w|
    requires Spaced(w, 0)
    ensures w[j] >= w[i] + LOCKOUT * (j - i)
    decreases j
  {
    if i < j {
      SpacedBetween(w, i, j - 1);
      assert w[j] >= w[j - 1] + LOCKOUT;
    }
  }

  /** Wrong comparisons within any duration number at most five plus one for each full lockout in it. */
  lemma WrongComparisonsInDuration(a: Account, requests: seq<Request>, since: Time, i: nat, j: nat, duration: nat)
    requires Unlocked(a) && Serialised(requests, since) && NoReset(a, requests)
    requires var w := WrongTimes(a, requests); i <= j < |w| && w[j] - w[i] <= duration
    ensures j - i + 1 <= 5 + duration / (15 * 60)
  {
    var w := WrongTimes(a, requests);
    Spacing(a, requests, since);
    WrongTimesSorted(a, requests, since);
    if j >= 4 {
      var from := if i >= 4 then i else 4;
      SpacedBetween(w, from, j);
      assert w[i] <= w[from];
      assert LOCKOUT * (j - from) <= duration;
      QuotientBound(j - from, duration);
    }
  }

  lemma QuotientBound(k: nat, duration: nat)
    requires LOCKOUT * k <= duration
    ensures k <= duration / (15 * 60)
  {
  }

  // -------------------------------------------------------- the bound is met

  /** Wrong PINs sent the moment each lockout ends, from the j-th lockout to the k-th. */
  function Persist(j: nat, k: nat, pin: string): seq<Request>
    requires j <= k
    decreases k - j
  {
    if j == k then [] else [VerifyPin(pin, LOCKOUT * (j + 1), LOCKOUT * (j + 1))] + Persist(j + 1, k, pin)
  }

  lemma {:induction false} PersistMeetsBound(a: Account, j: nat, k: nat, pin: string)
    requires HasPin(a) && pin != a.pin.value && j <= k
    requires a.failed == 5 + j && a.lockoutUntil == Some(LOCKOUT * (j + 1))
    ensures var requests := Persist(j, k, pin);
            && Serialised(requests, LOCKOUT * j) && NoReset(a, requests)
            && |WrongTimes(a, requests)| == k - j
            && (k > j ==> WrongTimes(a, requests)[k - j - 1] == LOCKOUT * k)
    decreases k - j
  {
    if j < k {
      var requests := Persist(j, k, pin);
      var next := Step(a, requests[0]);
      assert requests[1..] == Persist(j + 1, k, pin);
      PersistMeetsBound(next, j + 1, k, pin);
      assert WrongTimes(a, requests) == [LOCKOUT * (j + 1)] + WrongTimes(next, requests[1..]);
    }
  }

  /** The lockout is no stricter than that: an account locked at time 0 by its fifth failure allows
      one more wrong comparison at the end of each 15 minutes, for as long as one likes. */
  lemma BoundIsMet(a: Account, k: nat, pin: string)
    requires HasPin(a) && pin != a.pin.value && Unlocked(a)
    ensures var five := [VerifyPin(pin, 0, 0), VerifyPin(pin, 0, 0), VerifyPin(pin, 0, 0), VerifyPin(pin, 0, 0),
      VerifyPin(pin, 0, 0)];
            var locked := Run(a, five);
            && locked.failed == 5 && locked.lockoutUntil == Some(LOCKOUT)
            && |WrongTimes(locked, Persist(0, k, pin))| == k
            && (k > 0 ==> WrongTimes(locked, Persist(0, k, pin))[k - 1] == 15 * 60 * k)
  {
    var one := VerifyPin(pin, 0, 0);
    var five := [one, one, one, one, one];
    var a1 := Step(a, one);
    var a2 := Step(a1, one);
    var a3 := Step(a2, one);
    var a4 := Step(a3, one);
    var a5 := Step(a4, one);
    assert five[1..] == [one, one, one, one] && five[1..][1..] == [one, one, one];
    assert [one, one, one][1..] == [one, one] && [one, one][1..] == [one] && [one][1..] == [];
    assert Run(a4, [one]) == a5 && Run(a3, [one, one]) == a5 && Run(a2, [one, one, one]) == a5;
    assert Run(a1, five[1..]) == a5 && Run(a, five) == a5;
    PersistMeetsBound(a5, 0, k, pin);
  }

  // ------------------------------------------------------- the revocations

  function Successes(a: Account, requests: seq<Request>): nat
    decreases |requests|
  {
    if requests == [] then 0
    else (if Resets(a, requests[0]) then 1 else 0) + Successes(Step(a, requests[0]), requests[1..])
  }

  /**
   The revocation epoch counts the successful resets, each of which clears the lockout; nothing else changes
   the password.
   */
  lemma {:induction false} EpochCountsResets(a: Account, requests: seq<Request>)
    ensures Run(a, requests).epoch == a.epoch + Successes(a, requests)
    ensures Run(a, requests).pin == a.pin
    ensures Successes(a, requests) == 0 ==>
      Run(a, requests).password == a.password && Run(a, requests).failed >= a.failed
    decreases |requests|
  {
    if requests != [] {
      EpochCountsResets(Step(a, requests[0]), requests[1..]);
    }
  }

  // -------------------------------------------------- what a run leaves

  /** When a request compares PINs and with what result, on the fields of record and request. */
  lemma ComparesIff(a: Account, r: Request)
    ensures var admitted := && (r.ResetPassword? ==> !r.rateLimited && r.newPassword == r.confirmPassword)
                            && (a.lockoutUntil.Some? ==> r.checked >= a.lockoutUntil.value);
            && (ComparesWrong(a, r) <==> admitted && a.pin.Some? && a.pin.value != "" && r.pin != a.pin.value)
            && (Resets(a, r) <==> r.ResetPassword? && admitted && r.pin != "" && a.pin == Some(r.pin))
  {
  }

  /** The requests of a run that compared wrong. */
  function WrongRequests(a: Account, requests: seq<Request>): seq<Request>
    decreases |requests|
  {
    if requests == [] then []
    else (if ComparesWrong(a, requests[0]) then [requests[0]] else [])
         + WrongRequests(Step(a, requests[0]), requests[1..])
  }

  /** The lockout after these wrong comparisons on top of `failed` failures: that of the last one, if it locks. */
  function LockoutAfter(failed: nat, before: Option<Time>, wrong: seq<Request>): Option<Time> {
    if wrong != [] && failed + |wrong| >= 5 then Some(wrong[|wrong| - 1].stamped + 15 * 60) else before
  }

  /**
   Without a reset: the failures count the wrong comparisons, the last one that locks sets the lockout, and
   the password stays.
   */
  lemma {:induction false} RunWithoutReset(a: Account, requests: seq<Request>)
    requires NoReset(a, requests)
    ensures var n, wrong := Run(a, requests), WrongRequests(a, requests);
            && n.failed == a.failed + |wrong| && n.lockoutUntil == LockoutAfter(a.failed, a.lockoutUntil, wrong)
            && n.pin == a.pin && n.password == a.password && n.epoch == a.epoch
    decreases |requests|
  {
    if requests != [] {
      var b := Step(a, requests[0]);
      RunWithoutReset(b, requests[1..]);
      var rest := WrongRequests(b, requests[1..]);
      if ComparesWrong(a, requests[0]) {
        assert WrongRequests(a, requests) == [requests[0]] + rest;
      } else {
        assert WrongRequests(a, requests) == rest;
      }
    }
  }

  lemma {:induction false} RunAppended(a: Account, front: seq<Request>, back: seq<Request>)
    ensures Run(a, front + back) == Run(Run(a, front), back)
    decreases |front|
  {
    if front == [] {
      assert front + back == back;
    } else {
      assert (front + back)[0] == front[0] && (front + back)[1..] == front[1..] + back;
      RunAppended(Step(a, front[0]), front[1..], back);
    }
  }

  /**
   From its last successful reset on, whatever came before: the password is the one that reset gave, the
   failures count the wrong comparisons since, and the lockout is that of the last locking one since, if any.
   */
  lemma LastResetRules(a: Account, before: seq<Request>, r: Request, after: seq<Request>)
    requires Resets(Run(a, before), r) && NoReset(Step(Run(a, before), r), after)
    ensures var wrong := WrongRequests(Step(Run(a, before), r), after);
            var n := Run(a, before + [r] + after);
            && n.password == r.newPassword && n.failed == |wrong| && n.lockoutUntil == LockoutAfter(0, None, wrong)
            && n.pin == a.pin && n.epoch == Run(a, before).epoch + 1
  {
    EpochCountsResets(a, before);
    var b := Step(Run(a, before), r);
    assert Run(Run(a, before), [r]) == b by {
      assert [r][1..] == [];
    }
    RunAppended(a, before, [r]);
    RunAppended(a, before + [r], after);
    RunWithoutReset(b, after);
  }

  // --------------------------------------------------------- the endpoints

  /** A user row, as the two handlers update it. */
  class UserRecord {
    var recoveryPin: Option<string>
    var failedPinAttempts: nat
    var pinLockoutUntil: Option<Time>
    var tokenRevocationEpoch: nat
    var password: string

    function Model(): Account
      reads this
    {
      Account(recoveryPin, failedPinAttempts, pinLockoutUntil, tokenRevocationEpoch, password)
    }

    method VerifyPinAndResetPassword(r: Request) returns (response: Response)
      requires r.ResetPassword?
      modifies this
      ensures Model() == Step(old(Model()), r)
      ensures var admitted := !r.rateLimited && r.newPassword == r.confirmPassword;
              var hasPin := recoveryPin.Some? && recoveryPin.value != "";
              var locked := old(pinLockoutUntil.Some? && r.checked < pinLockoutUntil.value);
              var compares := admitted && hasPin && !locked;
              && (response.RateLimited? <==> r.rateLimited)
              && (response.PasswordsDiffer? <==> !r.rateLimited && r.newPassword != r.confirmPassword)
              && (response.LockedOut? <==> admitted && hasPin && locked)
              && (response.ResetDone? <==> compares && recoveryPin == Some(r.pin))
              && (response.LockoutTriggered? <==> compares && recoveryPin != Some(r.pin) && old(failedPinAttempts) >= 4)
              && (response.InvalidUsernameOrPin? <==>
                    admitted && (!hasPin || (compares && recoveryPin != Some(r.pin) && old(failedPinAttempts) < 4)))
      ensures recoveryPin == old(recoveryPin)
      ensures response.ResetDone? ==>
        && password == r.newPassword && failedPinAttempts == 0 && pinLockoutUntil == None
        && tokenRevocationEpoch == old(tokenRevocationEpoch) + 1
      ensures !response.ResetDone? ==> password == old(password) && tokenRevocationEpoch == old(tokenRevocationEpoch)
      ensures response.LockoutTriggered? ==>
        failedPinAttempts == old(failedPinAttempts) + 1 && pinLockoutUntil == Some(r.stamped + 15 * 60)
      ensures response.LockedOut? ==> response.minutes == (pinLockoutUntil.value - r.checked) / 60
    {
      if r.rateLimited {
        return RateLimited;
      }
      if r.newPassword != r.confirmPassword {
        return PasswordsDiffer;
      }
      if recoveryPin.None? || recoveryPin.value == "" {
        return InvalidUsernameOrPin;
      }
      if pinLockoutUntil.Some? && r.checked < pinLockoutUntil.value {
        return LockedOut((pinLockoutUntil.value - r.checked) / 60);
      }
      if r.pin != recoveryPin.value {
        failedPinAttempts := failedPinAttempts + 1;
        if failedPinAttempts >= MAX_ATTEMPTS {
          pinLockoutUntil := Some(r.stamped + LOCKOUT);
          return LockoutTriggered;
        }
        return InvalidUsernameOrPin;
      }
      password := r.newPassword;
      failedPinAttempts := 0;
      pinLockoutUntil := None;
      tokenRevocationEpoch := tokenRevocationEpoch + 1;
      response := ResetDone;
    }

    method Verify(r: Request) returns (response: Response)
      requires r.VerifyPin?
      modifies this
      ensures Model() == Step(old(Model()), r)
      ensures var hasPin := recoveryPin.Some? && recoveryPin.value != "";
              var locked := old(pinLockoutUntil.Some? && r.checked < pinLockoutUntil.value);
              && (response.InvalidUsernameOrPin? <==> !hasPin)
              && (response.LockedOut? <==> hasPin && locked)
              && (response.PinValid? <==> hasPin && !locked && recoveryPin == Some(r.pin))
              && (response.WrongPin? <==> hasPin && !locked && recoveryPin != Some(r.pin))
      ensures recoveryPin == old(recoveryPin)
      ensures password == old(password) && tokenRevocationEpoch == old(tokenRevocationEpoch)
      ensures !response.WrongPin? ==> Model() == old(Model())
      ensures response.WrongPin? ==>
        && failedPinAttempts == old(failedPinAttempts) + 1
        && pinLockoutUntil == (if failedPinAttempts >= 5 then Some(r.stamped + 15 * 60) else old(pinLockoutUntil))
        && response.remaining == if failedPinAttempts < 5 then 5 - failedPinAttempts else 0
      ensures response.LockedOut? ==> response.minutes == (pinLockoutUntil.value - r.checked) / 60
    {
      if recoveryPin.None? || recoveryPin.value == "" {
        return InvalidUsernameOrPin;
      }
      if pinLockoutUntil.Some? && r.checked < pinLockoutUntil.value {
        return LockedOut((pinLockoutUntil.value - r.checked) / 60);
      }
      if r.pin != recoveryPin.value {
        failedPinAttempts := failedPinAttempts + 1;
        if failedPinAttempts >= MAX_ATTEMPTS {
          pinLockoutUntil := Some(r.stamped + LOCKOUT);
        }
        return WrongPin(if failedPinAttempts < MAX_ATTEMPTS then MAX_ATTEMPTS - failedPinAttempts else 0);
      }
      response := PinValid;
    }
  }
}
