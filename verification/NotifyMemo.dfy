/** The bounded, insertion-ordered memo behind the once-per-principal "tool connected" notification. */
module NotifyMemo {
  const NOTIFIED_KEYS_MAX: nat := 10_000

  /** The memo after a key is marked, with a bound of `max` keys. */
  function Mark(memo: seq<string>, key: string, max: nat): seq<string> {
    if key in memo then memo
    else if |memo| + 1 > max then (memo + [key])[1..]
    else memo + [key]
  }

  /** The keys a run of marks emitted, in order. */
  function Emitted(memo: seq<string>, keys: seq<string>, max: nat): seq<string>
    decreases |keys|
  {
    if keys == [] then []
    else (if keys[0] in memo then [] else [keys[0]]) + Emitted(Mark(memo, keys[0], max), keys[1..], max)
  }

  function MemoAfter(memo: seq<string>, keys: seq<string>, max: nat): seq<string>
    decreases |keys|
  {
    if keys == [] then memo else MemoAfter(Mark(memo, keys[0], max), keys[1..], max)
  }

  function Last(s: seq<string>, n: nat): seq<string> {
    if |s| <= n then s else s[|s| - n..]
  }

  /** Any `max + 1` consecutive entries are distinct. */
  ghost predicate WindowDistinct(s: seq<string>, max: nat) {
    forall i, j :: 0 <= i < j < |s| && j - i <= max ==> s[i] != s[j]
  }

  lemma MarkAppends(before: seq<string>, key: string, max: nat)
    requires max > 0 && WindowDistinct(before, max) && key !in Last(before, max)
    ensures Mark(Last(before, max), key, max) == Last(before + [key], max)
    ensures WindowDistinct(before + [key], max)
  {
  }

  /**
   From any history whose last keys the memo holds: after any marks the memo is again the last
   `max` emitted keys in order, and no `max + 1` consecutive emissions hold the same key twice.
   */
  lemma {:induction false} MemoIsLastEmitted(before: seq<string>, keys: seq<string>, max: nat)
    requires max > 0 && WindowDistinct(before, max)
    ensures var emitted := before + Emitted(Last(before, max), keys, max);
            MemoAfter(Last(before, max), keys, max) == Last(emitted, max) && WindowDistinct(emitted, max)
    decreases |keys|
  {
    var memo := Last(before, max);
    if keys == [] {
      assert before + [] == before;
    } else if keys[0] in memo {
      MemoIsLastEmitted(before, keys[1..], max);
      assert Emitted(memo, keys, max) == Emitted(memo, keys[1..], max);
    } else {
      MarkAppends(before, keys[0], max);
      MemoIsLastEmitted(before + [keys[0]], keys[1..], max);
      var rest := Emitted(Mark(memo, keys[0], max), keys[1..], max);
      assert before + ([keys[0]] + rest) == before + [keys[0]] + rest;
    }
  }

  /** From boot: any 10001 consecutive notifications are for distinct principals. */
  lemma NotificationsDistinct(keys: seq<string>)
    ensures var emitted := Emitted([], keys, NOTIFIED_KEYS_MAX);
            && MemoAfter([], keys, NOTIFIED_KEYS_MAX) == Last(emitted, 10_000)
            && (forall i, j :: 0 <= i < j < |emitted| && j - i <= 10_000 ==> emitted[i] != emitted[j])
  {
    MemoIsLastEmitted([], keys, NOTIFIED_KEYS_MAX);
    assert [] + Emitted([], keys, NOTIFIED_KEYS_MAX) == Emitted([], keys, NOTIFIED_KEYS_MAX);
  }

  /** The middleware's memo; `emitted` is the history of keys it let through. */
  class NotifiedKeys {
    var keys: seq<string>
    ghost var emitted: seq<string>

    ghost predicate Valid()
      reads this
    {
      WindowDistinct(emitted, NOTIFIED_KEYS_MAX) && keys == Last(emitted, NOTIFIED_KEYS_MAX)
    }

    constructor ()
      ensures Valid() && emitted == []
    {
      keys, emitted := [], [];
    }

    /** True exactly when the key is not among the last 10000 let through. */
    method MarkNotified(key: string) returns (first: bool)
      requires Valid()
      modifies this
      ensures Valid()
      ensures first <==> key !in Last(old(emitted), 10_000)
      ensures emitted == old(emitted) + (if first then [key] else [])
    {
      if key in keys {
        return false;
      }
      MarkAppends(emitted, key, NOTIFIED_KEYS_MAX);
      keys := keys + [key];
      if |keys| > NOTIFIED_KEYS_MAX {
        keys := keys[1..];
      }
      emitted := emitted + [key];
      first := true;
    }
  }
}
