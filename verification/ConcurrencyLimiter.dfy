/**
  The non-queuing admission gate: a total bound and an optional bound per caller key.
  `holders` is the multiset of keys of the callers that hold a slot.
 */
module ConcurrencyLimiter {
  import opened Wrappers

  type Key = string

  predicate Admits(holders: multiset<Key>, key: Key, limit: nat, perKeyLimit: Option<nat>) {
    |holders| < limit && (perKeyLimit.Some? ==> holders[key] < perKeyLimit.value)
  }

  ghost predicate Bounded(holders: multiset<Key>, limit: nat, perKeyLimit: Option<nat>) {
    |holders| <= limit && (perKeyLimit.Some? ==> forall k :: holders[k] <= perKeyLimit.value)
  }

  class A2AConcurrencyLimiter {
    const limit: nat
    const perKeyLimit: Option<nat>
    var held: nat
    var perKey: map<Key, int>

    /** The counters say exactly who holds a slot, and nobody holds more than is allowed. */
    ghost predicate Accounts(holders: multiset<Key>)
      reads this
    {
      && Bounded(holders, limit, perKeyLimit)
      && held == |holders|
      && (perKeyLimit.None? ==> perKey == map[])
      && (perKeyLimit.Some? ==> forall k :: Count(k) == holders[k] && (k in perKey <==> k in holders))
    }

    function Count(key: Key): int
      reads this
    {
      if key in perKey then perKey[key] else 0
    }

    constructor (limit: nat, perKeyLimit: Option<nat>)
      requires limit > 0 && (perKeyLimit.Some? ==> perKeyLimit.value > 0)
      ensures this.limit == limit && this.perKeyLimit == perKeyLimit && Accounts(multiset{})
    {
      this.limit, this.perKeyLimit := limit, perKeyLimit;
      held, perKey := 0, map[];
    }

    method TryAcquire(key: Key, ghost holders: multiset<Key>) returns (acquired: bool)
      requires Accounts(holders)
      modifies this
      ensures acquired <==> Admits(holders, key, limit, perKeyLimit)
      ensures Accounts(if acquired then holders + multiset{key} else holders)
      ensures !acquired ==> held == old(held) && perKey == old(perKey)
    {
      if held >= limit {
        return false;
      }
      if perKeyLimit.Some? && Count(key) >= perKeyLimit.value {
        return false;
      }
      held := held + 1;
      if perKeyLimit.Some? {
        perKey := perKey[key := Count(key) + 1];
      }
      return true;
    }

    /** A release that matches an acquisition gives the slot back; a stray one never goes below zero. */
    method Release(key: Key, ghost holders: multiset<Key>)
      requires Accounts(holders)
      modifies this
      ensures key in holders ==> Accounts(holders - multiset{key})
      ensures held == if old(held) > 0 then old(held) - 1 else 0
      ensures forall k :: k != key ==> Count(k) == old(Count(k))
    {
      if held > 0 {
        held := held - 1;
      }
      if perKeyLimit.None? {
        return;
      }
      var remaining := Count(key) - 1;
      if remaining > 0 {
        perKey := perKey[key := remaining];
      } else {
        perKey := perKey - {key};
      }
    }
  }
}
