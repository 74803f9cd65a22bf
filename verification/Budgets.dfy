/**
  The shared ledger of delegated calls, tokens and cost, and how an inbound request's limits
  are attenuated before a ledger is opened for it.
 */
module Budgets {
  import opened Wrappers

  /** What is left; an absent token or cost limit means there is none. */
  datatype Limits = Limits(depth: nat, calls: nat, tokens: Option<nat>, cost: Option<real>)

  datatype Amount = Amount(calls: int, tokens: int, cost: real)

  const NOTHING := Amount(0, 0, 0.0)

  datatype Error = InvalidReservation

  predicate Valid(l: Limits) {
    l.cost.Some? ==> l.cost.value >= 0.0
  }

  predicate NonNegative(a: Amount) {
    a.calls >= 0 && a.tokens >= 0 && a.cost >= 0.0
  }

  predicate Affords(l: Limits, a: Amount) {
    && a.calls <= l.calls
    && (l.tokens.Some? ==> a.tokens <= l.tokens.value)
    && (l.cost.Some? ==> a.cost <= l.cost.value)
  }

  predicate Granted(l: Limits, a: Amount) {
    NonNegative(a) && Affords(l, a)
  }

  /** The ledger after an attempt; a refused one changes nothing. */
  function Reserved(l: Limits, a: Amount): Limits {
    if !Granted(l, a) then l
    else l.(calls := l.calls - a.calls,
            tokens := if l.tokens.Some? then Some(l.tokens.value - a.tokens) else None,
            cost := if l.cost.Some? then Some(l.cost.value - a.cost) else None)
  }

  function Plus(a: Amount, b: Amount): Amount {
    Amount(a.calls + b.calls, a.tokens + b.tokens, a.cost + b.cost)
  }

  /** `before` is `after` and what was taken, resource by resource. */
  ghost predicate Balances(before: Limits, after: Limits, taken: Amount) {
    && before.depth == after.depth
    && before.calls == after.calls + taken.calls
    && before.tokens.Some? == after.tokens.Some? && before.cost.Some? == after.cost.Some?
    && (before.tokens.Some? ==> before.tokens.value == after.tokens.value + taken.tokens)
    && (before.cost.Some? ==> before.cost.value == after.cost.value + taken.cost)
  }

  class DelegationBudget {
    const maxDepth: nat
    var calls: nat
    var tokens: Option<nat>
    var cost: Option<real>

    ghost function View(): Limits
      reads this
    {
      Limits(maxDepth, calls, tokens, cost)
    }

    constructor (limits: Limits)
      requires Valid(limits)
      ensures View() == limits
    {
      maxDepth, calls, tokens, cost := limits.depth, limits.calls, limits.tokens, limits.cost;
    }

    method Snapshot(currentDepth: nat) returns (s: Limits)
      ensures s == View().(depth := if currentDepth < maxDepth then maxDepth - currentDepth else 0)
    {
      return Limits(if maxDepth - currentDepth > 0 then maxDepth - currentDepth else 0, calls, tokens, cost);
    }

    /** Take the whole amount, or nothing. */
    method Reserve(amount: Amount) returns (granted: Result<bool, Error>)
      requires Valid(View())
      modifies this
      ensures Valid(View()) && View() == Reserved(old(View()), amount)
      ensures granted == if NonNegative(amount) then Success(Affords(old(View()), amount))
              else Failure(InvalidReservation)
    {
      if amount.calls < 0 || amount.tokens < 0 || amount.cost < 0.0 {
        return Failure(InvalidReservation);
      }
      if calls < amount.calls {
        return Success(false);
      }
      if tokens.Some? && tokens.value < amount.tokens {
        return Success(false);
      }
      if cost.Some? && cost.value < amount.cost {
        return Success(false);
      }
      calls := calls - amount.calls;
      if tokens.Some? {
        tokens := Some(tokens.value - amount.tokens);
      }
      if cost.Some? {
        cost := Some(cost.value - amount.cost);
      }
      return Success(true);
    }
  }

  // -------------------------------------------------------------- attenuation

  function MinimumOptional(left: Option<nat>, right: Option<nat>): Option<nat> {
    if left.None? then right
    else if right.None? then left
    else Some(if left.value <= right.value then left.value else right.value)
  }

  function MinimumOptionalCost(left: Option<real>, right: Option<real>): Option<real> {
    if left.None? then right
    else if right.None? then left
    else Some(if left.value <= right.value then left.value else right.value)
  }

  function Minimum(left: nat, right: nat): nat {
    if left <= right then left else right
  }

  function AttenuateBudget(authenticated: Option<Limits>, requested: Option<Limits>): Option<Limits> {
    if authenticated.None? then requested
    else if requested.None? then authenticated
    else
      var (a, r) := (authenticated.value, requested.value);
      Some(Limits(Minimum(a.depth, r.depth), Minimum(a.calls, r.calls),
                  MinimumOptional(a.tokens, r.tokens), MinimumOptionalCost(a.cost, r.cost)))
  }

  predicate AffordsOptional(l: Option<Limits>, a: Amount) {
    l.Some? ==> Affords(l.value, a)
  }

  predicate DeepEnough(l: Option<Limits>, depth: nat) {
    l.Some? ==> depth <= l.value.depth
  }

  /** The attenuated budget affords exactly what both budgets afford, and is as deep as both. */
  lemma AttenuatedAffordsWhatBothAfford(authenticated: Option<Limits>, requested: Option<Limits>, a: Amount, depth: nat)
    ensures var both := AttenuateBudget(authenticated, requested);
            && (AffordsOptional(both, a) <==> AffordsOptional(authenticated, a) && AffordsOptional(requested, a))
            && (DeepEnough(both, depth) <==> DeepEnough(authenticated, depth) && DeepEnough(requested, depth))
  {
  }

  /** Two limits that afford the same amounts are the same limits: the minimum is the only answer. */
  lemma AffordingDetermines(l: Limits, m: Limits)
    requires Valid(l) && Valid(m) && l.depth == m.depth
    requires forall a :: Affords(l, a) <==> Affords(m, a)
    ensures l == m
  {
    assert Affords(l, Amount(l.calls, 0, 0.0)) && Affords(m, Amount(m.calls, 0, 0.0));
    var t := if l.tokens.Some? then l.tokens.value else 0;
    var u := if m.tokens.Some? then m.tokens.value else 0;
    assert Affords(l, Amount(0, t, 0.0)) && Affords(m, Amount(0, u, 0.0));
    assert Affords(l, Amount(0, u + 1, 0.0)) <==> Affords(m, Amount(0, u + 1, 0.0));
    assert Affords(l, Amount(0, t + 1, 0.0)) <==> Affords(m, Amount(0, t + 1, 0.0));
    var c := if l.cost.Some? then l.cost.value else 0.0;
    var d := if m.cost.Some? then m.cost.value else 0.0;
    assert Affords(l, Amount(0, 0, c)) && Affords(m, Amount(0, 0, d));
    assert Affords(l, Amount(0, 0, d + 1.0)) <==> Affords(m, Amount(0, 0, d + 1.0));
    assert Affords(l, Amount(0, 0, c + 1.0)) <==> Affords(m, Amount(0, 0, c + 1.0));
  }

  // ------------------------------------------------------------ what is granted

  /**
    Each resource can be reserved up to what is left of it and not beyond, whatever is asked of
    the others within theirs; what has no limit is always granted, and a negative amount never.
   */
  lemma GrantedUpToWhatIsLeft(l: Limits, tokens: nat, cost: real, over: real)
    requires Valid(l) && cost >= 0.0 && over > 0.0
    requires (l.tokens.Some? ==> tokens <= l.tokens.value) && (l.cost.Some? ==> cost <= l.cost.value)
    ensures Granted(l, Amount(l.calls, tokens, cost)) && !Granted(l, Amount(l.calls + 1, tokens, cost))
    ensures l.tokens.Some? ==>
              Granted(l, Amount(l.calls, l.tokens.value, cost)) && !Granted(l, Amount(0, l.tokens.value + 1, cost))
    ensures l.cost.Some? ==>
              Granted(l, Amount(l.calls, tokens, l.cost.value)) && !Granted(l, Amount(0, tokens, l.cost.value + over))
    ensures !Granted(l, Amount(-1, tokens, cost)) && !Granted(l, Amount(0, -1, cost))
    ensures !Granted(l, Amount(0, tokens, -over))
  {
  }

  /** A grant leaves what is left less what was taken; taking all of a limited resource leaves none of it. */
  lemma ReservedLeavesTheRest(l: Limits, a: Amount)
    requires Valid(l)
    ensures Granted(l, a) ==>
              Valid(Reserved(l, a)) && Balances(l, Reserved(l, a), a) && Reserved(l, a).depth == l.depth
    ensures !Granted(l, a) ==> Reserved(l, a) == l
  {
  }

  // ------------------------------------------------------------- conservation

  /** One attempted reservation, against the ledger with this identity. */
  datatype Attempt = Attempt(ledger: nat, amount: Amount)

  function Charge(ledgers: map<nat, Limits>, a: Attempt): map<nat, Limits> {
    if a.ledger in ledgers then ledgers[a.ledger := Reserved(ledgers[a.ledger], a.amount)] else ledgers
  }

  function Spend(ledgers: map<nat, Limits>, attempts: seq<Attempt>): map<nat, Limits>
    decreases attempts
  {
    if attempts == [] then ledgers else Spend(Charge(ledgers, attempts[0]), attempts[1..])
  }
}
