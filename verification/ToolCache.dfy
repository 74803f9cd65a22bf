/** The bounded tool-call cache of a provider, against what its call history says it should hold. */
module ToolCache {
  import opened Wrappers

  /** The assistant message is opaque here: some text. */
  datatype CachedCall = CachedCall(callId: string, name: string, message: string)

  function Ids(calls: seq<CachedCall>): set<string> {
    if calls == [] then {} else {calls[0].callId} + Ids(calls[1..])
  }

  predicate Distinct(calls: seq<CachedCall>) {
    calls == [] || (calls[0].callId !in Ids(calls[1..]) && Distinct(calls[1..]))
  }

  function Find(calls: seq<CachedCall>, id: string): (r: Option<CachedCall>)
    ensures r.Some? <==> id in Ids(calls)
    ensures r.Some? ==> r.value in calls && r.value.callId == id
  {
    if calls == [] then None
    else if calls[0].callId == id then Some(calls[0])
    else Find(calls[1..], id)
  }

  function Without(calls: seq<CachedCall>, id: string): (r: seq<CachedCall>)
    ensures Ids(r) == Ids(calls) - {id}
  {
    if calls == [] then []
    else if calls[0].callId == id then Without(calls[1..], id)
    else
      var rest := Without(calls[1..], id);
      assert ([calls[0]] + rest)[1..] == rest;
      [calls[0]] + rest
  }

  function Last(calls: seq<CachedCall>, limit: int): seq<CachedCall> {
    if |calls| <= limit then calls else if limit <= 0 then [] else calls[|calls| - limit..]
  }

  function Remembered(calls: seq<CachedCall>, call: CachedCall, limit: int): seq<CachedCall> {
    Last(Without(calls, call.callId) + [call], limit)
  }

  function LookedUp(calls: seq<CachedCall>, id: string): seq<CachedCall> {
    var found := Find(calls, id);
    if found.Some? then Without(calls, id) + [found.value] else calls
  }

  /** An insertion-ordered dictionary of calls, evicted from its front. */
  class ToolCallCache {
    const limit: int
    var calls: seq<CachedCall>

    ghost predicate Valid()
      reads this
    {
      Distinct(calls) && |calls| <= if limit < 0 then 0 else limit
    }

    constructor (limit: int)
      ensures Valid() && calls == [] && this.limit == limit
    {
      this.limit := limit;
      calls := [];
    }

    /** With a negative limit the eviction loop empties the cache and then raises. */
    method Remember(callId: string, name: string, message: string) returns (ok: bool)
      requires Valid()
      modifies this
      ensures Valid()
      ensures calls == Remembered(old(calls), CachedCall(callId, name, message), limit)
      ensures ok <==> limit >= 0
    {
      var call := CachedCall(callId, name, message);
      calls := Without(calls, callId) + [call];
      TouchedDistinct(old(calls), call);
      ghost var touched, k := calls, 0;
      while |calls| > limit
        invariant 0 <= k <= |touched| && calls == touched[k..] && (k > 0 ==> |calls| >= limit)
        decreases |calls|
      {
        if calls == [] {
          return false;
        }
        calls, k := calls[1..], k + 1;
      }
      LastDistinct(touched, limit);
      return true;
    }

    method Lookup(callId: string) returns (cached: Option<CachedCall>)
      requires Valid()
      modifies this
      ensures Valid()
      ensures cached == Find(old(calls), callId) && calls == LookedUp(old(calls), callId)
    {
      cached := Find(calls, callId);
      if cached.Some? {
        TouchedDistinct(calls, cached.value);
        calls := Without(calls, callId) + [cached.value];
      }
    }
  }

  lemma {:induction false} WithoutDistinct(calls: seq<CachedCall>, id: string)
    requires Distinct(calls)
    ensures Distinct(Without(calls, id))
    ensures id in Ids(calls) ==> |Without(calls, id)| == |calls| - 1
    ensures id !in Ids(calls) ==> Without(calls, id) == calls
  {
    if calls != [] {
      WithoutDistinct(calls[1..], id);
      var rest := Without(calls[1..], id);
      assert ([calls[0]] + rest)[1..] == rest;
    }
  }

  lemma {:induction false} Concat(a: seq<CachedCall>, b: seq<CachedCall>)
    ensures Ids(a + b) == Ids(a) + Ids(b)
    ensures Distinct(a + b) <==> Distinct(a) && Distinct(b) && Ids(a) !! Ids(b)
  {
    if a == [] {
      assert a + b == b;
    } else {
      assert (a + b)[1..] == a[1..] + b;
      Concat(a[1..], b);
    }
  }

  lemma TouchedDistinct(calls: seq<CachedCall>, call: CachedCall)
    requires Distinct(calls)
    ensures Distinct(Without(calls, call.callId) + [call])
    ensures |Without(calls, call.callId) + [call]| == |calls| + if call.callId in Ids(calls) then 0 else 1
  {
    WithoutDistinct(calls, call.callId);
    Concat(Without(calls, call.callId), [call]);
  }

  lemma LastDistinct(calls: seq<CachedCall>, limit: int)
    requires Distinct(calls)
    ensures Distinct(Last(calls, limit)) && |Last(calls, limit)| <= if limit < 0 then 0 else limit
  {
    if 0 < limit < |calls| {
      var k := |calls| - limit;
      assert calls == calls[..k] + calls[k..];
      Concat(calls[..k], calls[k..]);
    }
  }

  // ---------------------------------------------------------------- history

  datatype Operation = Remember(call: CachedCall) | Lookup(id: string)

  function Run(operations: seq<Operation>, limit: int): seq<CachedCall> {
    if operations == [] then []
    else
      var calls := Run(operations[..|operations| - 1], limit);
      match operations[|operations| - 1]
      case Remember(call) => Remembered(calls, call, limit)
      case Lookup(id) => LookedUp(calls, id)
  }

  /** Of each id only its last touch, in the order of these last touches. */
  function LastTouches(touches: seq<CachedCall>): seq<CachedCall> {
    if touches == [] then []
    else if touches[0].callId in Ids(touches[1..]) then LastTouches(touches[1..])
    else [touches[0]] + LastTouches(touches[1..])
  }

  function Held(touches: seq<CachedCall>, limit: int): seq<CachedCall> {
    Last(LastTouches(touches), limit)
  }

  /** Every remember, and every lookup of one of the `limit` ids touched last. */
  function Touches(operations: seq<Operation>, limit: int): seq<CachedCall> {
    if operations == [] then []
    else
      var touches := Touches(operations[..|operations| - 1], limit);
      match operations[|operations| - 1]
      case Remember(call) => touches + [call]
      case Lookup(id) =>
        var found := Find(Held(touches, limit), id);
        if found.Some? then touches + [found.value] else touches
  }

  lemma {:induction false} LastTouchesAppend(touches: seq<CachedCall>, call: CachedCall)
    ensures LastTouches(touches + [call]) == Without(LastTouches(touches), call.callId) + [call]
  {
    if touches == [] {
      assert touches + [call] == [call];
    } else {
      var rest := touches[1..];
      LastTouchesAppend(rest, call);
      assert (touches + [call])[1..] == rest + [call];
      Concat(rest, [call]);
      var last := LastTouches(rest);
      if touches[0].callId !in Ids(rest) {
        assert ([touches[0]] + last)[1..] == last;
      }
    }
  }

  lemma {:induction false} LastTouchesDistinct(touches: seq<CachedCall>)
    ensures Distinct(LastTouches(touches)) && Ids(LastTouches(touches)) == Ids(touches)
  {
    if touches != [] {
      LastTouchesDistinct(touches[1..]);
      var last := LastTouches(touches[1..]);
      assert ([touches[0]] + last)[1..] == last;
    }
  }

  lemma {:induction false} WithoutConcat(a: seq<CachedCall>, b: seq<CachedCall>, id: string)
    ensures Without(a + b, id) == Without(a, id) + Without(b, id)
  {
    if a == [] {
      assert a + b == b;
    } else {
      assert (a + b)[1..] == a[1..] + b;
      WithoutConcat(a[1..], b, id);
    }
  }

  lemma CutAndTouchLate(early: seq<CachedCall>, late: seq<CachedCall>, call: CachedCall)
    requires Distinct(early + late) && late != []
    ensures Remembered(late, call, |late|) == Last(Without(early + late, call.callId) + [call], |late|)
  {
    var id := call.callId;
    Concat(early, late);
    WithoutConcat(early, late, id);
    WithoutDistinct(late, id);
    CutTail(Without(early, id), Without(late, id) + [call], |late|);
    assert Without(early + late, id) + [call] == Without(early, id) + (Without(late, id) + [call]);
  }

  /** Touching an id before or after cutting to the last `limit` ids comes to the same. */
  lemma CutAndTouch(all: seq<CachedCall>, call: CachedCall, limit: int)
    requires Distinct(all)
    ensures Remembered(Last(all, limit), call, limit) == Last(Without(all, call.callId) + [call], limit)
  {
    if 0 < limit < |all| {
      var early, late := all[..|all| - limit], all[|all| - limit..];
      assert all == early + late;
      CutAndTouchLate(early, late, call);
    }
  }

  lemma CutTail(a: seq<CachedCall>, b: seq<CachedCall>, limit: int)
    requires 0 < limit <= |b|
    ensures Last(a + b, limit) == Last(b, limit)
  {
  }

  lemma LookedUpIsTouch(calls: seq<CachedCall>, call: CachedCall, limit: int)
    requires Distinct(calls) && |calls| <= limit && Find(calls, call.callId) == Some(call)
    ensures LookedUp(calls, call.callId) == Remembered(calls, call, limit)
  {
    WithoutDistinct(calls, call.callId);
  }

  lemma TouchHeld(touches: seq<CachedCall>, call: CachedCall, limit: int)
    ensures Held(touches + [call], limit) == Remembered(Held(touches, limit), call, limit)
  {
    LastTouchesDistinct(touches);
    LastTouchesAppend(touches, call);
    CutAndTouch(LastTouches(touches), call, limit);
  }

  /** What the cache holds is what the history says: the last `limit` ids by last effective touch, oldest first. */
  lemma {:induction false} CacheIsItsHistory(operations: seq<Operation>, limit: int)
    ensures Run(operations, limit) == Held(Touches(operations, limit), limit)
    ensures Distinct(Run(operations, limit)) && |Run(operations, limit)| <= if limit < 0 then 0 else limit
  {
    LastTouchesDistinct(Touches(operations, limit));
    LastDistinct(LastTouches(Touches(operations, limit)), limit);
    if operations != [] {
      var earlier, last := operations[..|operations| - 1], operations[|operations| - 1];
      CacheIsItsHistory(earlier, limit);
      var touches := Touches(earlier, limit);
      if last.Remember? {
        TouchHeld(touches, last.call, limit);
      } else if Find(Held(touches, limit), last.id).Some? {
        var call := Find(Held(touches, limit), last.id).value;
        TouchHeld(touches, call, limit);
        LookedUpIsTouch(Held(touches, limit), call, limit);
      }
    }
  }

  /** Touch `k` is the last of its id, and fewer than `limit` other ids were touched after it. */
  predicate RecentAt(touches: seq<CachedCall>, limit: int, k: nat)
    requires k < |touches|
  {
    touches[k].callId !in Ids(touches[k + 1..]) && |Ids(touches[k + 1..])| < limit
  }

  lemma {:induction false} DistinctCount(calls: seq<CachedCall>)
    requires Distinct(calls)
    ensures |Ids(calls)| == |calls|
  {
    if calls != [] {
      DistinctCount(calls[1..]);
    }
  }

  lemma {:induction false} LastTouchesFrom(touches: seq<CachedCall>, k: nat) returns (before: seq<CachedCall>)
    requires k < |touches| && touches[k].callId !in Ids(touches[k + 1..])
    ensures LastTouches(touches) == before + [touches[k]] + LastTouches(touches[k + 1..])
    decreases k
  {
    if k == 0 {
      before := [];
      assert [touches[0]] + LastTouches(touches[1..]) == [] + [touches[0]] + LastTouches(touches[1..]);
    } else {
      var rest := LastTouchesFrom(touches[1..], k - 1);
      assert touches[1..][k - 1] == touches[k] && touches[1..][k..] == touches[k + 1..];
      if touches[0].callId in Ids(touches[1..]) {
        before := rest;
      } else {
        before := [touches[0]] + rest;
        assert [touches[0]] + (rest + [touches[k]] + LastTouches(touches[k + 1..]))
          == before + [touches[k]] + LastTouches(touches[k + 1..]);
      }
    }
  }

  lemma {:induction false} LastTouchAt(touches: seq<CachedCall>, call: CachedCall) returns (k: nat)
    requires call in LastTouches(touches)
    ensures k < |touches| && touches[k] == call && call.callId !in Ids(touches[k + 1..])
    decreases touches
  {
    if touches[0] == call && call.callId !in Ids(touches[1..]) {
      k := 0;
    } else {
      var j := LastTouchAt(touches[1..], call);
      k := j + 1;
      assert touches[1..][j + 1..] == touches[k + 1..];
    }
  }

  /**
    Least recently used: after any run a call is held exactly if it was the last touch of its
    id and fewer than `limit` other ids have been touched since.
   */
  lemma HeldExactlyIfRecent(operations: seq<Operation>, limit: int, call: CachedCall)
    ensures var touches := Touches(operations, limit);
            call in Run(operations, limit) <==>
            exists k: nat :: k < |touches| && touches[k] == call && RecentAt(touches, limit, k)
  {
    var touches := Touches(operations, limit);
    CacheIsItsHistory(operations, limit);
    LastTouchesDistinct(touches);
    if call in Run(operations, limit) {
      var k := LastTouchAt(touches, call);
      PlaceOfTouch(touches, limit, k);
    }
    forall k: nat | k < |touches| && touches[k] == call && RecentAt(touches, limit, k)
      ensures call in Run(operations, limit)
    {
      PlaceOfTouch(touches, limit, k);
    }
  }

  lemma PlaceOfTouch(touches: seq<CachedCall>, limit: int, k: nat)
    requires k < |touches| && touches[k].callId !in Ids(touches[k + 1..])
    ensures touches[k] in Held(touches, limit) <==> RecentAt(touches, limit, k)
  {
    var last, after := LastTouches(touches), LastTouches(touches[k + 1..]);
    LastTouchesDistinct(touches);
    LastTouchesDistinct(touches[k + 1..]);
    DistinctCount(after);
    var before := LastTouchesFrom(touches, k);
    InTail(last, |before|, limit);
  }

  /** In a distinct list an entry is among the last `limit` exactly if fewer follow it. */
  lemma InTail(calls: seq<CachedCall>, i: nat, limit: int)
    requires Distinct(calls) && i < |calls|
    ensures calls[i] in Last(calls, limit) <==> |calls| - i - 1 < limit
  {
    if 0 < limit < |calls| {
      var n := |calls| - limit;
      InDrop(calls, i, n);
      assert calls[n..] == Last(calls, limit);
    }
  }

  lemma InDrop(calls: seq<CachedCall>, i: nat, n: nat)
    requires Distinct(calls) && i < |calls| && n <= |calls|
    ensures calls[i] in calls[n..] <==> n <= i
  {
    var front, back := calls[..n], calls[n..];
    if i < n {
      assert calls == front + back && front[i] == calls[i];
      Concat(front, back);
      InIds(front, calls[i]);
      if calls[i] in back {
        InIds(back, calls[i]);
      }
    } else {
      assert back[i - n] == calls[i];
    }
  }

  lemma {:induction false} InIds(calls: seq<CachedCall>, call: CachedCall)
    requires call in calls
    ensures call.callId in Ids(calls)
  {
    if calls[0] != call {
      InIds(calls[1..], call);
    }
  }

  /** A remember and a lookup that finds its id are the touches; a lookup finds exactly the call held for the id. */
  lemma TouchesAre(operations: seq<Operation>, limit: int, op: Operation)
    ensures var before := Run(operations, limit);
            var touched := Touches(operations + [op], limit);
            && (op.Remember? ==> touched == Touches(operations, limit) + [op.call])
            && (op.Lookup? ==>
                  if exists call :: call in before && call.callId == op.id
                  then |touched| == |Touches(operations, limit)| + 1 && touched[|touched| - 1] in before &&
                       touched[|touched| - 1].callId == op.id && touched[..|touched| - 1] == Touches(operations, limit)
                  else touched == Touches(operations, limit))
  {
    assert (operations + [op])[..|operations|] == operations;
    CacheIsItsHistory(operations, limit);
    if op.Lookup? {
      var before := Run(operations, limit);
      if call :| call in before && call.callId == op.id {
        InIds(before, call);
      }
    }
  }

  /** The call given to the last remember of an id. */
  function Latest(operations: seq<Operation>, id: string): Option<CachedCall> {
    if operations == [] then None
    else
      var last := operations[|operations| - 1];
      if last.Remember? && last.call.callId == id then Some(last.call)
      else Latest(operations[..|operations| - 1], id)
  }

  /** No operation can make a held entry older than the last remember of its id. */
  lemma {:induction false} HeldIsLatest(operations: seq<Operation>, limit: int, call: CachedCall)
    requires call in Run(operations, limit)
    ensures Latest(operations, call.callId) == Some(call)
  {
    var earlier, last := operations[..|operations| - 1], operations[|operations| - 1];
    var calls := Run(earlier, limit);
    CacheIsItsHistory(earlier, limit);
    if last.Lookup? {
      WithoutSubset(calls, last.id, call);
      HeldIsLatest(earlier, limit, call);
    } else if last.call != call {
      assert call in Without(calls, last.call.callId) + [last.call];
      WithoutSubset(calls, last.call.callId, call);
      HeldIsLatest(earlier, limit, call);
    }
  }

  lemma {:induction false} WithoutSubset(calls: seq<CachedCall>, id: string, call: CachedCall)
    ensures call in Without(calls, id) <==> call in calls && call.callId != id
  {
    if calls != [] {
      assert calls == [calls[0]] + calls[1..];
      WithoutSubset(calls[1..], id, call);
    }
  }

  // -------------------------------------------------------------- inclusion

  function Keep(calls: seq<CachedCall>, ids: set<string>): (r: seq<CachedCall>)
    ensures forall c | c in r :: c in calls && c.callId in ids
  {
    if calls == [] then []
    else if calls[0].callId in ids then [calls[0]] + Keep(calls[1..], ids)
    else Keep(calls[1..], ids)
  }

  /** The smaller cache is the larger one with entries left out, and it is full unless nothing is left out. */
  ghost predicate Thins(small: seq<CachedCall>, large: seq<CachedCall>, limit: int) {
    Keep(large, Ids(small)) == small && (|small| == limit || small == large)
  }

  lemma {:induction false} KeepConcat(a: seq<CachedCall>, b: seq<CachedCall>, ids: set<string>)
    ensures Keep(a + b, ids) == Keep(a, ids) + Keep(b, ids)
  {
    if a == [] {
      assert a + b == b;
    } else {
      assert (a + b)[1..] == a[1..] + b;
      KeepConcat(a[1..], b, ids);
    }
  }

  lemma {:induction false} KeepSame(calls: seq<CachedCall>, ids: set<string>, ids': set<string>)
    requires Ids(calls) * ids == Ids(calls) * ids'
    ensures Keep(calls, ids) == Keep(calls, ids')
  {
    if calls != [] {
      var tail := Ids(calls[1..]);
      assert tail * ids == tail * (Ids(calls) * ids) && tail * ids' == tail * (Ids(calls) * ids');
      assert calls[0].callId in ids <==> calls[0].callId in Ids(calls) * ids;
      KeepSame(calls[1..], ids, ids');
    }
  }

  lemma {:induction false} KeepWithout(calls: seq<CachedCall>, ids: set<string>, id: string)
    ensures Keep(Without(calls, id), ids) == Without(Keep(calls, ids), id)
    ensures Keep(calls, ids - {id}) == Without(Keep(calls, ids), id)
  {
    if calls != [] {
      KeepWithout(calls[1..], ids, id);
      var rest, kept := Without(calls[1..], id), Keep(calls[1..], ids);
      assert ([calls[0]] + rest)[1..] == rest && ([calls[0]] + kept)[1..] == kept;
    }
  }

  /** Touching a call that both caches hold, or neither, before any eviction. */
  lemma TouchThins(small: seq<CachedCall>, large: seq<CachedCall>, call: CachedCall)
    requires Keep(large, Ids(small)) == small
    ensures var s, l := Without(small, call.callId) + [call], Without(large, call.callId) + [call];
            Keep(l, Ids(s)) == s
  {
    var id := call.callId;
    var s := Without(small, id) + [call];
    Concat(Without(small, id), [call]);
    assert Ids([call]) == {id};
    KeepConcat(Without(large, id), [call], Ids(s));
    KeepSame(Without(large, id), Ids(s), Ids(small));
    KeepWithout(large, Ids(small), id);
    assert Keep([call], Ids(s)) == [call];
  }

  lemma DropFirst(small: seq<CachedCall>, large: seq<CachedCall>)
    requires Distinct(small) && Keep(large, Ids(small)) == small
    requires small != []
    ensures Keep(large, Ids(small[1..])) == small[1..]
    ensures Keep(large[1..], Ids(small[1..])) == small[1..]
  {
    var id := small[0].callId;
    assert Ids(small[1..]) == Ids(small) - {id};
    KeepWithout(large, Ids(small), id);
    WithoutDistinct(small[1..], id);
    assert large[0].callId in Ids(small) ==> large[0] == small[0];
  }

  lemma RememberedThins(small: seq<CachedCall>, large: seq<CachedCall>, call: CachedCall, m: nat, n: nat)
    requires m <= n && Distinct(small) && Distinct(large) && |small| <= m && |large| <= n
    requires Thins(small, large, m)
    ensures Thins(Remembered(small, call, m), Remembered(large, call, n), m)
  {
    var id := call.callId;
    var s, l := Without(small, id) + [call], Without(large, id) + [call];
    TouchThins(small, large, call);
    TouchedDistinct(small, call);
    TouchedDistinct(large, call);
    KeepIds(large, Ids(small));
    if |s| > m {
      DropFirst(s, l);
      assert Last(s, m) == s[1..];
      assert Last(l, n) == if |l| > n then l[1..] else l;
    }
  }

  lemma {:induction false} KeepIds(calls: seq<CachedCall>, ids: set<string>)
    ensures Ids(Keep(calls, ids)) == Ids(calls) * ids
  {
    if calls != [] {
      KeepIds(calls[1..], ids);
      var kept := Keep(calls[1..], ids);
      assert ([calls[0]] + kept)[1..] == kept;
    }
  }

  lemma LookedUpThins(small: seq<CachedCall>, large: seq<CachedCall>, id: string, m: nat)
    requires Distinct(small) && Distinct(large)
    requires Thins(small, large, m)
    ensures Thins(LookedUp(small, id), LookedUp(large, id), m)
  {
    WithoutDistinct(small, id);
    KeepIds(large, Ids(small));
    var found := Find(large, id);
    if id in Ids(small) {
      FindKept(large, Ids(small), id);
      TouchThins(small, large, found.value);
    } else if found.Some? {
      KeepConcat(Without(large, id), [found.value], Ids(small));
      KeepWithout(large, Ids(small), id);
    }
  }

  lemma {:induction false} FindKept(calls: seq<CachedCall>, ids: set<string>, id: string)
    requires id in ids
    ensures Find(Keep(calls, ids), id) == Find(calls, id)
  {
    if calls != [] {
      FindKept(calls[1..], ids, id);
      var kept := Keep(calls[1..], ids);
      assert ([calls[0]] + kept)[1..] == kept;
    }
  }

  /** After the same operations a smaller cache is the larger one with entries left out. */
  lemma {:induction false} SmallerCacheIsContained(operations: seq<Operation>, m: nat, n: nat)
    requires m <= n
    ensures Thins(Run(operations, m), Run(operations, n), m)
    ensures forall c | c in Run(operations, m) :: c in Run(operations, n)
  {
    if operations != [] {
      var earlier, last := operations[..|operations| - 1], operations[|operations| - 1];
      SmallerCacheIsContained(earlier, m, n);
      CacheIsItsHistory(earlier, m);
      CacheIsItsHistory(earlier, n);
      if last.Remember? {
        RememberedThins(Run(earlier, m), Run(earlier, n), last.call, m, n);
      } else {
        LookedUpThins(Run(earlier, m), Run(earlier, n), last.id, m);
      }
    }
  }
}
