/**
  The bounded pump from the client's inbound messages to the application's queue.
 */
module RequestPump {
  datatype Inbound = Request(body: string) | Disconnect

  function Size(messages: seq<Inbound>): nat {
    if messages == [] then 0
    else
      var last := messages[|messages| - 1];
      Size(messages[..|messages| - 1]) + (if last.Request? then |last.body| else 0)
  }

  function Chunks(messages: seq<Inbound>): nat {
    if messages == [] then 0
    else
      var last := messages[|messages| - 1];
      Chunks(messages[..|messages| - 1]) + (if last.Request? then 1 else 0)
  }

  predicate Fits(messages: seq<Inbound>, maxBytes: nat, maxChunks: nat) {
    Size(messages) <= maxBytes && Chunks(messages) <= maxChunks
  }

  lemma {:induction false} PrefixSmaller(messages: seq<Inbound>, n: nat)
    requires n <= |messages|
    ensures Size(messages[..n]) <= Size(messages) && Chunks(messages[..n]) <= Chunks(messages)
    decreases |messages|
  {
    if n == |messages| {
      assert messages[..n] == messages;
    } else {
      var shorter := messages[..|messages| - 1];
      assert shorter[..n] == messages[..n];
      PrefixSmaller(shorter, n);
    }
  }

  /** How many messages the application may see: all before the first that breaks a bound. */
  ghost predicate Cut(incoming: seq<Inbound>, maxBytes: nat, maxChunks: nat, n: nat) {
    && n <= |incoming|
    && Fits(incoming[..n], maxBytes, maxChunks)
    && (forall i | 0 <= i < n - 1 :: incoming[i].Request?)
    && (n == |incoming| || (n > 0 && incoming[n - 1].Disconnect?) || !Fits(incoming[..n + 1], maxBytes, maxChunks))
  }

  lemma CutNotShorter(incoming: seq<Inbound>, maxBytes: nat, maxChunks: nat, n: nat, m: nat)
    requires Cut(incoming, maxBytes, maxChunks, n) && Cut(incoming, maxBytes, maxChunks, m)
    ensures n >= m
  {
    if n < m {
      assert incoming[..m][..n + 1] == incoming[..n + 1];
      PrefixSmaller(incoming[..m], n + 1);
    }
  }

  /** The cut is determined by what the client sent. */
  lemma CutIsUnique(incoming: seq<Inbound>, maxBytes: nat, maxChunks: nat, n: nat, m: nat)
    requires Cut(incoming, maxBytes, maxChunks, n) && Cut(incoming, maxBytes, maxChunks, m)
    ensures n == m
  {
    CutNotShorter(incoming, maxBytes, maxChunks, n, m);
    CutNotShorter(incoming, maxBytes, maxChunks, m, n);
  }

  /** The body bytes of the messages, in order. */
  function Bodies(messages: seq<Inbound>): string {
    if messages == [] then ""
    else
      var last := messages[|messages| - 1];
      Bodies(messages[..|messages| - 1]) + (if last.Request? then last.body else "")
  }

  lemma BodiesSnoc(messages: seq<Inbound>, last: Inbound)
    ensures Bodies(messages + [last]) == Bodies(messages) + if last.Request? then last.body else ""
  {
    assert (messages + [last])[..|messages|] == messages;
  }

  lemma {:induction false} SizeOfBodies(messages: seq<Inbound>, requests: nat)
    requires requests <= |messages| <= requests + 1
    requires forall i | 0 <= i < requests :: messages[i].Request?
    requires |messages| > requests ==> messages[requests].Disconnect?
    ensures Size(messages) == |Bodies(messages)| && Chunks(messages) == requests
    decreases |messages|
  {
    if messages != [] {
      var init, last := messages[..|messages| - 1], messages[|messages| - 1];
      SizeOfBodies(init, if last.Request? then requests - 1 else requests);
    }
  }

  /** How many of the first `n` messages are requests, if a disconnect is among them only as the last. */
  function RequestsIn(incoming: seq<Inbound>, n: nat): nat
    requires n <= |incoming|
  {
    if n > 0 && incoming[n - 1].Disconnect? then n - 1 else n
  }

  /**
    What is queued is within both bounds: so many bytes and so many chunks. The pump stops short
    of the end only at a disconnect, or at a chunk that would take either over its bound.
   */
  lemma CutMeans(incoming: seq<Inbound>, maxBytes: nat, maxChunks: nat, n: nat)
    requires Cut(incoming, maxBytes, maxChunks, n)
    ensures |Bodies(incoming[..n])| <= maxBytes && RequestsIn(incoming, n) <= maxChunks
    ensures n < |incoming| && RequestsIn(incoming, n) == n ==>
              && incoming[n].Request?
              && (|Bodies(incoming[..n])| + |incoming[n].body| > maxBytes || n + 1 > maxChunks)
  {
    SizeOfBodies(incoming[..n], RequestsIn(incoming, n));
    if n < |incoming| && RequestsIn(incoming, n) == n {
      assert incoming[..n + 1] == incoming[..n] + [incoming[n]];
      BodiesSnoc(incoming[..n], incoming[n]);
      SizeOfBodies(incoming[..n + 1], if incoming[n].Request? then n + 1 else n);
    }
  }

  /** The first `i` messages are requests within both bounds, of these sizes. */
  ghost predicate Pumped(incoming: seq<Inbound>, i: nat, seen: nat, chunks: nat, maxBytes: nat, maxChunks: nat) {
    && i <= |incoming|
    && seen == Size(incoming[..i]) && chunks == Chunks(incoming[..i]) && Fits(incoming[..i], maxBytes, maxChunks)
    && forall j | 0 <= j < i :: incoming[j].Request?
  }

  lemma PumpedAll(incoming: seq<Inbound>, seen: nat, chunks: nat, maxBytes: nat, maxChunks: nat)
    requires Pumped(incoming, |incoming|, seen, chunks, maxBytes, maxChunks)
    ensures Cut(incoming, maxBytes, maxChunks, |incoming|)
  {
  }

  lemma NoneSeen(incoming: seq<Inbound>, maxBytes: nat, maxChunks: nat)
    ensures incoming[..0] == [] && Pumped(incoming, 0, 0, 0, maxBytes, maxChunks)
  {
  }

  /** What the next message means: an end of the stream, a broken bound, or one more message pumped. */
  lemma PumpedNext(incoming: seq<Inbound>, i: nat, seen: nat, chunks: nat, maxBytes: nat, maxChunks: nat)
    requires i < |incoming| && Pumped(incoming, i, seen, chunks, maxBytes, maxChunks)
    ensures incoming[..i + 1] == incoming[..i] + [incoming[i]]
    ensures incoming[i].Disconnect? ==> Cut(incoming, maxBytes, maxChunks, i + 1)
    ensures incoming[i].Request? ==>
              var total := seen + |incoming[i].body|;
              if total > maxBytes || chunks + 1 > maxChunks then Cut(incoming, maxBytes, maxChunks, i)
              else Pumped(incoming, i + 1, total, chunks + 1, maxBytes, maxChunks)
  {
    assert incoming[..i + 1][..i] == incoming[..i];
  }

  class RequestChannel {
    const maxBytes: nat
    const maxChunks: nat
    var queue: seq<Inbound>
    var seen: nat
    var chunks: nat
    var disconnected: bool
    var limitExceeded: bool

    constructor (maxBytes: nat, maxChunks: nat)
      ensures this.maxBytes == maxBytes && this.maxChunks == maxChunks
      ensures queue == [] && seen == 0 && chunks == 0 && !disconnected && !limitExceeded
    {
      this.maxBytes, this.maxChunks := maxBytes, maxChunks;
      queue, seen, chunks, disconnected, limitExceeded := [], 0, 0, false, false;
    }

    /** Runs over what the client has sent so far; stops for good on a disconnect or a broken bound. */
    method Pump(incoming: seq<Inbound>)
      requires queue == [] && seen == 0 && chunks == 0 && !disconnected && !limitExceeded
      modifies this
      ensures |queue| <= |incoming| && queue == incoming[..|queue|]
      ensures Cut(incoming, maxBytes, maxChunks, |queue|)
      ensures disconnected <==> queue != [] && queue[|queue| - 1].Disconnect?
      ensures limitExceeded <==> !disconnected && |queue| < |incoming|
    {
      var i := 0;
      NoneSeen(incoming, maxBytes, maxChunks);
      while i < |incoming|
        invariant 0 <= i <= |incoming| && queue == incoming[..i]
        invariant Pumped(incoming, i, seen, chunks, maxBytes, maxChunks)
        invariant !disconnected && !limitExceeded
      {
        var message := incoming[i];
        PumpedNext(incoming, i, seen, chunks, maxBytes, maxChunks);
        if message.Disconnect? {
          disconnected := true;
          queue := queue + [message];
          assert queue == incoming[..i + 1] && |queue| == i + 1;
          return;
        }
        seen := seen + |message.body|;
        chunks := chunks + 1;
        if seen > maxBytes || chunks > maxChunks {
          limitExceeded := true;
          return;
        }
        queue := queue + [message];
        i := i + 1;
      }
      PumpedAll(incoming, seen, chunks, maxBytes, maxChunks);
    }
  }
}
