/**
  The bounded response accumulator between the protocol application and the client.
 */
module ResponseBuffering {
  import opened Wrappers

  type Bytes = string

  datatype Message = Start(status: nat) | Body(body: Bytes) | Other

  datatype Buffer = Buffer(start: Option<nat>, chunks: seq<Bytes>, total: nat)

  const FRESH := Buffer(None, [], 0)

  function Joined(chunks: seq<Bytes>): Bytes {
    if chunks == [] then "" else Joined(chunks[..|chunks| - 1]) + chunks[|chunks| - 1]
  }

  /** The buffer after one message; a body that takes the total over the bound empties it. */
  function Stored(b: Buffer, m: Message, max: nat): Buffer {
    match m
    case Start(status) => b.(start := Some(status))
    case Other => b
    case Body(body) =>
      var total := b.total + |body|;
      if total > max then b.(chunks := [], total := total)
      else b.(chunks := b.chunks + [body], total := total)
  }

  function StoredAll(b: Buffer, messages: seq<Message>, max: nat): Buffer
    decreases messages
  {
    if messages == [] then b else StoredAll(Stored(b, messages[0], max), messages[1..], max)
  }

  /** What the application asked to send as a body, start to end. */
  function Requested(messages: seq<Message>): Bytes {
    if messages == [] then ""
    else (if messages[0].Body? then messages[0].body else "") + Requested(messages[1..])
  }

  function LastStart(messages: seq<Message>): Option<nat> {
    if messages == [] then None
    else
      var later := LastStart(messages[1..]);
      if later.Some? then later else if messages[0].Start? then Some(messages[0].status) else None
  }

  /** Whatever is sent to it, the buffer never holds more than its bound. */
  ghost predicate Within(b: Buffer, max: nat) {
    if b.total > max then b.chunks == [] else |Joined(b.chunks)| == b.total
  }

  lemma {:induction false} StoredAllWithin(b: Buffer, messages: seq<Message>, max: nat)
    requires Within(b, max)
    ensures Within(StoredAll(b, messages, max), max)
    ensures |Joined(StoredAll(b, messages, max).chunks)| <= max
    decreases messages
  {
    if messages == [] {
    } else {
      StoredWithin(b, messages[0], max);
      StoredAllWithin(Stored(b, messages[0], max), messages[1..], max);
    }
  }

  lemma StoredWithin(b: Buffer, m: Message, max: nat)
    requires Within(b, max)
    ensures Within(Stored(b, m, max), max)
  {
    if m.Body? && b.total + |m.body| <= max {
      assert (b.chunks + [m.body])[..|b.chunks|] == b.chunks;
    }
  }

  lemma StoredIs(b: Buffer, m: Message, max: nat)
    requires Within(b, max)
    ensures var body := if m.Body? then m.body else "";
            var next := Stored(b, m, max);
            && next.total == b.total + |body|
            && (next.total <= max ==> b.total <= max && Joined(next.chunks) == Joined(b.chunks) + body)
  {
    if m.Body? {
      assert (b.chunks + [m.body])[..|b.chunks|] == b.chunks;
    }
  }

  lemma Associates(x: Bytes, y: Bytes, z: Bytes)
    ensures x + (y + z) == (x + y) + z
  {
  }

  lemma {:induction false} StoredAllIs(b: Buffer, messages: seq<Message>, max: nat)
    requires Within(b, max)
    ensures var end := StoredAll(b, messages, max);
            && end.total == b.total + |Requested(messages)|
            && end.start == (if LastStart(messages).Some? then LastStart(messages) else b.start)
            && (end.total <= max ==> Joined(end.chunks) == Joined(b.chunks) + Requested(messages))
    decreases messages
  {
    if messages == [] {
    } else {
      var next := Stored(b, messages[0], max);
      StoredWithin(b, messages[0], max);
      StoredIs(b, messages[0], max);
      StoredAllIs(next, messages[1..], max);
      Associates(Joined(b.chunks), if messages[0].Body? then messages[0].body else "", Requested(messages[1..]));
    }
  }

  /**
    The body that is emitted is the whole of what the application sent, in order, if it fits
    the bound, and nothing of it otherwise, even if the application goes on sending.
   */
  lemma AllOrNothing(messages: seq<Message>, max: nat)
    ensures var end := StoredAll(FRESH, messages, max);
            && Joined(end.chunks) == (if |Requested(messages)| <= max then Requested(messages) else "")
            && end.start == LastStart(messages)
  {
    StoredAllIs(FRESH, messages, max);
    StoredAllWithin(FRESH, messages, max);
  }

  class ResponseBuffer {
    const maxBytes: nat
    var start: Option<nat>
    var chunks: seq<Bytes>
    var total: nat
    var emitted: bool

    ghost function View(): Buffer
      reads this
    {
      Buffer(start, chunks, total)
    }

    constructor (maxBytes: nat)
      ensures this.maxBytes == maxBytes && View() == FRESH && !emitted
    {
      this.maxBytes := maxBytes;
      start, chunks, total, emitted := None, [], 0, false;
    }

    /** `accepted` is false when the source raises the limit error into the application. */
    method Send(message: Message) returns (accepted: bool)
      modifies this
      ensures View() == Stored(old(View()), message, maxBytes) && emitted == old(emitted)
      ensures accepted <==> (message.Body? ==> total <= maxBytes)
    {
      match message
      case Start(status) =>
        start := Some(status);
        return true;
      case Other =>
        return true;
      case Body(body) =>
        total := total + |body|;
        if total > maxBytes {
          chunks := [];
          return false;
        }
        chunks := chunks + [body];
        return true;
    }

    /** Emits the response the first time it is called with one, and never again. */
    method Flush() returns (sent: seq<Message>)
      modifies this`emitted
      ensures sent == if old(emitted) || start.None? then [] else [Start(start.value), Body(Joined(chunks))]
      ensures emitted <==> old(emitted) || start.Some?
    {
      if emitted || start.None? {
        return [];
      }
      emitted := true;
      var body := "";
      var i := 0;
      while i < |chunks|
        invariant 0 <= i <= |chunks| && body == Joined(chunks[..i])
      {
        assert chunks[..i + 1][..i] == chunks[..i];
        body := body + chunks[i];
        i := i + 1;
      }
      assert chunks[..i] == chunks;
      return [Start(start.value), Body(body)];
    }
  }
}
