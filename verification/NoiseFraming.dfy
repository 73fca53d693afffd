/**
 * The transport framing of a finished Noise session (src/noise.rs): messages cut into marked chunks,
 * and the bounded reassembly that puts them together again. The AEAD is ideal: a message opens at the
 * counter it was sealed at, and nowhere else.
 */
module NoiseFraming {
  import opened Wrappers
  import opened Numbers

  type Byte = b: int | 0 <= b < 256

  type Bytes = seq<Byte>

  const FRAME_JSON: Byte := 0
  const FRAME_BINARY: Byte := 1
  const FRAME_FIRST_JSON: Byte := 2
  const FRAME_FIRST_BINARY: Byte := 3
  const FRAME_MORE: Byte := 4
  const FRAME_LAST: Byte := 5

  const NOISE_CHUNK_SIZE: nat := 65_000

  const NOISE_MAX_REASSEMBLY: nat := 32 * 1024 * 1024

  /** The largest Noise transport message, its authentication tag included. */
  const NOISE_MAX_MESSAGE: nat := 65_535

  const AEAD_TAG: nat := 16

  /** What travels: bytes the peer sealed at its counter, or anything else. */
  datatype Wire = Sealed(counter: nat, plaintext: Bytes) | Junk

  datatype Message = Message(payload: Bytes, isJson: bool)

  datatype Frame = Complete(message: Message) | Partial

  datatype Failure =
    | Rejected
    | Empty
    | CompleteWhileOpen
    | FirstWhileOpen
    | MoreWithNothingOpen
    | LastWithNothingOpen
    | OverCap
    | UnknownMarker
    | TooLong

  datatype Reassembly = Reassembly(buffer: Bytes, isJson: bool)

  type Open = Option<Reassembly>

  // ---------------------------------------------------------------------------------------------
  // Cutting a message into frames
  // ---------------------------------------------------------------------------------------------

  function Single(isJson: bool): Byte
  {
    if isJson then FRAME_JSON else FRAME_BINARY
  }

  function First(isJson: bool): Byte
  {
    if isJson then FRAME_FIRST_JSON else FRAME_FIRST_BINARY
  }

  /** ceil(length / chunk size) */
  function FrameCount(length: nat): nat
  {
    (length + NOISE_CHUNK_SIZE - 1) / NOISE_CHUNK_SIZE
  }

  function ChunkMarker(isJson: bool, i: nat, count: nat): Byte
  {
    if i == 0 then First(isJson) else if i == count - 1 then FRAME_LAST else FRAME_MORE
  }

  function Chunk(m: Message, i: nat): Bytes
    requires i < FrameCount(|m.payload|)
  {
    m.payload[i * NOISE_CHUNK_SIZE..Min((i + 1) * NOISE_CHUNK_SIZE, |m.payload|)]
  }

  /** The plaintexts that carry one message. */
  function Plaintexts(m: Message): seq<Bytes>
  {
    if |m.payload| <= NOISE_CHUNK_SIZE then [[Single(m.isJson)] + m.payload]
    else
      var count := FrameCount(|m.payload|);
      seq(count, i requires 0 <= i < count => [ChunkMarker(m.isJson, i, count)] + Chunk(m, i))
  }

  /** The plaintexts sealed at consecutive counters. */
  function Seal(counter: nat, plaintexts: seq<Bytes>): seq<Wire>
  {
    seq(|plaintexts|, i requires 0 <= i < |plaintexts| => Sealed(counter + i, plaintexts[i]))
  }

  predicate IsFirst(plaintext: Bytes)
  {
    plaintext != [] && plaintext[0] in {FRAME_FIRST_JSON, FRAME_FIRST_BINARY}
  }

  predicate IsLast(plaintext: Bytes)
  {
    plaintext != [] && plaintext[0] == FRAME_LAST
  }

  /** A long message makes ceil(len / 65000) frames, one first, one last, each within the Noise limit. */
  lemma LongMessageFrames(m: Message)
    requires |m.payload| > 65000
    ensures var frames := Plaintexts(m);
      && |frames| >= 2
      && (|frames| - 1) * 65000 < |m.payload| <= |frames| * 65000
      && (forall i :: 0 <= i < |frames| ==> (IsFirst(frames[i]) <==> i == 0))
      && (forall i :: 0 <= i < |frames| ==> (IsLast(frames[i]) <==> i == |frames| - 1))
      && (forall i :: 0 <= i < |frames| ==> |frames[i]| + AEAD_TAG <= 65535)
  {
  }

  /** What each frame carries: the byte that tells its kind, and its own stretch of the message. */
  lemma FramesOnTheWire(m: Message)
    ensures |m.payload| <= 65000 ==> Plaintexts(m) == [[if m.isJson then 0 else 1] + m.payload]
    ensures |m.payload| > 65000 ==>
              var frames := Plaintexts(m);
              forall i :: 0 <= i < |frames| ==>
                frames[i] == [if i > 0 then (if i == |frames| - 1 then 5 else 4) else if m.isJson then 2 else 3]
                             + m.payload[i * 65000..if i == |frames| - 1 then |m.payload| else (i + 1) * 65000]
  {
    if |m.payload| > 65000 {
      LongMessageFrames(m);
    }
  }

  // ---------------------------------------------------------------------------------------------
  // One frame received
  // ---------------------------------------------------------------------------------------------

  /** A buffer past the cap is dropped whole. */
  function Guarded(current: Reassembly): (Open, Option<Failure>)
  {
    if |current.buffer| <= NOISE_MAX_REASSEMBLY then (Some(current), None) else (None, Some(OverCap))
  }

  /** What an opened frame does to the reassembly, and what the caller gets. */
  function Receive(open: Open, plaintext: Bytes): (Open, Result<Frame, Failure>)
  {
    if plaintext == [] then (open, Err(Empty))
    else
      var marker, body := plaintext[0], plaintext[1..];
      if marker == FRAME_JSON || marker == FRAME_BINARY then
        if open.Some? then (None, Err(CompleteWhileOpen))
        else (None, Ok(Complete(Message(body, marker == FRAME_JSON))))
      else if marker == FRAME_FIRST_JSON || marker == FRAME_FIRST_BINARY then
        if open.Some? then (None, Err(FirstWhileOpen)) else Held(Reassembly(body, marker == FRAME_FIRST_JSON))
      else if marker == FRAME_MORE then
        if open.None? then (None, Err(MoreWithNothingOpen))
        else Held(Reassembly(open.value.buffer + body, open.value.isJson))
      else if marker == FRAME_LAST then
        if open.None? then (None, Err(LastWithNothingOpen))
        else Finished(Reassembly(open.value.buffer + body, open.value.isJson))
      else (open, Err(UnknownMarker))
  }

  /** An error empties the buffer, except that an empty plaintext and an unknown kind of frame leave it as it was. */
  lemma ErrorsEmptyTheBuffer(open: Open, plaintext: Bytes)
    requires Receive(open, plaintext).1.Err?
    ensures Receive(open, plaintext).0 == if plaintext == [] || plaintext[0] > 5 then open else None
  {}

  function Held(current: Reassembly): (Open, Result<Frame, Failure>)
  {
    match Guarded(current)
    case (kept, None) => (kept, Ok(Partial))
    case (kept, Some(failure)) => (kept, Err(failure))
  }

  function Finished(current: Reassembly): (Open, Result<Frame, Failure>)
  {
    match Guarded(current)
    case (_, None) => (None, Ok(Complete(Message(current.buffer, current.isJson))))
    case (kept, Some(failure)) => (kept, Err(failure))
  }

  /** The ideal AEAD: only what the peer sealed at this very counter opens. */
  predicate Opens(data: Wire, counter: nat)
  {
    data.Sealed? && data.counter == counter
  }

  predicate WithinCap(open: Open)
  {
    open.Some? ==> |open.value.buffer| <= NOISE_MAX_REASSEMBLY
  }

  // ---------------------------------------------------------------------------------------------
  // The session
  // ---------------------------------------------------------------------------------------------

  class NoiseSession {
    var sent: nat
    var received: nat
    var open: Open

    ghost predicate Valid()
      reads this
    {
      WithinCap(open)
    }

    constructor ()
      ensures Valid() && sent == 0 && received == 0 && open == None
    {
      sent, received, open := 0, 0, None;
    }

    method EncryptOne(marker: Byte, body: Bytes) returns (r: Result<Wire, Failure>)
      modifies this`sent
      ensures r == if |body| + 1 + AEAD_TAG <= NOISE_MAX_MESSAGE then Ok(Sealed(old(sent), [marker] + body))
                   else Err(TooLong)
      ensures sent == old(sent) + if r.Ok? then 1 else 0
    {
      var plaintext := [marker] + body;
      if |plaintext| + AEAD_TAG > NOISE_MAX_MESSAGE {
        return Err(TooLong);
      }
      r := Ok(Sealed(sent, plaintext));
      sent := sent + 1;
    }

    /** Never fails, and numbers the frames of one message consecutively. */
    method EncryptMessage(payload: Bytes, isJson: bool) returns (r: Result<seq<Wire>, Failure>)
      modifies this`sent
      ensures r == Ok(Seal(old(sent), Plaintexts(Message(payload, isJson))))
      ensures sent == old(sent) + |Plaintexts(Message(payload, isJson))|
    {
      ghost var m := Message(payload, isJson);
      if |payload| <= NOISE_CHUNK_SIZE {
        var one := this.EncryptOne(Single(isJson), payload);
        r := Ok([one.value]);
        assert r.value == Seal(old(sent), Plaintexts(m));
        return;
      }
      var lastOffset := |payload| - NOISE_CHUNK_SIZE;
      var frames: seq<Wire> := [];
      var offset := 0;
      while offset < |payload|
        invariant offset == |frames| * NOISE_CHUNK_SIZE && |frames| <= FrameCount(|payload|)
        invariant sent == old(sent) + |frames|
        invariant frames == Seal(old(sent), Plaintexts(m))[..|frames|]
        decreases |payload| - offset
      {
        var end := Min(offset + NOISE_CHUNK_SIZE, |payload|);
        var marker := if offset == 0 then First(isJson) else if offset >= lastOffset then FRAME_LAST else FRAME_MORE;
        var one := this.EncryptOne(marker, payload[offset..end]);
        assert one.value == Seal(old(sent), Plaintexts(m))[|frames|];
        frames := frames + [one.value];
        offset := offset + NOISE_CHUNK_SIZE;
      }
      LongMessageFrames(m);
      assert |frames| == |Plaintexts(m)| && frames == Seal(old(sent), Plaintexts(m));
      r := Ok(frames);
    }

    method GuardReassemblyCap() returns (failure: Option<Failure>)
      modifies this`open
      ensures old(open).None? ==> open == None && failure == None
      ensures old(open).Some? ==> (open, failure) == Guarded(old(open).value)
    {
      var buffered := if open.Some? then |open.value.buffer| else 0;
      if buffered <= NOISE_MAX_REASSEMBLY {
        return None;
      }
      open := None;
      failure := Some(OverCap);
    }

    /** The buffer stays within the cap after every call, whether or not it fails. */
    method DecryptFrame(data: Wire) returns (r: Result<Frame, Failure>)
      requires Valid()
      modifies this`received, this`open
      ensures Valid()
      ensures Opens(data, old(received)) ==>
        received == old(received) + 1 && (open, r) == Receive(old(open), data.plaintext)
      ensures !Opens(data, old(received)) ==>
        received == old(received) && open == old(open) && r == Err(Rejected)
    {
      if data.Junk? || data.counter != received {
        return Err(Rejected);
      }
      received := received + 1;
      var plaintext := data.plaintext;
      if plaintext == [] {
        return Err(Empty);
      }
      var marker, body := plaintext[0], plaintext[1..];
      if marker == FRAME_JSON || marker == FRAME_BINARY {
        var stale := open;
        open := None;
        if stale.Some? {
          return Err(CompleteWhileOpen);
        }
        return Ok(Complete(Message(body, marker == FRAME_JSON)));
      } else if marker == FRAME_FIRST_JSON || marker == FRAME_FIRST_BINARY {
        var stale := open;
        open := None;
        if stale.Some? {
          return Err(FirstWhileOpen);
        }
        open := Some(Reassembly(body, marker == FRAME_FIRST_JSON));
        var failure := GuardReassemblyCap();
        return if failure.Some? then Err(failure.value) else Ok(Partial);
      } else if marker == FRAME_MORE {
        if open.None? {
          return Err(MoreWithNothingOpen);
        }
        open := Some(open.value.(buffer := open.value.buffer + body));
        var failure := GuardReassemblyCap();
        return if failure.Some? then Err(failure.value) else Ok(Partial);
      } else if marker == FRAME_LAST {
        if open.None? {
          return Err(LastWithNothingOpen);
        }
        open := Some(open.value.(buffer := open.value.buffer + body));
        var failure := GuardReassemblyCap();
        if failure.Some? {
          return Err(failure.value);
        }
        var finished := open.value;
        open := None;
        return Ok(Complete(Message(finished.buffer, finished.isJson)));
      } else {
        return Err(UnknownMarker);
      }
    }
  }

  // ---------------------------------------------------------------------------------------------
  // A run of the session: every error ends it
  // ---------------------------------------------------------------------------------------------

  type Run = Result<(Open, seq<Message>), Failure>

  function Delivered(frame: Frame): seq<Message>
  {
    if frame.Complete? then [frame.message] else []
  }

  /** The messages an error-free run over the opened frames delivers, and what is left open. */
  function ReceiveAll(open: Open, plaintexts: seq<Bytes>): Run
  {
    if plaintexts == [] then Ok((open, []))
    else Next(ReceiveAll(open, plaintexts[..|plaintexts| - 1]), plaintexts[|plaintexts| - 1])
  }

  function Next(run: Run, plaintext: Bytes): Run
  {
    match run
    case Err(failure) => Err(failure)
    case Ok((open, delivered)) =>
      var (next, r) := Receive(open, plaintext);
      if r.Err? then Err(r.error) else Ok((next, delivered + Delivered(r.value)))
  }

  /** What arrives on the wire, from the counter the receiver is at. */
  function DecryptAll(received: nat, open: Open, wires: seq<Wire>): Run
  {
    if wires == [] then Ok((open, []))
    else
      var last := wires[|wires| - 1];
      match DecryptAll(received, open, wires[..|wires| - 1])
      case Err(failure) => Err(failure)
      case Ok(run) =>
        if Opens(last, received + |wires| - 1) then Next(Ok(run), last.plaintext) else Err(Rejected)
  }

  ghost predicate InOrder(received: nat, wires: seq<Wire>)
  {
    forall i :: 0 <= i < |wires| ==> Opens(wires[i], received + i)
  }

  function Opened(wires: seq<Wire>): seq<Bytes>
  {
    seq(|wires|, i requires 0 <= i < |wires| => if wires[i].Sealed? then wires[i].plaintext else [])
  }

  /** Nothing dropped, repeated, reordered or altered goes unnoticed: a run is error-free only in order. */
  lemma {:induction false} OnlyInOrderRunsSucceed(received: nat, open: Open, wires: seq<Wire>)
    ensures DecryptAll(received, open, wires).Ok? ==> InOrder(received, wires)
    ensures InOrder(received, wires) ==> DecryptAll(received, open, wires) == ReceiveAll(open, Opened(wires))
  {
    if wires != [] {
      var most := wires[..|wires| - 1];
      OnlyInOrderRunsSucceed(received, open, most);
      assert Opened(wires)[..|wires| - 1] == Opened(most);
      if DecryptAll(received, open, wires).Ok? {
        forall i | 0 <= i < |wires|
          ensures Opens(wires[i], received + i)
        {
          assert i < |most| ==> most[i] == wires[i];
        }
      }
      if InOrder(received, wires) {
        assert forall i :: 0 <= i < |most| ==> most[i] == wires[i];
      }
    }
  }

  /** Delivered messages accumulate over the parts of a run. */
  function Extend(run: Run, plaintexts: seq<Bytes>): Run
  {
    match run
    case Err(failure) => Err(failure)
    case Ok((open, delivered)) =>
      match ReceiveAll(open, plaintexts)
      case Err(failure) => Err(failure)
      case Ok((last, more)) => Ok((last, delivered + more))
  }

  lemma {:induction false} ReceiveInParts(open: Open, a: seq<Bytes>, b: seq<Bytes>)
    ensures ReceiveAll(open, a + b) == Extend(ReceiveAll(open, a), b)
    decreases |b|
  {
    hide Receive;
    if b == [] {
      assert a + b == a;
      var run := ReceiveAll(open, a);
      if run.Ok? {
        assert run.value.1 + [] == run.value.1;
      }
    } else {
      var most, last := b[..|b| - 1], b[|b| - 1];
      ReceiveInParts(open, a, most);
      assert (a + b)[..|a + b| - 1] == a + most;
      NextAfterBoth(ReceiveAll(open, a), most, last);
    }
  }

  lemma NextAfterBoth(run: Run, most: seq<Bytes>, last: Bytes)
    ensures Next(Extend(run, most), last) == Extend(run, most + [last])
  {
    hide Receive;
    assert (most + [last])[..|most|] == most;
    if run.Ok? {
      var (open, delivered) := run.value;
      match ReceiveAll(open, most)
      case Err(_) =>
      case Ok((held, more)) =>
        var (next, r) := Receive(held, last);
        if r.Ok? {
          assert (delivered + more) + Delivered(r.value) == delivered + (more + Delivered(r.value));
        }
    }
  }

  // ---------------------------------------------------------------------------------------------
  // Round trip
  // ---------------------------------------------------------------------------------------------

  lemma NextFrame(frames: seq<Bytes>, i: nat)
    requires i < |frames|
    ensures ReceiveAll(None, frames[..i + 1]) == Next(ReceiveAll(None, frames[..i]), frames[i])
  {
    assert frames[..i + 1][..i] == frames[..i];
  }

  /** Taking in one more chunk. */
  lemma TakesChunk(open: Open, marker: Byte, body: Bytes)
    requires marker == FRAME_MORE ==> open.Some?
    requires marker != FRAME_MORE ==> open.None? && (marker == FRAME_FIRST_JSON || marker == FRAME_FIRST_BINARY)
    ensures var current := if open.Some? then Reassembly(open.value.buffer + body, open.value.isJson)
                           else Reassembly(body, marker == FRAME_FIRST_JSON);
      Next(Ok((open, [])), [marker] + body) ==
        if |current.buffer| <= NOISE_MAX_REASSEMBLY then Ok((Some(current), [])) else Err(OverCap)
  {
    assert ([marker] + body)[1..] == body && [] + Delivered(Partial) == Delivered(Partial);
  }

  /** After i chunks of a message within the cap, its first i chunks are what is buffered. */
  lemma {:induction false} BuffersChunks(m: Message, i: nat)
    requires NOISE_CHUNK_SIZE < |m.payload| && 0 < i < FrameCount(|m.payload|)
    ensures ReceiveAll(None, Plaintexts(m)[..i]) ==
      if i * NOISE_CHUNK_SIZE <= NOISE_MAX_REASSEMBLY
      then Ok((Some(Reassembly(m.payload[..i * NOISE_CHUNK_SIZE], m.isJson)), []))
      else Err(OverCap)
  {
    hide Receive, ReceiveAll;
    var frames := Plaintexts(m);
    NextFrame(frames, i - 1);
    if i == 1 {
      assert ReceiveAll(None, frames[..0]) == Ok((None, [])) by { NothingReceived(frames[..0]); }
      assert Chunk(m, 0) == m.payload[..NOISE_CHUNK_SIZE];
      TakesChunk(None, First(m.isJson), Chunk(m, 0));
    } else {
      BuffersChunks(m, i - 1);
      var held := m.payload[..(i - 1) * NOISE_CHUNK_SIZE];
      assert held + Chunk(m, i - 1) == m.payload[..i * NOISE_CHUNK_SIZE];
      TakesChunk(Some(Reassembly(held, m.isJson)), FRAME_MORE, Chunk(m, i - 1));
    }
  }

  lemma NothingReceived(none: seq<Bytes>)
    requires none == []
    ensures ReceiveAll(None, none) == Ok((None, []))
  {
  }

  lemma TakesLast(held: Reassembly, body: Bytes)
    ensures Next(Ok((Some(held), [])), [FRAME_LAST] + body) ==
      if |held.buffer + body| <= NOISE_MAX_REASSEMBLY then Ok((None, [Message(held.buffer + body, held.isJson)]))
      else Err(OverCap)
  {
    assert ([FRAME_LAST] + body)[1..] == body;
    assert [] + Delivered(Complete(Message(held.buffer + body, held.isJson))) ==
           [Message(held.buffer + body, held.isJson)];
  }

  lemma TakesSingle(m: Message)
    ensures Next(Ok((None, [])), [Single(m.isJson)] + m.payload) == Ok((None, [m]))
  {
    assert ([Single(m.isJson)] + m.payload)[1..] == m.payload && [] + Delivered(Complete(m)) == [m];
  }

  /** A message within the cap is received whole; a longer one is refused. */
  lemma OneMessageRoundTrip(m: Message)
    ensures ReceiveAll(None, Plaintexts(m)) ==
      if |m.payload| <= 32 * 1024 * 1024 then Ok((None, [m])) else Err(OverCap)
  {
    hide Receive, ReceiveAll;
    var frames := Plaintexts(m);
    var last := |frames| - 1;
    assert frames[..last + 1] == frames;
    if |m.payload| <= NOISE_CHUNK_SIZE {
      NextFrame(frames, 0);
      NothingReceived(frames[..0]);
      TakesSingle(m);
    } else {
      LongMessageFrames(m);
      BuffersChunks(m, last);
      NextFrame(frames, last);
      var held := m.payload[..last * NOISE_CHUNK_SIZE];
      assert held + Chunk(m, last) == m.payload;
      TakesLast(Reassembly(held, m.isJson), Chunk(m, last));
    }
  }

  function AllPlaintexts(messages: seq<Message>): seq<Bytes>
  {
    if messages == [] then [] else Plaintexts(messages[0]) + AllPlaintexts(messages[1..])
  }

  /** Any messages within the cap, sent one after another, are received as exactly those messages. */
  lemma {:induction false} MessagesRoundTrip(messages: seq<Message>)
    requires forall m :: m in messages ==> |m.payload| <= NOISE_MAX_REASSEMBLY
    ensures ReceiveAll(None, AllPlaintexts(messages)) == Ok((None, messages))
  {
    hide Receive, Plaintexts, ReceiveAll;
    if messages == [] {
      NothingReceived([]);
    } else {
      assert messages == [messages[0]] + messages[1..] && messages[0] in messages;
      OneMessageRoundTrip(messages[0]);
      MessagesRoundTrip(messages[1..]);
      ReceiveInParts(None, Plaintexts(messages[0]), AllPlaintexts(messages[1..]));
    }
  }

  /** One message over the cap ends the run, whatever went before it was delivered. */
  lemma OversizeIsRefused(before: seq<Message>, m: Message, after: seq<Bytes>)
    requires forall b :: b in before ==> |b.payload| <= NOISE_MAX_REASSEMBLY
    requires |m.payload| > NOISE_MAX_REASSEMBLY
    ensures ReceiveAll(None, AllPlaintexts(before) + (Plaintexts(m) + after)) == Err(OverCap)
  {
    hide Receive, Plaintexts, ReceiveAll;
    MessagesRoundTrip(before);
    OneMessageRoundTrip(m);
    ReceiveInParts(None, Plaintexts(m), after);
    ReceiveInParts(None, AllPlaintexts(before), Plaintexts(m) + after);
  }

  /** The wires of several messages, in the order one session encrypts them. */
  function SealAll(counter: nat, messages: seq<Message>): seq<Wire>
    decreases |messages|
  {
    if messages == [] then []
    else Seal(counter, Plaintexts(messages[0])) + SealAll(counter + |Plaintexts(messages[0])|, messages[1..])
  }

  lemma {:induction false} SealAllIsSeal(counter: nat, messages: seq<Message>)
    ensures SealAll(counter, messages) == Seal(counter, AllPlaintexts(messages))
    decreases |messages|
  {
    hide Plaintexts;
    if messages != [] {
      SealAllIsSeal(counter + |Plaintexts(messages[0])|, messages[1..]);
    }
  }

  /** What one session encrypts, its peer decrypts: the same messages, with their flags, in order. */
  lemma SessionRoundTrip(counter: nat, messages: seq<Message>)
    requires forall m :: m in messages ==> |m.payload| <= 32 * 1024 * 1024
    ensures DecryptAll(counter, None, SealAll(counter, messages)) == Ok((None, messages))
  {
    hide Receive, Plaintexts, ReceiveAll, DecryptAll, AllPlaintexts;
    SealAllIsSeal(counter, messages);
    var wires := SealAll(counter, messages);
    OnlyInOrderRunsSucceed(counter, None, wires);
    assert Opened(wires) == AllPlaintexts(messages);
    MessagesRoundTrip(messages);
  }

  // ---------------------------------------------------------------------------------------------
  // The frame sequences a session accepts
  // ---------------------------------------------------------------------------------------------

  /** One whole message as it travels. */
  datatype Unit =
    | One(isJson: bool, body: Bytes)
    | Many(isJson: bool, first: Bytes, more: seq<Bytes>, last: Bytes)

  /** A chunked message that has begun and not ended. */
  datatype Begun = Begun(isJson: bool, first: Bytes, more: seq<Bytes>)

  function Marked(marker: Byte, bodies: seq<Bytes>): seq<Bytes>
  {
    seq(|bodies|, i requires 0 <= i < |bodies| => [marker] + bodies[i])
  }

  function BegunFrames(begun: Begun): seq<Bytes>
  {
    [[First(begun.isJson)] + begun.first] + Marked(FRAME_MORE, begun.more)
  }

  function UnitFrames(unit: Unit): seq<Bytes>
  {
    match unit
    case One(isJson, body) => [[Single(isJson)] + body]
    case Many(isJson, first, more, last) => BegunFrames(Begun(isJson, first, more)) + [[FRAME_LAST] + last]
  }

  function AllFrames(units: seq<Unit>): seq<Bytes>
    decreases |units|
  {
    if units == [] then [] else AllFrames(units[..|units| - 1]) + UnitFrames(units[|units| - 1])
  }

  function Join(bodies: seq<Bytes>): Bytes
    decreases |bodies|
  {
    if bodies == [] then [] else Join(bodies[..|bodies| - 1]) + bodies[|bodies| - 1]
  }

  function BegunBytes(begun: Begun): Bytes
  {
    begun.first + Join(begun.more)
  }

  function UnitMessage(unit: Unit): Message
  {
    match unit
    case One(isJson, body) => Message(body, isJson)
    case Many(isJson, first, more, last) => Message(BegunBytes(Begun(isJson, first, more)) + last, isJson)
  }

  predicate UnitFits(unit: Unit)
  {
    unit.Many? ==> |UnitMessage(unit).payload| <= NOISE_MAX_REASSEMBLY
  }

  function TailFrames(tail: Option<Begun>): seq<Bytes>
  {
    if tail.Some? then BegunFrames(tail.value) else []
  }

  function TailOpen(tail: Option<Begun>): Open
  {
    if tail.Some? then Some(Reassembly(BegunBytes(tail.value), tail.value.isJson)) else None
  }

  function UnitMessages(units: seq<Unit>): seq<Message>
  {
    seq(|units|, i requires 0 <= i < |units| => UnitMessage(units[i]))
  }

  /** The frames are whole messages, each within the cap, and then perhaps one begun. */
  ghost predicate Splits(plaintexts: seq<Bytes>, units: seq<Unit>, tail: Option<Begun>)
  {
    && plaintexts == AllFrames(units) + TailFrames(tail)
    && (forall u :: u in units ==> UnitFits(u))
    && WithinCap(TailOpen(tail))
  }

  lemma {:induction false} BegunIsHeld(begun: Begun)
    requires |BegunBytes(begun)| <= NOISE_MAX_REASSEMBLY
    ensures ReceiveAll(None, BegunFrames(begun)) == Ok((TailOpen(Some(begun)), []))
    decreases |begun.more|
  {
    hide Receive, ReceiveAll;
    var frames := BegunFrames(begun);
    NothingReceived([]);
    if begun.more == [] {
      NextFrame(frames, 0);
      assert frames[..1] == frames && frames[..0] == [];
      TakesChunk(None, First(begun.isJson), begun.first);
      assert begun.first + [] == begun.first;
    } else {
      var most := begun.(more := begun.more[..|begun.more| - 1]);
      var body := begun.more[|begun.more| - 1];
      assert BegunBytes(begun) == BegunBytes(most) + body;
      BegunIsHeld(most);
      NextFrame(frames, |frames| - 1);
      assert frames[..|frames|] == frames && frames[..|frames| - 1] == BegunFrames(most);
      TakesChunk(TailOpen(Some(most)), FRAME_MORE, body);
    }
  }

  lemma UnitIsDelivered(unit: Unit)
    requires UnitFits(unit)
    ensures ReceiveAll(None, UnitFrames(unit)) == Ok((None, [UnitMessage(unit)]))
  {
    hide Receive, ReceiveAll;
    var frames := UnitFrames(unit);
    match unit
    case One(isJson, body) =>
      NothingReceived(frames[..0]);
      NextFrame(frames, 0);
      assert frames[..1] == frames;
      TakesSingle(UnitMessage(unit));
    case Many(isJson, first, more, last) =>
      var begun := Begun(isJson, first, more);
      BegunIsHeld(begun);
      NextFrame(frames, |frames| - 1);
      assert frames[..|frames|] == frames && frames[..|frames| - 1] == BegunFrames(begun);
      TakesLast(TailOpen(Some(begun)).value, last);
  }

  lemma {:induction false} UnitsAreDelivered(units: seq<Unit>)
    requires forall u :: u in units ==> UnitFits(u)
    ensures ReceiveAll(None, AllFrames(units)) == Ok((None, UnitMessages(units)))
    decreases |units|
  {
    hide ReceiveAll, UnitFrames, UnitMessage, UnitFits;
    if units == [] {
      NothingReceived([]);
    } else {
      var most, last := units[..|units| - 1], units[|units| - 1];
      UnitsAreDelivered(most);
      UnitIsDelivered(last);
      ReceiveInParts(None, AllFrames(most), UnitFrames(last));
      assert UnitMessages(units) == UnitMessages(most) + [UnitMessage(last)];
    }
  }

  /** A split sequence is received without error: its messages delivered, its begun one left open. */
  lemma SplitIsAccepted(plaintexts: seq<Bytes>, units: seq<Unit>, tail: Option<Begun>)
    requires Splits(plaintexts, units, tail)
    ensures ReceiveAll(None, plaintexts) == Ok((TailOpen(tail), UnitMessages(units)))
  {
    hide ReceiveAll, BegunFrames, BegunBytes;
    UnitsAreDelivered(units);
    ReceiveInParts(None, AllFrames(units), TailFrames(tail));
    if tail.Some? {
      BegunIsHeld(tail.value);
    } else {
      NothingReceived([]);
    }
    assert UnitMessages(units) + [] == UnitMessages(units);
  }

  /** One frame more: what it adds to the split. */
  lemma SplitOneMore(most: seq<Bytes>, units: seq<Unit>, tail: Option<Begun>, last: Bytes)
    returns (units': seq<Unit>, tail': Option<Begun>)
    requires Splits(most, units, tail) && Receive(TailOpen(tail), last).1.Ok?
    ensures Splits(most + [last], units', tail')
  {
    hide AllFrames, BegunFrames, BegunBytes;
    var marker, body := last[0], last[1..];
    assert last == [marker] + body;
    if marker == FRAME_JSON || marker == FRAME_BINARY {
      units', tail' := units + [One(marker == FRAME_JSON, body)], None;
      AllFramesGrow(units, One(marker == FRAME_JSON, body));
    } else if marker == FRAME_FIRST_JSON || marker == FRAME_FIRST_BINARY {
      units', tail' := units, Some(Begun(marker == FRAME_FIRST_JSON, body, []));
      BegunStarts(marker == FRAME_FIRST_JSON, body);
    } else if marker == FRAME_MORE {
      BegunGrows(tail.value, body);
      units', tail' := units, Some(tail.value.(more := tail.value.more + [body]));
    } else {
      var unit := Many(tail.value.isJson, tail.value.first, tail.value.more, body);
      units', tail' := units + [unit], None;
      AllFramesGrow(units, unit);
    }
  }

  lemma AllFramesGrow(units: seq<Unit>, unit: Unit)
    ensures AllFrames(units + [unit]) == AllFrames(units) + UnitFrames(unit)
  {
    assert (units + [unit])[..|units|] == units;
  }

  lemma BegunStarts(isJson: bool, body: Bytes)
    ensures BegunFrames(Begun(isJson, body, [])) == [[First(isJson)] + body]
    ensures BegunBytes(Begun(isJson, body, [])) == body
  {
  }

  lemma BegunGrows(begun: Begun, body: Bytes)
    ensures var grown := begun.(more := begun.more + [body]);
      BegunFrames(grown) == BegunFrames(begun) + [[FRAME_MORE] + body] && BegunBytes(grown) == BegunBytes(begun) + body
  {
    assert (begun.more + [body])[..|begun.more|] == begun.more;
  }

  lemma NothingIsSplit()
    ensures Splits([], [], None)
  {}

  lemma {:induction false} AcceptedIsSplit(plaintexts: seq<Bytes>) returns (units: seq<Unit>, tail: Option<Begun>)
    requires ReceiveAll(None, plaintexts).Ok?
    ensures Splits(plaintexts, units, tail)
    decreases |plaintexts|
  {
    hide Receive, Splits, TailOpen, UnitMessages, Extend;
    if plaintexts == [] {
      units, tail := [], None;
      NothingIsSplit();
    } else {
      var most, last := plaintexts[..|plaintexts| - 1], plaintexts[|plaintexts| - 1];
      units, tail := AcceptedIsSplit(most);
      SplitIsAccepted(most, units, tail);
      assert plaintexts == most + [last];
      units, tail := SplitOneMore(most, units, tail, last);
    }
  }

  /**
   * A session accepts exactly the sequences of whole messages within the cap, perhaps with one begun:
   * each run of chunks is delivered as its bodies joined, under the flag its first frame set.
   */
  lemma AcceptedFrames(plaintexts: seq<Bytes>)
    ensures ReceiveAll(None, plaintexts).Ok? <==> exists units, tail :: Splits(plaintexts, units, tail)
    ensures forall units, tail :: Splits(plaintexts, units, tail) ==>
      ReceiveAll(None, plaintexts) == Ok((TailOpen(tail), UnitMessages(units)))
  {
    hide ReceiveAll, Splits, TailOpen, UnitMessages;
    forall units, tail | Splits(plaintexts, units, tail)
      ensures ReceiveAll(None, plaintexts) == Ok((TailOpen(tail), UnitMessages(units)))
    {
      SplitIsAccepted(plaintexts, units, tail);
    }
    if ReceiveAll(None, plaintexts).Ok? {
      var units, tail := AcceptedIsSplit(plaintexts);
    }
  }
}
