/** STUN messages and channel data on a stream: what a send queue puts on the wire, and how the receiver
    splits the bytes again, however they arrive. */
module Framing {
  import opened Common
  import opened WireFormat
  import opened StunFormat

  const RECEIVE_BUFFER_SIZE: nat := 2048

  // ----- sending -----

  /** `frame` is the four-byte channel header, empty for a STUN message; data is sent from `start` on. */
  datatype Item = Item(frame: seq<byte>, data: seq<byte>, start: nat)

  /** The channel number that stands for no channel. It is the greatest number that a channel can have. */
  const NO_CHANNEL: nat := 0xFFFF

  /** What is queued for `data`: without a header if there is no channel; otherwise the header counts all of
      `data`, in 16 bits. */
  function ItemFor(channel: nat, data: seq<byte>, start: nat): Item {
    Item(if channel == NO_CHANNEL then [] else BigEndian(2, channel) + BigEndian(2, |data|), data, start)
  }

  function Wire(i: Item): seq<byte> {
    if i.start <= |i.data| then i.frame + i.data[i.start..] else i.frame
  }

  function WireOf(items: seq<Item>): seq<byte> {
    if items == [] then [] else WireOf(items[..|items| - 1]) + Wire(items[|items| - 1])
  }

  /** `queue` holds what is not yet sent, the first of it being written; `submitted` is what was ever given to
      the socket and `written` the writes that were started. */
  datatype Sender = Sender(queue: seq<Item>, writing: nat, submitted: seq<Item>, written: seq<Item>)

  datatype SendEvent = DoSend(channel: nat, data: seq<byte>, start: nat) | HandleSend

  function StartWrite(s: Sender): Sender {
    if s.queue == [] then s else s.(writing := s.writing + 1, written := s.written + [s.queue[0]])
  }

  function SendStep(s: Sender, e: SendEvent): Sender {
    match e
    case DoSend(channel, data, start) =>
      var item := ItemFor(channel, data, start);
      var t := s.(queue := s.queue + [item], submitted := s.submitted + [item]);
      if s.queue == [] then StartWrite(t) else t
    case HandleSend =>
      if s.queue == [] || s.writing == 0 then s
      else StartWrite(s.(queue := s.queue[1..], writing := s.writing - 1))
  }

  function SendSteps(s: Sender, es: seq<SendEvent>): Sender {
    if es == [] then s else SendStep(SendSteps(s, es[..|es| - 1]), es[|es| - 1])
  }

  const IDLE := Sender([], 0, [], [])

  /** One write is under way exactly while the queue is not empty, and the writes started so far and the rest
      of the queue are what was submitted, in order. */
  ghost predicate InOrder(s: Sender) {
    && s.writing == (if s.queue == [] then 0 else 1)
    && s.submitted == s.written + (if s.queue == [] then [] else s.queue[1..])
    && (s.queue != [] ==> s.written != [] && s.written[|s.written| - 1] == s.queue[0])
  }

  lemma {:induction false} SendStepInOrder(s: Sender, e: SendEvent)
    requires InOrder(s)
    ensures InOrder(SendStep(s, e))
  {
    match e
    case DoSend(channel, data, start) =>
      var item := ItemFor(channel, data, start);
      if s.queue == [] {
        assert s.written + [] + [item] == s.written + [item] + [];
      } else {
        assert (s.queue + [item])[1..] == s.queue[1..] + [item];
        assert s.written + s.queue[1..] + [item] == s.written + (s.queue[1..] + [item]);
      }
    case HandleSend =>
      if |s.queue| > 1 {
        assert s.queue[1..] == [s.queue[1]] + s.queue[1..][1..];
        assert s.written + s.queue[1..] == s.written + [s.queue[1]] + s.queue[1..][1..];
      }
  }

  /** Whatever the interleaving of submissions and completions, at most one write is under way, writes are
      started in the order of submission, and an empty queue means that all of it was written. */
  lemma {:induction false} SendsInOrder(es: seq<SendEvent>)
    ensures var s := SendSteps(IDLE, es);
            InOrder(s) && s.writing <= 1 && s.written <= s.submitted
            && (s.queue == [] ==> s.written == s.submitted)
  {
    if es != [] {
      SendsInOrder(es[..|es| - 1]);
      SendStepInOrder(SendSteps(IDLE, es[..|es| - 1]), es[|es| - 1]);
    }
  }

  // ----- what has been sent, from the events alone -----

  /** What was submitted, in order. */
  function Submitted(es: seq<SendEvent>): seq<Item> {
    if es == [] then []
    else
      var e := es[|es| - 1];
      Submitted(es[..|es| - 1]) + (if e.DoSend? then [ItemFor(e.channel, e.data, e.start)] else [])
  }

  /** The submissions that are not completed: each completion takes one off while there is one. */
  function Waiting(es: seq<SendEvent>): nat {
    if es == [] then 0
    else
      var n := Waiting(es[..|es| - 1]);
      if es[|es| - 1].DoSend? then n + 1 else if n > 0 then n - 1 else 0
  }

  /** The last `n` of the submissions `all` are queued, the first of these being written. */
  ghost predicate Queued(s: Sender, all: seq<Item>, n: nat) {
    && n <= |all| && s.submitted == all && s.queue == all[|all| - n..]
    && s.written == all[..|all| - (if n > 0 then n - 1 else 0)]
    && s.writing == (if n > 0 then 1 else 0)
  }

  lemma {:induction false} SubmissionQueued(s: Sender, all: seq<Item>, n: nat, e: SendEvent)
    requires Queued(s, all, n) && e.DoSend?
    ensures Queued(SendStep(s, e), all + [ItemFor(e.channel, e.data, e.start)], n + 1)
  {
    hide ItemFor;
    var more := all + [ItemFor(e.channel, e.data, e.start)];
    assert more[|more| - (n + 1)..] == s.queue + [more[|all|]];
    if n == 0 {
      assert more[..|more|] == all[..|all|] + [more[|all|]];
    } else {
      assert more[..|more| - n] == all[..|all| - (n - 1)];
    }
  }

  lemma {:induction false} CompletionQueued(s: Sender, all: seq<Item>, n: nat)
    requires Queued(s, all, n)
    ensures Queued(SendStep(s, HandleSend), all, if n > 0 then n - 1 else 0)
  {
    if n > 0 {
      assert all[|all| - n..][1..] == all[|all| - (n - 1)..];
      if n > 1 {
        assert all[..|all| - (n - 2)] == all[..|all| - (n - 1)] + [all[|all| - (n - 1)]];
      }
    }
  }

  /** A completed write leaves the queue and the next one begins: at any time the queue holds the submissions
      still to be completed, and the others with the first of these have been written. */
  lemma {:induction false} QueueIsWhatWaits(es: seq<SendEvent>)
    ensures Queued(SendSteps(IDLE, es), Submitted(es), Waiting(es))
  {
    if es != [] {
      var before, e := es[..|es| - 1], es[|es| - 1];
      QueueIsWhatWaits(before);
      LastStep(es);
      hide SendSteps, SendStep, Queued, ItemFor;
      if e.DoSend? {
        SubmissionQueued(SendSteps(IDLE, before), Submitted(before), Waiting(before), e);
      } else {
        CompletionQueued(SendSteps(IDLE, before), Submitted(before), Waiting(before));
      }
    }
  }

  lemma {:induction false} LastStep(es: seq<SendEvent>)
    requires es != []
    ensures SendSteps(IDLE, es) == SendStep(SendSteps(IDLE, es[..|es| - 1]), es[|es| - 1])
  {
  }

  function Completions(n: nat): seq<SendEvent> {
    if n == 0 then [] else Completions(n - 1) + [HandleSend]
  }

  lemma {:induction false} CompletionsTake(es: seq<SendEvent>, n: nat)
    requires n <= Waiting(es)
    ensures Waiting(es + Completions(n)) == Waiting(es) - n
    ensures Submitted(es + Completions(n)) == Submitted(es)
  {
    if n == 0 {
      assert es + Completions(n) == es;
    } else {
      CompletionsTake(es, n - 1);
      assert (es + Completions(n))[..|es + Completions(n)| - 1] == es + Completions(n - 1);
    }
  }

  /** Whatever has been submitted is all written, in order, after as many completions as there are submissions
      waiting. */
  lemma {:induction false} AllIsWritten(es: seq<SendEvent>)
    ensures var s := SendSteps(IDLE, es + Completions(Waiting(es)));
            s.queue == [] && s.written == Submitted(es) == s.submitted
  {
    hide SendSteps, Submitted, Waiting, Completions;
    CompletionsTake(es, Waiting(es));
    QueueIsWhatWaits(es + Completions(Waiting(es)));
  }

  // ----- receiving -----

  /** How many bytes follow a four-byte header: a STUN header has sixteen more than its length counts. */
  function BodySize(header: seq<byte>): nat
    requires |header| >= 4
  {
    var len := FromBigEndian(header[2..4]);
    if header[0] < 0x40 then (len + 16) % 0x1_0000 else len
  }

  datatype Phase = AwaitHeader | AwaitBody(header: seq<byte>) | Closed

  /** `pending` are the bytes that have arrived and were not yet read. */
  datatype Receiver = Receiver(phase: Phase, pending: seq<byte>, delivered: seq<seq<byte>>)

  const LISTENING := Receiver(AwaitHeader, [], [])

  ghost predicate Proper(r: Receiver) {
    r.phase.AwaitBody? ==> |r.phase.header| == 4
  }

  /** The completion handlers, for as long as the bytes that they wait for are there. */
  function Drain(r: Receiver): (d: Receiver)
    ensures r.delivered <= d.delivered
    decreases |r.pending|, if r.phase.AwaitBody? then 1 else 0
  {
    match r.phase
    case Closed => r
    case AwaitHeader =>
      if |r.pending| < 4 then r
      else if BodySize(r.pending) + 4 < RECEIVE_BUFFER_SIZE then
        Drain(r.(phase := AwaitBody(r.pending[..4]), pending := r.pending[4..]))
      else r.(phase := Closed)
    case AwaitBody(header) =>
      if |header| < 4 || |r.pending| < BodySize(header) then r
      else
        var n := BodySize(header);
        Drain(Receiver(AwaitHeader, r.pending[n..], r.delivered + [header + r.pending[..n]]))
  }

  function Arrive(r: Receiver, chunk: seq<byte>): Receiver {
    Drain(r.(pending := r.pending + chunk))
  }

  function ArriveAll(r: Receiver, chunks: seq<seq<byte>>): Receiver
    decreases |chunks|
  {
    if chunks == [] then r else ArriveAll(Arrive(r, chunks[0]), chunks[1..])
  }

  function Joined(chunks: seq<seq<byte>>): seq<byte> {
    if chunks == [] then [] else chunks[0] + Joined(chunks[1..])
  }

  lemma {:induction false} BodySizeOfPrefix(a: seq<byte>, b: seq<byte>)
    requires |a| >= 4
    ensures BodySize(a + b) == BodySize(a) && BodySize(a[..4]) == BodySize(a)
  {
    assert (a + b)[2..4] == a[2..4];
    assert a[..4][2..4] == a[2..4];
  }

  /** Draining before more arrives makes no difference. */
  lemma {:induction false} DrainThenArrive(r: Receiver, more: seq<byte>)
    ensures Arrive(Drain(r), more) == Arrive(r, more)
    decreases |r.pending|, if r.phase.AwaitBody? then 1 else 0
  {
    hide FromBigEndian, BodySize;
    match r.phase
    case Closed =>
    case AwaitHeader =>
      if |r.pending| >= 4 && BodySize(r.pending) + 4 < RECEIVE_BUFFER_SIZE {
        BodySizeOfPrefix(r.pending, more);
        var next := r.(phase := AwaitBody(r.pending[..4]), pending := r.pending[4..]);
        assert (r.pending + more)[..4] == r.pending[..4];
        assert (r.pending + more)[4..] == r.pending[4..] + more;
        DrainThenArrive(next, more);
      } else if |r.pending| >= 4 {
        BodySizeOfPrefix(r.pending, more);
      }
    case AwaitBody(header) =>
      if |header| >= 4 && |r.pending| >= BodySize(header) {
        var n := BodySize(header);
        var next := Receiver(AwaitHeader, r.pending[n..], r.delivered + [header + r.pending[..n]]);
        assert (r.pending + more)[..n] == r.pending[..n];
        assert (r.pending + more)[n..] == r.pending[n..] + more;
        DrainThenArrive(next, more);
      }
  }

  lemma {:induction false} ArriveTwice(r: Receiver, a: seq<byte>, b: seq<byte>)
    ensures Arrive(Arrive(r, a), b) == Arrive(r, a + b)
  {
    DrainThenArrive(r.(pending := r.pending + a), b);
    assert r.pending + a + b == r.pending + (a + b);
  }

  /** The receiver ends in the same state, with the same messages delivered, however the bytes are cut up. */
  lemma {:induction false} ChunksDoNotMatter(r: Receiver, chunks: seq<seq<byte>>)
    requires Drain(r) == r
    ensures ArriveAll(r, chunks) == Arrive(r, Joined(chunks))
    decreases |chunks|
  {
    if chunks == [] {
      assert r.pending + [] == r.pending;
    } else {
      DrainIdempotent(r.(pending := r.pending + chunks[0]));
      ChunksDoNotMatter(Arrive(r, chunks[0]), chunks[1..]);
      ArriveTwice(r, chunks[0], Joined(chunks[1..]));
    }
  }

  lemma {:induction false} DrainIdempotent(r: Receiver)
    ensures Drain(Drain(r)) == Drain(r)
    decreases |r.pending|, if r.phase.AwaitBody? then 1 else 0
  {
    hide FromBigEndian, BodySize;
    match r.phase
    case Closed =>
    case AwaitHeader =>
      if |r.pending| >= 4 && BodySize(r.pending) + 4 < RECEIVE_BUFFER_SIZE {
        DrainIdempotent(r.(phase := AwaitBody(r.pending[..4]), pending := r.pending[4..]));
      }
    case AwaitBody(header) =>
      if |header| >= 4 && |r.pending| >= BodySize(header) {
        var n := BodySize(header);
        DrainIdempotent(Receiver(AwaitHeader, r.pending[n..], r.delivered + [header + r.pending[..n]]));
      }
  }

  // ----- from end to end -----

  /** A message that says its own size and is below the size of the receive buffer. */
  predicate SelfSized(f: seq<byte>) {
    |f| >= 4 && |f| == 4 + BodySize(f) && |f| < RECEIVE_BUFFER_SIZE
  }

  /** The messages handed out while `r` is drained. */
  function News(r: Receiver): seq<seq<byte>> {
    Drain(r).delivered[|r.delivered|..]
  }

  ghost predicate AllSelfSized(fs: seq<seq<byte>>) {
    forall i :: 0 <= i < |fs| ==> SelfSized(fs[i])
  }

  /** A body is only awaited if its header fits the receive buffer with it. */
  ghost predicate Expecting(r: Receiver) {
    r.phase.AwaitBody? ==> |r.phase.header| == 4 && BodySize(r.phase.header) + 4 < RECEIVE_BUFFER_SIZE
  }

  /** Whatever bytes arrive, a receiver hands out nothing but messages that say their own size. */
  lemma {:induction false} OnlySelfSized(r: Receiver)
    requires Expecting(r)
    ensures AllSelfSized(News(r))
    decreases |r.pending|, if r.phase.AwaitBody? then 1 else 0
  {
    hide FromBigEndian, BodySize;
    match r.phase
    case Closed =>
    case AwaitHeader =>
      if |r.pending| >= 4 && BodySize(r.pending) + 4 < RECEIVE_BUFFER_SIZE {
        BodySizeOfPrefix(r.pending, []);
        OnlySelfSized(r.(phase := AwaitBody(r.pending[..4]), pending := r.pending[4..]));
      }
    case AwaitBody(header) =>
      if |r.pending| >= BodySize(header) {
        var n := BodySize(header);
        var first := header + r.pending[..n];
        var next := Receiver(AwaitHeader, r.pending[n..], r.delivered + [first]);
        BodySizeOfPrefix(header, r.pending[..n]);
        OnlySelfSized(next);
        assert News(r) == [first] + News(next);
      }
  }

  /** What stands at the front of the stream is handed out first, and the rest then read by itself, exactly if it
      is self-sized; otherwise it is not handed out at all, whatever follows it. */
  lemma {:induction false} DeliversExactly(f: seq<byte>, rest: seq<byte>, done: seq<seq<byte>>)
    ensures SelfSized(f) ==>
              Drain(Receiver(AwaitHeader, f + rest, done)) == Drain(Receiver(AwaitHeader, rest, done + [f]))
    ensures f in News(Receiver(AwaitHeader, f + rest, done)) <==> SelfSized(f)
  {
    hide FromBigEndian, BodySize;
    var r := Receiver(AwaitHeader, f + rest, done);
    OnlySelfSized(r);
    if SelfSized(f) {
      BodySizeOfPrefix(f, rest);
      var all := f + rest;
      assert all[..4] == f[..4] && all[4..] == f[4..] + rest;
      assert (f[4..] + rest)[..|f| - 4] == f[4..] && (f[4..] + rest)[|f| - 4..] == rest;
      assert f[..4] + f[4..] == f;
      var next := Receiver(AwaitHeader, rest, done + [f]);
      assert Drain(r) == Drain(next);
      assert News(r)[0] == next.delivered[|done|];
    }
  }

  function Wires(items: seq<Item>): seq<seq<byte>> {
    seq(|items|, i requires 0 <= i < |items| => Wire(items[i]))
  }

  lemma {:induction false} StreamSplits(items: seq<Item>, done: seq<seq<byte>>)
    requires AllSelfSized(Wires(items))
    ensures Drain(Receiver(AwaitHeader, WireOf(items), done)) == Receiver(AwaitHeader, [], done + Wires(items))
  {
    if items == [] {
      assert done + Wires(items) == done;
    } else {
      var front, last := items[..|items| - 1], items[|items| - 1];
      hide SelfSized, BodySize;
      assert Wires(items) == Wires(front) + [Wire(last)];
      assert SelfSized(Wires(items)[|front|]);
      assert AllSelfSized(Wires(front)) by {
        assert forall i :: 0 <= i < |front| ==> Wires(front)[i] == Wires(items)[i];
      }
      StreamSplits(front, done);
      var r := Receiver(AwaitHeader, WireOf(front), done);
      DrainThenArrive(r, Wire(last));
      LastDelivered(Wire(last), done + Wires(front));
      assert done + Wires(front) + [Wire(last)] == done + (Wires(front) + [Wire(last)]);
    }
  }

  lemma {:induction false} LastDelivered(f: seq<byte>, done: seq<seq<byte>>)
    requires SelfSized(f)
    ensures Arrive(Receiver(AwaitHeader, [], done), f) == Receiver(AwaitHeader, [], done + [f])
  {
    DeliversExactly(f, [], done);
    assert [] + f == f && f + [] == f;
  }

  /** End to end: whatever the interleaving on the sending side and the cutting up on the way, once every
      submission is completed the receiver has been handed the messages that were submitted, in order, and waits
      for the next, if and only if every one of them is self-sized. */
  lemma {:induction false} StreamDeliversExactly(es: seq<SendEvent>, chunks: seq<seq<byte>>)
    requires Waiting(es) == 0 && Joined(chunks) == WireOf(SendSteps(IDLE, es).written)
    ensures ArriveAll(LISTENING, chunks) == Receiver(AwaitHeader, [], Wires(Submitted(es))) <==> AllSelfSized(Wires(Submitted(es)))
  {
    hide SendSteps, SelfSized;
    QueueIsWhatWaits(es);
    var items := Submitted(es);
    assert SendSteps(IDLE, es).written == items;
    ChunksDoNotMatter(LISTENING, chunks);
    assert [] + WireOf(items) == WireOf(items);
    var all := Receiver(AwaitHeader, WireOf(items), []);
    OnlySelfSized(all);
    assert News(all) == Drain(all).delivered;
    if AllSelfSized(Wires(items)) {
      StreamSplits(items, []);
      assert [] + Wires(items) == Wires(items);
    }
  }

  // ----- which messages are self-sized -----

  lemma {:induction false} FourByteHeader(a: nat, b: nat, rest: seq<byte>)
    requires a < 0x1_0000 && b < 0x1_0000
    ensures var f := BigEndian(2, a) + BigEndian(2, b) + rest;
            FromBigEndian(f[2..4]) == b && (f[0] < 0x40 <==> a < 0x4000)
  {
    HalfBack(b);
    var f := BigEndian(2, a) + BigEndian(2, b) + rest;
    assert f[2..4] == BigEndian(2, b);
    assert BigEndian(2, a)[0] == a / 256 % 256 && a / 256 < 256 by {
      assert BigEndian(1, a / 256) == [] + [a / 256 % 256];
    }
    assert f[0] == a / 256;
  }

  lemma {:induction false} LowHalf(n: nat)
    ensures BigEndian(2, n) == BigEndian(2, n % 0x1_0000)
  {
    var q, r := n / 0x1_0000, n % 0x1_0000;
    TwoBytes(n);
    TwoBytes(r);
    hide BigEndian;
    assert n == 256 * (256 * q + r / 256) + r % 256;
    assert n / 256 == 256 * q + r / 256 && n % 256 == r % 256;
  }

  lemma {:induction false} FramedBodySize(channel: nat, size: nat, rest: seq<byte>)
    requires channel < 0x1_0000
    ensures BodySize(BigEndian(2, channel) + BigEndian(2, size) + rest)
         == if channel < 0x4000 then (size % 0x1_0000 + 16) % 0x1_0000 else size % 0x1_0000
  {
    hide BigEndian, FromBigEndian;
    LowHalf(size);
    FourByteHeader(channel, size % 0x1_0000, rest);
  }

  /** A part of fewer than 65536 bytes has the size that 16 bits of the whole size say exactly when it begins at
      a multiple of 65536, and sixteen bytes more exactly when it begins that much earlier. */
  lemma {:induction false} CutSizes(size: nat, start: nat)
    requires start <= size && size - start < 0x1_0000
    ensures size - start == size % 0x1_0000 <==> start % 0x1_0000 == 0
    ensures size - start == (size % 0x1_0000 + 16) % 0x1_0000 <==> start % 0x1_0000 == 0x1_0000 - 16
  {
  }

  /** For any channel number, data of any size and any part of it, what is sent is delivered whole exactly if it
      is below the size of the receive buffer and: without a channel, the data says its own size; otherwise the
      number is outside the range of STUN types and the part begins at a multiple of 65536 bytes, or it is
      inside and the part begins 16 bytes before one. */
  lemma {:induction false} SendSelfSized(channel: nat, data: seq<byte>, start: nat)
    requires channel < 0x1_0000 && start <= |data|
    ensures SelfSized(Wire(ItemFor(channel, data, start)))
       <==> if channel == NO_CHANNEL then SelfSized(data[start..])
            else |data| - start + 4 < RECEIVE_BUFFER_SIZE
                 && start % 0x1_0000 == if channel < 0x4000 then 0x1_0000 - 16 else 0
  {
    hide BigEndian, FromBigEndian, BodySize;
    if channel == NO_CHANNEL {
      assert Wire(ItemFor(channel, data, start)) == data[start..];
    } else {
      FramedBodySize(channel, |data|, data[start..]);
      assert Wire(ItemFor(channel, data, start)) == BigEndian(2, channel) + BigEndian(2, |data|) + data[start..];
      if |data| - start + 4 < RECEIVE_BUFFER_SIZE {
        CutSizes(|data|, start);
      }
    }
  }

  /** For whole data, as the server sends it: the channel number is neither that of no channel nor in the range
      of STUN types, and the data fits; or there is no channel and the data says its own size. */
  lemma {:induction false} ChannelDataSelfSized(channel: nat, data: seq<byte>)
    requires channel < 0x1_0000
    ensures SelfSized(Wire(ItemFor(channel, data, 0)))
       <==> if channel == NO_CHANNEL then SelfSized(data)
            else channel >= 0x4000 && |data| + 4 < 2048
  {
    SendSelfSized(channel, data, 0);
    assert data[0..] == data;
  }

  /** Five bytes for channel 0xFFFF go out without a header, and the receiver waits for more of a message that
      was never sent; for channel 0xFFFE they would arrive. */
  lemma {:induction false} LastChannelIsLost()
    ensures Arrive(LISTENING, Wire(ItemFor(0xFFFF, [0, 0, 0, 9, 1], 0))) == Receiver(AwaitBody([0, 0, 0, 9]), [1], [])
    ensures SelfSized(Wire(ItemFor(0xFFFE, [0, 0, 0, 9, 1], 0)))
  {
    hide BigEndian, FromBigEndian, BodySize;
    var data: seq<byte> := [0, 0, 0, 9, 1];
    assert Wire(ItemFor(0xFFFF, data, 0)) == data;
    BodySizeIs(data, 0, 9);
    WaitsForMore(data);
    assert data[..4] == [0, 0, 0, 9] && data[4..] == [1];
    ChannelDataSelfSized(0xFFFE, data);
  }

  /** On a channel below 0x4000 the receiver takes the data for a STUN message and waits for sixteen bytes more. */
  lemma {:induction false} LowChannelIsMistaken()
    ensures Arrive(LISTENING, Wire(ItemFor(0x3FFF, [0, 0, 0, 9, 1], 0)))
         == Receiver(AwaitBody([0x3F, 0xFF, 0, 5]), [0, 0, 0, 9, 1], [])
  {
    hide BigEndian, FromBigEndian, BodySize, ItemFor;
    var data: seq<byte> := [0, 0, 0, 9, 1];
    var f: seq<byte> := [0x3F, 0xFF, 0, 5, 0, 0, 0, 9, 1];
    LowChannelFrame(data);
    assert [0x3F, 0xFF, 0, 5] + data == f;
    BodySizeIs(f, 0, 5);
    WaitsForMore(f);
    assert f[..4] == [0x3F, 0xFF, 0, 5] && f[4..] == data;
  }

  lemma {:induction false} LowChannelFrame(data: seq<byte>)
    requires |data| == 5
    ensures Wire(ItemFor(0x3FFF, data, 0)) == [0x3F, 0xFF, 0, 5] + data
  {
    TwoBytes(0x3FFF);
    TwoBytes(5);
    hide BigEndian;
    assert data[0..] == data;
  }

  lemma {:induction false} WaitsForMore(f: seq<byte>)
    requires |f| >= 4 && |f| < BodySize(f) + 4 < RECEIVE_BUFFER_SIZE
    ensures Arrive(LISTENING, f) == Receiver(AwaitBody(f[..4]), f[4..], [])
  {
    hide FromBigEndian, BodySize;
    BodySizeOfPrefix(f, []);
    var next := Receiver(AwaitBody(f[..4]), f[4..], []);
    assert LISTENING.pending + f == f;
    assert Drain(Receiver(AwaitHeader, f, [])) == Drain(next);
    assert Drain(next) == next;
  }

  lemma {:induction false} BodySizeIs(f: seq<byte>, hi: byte, lo: byte)
    requires |f| >= 4 && f[2] == hi && f[3] == lo
    ensures BodySize(f) == if f[0] < 0x40 then (hi * 256 + lo + 16) % 0x1_0000 else hi * 256 + lo
  {
    var two := f[2..4];
    assert two[..1] == [hi] && [hi][..0] == [];
    assert FromBigEndian([hi]) == hi;
  }

  lemma {:induction false} EncodedFront(c: Crypto, key: seq<byte>, order: seq<nat>, m: Message, junk: seq<byte>)
    requires CryptoOk(c) && Encodable(m)
    ensures var buf := Encoded(c, key, order, m, junk);
            |buf| >= 20 && buf == BigEndian(2, m.class_ + m.tm) + BigEndian(2, |buf| - 20) + buf[4..]
  {
    hide AllTyped, AttrsBytes, Prefix, CryptoOk, Trailer, Encoded, BigEndian, FromBigEndian;
    var attrs := AttrsBytes(order, m.attrs, junk, 20);
    EncodedParts(c, key, order, m, junk);
    TrailerSize(c, key, order, m, junk);
    PrefixParts(order, m, junk);
    HeaderSize(m, SizeOf(m, attrs));
    var buf, rest := Encoded(c, key, order, m, junk), m.id + attrs + Trailer(c, key, order, m, junk);
    assert buf == BigEndian(2, m.class_ + m.tm) + BigEndian(2, SizeOf(m, attrs)) + rest;
    assert buf[4..] == rest;
  }

  /** Every encoded STUN message below the size of the receive buffer is self-sized. */
  lemma {:induction false} StunMessageSelfSized(c: Crypto, key: seq<byte>, order: seq<nat>, m: Message, junk: seq<byte>)
    requires CryptoOk(c) && Encodable(m) && |Encoded(c, key, order, m, junk)| < RECEIVE_BUFFER_SIZE
    ensures SelfSized(Wire(ItemFor(NO_CHANNEL, Encoded(c, key, order, m, junk), 0)))
  {
    hide AllTyped, CryptoOk, Encoded, BigEndian, FromBigEndian;
    EncodedFront(c, key, order, m, junk);
    var buf := Encoded(c, key, order, m, junk);
    FourByteHeader(m.class_ + m.tm, |buf| - 20, buf[4..]);
    assert Wire(ItemFor(NO_CHANNEL, buf, 0)) == buf;
  }

  // ----- the socket as it runs -----

  class Socket {
    var queue: seq<Item>
    ghost var writing: nat
    ghost var submitted: seq<Item>
    ghost var written: seq<Item>

    ghost function Abs(): Sender
      reads this
    {
      Sender(queue, writing, submitted, written)
    }

    constructor ()
      ensures Abs() == IDLE
    {
      queue, writing, submitted, written := [], 0, [], [];
    }

    method SendFirstQueuedData()
      requires queue != []
      modifies this`writing, this`written
      ensures Abs() == StartWrite(old(Abs()))
    {
      writing, written := writing + 1, written + [queue[0]];
    }

    method DoSend(channel: nat, data: seq<byte>, start: nat)
      modifies this
      ensures Abs() == SendStep(old(Abs()), SendEvent.DoSend(channel, data, start))
    {
      var writeInProgress := queue != [];
      var item := Item([], data, start);
      if channel != NO_CHANNEL {
        var frame := BigEndian(2, channel);
        frame := frame + BigEndian(2, |data|);
        item := Item(frame, data, start);
      }
      queue := queue + [item];
      submitted := submitted + [item];
      if !writeInProgress {
        SendFirstQueuedData();
      }
    }

    /** Data that brings its own header, as a STUN message does. */
    method DoSendUnframed(data: seq<byte>, start: nat)
      modifies this
      ensures Abs() == SendStep(old(Abs()), SendEvent.DoSend(NO_CHANNEL, data, start))
    {
      DoSend(NO_CHANNEL, data, start);
    }

    /** A write has completed, well or not. */
    method HandleSend()
      requires queue != [] && writing > 0
      modifies this
      ensures Abs() == SendStep(old(Abs()), SendEvent.HandleSend)
    {
      queue := queue[1..];
      writing := writing - 1;
      if queue != [] {
        SendFirstQueuedData();
      }
    }
  }

  /** The receiving side: each read waits for a given number of bytes and ends in its completion handler. */
  class Connection {
    var phase: Phase
    var pending: seq<byte>
    var delivered: seq<seq<byte>>

    ghost function Abs(): Receiver
      reads this
    {
      Receiver(phase, pending, delivered)
    }

    constructor ()
      ensures Abs() == LISTENING
    {
      phase, pending, delivered := AwaitHeader, [], [];
    }

    method HandleReadHeader()
      requires phase.AwaitHeader? && |pending| >= 4
      modifies this
      ensures Drain(Abs()) == Drain(old(Abs())) && delivered == old(delivered)
      ensures || (phase.Closed? && pending == old(pending))
              || (phase.AwaitBody? && |phase.header| == 4 && |pending| == old(|pending|) - 4)
    {
      var dataLen := FromBigEndian(pending[2..4]);
      if pending[0] < 0x40 {
        dataLen := (dataLen + 16) % 0x1_0000;
      }
      assert dataLen == BodySize(pending);
      if dataLen + 4 < RECEIVE_BUFFER_SIZE {
        phase, pending := AwaitBody(pending[..4]), pending[4..];
      } else {
        phase := Closed;
      }
    }

    method HandleReceive(n: nat)
      requires phase.AwaitBody? && |phase.header| == 4 && n == BodySize(phase.header) && n <= |pending|
      modifies this
      ensures Drain(Abs()) == Drain(old(Abs())) && phase.AwaitHeader? && |pending| == old(|pending|) - n
      ensures delivered == old(delivered) + [old(phase.header) + old(pending)[..n]]
    {
      delivered := delivered + [phase.header + pending[..n]];
      phase, pending := AwaitHeader, pending[n..];
    }

    method OnBytes(chunk: seq<byte>)
      requires Proper(Abs())
      modifies this
      ensures Abs() == Arrive(old(Abs()), chunk) && Proper(Abs())
    {
      hide Drain, BodySize, FromBigEndian;
      pending := pending + chunk;
      ghost var all := Abs();
      var waiting := false;
      while !waiting
        invariant Drain(Abs()) == Drain(all) && Proper(Abs())
        invariant waiting ==> Drain(Abs()) == Abs()
        decreases !waiting, |pending|, if phase.AwaitBody? then 1 else 0, if phase.Closed? then 0 else 1
      {
        DrainStops(Abs());
        if phase.AwaitHeader? && |pending| >= 4 {
          HandleReadHeader();
        } else if phase.AwaitBody? && |pending| >= BodySize(phase.header) {
          HandleReceive(BodySize(phase.header));
        } else {
          waiting := true;
        }
      }
    }
  }

  lemma {:induction false} DrainStops(r: Receiver)
    requires Proper(r)
    ensures r.phase.Closed? || (r.phase.AwaitHeader? && |r.pending| < 4)
         || (r.phase.AwaitBody? && |r.pending| < BodySize(r.phase.header))
        ==> Drain(r) == r
  {
  }
}
