/** One inbound stream: #createInStream, #onData, #onClose and #handleMessageData of src/ibb/ibb.ts. */
module IbbInStream {
  import opened Bytes
  import opened IbbOutStream

  const REDELIVERY_WINDOW := 64
  const MAX_BUFFERED_BYTES := 1024 * 1024
  const MIN_RECEIVE_BUFFER := 64 * 1024

  /** The language's remainder: it takes the sign of the dividend. */
  function Remainder(a: int, b: int): int
    requires b > 0
  {
    if a >= 0 then a % b else -((-a) % b)
  }

  /** Whether `seqNo` counts as a copy of a block already taken. */
  predicate IsRedelivery(seqNo: int, expected: int) {
    var behind := Remainder(expected - seqNo + SEQ_MODULUS, SEQ_MODULUS);
    0 < behind <= REDELIVERY_WINDOW
  }

  /** How much is buffered unread before acks are withheld. */
  function ReceiveBufferBytes(window: nat, blockSize: nat): nat {
    var wanted := (window + 1) * blockSize;
    var floored := if wanted < MIN_RECEIVE_BUFFER then MIN_RECEIVE_BUFFER else wanted;
    if floored < MAX_BUFFERED_BYTES then floored else MAX_BUFFERED_BYTES
  }

  datatype Reply = Result | ItemNotFound | UnexpectedRequest | BadRequest

  /** What the reader of the stream will find: more to come, a clean end, or an error. */
  datatype Reader = Reading | Ended | Errored

  datatype InStream = InStream(
    registered: bool, expectedSeq: nat, finished: bool, cancelled: bool,
    highWaterMark: nat, reader: Reader,
    unread: nat,               // bytes queued and not yet read
    enqueued: seq<Byte>,       // every byte ever handed to the reader's queue
    parked: set<nat>,          // handlers withholding an ack
    woken: set<nat>)           // handlers whose wait is over, still to run
  {
    predicate Full() { unread >= highWaterMark }
    function Held(): set<nat> { parked + woken }
  }

  function FreshInStream(highWaterMark: nat): InStream {
    InStream(true, 0, false, false, highWaterMark, Reading, 0, [], {}, {})
  }

  function WakeHandlers(s: InStream): InStream {
    s.(parked := {}, woken := s.woken + s.parked)
  }

  /** Ends the stream: unregisters it, and errors its reader unless that was cancelled or has had its end. */
  function Finish(s: InStream, error: bool): InStream {
    if s.finished then s.(registered := false)
    else WakeHandlers(s).(finished := true, registered := false,
                          reader := if error && !s.cancelled && s.reader == Reading then Errored else s.reader)
  }

  /** The end of a data handler: withhold the ack while the consumer lags, else answer. */
  function Respond(s: InStream, h: nat): (InStream, Option<Reply>) {
    if !s.finished && s.Full() then (s.(parked := s.parked + {h}), None)
    else (s, Some(if s.finished && !s.cancelled then ItemNotFound else Result))
  }

  /** A <data/> stanza; `payload` is its decoded text, None if that is not base64; `seqNo` None if not an integer. */
  function OnData(s: InStream, h: nat, seqNo: Option<int>, payload: Option<seq<Byte>>): (InStream, Option<Reply>) {
    if !s.registered then (s, Some(ItemNotFound))
    else if s.finished then (s, Some(if s.cancelled then Result else ItemNotFound))
    else if seqNo.Some? && IsRedelivery(seqNo.value, s.expectedSeq) then (s, Some(Result))
    else if seqNo.None? || seqNo.value != s.expectedSeq then (Finish(s, true), Some(UnexpectedRequest))
    else if payload.None? then (Finish(s, true), Some(BadRequest))
    else
      Respond(s.(expectedSeq := (s.expectedSeq + 1) % SEQ_MODULUS,
                 enqueued := s.enqueued + payload.value, unread := s.unread + |payload.value|), h)
  }

  /** A woken handler looks again. */
  function ResumeHandler(s: InStream, h: nat): (InStream, Option<Reply>) {
    Respond(s.(woken := s.woken - {h}), h)
  }

  /** The consumer takes `n` bytes; once there is room again, every withheld ack is reconsidered. */
  function Read(s: InStream, n: nat): InStream
    requires n <= s.unread
  {
    var r := s.(unread := s.unread - n);
    if r.Full() then r else WakeHandlers(r)
  }

  /** The peer's <close/>. */
  function OnClose(s: InStream): (InStream, Reply) {
    if !s.registered then (s, ItemNotFound)
    else if s.finished then (s, Result)
    else (Finish(s.(reader := if s.reader == Reading then Ended else s.reader), false), Result)
  }

  /** Message-carried data: no ack to withhold, so runaway buffering fails the stream instead. */
  function OnMessageData(s: InStream, seqNo: Option<int>, payload: Option<seq<Byte>>): InStream {
    if !s.registered || s.finished then s
    else if seqNo.Some? && IsRedelivery(seqNo.value, s.expectedSeq) then s
    else if seqNo.None? || seqNo.value != s.expectedSeq then Finish(s, true)
    else if payload.None? then Finish(s, true)
    else
      var t := s.(expectedSeq := (s.expectedSeq + 1) % SEQ_MODULUS,
                  enqueued := s.enqueued + payload.value, unread := s.unread + |payload.value|);
      if t.unread > t.highWaterMark + MAX_BUFFERED_BYTES then Finish(t, true) else t
  }

  // ------------------------------------------------------------ properties

  /**
   * Block number `taken` is expected and block `k` arrives (in order, or again). It is dropped as a redelivery
   * exactly when it lies 1..64 blocks back, modulo the wrap; it is taken exactly when it is the expected one,
   * modulo the wrap.
   */
  lemma RedeliveryDistance(taken: nat, k: nat)
    requires k <= taken
    ensures var d := (taken - k) % SEQ_MODULUS;
            && (IsRedelivery(k % SEQ_MODULUS, taken % SEQ_MODULUS) <==> 1 <= d <= REDELIVERY_WINDOW)
            && (k % SEQ_MODULUS == taken % SEQ_MODULUS <==> d == 0)
  {
    var a, b := taken % SEQ_MODULUS, k % SEQ_MODULUS;
    var q, p := taken / SEQ_MODULUS, k / SEQ_MODULUS;
    assert taken - k == (q - p) * SEQ_MODULUS + (a - b);
    if a >= b {
      ModuloOf(taken - k, q - p, a - b);
    } else {
      ModuloOf(taken - k, q - p - 1, a - b + SEQ_MODULUS);
    }
  }

  lemma ModuloOf(x: int, q: int, r: int)
    requires x == q * SEQ_MODULUS + r && 0 <= r < SEQ_MODULUS
    ensures x % SEQ_MODULUS == r
  {
  }

  /** A stream in flight that has taken `taken` blocks. */
  ghost predicate TakenUpTo(s: InStream, taken: nat) {
    s.registered && !s.finished && s.expectedSeq == taken % SEQ_MODULUS
  }

  /**
   * A copy of an earlier block, `d` blocks back: it leaves a live stream alone and is acked exactly when
   * d <= 64; otherwise, short of a whole wrap, it fails the stream. A sender's window may be configured up to 256.
   */
  lemma ReplayToleratedIff(s: InStream, taken: nat, d: nat, h: nat, bytes: seq<Byte>)
    requires TakenUpTo(s, taken) && 1 <= d <= taken && d < SEQ_MODULUS
    ensures var (s', reply) := OnData(s, h, Some((taken - d) % SEQ_MODULUS), Some(bytes));
            && (d <= REDELIVERY_WINDOW <==> s' == s && reply == Some(Result))
            && (d > REDELIVERY_WINDOW <==> s'.finished && reply == Some(UnexpectedRequest))
  {
    RedeliveryDistance(taken, taken - d);
  }

  /** The copy is acked even while the original's ack is being withheld: the replay defeats the backpressure. */
  lemma ReplayOfHeldBlockIsAcked(s: InStream, taken: nat, d: nat, bytes: seq<Byte>)
    requires TakenUpTo(s, taken) && 1 <= d <= taken && d <= REDELIVERY_WINDOW && taken - d in s.parked
    ensures var (s', reply) := OnData(s, taken - d, Some((taken - d) % SEQ_MODULUS), Some(bytes));
            taken - d in s'.parked && reply == Some(Result)
  {
    RedeliveryDistance(taken, taken - d);
  }

  /** No ack is lost: one is withheld only while the buffer is full, so reading on releases it. */
  ghost predicate HandlerInv(s: InStream) {
    && (s.parked != {} ==> !s.finished && s.Full())
    && (s.registered && s.finished ==> s.cancelled)
  }

  lemma HandlersAreReleased(s: InStream, h: nat, seqNo: Option<int>, payload: Option<seq<Byte>>, n: nat)
    requires HandlerInv(s)
    ensures HandlerInv(OnData(s, h, seqNo, payload).0) && HandlerInv(ResumeHandler(s, h).0) && HandlerInv(OnClose(s).0)
    ensures HandlerInv(OnMessageData(s, seqNo, payload))
    ensures n <= s.unread ==> HandlerInv(Read(s, n))
  {
  }

  // ------------------------------------------------------------ what a stanza does, case by case

  /** `seqNo` is that of one of the 64 blocks before the one expected, counting modulo the wrap. */
  predicate IsBehind(seqNo: int, expected: int) {
    seqNo <= expected + 65536 && 1 <= (expected - seqNo) % 65536 <= 64
  }

  lemma BehindIs(seqNo: int, expected: int)
    ensures IsRedelivery(seqNo, expected) <==> IsBehind(seqNo, expected)
  {
    var x := expected - seqNo + 65536;
    if x >= 0 {
      assert x % 65536 == (expected - seqNo) % 65536 by { ShiftByWrap(expected - seqNo); }
    } else {
      assert -((-x) % 65536) <= 0;
    }
  }

  lemma ShiftByWrap(x: int)
    ensures (x + 65536) % 65536 == x % 65536
  {
  }

  /** The stream has failed of its own accord: unregistered, its reader in error, no handler parked, nothing handed over. */
  predicate FailedFrom(s: InStream, s': InStream) {
    && s'.finished && !s'.registered && s'.reader == (if s.cancelled || s.reader != Reading then s.reader else Errored)
    && s'.enqueued == s.enqueued && s'.unread == s.unread && s'.parked == {} && s'.woken == s.parked + s.woken
  }

  /**
   * A data request on a live stream: a copy of one of the last 64 blocks is acked and dropped; a number that is not the
   * one expected, or a payload that does not decode, fails the stream, each with its own answer; the block expected is
   * handed to the reader behind what it has, and acked unless that fills the buffer.
   */
  lemma DataOutcome(s: InStream, h: nat, seqNo: Option<int>, payload: Option<seq<Byte>>)
    requires s.registered && !s.finished
    ensures var (s', reply) := OnData(s, h, seqNo, payload);
            if seqNo.Some? && IsBehind(seqNo.value, s.expectedSeq) then s' == s && reply == Some(Result)
            else if seqNo != Some(s.expectedSeq) then FailedFrom(s, s') && reply == Some(UnexpectedRequest)
            else if payload.None? then FailedFrom(s, s') && reply == Some(BadRequest)
            else
              && s'.enqueued == s.enqueued + payload.value && s'.unread == s.unread + |payload.value|
              && s'.expectedSeq == (s.expectedSeq + 1) % 65536 && s'.registered && !s'.finished && s'.reader == s.reader
              && s'.woken == s.woken
              && if s'.unread >= s.highWaterMark then reply == None && s'.parked == s.parked + {h}
                 else reply == Some(Result) && s'.parked == s.parked
  {
    if seqNo.Some? { BehindIs(seqNo.value, s.expectedSeq); }
    hide IsRedelivery, IsBehind;
  }

  /** On a stream that is over: only a tombstone still acks, and nothing is handed over. */
  lemma LateOutcome(s: InStream, h: nat, seqNo: Option<int>, payload: Option<seq<Byte>>)
    requires !s.registered || s.finished
    ensures OnData(s, h, seqNo, payload) == (s, Some(if s.registered && s.cancelled then Result else ItemNotFound))
    ensures OnMessageData(s, seqNo, payload) == s
  {
  }

  /** A handler that was waiting: parked again while the buffer of a live stream is full, and else answered by how the stream ended. */
  lemma ResumeOutcome(s: InStream, h: nat)
    ensures var (s', reply) := ResumeHandler(s, h);
            && s' == s.(parked := s'.parked, woken := s.woken - {h})
            && (if !s.finished && s.unread >= s.highWaterMark then reply == None && s'.parked == s.parked + {h}
                else reply == Some(if !s.finished || s.cancelled then Result else ItemNotFound) && s'.parked == s.parked)
  {
  }

  /** The peer's <close/>: a live stream ends cleanly, a tombstone answers, and nobody else knows of it. */
  lemma CloseOutcome(s: InStream)
    ensures var (s', reply) := OnClose(s);
            && (reply == ItemNotFound <==> !s.registered) && (reply == Result <==> s.registered)
            && (!s.registered || s.finished ==> s' == s)
            && (s.registered && !s.finished ==>
                  && s'.finished && !s'.registered && s'.reader == (if s.reader == Reading then Ended else s.reader)
                  && s'.enqueued == s.enqueued && s'.parked == {} && s'.woken == s.parked + s.woken)
  {
  }

  /**
   * When data carried by a message fails a live stream: exactly if its number is neither expected nor of one of the last 64
   * blocks, or it is expected and does not decode or takes what is unread more than 1 MiB past the mark. Else it is handed
   * to the reader, or dropped as a copy.
   */
  lemma MessageOutcome(s: InStream, seqNo: Option<int>, payload: Option<seq<Byte>>)
    requires s.registered && !s.finished
    ensures var s' := OnMessageData(s, seqNo, payload);
            var copy, expected := seqNo.Some? && IsBehind(seqNo.value, s.expectedSeq), seqNo == Some(s.expectedSeq);
            && (s'.finished <==>
                  !copy && (!expected || payload.None? || s.unread + |payload.value| > s.highWaterMark + 1_048_576))
            && (s'.finished ==> !s'.registered && s'.reader == (if s.cancelled || s.reader != Reading then s.reader else Errored))
            && (copy ==> s' == s)
            && (!copy && expected && payload.Some? ==>
                  && s'.enqueued == s.enqueued + payload.value && s'.unread == s.unread + |payload.value|
                  && s'.expectedSeq == (s.expectedSeq + 1) % 65536)
            && (!copy && !(expected && payload.Some?) ==> FailedFrom(s, s'))
            && (!s'.finished ==> s'.registered && s'.reader == s.reader && s'.parked == s.parked && s'.woken == s.woken)
  {
    if seqNo.Some? { BehindIs(seqNo.value, s.expectedSeq); }
    hide IsRedelivery, IsBehind;
  }

  // ------------------------------------------------------------ blocks carried by messages

  /** What happens to the stream: block number `k` arrives, or the reader takes so many bytes. */
  datatype Arrival = Block(k: nat) | Taken(n: nat)

  /** How many blocks have arrived a first time. */
  function FirstTimes(arrivals: seq<Arrival>): nat {
    if arrivals == [] then 0
    else
      var before, last := FirstTimes(arrivals[..|arrivals| - 1]), arrivals[|arrivals| - 1];
      if last == Block(before) then before + 1 else before
  }

  /** The stream after them. */
  function Messages(s: InStream, blocks: seq<seq<Byte>>, arrivals: seq<Arrival>): InStream {
    if arrivals == [] then s
    else
      var before, last := Messages(s, blocks, arrivals[..|arrivals| - 1]), arrivals[|arrivals| - 1];
      match last
      case Block(k) => if k < |blocks| then OnMessageData(before, Some(k % SEQ_MODULUS), Some(blocks[k])) else before
      case Taken(n) => if n <= before.unread then Read(before, n) else before
  }

  /** Each block that arrives is the next one, or one of the last 64 again; and the reader keeps up to within 1 MiB of the mark. */
  ghost predicate InSequence(s: InStream, blocks: seq<seq<Byte>>, arrivals: seq<Arrival>) {
    forall i :: 0 <= i < |arrivals| && arrivals[i].Block? ==>
      var taken, k := FirstTimes(arrivals[..i]), arrivals[i].k;
      && k < |blocks| && k <= taken && taken - k <= REDELIVERY_WINDOW
      && (k == taken ==> Messages(s, blocks, arrivals[..i]).unread + |blocks[k]| <= s.highWaterMark + MAX_BUFFERED_BYTES)
  }

  /** A live stream that has handed its reader the first `taken` blocks. */
  ghost predicate HasTaken(r: InStream, mark: nat, blocks: seq<seq<Byte>>, taken: nat) {
    && r.registered && !r.finished && r.reader == Reading && r.highWaterMark == mark
    && taken <= |blocks| && r.enqueued == Flatten(blocks[..taken]) && r.expectedSeq == taken % SEQ_MODULUS
  }

  lemma BlockArrives(r: InStream, mark: nat, blocks: seq<seq<Byte>>, taken: nat, k: nat)
    requires HasTaken(r, mark, blocks, taken) && k < |blocks| && k <= taken && taken - k <= REDELIVERY_WINDOW
    requires k == taken ==> r.unread + |blocks[k]| <= mark + MAX_BUFFERED_BYTES
    ensures HasTaken(OnMessageData(r, Some(k % SEQ_MODULUS), Some(blocks[k])), mark, blocks, if k == taken then taken + 1 else taken)
  {
    RedeliveryDistance(taken, k);
    NextSeq(taken);
    if k == taken {
      assert blocks[..taken + 1] == blocks[..taken] + [blocks[taken]];
      FlattenSnoc(blocks[..taken], blocks[taken]);
    }
    hide IsRedelivery, Flatten, Finish;
  }

  /** However copies are mixed in, the reader is handed the blocks in order, each once, and the stream lives on. */
  lemma {:induction false} MessagesAreDelivered(s: InStream, blocks: seq<seq<Byte>>, arrivals: seq<Arrival>)
    requires s == FreshInStream(s.highWaterMark) && InSequence(s, blocks, arrivals)
    ensures HasTaken(Messages(s, blocks, arrivals), s.highWaterMark, blocks, FirstTimes(arrivals))
  {
    hide InSequence, OnMessageData, FreshInStream;
    if arrivals != [] {
      var front, last := arrivals[..|arrivals| - 1], arrivals[|arrivals| - 1];
      FrontInSequence(s, blocks, arrivals);
      MessagesAreDelivered(s, blocks, front);
      var r, taken := Messages(s, blocks, front), FirstTimes(front);
      match last
      case Block(k) =>
        LastInSequence(s, blocks, arrivals);
        hide HasTaken;
        BlockArrives(r, s.highWaterMark, blocks, taken, k);
      case Taken(_) =>
    } else {
      FreshHasTaken(s.highWaterMark, blocks);
    }
  }

  lemma FreshHasTaken(mark: nat, blocks: seq<seq<Byte>>)
    ensures HasTaken(FreshInStream(mark), mark, blocks, 0)
  {
    assert blocks[..0] == [];
  }

  lemma FrontInSequence(s: InStream, blocks: seq<seq<Byte>>, arrivals: seq<Arrival>)
    requires InSequence(s, blocks, arrivals) && arrivals != []
    ensures InSequence(s, blocks, arrivals[..|arrivals| - 1])
  {
    var front := arrivals[..|arrivals| - 1];
    forall i | 0 <= i < |front| ensures front[i] == arrivals[i] && front[..i] == arrivals[..i] { }
    hide Messages, FirstTimes;
  }

  lemma LastInSequence(s: InStream, blocks: seq<seq<Byte>>, arrivals: seq<Arrival>)
    requires InSequence(s, blocks, arrivals) && arrivals != [] && arrivals[|arrivals| - 1].Block?
    ensures var front, k := arrivals[..|arrivals| - 1], arrivals[|arrivals| - 1].k;
            && k < |blocks| && k <= FirstTimes(front) && FirstTimes(front) - k <= REDELIVERY_WINDOW
            && (k == FirstTimes(front) ==> Messages(s, blocks, front).unread + |blocks[k]| <= s.highWaterMark + MAX_BUFFERED_BYTES)
  {
  }

  /** Delivers in-sequence blocks with no read in between; None as soon as one ack is withheld. */
  function Feed(s: InStream, taken: nat, blocks: seq<seq<Byte>>): Option<InStream>
    decreases |blocks|
  {
    if blocks == [] then Some(s)
    else
      var (s', reply) := OnData(s, taken, Some(taken % SEQ_MODULUS), Some(blocks[0]));
      if reply == Some(Result) then Feed(s', taken + 1, blocks[1..]) else None
  }

  /** A full window lands on an empty buffer: every block is acked with no read needed. */
  lemma {:induction false} FullWindowIsAcked(s: InStream, taken: nat, blocks: seq<seq<Byte>>, w: nat, B: nat)
    requires TakenUpTo(s, taken) && s.highWaterMark == ReceiveBufferBytes(w, B)
    requires (w + 1) * B <= MAX_BUFFERED_BYTES && B > 0
    requires forall i :: 0 <= i < |blocks| ==> |blocks[i]| <= B
    requires s.unread + |blocks| * B <= w * B
    ensures var r := Feed(s, taken, blocks); r.Some? && r.value.enqueued == s.enqueued + Flatten(blocks)
    decreases |blocks|
  {
    if blocks != [] {
      var (s', reply) := OnData(s, taken, Some(taken % SEQ_MODULUS), Some(blocks[0]));
      assert (w + 1) * B == w * B + B;
      assert |blocks| * B == |blocks[1..]| * B + B;
      RedeliveryDistance(taken, taken);
      NextSeq(taken);
      FullWindowIsAcked(s', taken + 1, blocks[1..], w, B);
      assert s.enqueued + blocks[0] + Flatten(blocks[1..]) == s.enqueued + Flatten(blocks);
    }
  }

  lemma NextSeq(taken: nat)
    ensures (taken % SEQ_MODULUS + 1) % SEQ_MODULUS == (taken + 1) % SEQ_MODULUS
  {
  }

  // ------------------------------------------------------------ as the source writes it

  /** The stream's state, updated in place by the stanza handlers. */
  class Inbound {
    var registered: bool
    var expectedSeq: nat
    var finished: bool
    var cancelled: bool
    const highWaterMark: nat
    var reader: Reader
    var unread: nat
    var enqueued: seq<Byte>
    var pullWaiters: set<nat>
    var woken: set<nat>

    function View(): InStream
      reads this
    {
      InStream(registered, expectedSeq, finished, cancelled, highWaterMark, reader, unread, enqueued, pullWaiters, woken)
    }

    constructor (window: nat, blockSize: nat)
      ensures View() == FreshInStream(ReceiveBufferBytes(window, blockSize))
    {
      registered, expectedSeq, finished, cancelled := true, 0, false, false;
      highWaterMark, reader, unread, enqueued := ReceiveBufferBytes(window, blockSize), Reading, 0, [];
      pullWaiters, woken := {}, {};
    }

    method ReleaseWaiters()
      modifies this
      ensures View() == WakeHandlers(old(View()))
    {
      woken := woken + pullWaiters;
      pullWaiters := {};
    }

    method FinishStream(error: bool)
      modifies this
      ensures View() == Finish(old(View()), error)
    {
      if finished {
        registered := false;
        return;
      }
      finished := true;
      ReleaseWaiters();
      if error && !cancelled && reader == Reading { reader := Errored; }
      registered := false;
    }

    method Conclude(h: nat) returns (reply: Option<Reply>)
      modifies this
      ensures (View(), reply) == Respond(old(View()), h)
    {
      if !finished && unread >= highWaterMark {
        pullWaiters := pullWaiters + {h};
        return None;
      }
      return Some(if finished && !cancelled then ItemNotFound else Result);
    }

    method HandleData(h: nat, seqNo: Option<int>, payload: Option<seq<Byte>>) returns (reply: Option<Reply>)
      modifies this
      ensures (View(), reply) == OnData(old(View()), h, seqNo, payload)
    {
      if !registered { return Some(ItemNotFound); }
      if finished { return Some(if cancelled then Result else ItemNotFound); }
      if seqNo.Some? && IsRedelivery(seqNo.value, expectedSeq) { return Some(Result); }
      if seqNo.None? || seqNo.value != expectedSeq {
        FinishStream(true);
        return Some(UnexpectedRequest);
      }
      if payload.None? {
        FinishStream(true);
        return Some(BadRequest);
      }
      expectedSeq := (expectedSeq + 1) % SEQ_MODULUS;
      enqueued := enqueued + payload.value;
      unread := unread + |payload.value|;
      reply := Conclude(h);
    }

    method Resume(h: nat) returns (reply: Option<Reply>)
      modifies this
      ensures (View(), reply) == ResumeHandler(old(View()), h)
    {
      woken := woken - {h};
      reply := Conclude(h);
    }

    method Consume(n: nat)
      requires n <= unread
      modifies this
      ensures View() == Read(old(View()), n)
    {
      unread := unread - n;
      if unread < highWaterMark { ReleaseWaiters(); }
    }

    method HandleClose() returns (reply: Reply)
      modifies this
      ensures (View(), reply) == OnClose(old(View()))
    {
      if !registered { return ItemNotFound; }
      if finished { return Result; }
      if reader == Reading { reader := Ended; }
      FinishStream(false);
      return Result;
    }

    method HandleMessageData(seqNo: Option<int>, payload: Option<seq<Byte>>)
      modifies this
      ensures View() == OnMessageData(old(View()), seqNo, payload)
    {
      if !registered || finished { return; }
      if seqNo.Some? && IsRedelivery(seqNo.value, expectedSeq) { return; }
      if seqNo.None? || seqNo.value != expectedSeq || payload.None? {
        FinishStream(true);
        return;
      }
      expectedSeq := (expectedSeq + 1) % SEQ_MODULUS;
      enqueued := enqueued + payload.value;
      unread := unread + |payload.value|;
      if unread > highWaterMark + MAX_BUFFERED_BYTES { FinishStream(true); }
    }
  }
}
