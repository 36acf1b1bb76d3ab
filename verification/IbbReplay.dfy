/**
 * What a stream-resumption replay does to the backpressure: the copy of a block whose ack is being withheld is acked
 * at once, so the sender goes on, and the receiver buffers one block more. Nothing limits how often that happens.
 */
module IbbReplay {
  import opened Bytes
  import opened IbbOutStream
  import opened IbbScheduler
  import opened IbbStreamSafety
  import opened IbbInStream
  import opened IbbDelivery
  import opened IbbStall

  const SESSION_LIMIT := 256

  /** A configuration: the block size, the sender's window and the receiver's. */
  datatype Config = Config(blockSize: nat, window: nat, receiveWindow: nat)
  {
    predicate Valid() { Configured(blockSize, window, receiveWindow) }

    function Mark(): nat { ReceiveBufferBytes(receiveWindow, blockSize) }
  }

  // ------------------------------------------------------------ the states of the run

  /** All blocks sent have been full ones, and so many of them are unanswered; nothing is buffered. */
  ghost predicate Sent(o: OutStream, c: Config, sent: nat, unanswered: nat) {
    && o.Usable() && !o.closed && o.buffered == [] && o.blockSize == c.blockSize && o.window == c.window && !o.flushEachWrite
    && o.granted == 0 && o.parkedWrites == 0 && o.readyWrites == 0 && o.phase == NotClosing
    && |o.outcomes| == |o.blocks| == |o.wire| == sent && o.inFlight == unanswered && o.seqNo == sent % SEQ_MODULUS
    && (forall k :: 0 <= k < sent ==> o.wire[k] == Data(k % SEQ_MODULUS, o.blocks[k]) && |o.blocks[k]| == c.blockSize)
  }

  /** The session holds that one stream, at time 0; nobody waits, and every unanswered block is counted. */
  ghost predicate Alone(m: Session, sent: nat, unanswered: nat) {
    && m.WellFormed() && m.limit == SESSION_LIMIT && |m.streams| == 1 && m.queue == [] && m.now == 0.0
    && m.parkFloor == 250.0 && (m.latency == None || m.latency == Some(0.0))
    && |m.counted| == unanswered && m.sendInFlight == unanswered
    && forall i :: 0 <= i < |m.counted| ==> m.counted[i].id == 0 && m.counted[i].at == 0.0 && m.counted[i].ordinal < sent
  }

  /** The receiver has taken every block sent, and its reader none. */
  ghost predicate Unread(n: Net, c: Config, sent: nat) {
    && n.delivered == n.taken == sent && n.r.registered && !n.r.finished && n.r.expectedSeq == sent % SEQ_MODULUS
    && n.r.highWaterMark == c.Mark() && n.r.unread == BlocksOf(sent, c.blockSize)
    && forall k :: k in n.early ==> k < sent
  }

  ghost predicate Steady(n: Net, c: Config, sent: nat, unanswered: nat) {
    n.Ok() && n.id == 0 && Alone(n.m, sent, unanswered) && Sent(n.Sender(), c, sent, unanswered) && Unread(n, c, sent)
  }

  /** The last block sent is unanswered, and its slot the last counted. */
  ghost predicate LastUnanswered(n: Net, sent: nat) {
    && n.id == 0 && sent > 0 && |n.m.streams| == 1 && |n.m.streams[0].outcomes| == sent
    && n.m.streams[0].outcomes[sent - 1] == Pending
    && |n.m.counted| > 0 && n.m.counted[|n.m.counted| - 1] == Slot(0, sent - 1, 0.0)
    && forall i :: 0 <= i < |n.m.counted| - 1 ==> n.m.counted[i].ordinal != sent - 1
  }

  ghost predicate Reachable(n: Net) {
    exists run: seq<Net> :: IsNetRun(run) && run[|run| - 1] == n
  }

  lemma Onward(n: Net, n': Net)
    requires Reachable(n) && IsNetStep(n, n')
    ensures Reachable(n')
  {
    hide IsNetStep, NetInit;
    var run: seq<Net> :| IsNetRun(run) && run[|run| - 1] == n;
    var longer := run + [n'];
    assert IsNetRun(longer) && longer[|longer| - 1] == n';
  }

  // ------------------------------------------------------------ its steps

  lemma Opens(c: Config) returns (m: Session)
    requires c.Valid()
    ensures Alone(m, 0, 0) && m.streams == [FreshStream(c.blockSize, c.window, false)] && StreamsInv(m.streams)
  {
    m := Step(Init(SESSION_LIMIT, 250.0), Open(c.blockSize, c.window, false));
    FreshKeeps(c.blockSize, c.window, false);
    hide StreamInv;
    assert m.streams == [FreshStream(c.blockSize, c.window, false)];
  }

  lemma Starts(c: Config) returns (n: Net)
    requires c.Valid()
    ensures Reachable(n) && Steady(n, c, 0, 0) && n.acks == {} && n.early == {}
  {
    var m := Opens(c);
    hide StreamInv;
    n := Net(m, 0, FreshInStream(c.Mark()), 0, 0, {}, {}, false);
    assert n.Sender() == FreshStream(c.blockSize, c.window, false);
    assert StartsAs(n, c.blockSize, c.window, c.receiveWindow);
    assert NetInit(n);
    assert IsNetRun([n]) && [n][|[n]| - 1] == n;
    assert BlocksOf(0, c.blockSize) == 0;
  }

  lemma NothingToSweep(m: Session, sent: nat, unanswered: nat)
    requires Alone(m, sent, unanswered)
    ensures Swept(m) == 0 && Reclaim(m) == m
  {
  }

  lemma SentOneMore(o: OutStream, c: Config, sent: nat, unanswered: nat, block: seq<Byte>)
    requires Sent(o, c, sent, unanswered) && |block| == c.blockSize > 0
    ensures Sent(SentBlock(o, block), c, sent + 1, unanswered + 1)
    ensures SentBlock(o, block).outcomes == o.outcomes + [Pending]
  {
    NextSeq(sent);
    assert block[..|block|] == block && block[|block|..] == [];
  }

  lemma SendStep(m: Session, c: Config, sent: nat, unanswered: nat, block: seq<Byte>) returns (m': Session)
    requires c.Valid() && Alone(m, sent, unanswered) && Sent(m.streams[0], c, sent, unanswered) && unanswered < c.window
    requires |block| == c.blockSize
    ensures Enabled(m, Write(0, block)) && m' == Step(m, Write(0, block))
    ensures Alone(m', sent + 1, unanswered + 1) && m'.streams == [SentBlock(m.streams[0], block)]
    ensures m'.counted == m.counted + [Slot(0, sent, 0.0)]
  {
    NothingToSweep(m, sent, unanswered);
    assert |m.streams[0].blocks| == sent;
    SendBlock(m, 0, block);
    hide Step, SentBlock, Sent, Enabled, Swept, Reclaim;
    m' := Step(m, Write(0, block));
    assert m'.streams == [SentBlock(m.streams[0], block)];
  }

  lemma Sends(n: Net, m': Session, block: seq<Byte>) returns (n': Net)
    requires n.Ok() && n.id == 0 && Reachable(n) && Enabled(n.m, Write(0, block)) && m' == Step(n.m, Write(0, block))
    ensures n' == n.(m := m') && Reachable(n')
  {
    hide Step, Reachable;
    var e := Write(0, block);
    assert NetEnabled(n, Session_(e));
    n' := NetStep(n, Session_(e));
    assert IsNetStep(n, n');
    Onward(n, n');
  }

  /** The stream's user writes one block, which leaves at once. */
  lemma Writes(n: Net, c: Config, sent: nat, unanswered: nat) returns (n': Net)
    requires c.Valid() && Steady(n, c, sent, unanswered) && unanswered < c.window && Reachable(n)
    ensures n' == n.(m := n'.m) && n'.Ok() && Reachable(n')
    ensures Alone(n'.m, sent + 1, unanswered + 1) && Sent(n'.Sender(), c, sent + 1, unanswered + 1)
    ensures LastUnanswered(n', sent + 1)
  {
    var block := seq(c.blockSize, i => 0 as Byte);
    var m' := SendStep(n.m, c, sent, unanswered, block);
    SentOneMore(n.Sender(), c, sent, unanswered, block);
    n' := Sends(n, m', block);
    assert |n'.Sender().wire| == sent + 1 && |n.Sender().outcomes| == sent;
    assert forall i :: 0 <= i < |n.m.counted| ==> n.m.counted[i].ordinal < sent;
    hide Sent, Step, SentBlock, Reachable, Alone, BlocksOf, ReceiveBufferBytes;
  }

  lemma DeliversNext(n: Net, block: seq<Byte>)
    requires n.Ok() && n.delivered < |n.Sender().wire| && n.Sender().wire[n.delivered] == Data(n.delivered % SEQ_MODULUS, block)
    requires n.r.registered && !n.r.finished && n.r.expectedSeq == n.delivered % SEQ_MODULUS
    ensures NetEnabled(n, Deliver) && NetStep(n, Deliver) == TakenBlock(n, block)
  {
    RedeliveryDistance(n.delivered, n.delivered);
    hide Respond;
  }

  lemma TakenUnread(n: Net, c: Config, sent: nat, block: seq<Byte>)
    requires Unread(n, c, sent) && |block| == c.blockSize
    ensures var n' := TakenBlock(n, block);
            && Unread(n', c, sent + 1) && n' == n.(r := n'.r, acks := n'.acks, delivered := sent + 1, taken := sent + 1)
            && if n'.r.unread >= c.Mark() then sent in n'.r.parked && n'.acks == n.acks else n'.acks == n.acks + {sent}
  {
    TakenIs(n, block);
    NextSeq(sent);
    BlocksAdd(sent, 1, c.blockSize);
    hide TakenBlock, BlocksOf, ReceiveBufferBytes;
  }

  /** The block arrives; its ack is withheld exactly if it fills the buffer. */
  lemma Arrives(n: Net, c: Config, sent: nat, unanswered: nat) returns (n': Net)
    requires n.Ok() && n.id == 0 && Alone(n.m, sent + 1, unanswered) && Sent(n.Sender(), c, sent + 1, unanswered)
    requires Unread(n, c, sent) && n.acks == {} && Reachable(n)
    ensures n'.m == n.m && n'.id == n.id && n'.early == n.early && Steady(n', c, sent + 1, unanswered) && Reachable(n')
    ensures if n'.r.unread >= c.Mark() then sent in n'.r.parked && n'.acks == {} else n'.acks == {sent}
  {
    var block := n.Sender().blocks[sent];
    assert n.Sender().wire[sent] == Data(sent % SEQ_MODULUS, block) && |block| == c.blockSize && |n.Sender().wire| == sent + 1;
    assert n.r.registered && !n.r.finished && n.r.expectedSeq == sent % SEQ_MODULUS && n.delivered == sent;
    hide Alone, BlocksOf, Reachable, Sent, NetStep, TakenBlock, NetEnabled, ReceiveBufferBytes, Unread;
    DeliversNext(n, block);
    TakenUnread(n, c, sent, block);
    n' := NetStep(n, Deliver);
    assert IsNetStep(n, n');
    Onward(n, n');
    assert n.acks + {sent} == {sent};
  }

  /** One block sent, and taken by the receiver. */
  lemma Round(n: Net, c: Config, sent: nat, unanswered: nat) returns (n': Net)
    requires c.Valid() && Steady(n, c, sent, unanswered) && unanswered < c.window && n.acks == {} && Reachable(n)
    ensures Steady(n', c, sent + 1, unanswered + 1) && LastUnanswered(n', sent + 1) && n'.early == n.early && Reachable(n')
    ensures if n'.r.unread >= c.Mark() then sent in n'.r.parked && n'.acks == {} else n'.acks == {sent}
  {
    var w := Writes(n, c, sent, unanswered);
    UnreadStays(n, w, c, sent);
    hide Reachable, Sent, Alone, Unread, LastUnanswered;
    n' := Arrives(w, c, sent, unanswered + 1);
    LastStays(w, n', sent + 1);
  }

  lemma UnreadStays(n: Net, n': Net, c: Config, sent: nat)
    requires Unread(n, c, sent) && n' == n.(m := n'.m)
    ensures Unread(n', c, sent)
  {
    hide BlocksOf, ReceiveBufferBytes;
  }

  lemma LastStays(n: Net, n': Net, sent: nat)
    requires LastUnanswered(n, sent) && n'.m == n.m && n'.id == n.id
    ensures LastUnanswered(n', sent)
  {
  }

  lemma LastSlot(counted: seq<Slot>, k: nat)
    requires |counted| > 0 && counted[|counted| - 1].id == 0 && counted[|counted| - 1].ordinal == k
    requires forall i :: 0 <= i < |counted| - 1 ==> counted[i].ordinal != k
    ensures SlotIndex(counted, 0, k) == |counted| - 1
  {
  }

  lemma AckedOne(o: OutStream, c: Config, sent: nat, unanswered: nat)
    requires Sent(o, c, sent, unanswered) && sent > 0 && unanswered > 0
    ensures Sent(WakeAfterSettle(RecordOutcome(o, sent - 1, Acked)), c, sent, unanswered - 1)
  {
  }

  lemma SlotFreed(m: Session, m': Session, sent: nat, unanswered: nat)
    requires Alone(m, sent, unanswered) && unanswered > 0 && m'.WellFormed() && |m'.streams| == 1
    requires m' == m.(streams := m'.streams, counted := m.counted[..unanswered - 1] + m.counted[unanswered..],
                      sendInFlight := m.sendInFlight - 1, latency := Some(Smoothed(m.latency, 0.0)))
    ensures Alone(m', sent, unanswered - 1)
  {
  }

  lemma AckStep(m: Session, c: Config, sent: nat, unanswered: nat) returns (m': Session)
    requires Alone(m, sent, unanswered) && Sent(m.streams[0], c, sent, unanswered) && sent > 0 && m.streams[0].outcomes[sent - 1] == Pending
    requires |m.counted| > 0 && m.counted[|m.counted| - 1] == Slot(0, sent - 1, 0.0)
    requires forall i :: 0 <= i < |m.counted| - 1 ==> m.counted[i].ordinal != sent - 1
    ensures unanswered > 0 && Alone(m', sent, unanswered - 1) && Sent(m'.streams[0], c, sent, unanswered - 1)
    ensures Enabled(m, Answer(0, sent - 1, None)) && m' == Step(m, Answer(0, sent - 1, None))
  {
    LastSlot(m.counted, sent - 1);
    AckCounted(m, 0, sent - 1);
    AckedOne(m.streams[0], c, sent, unanswered);
    hide Step, RecordOutcome, WakeAfterSettle, Sent, SlotIndex;
    m' := Step(m, Answer(0, sent - 1, None));
    SlotFreed(m, m', sent, unanswered);
  }

  /** The sender takes the ack on its way for the last block's, and its window is open again. */
  lemma IsAcked(n: Net, c: Config, sent: nat, unanswered: nat) returns (n': Net)
    requires Steady(n, c, sent, unanswered) && LastUnanswered(n, sent) && n.acks == {sent - 1} && Reachable(n)
    ensures unanswered > 0 && Steady(n', c, sent, unanswered - 1)
    ensures n'.acks == {} && n'.early == n.early && n'.r == n.r && Reachable(n')
  {
    var k := sent - 1;
    var m' := AckStep(n.m, c, sent, unanswered);
    n' := Answered(n, m', k);
    assert |n'.Sender().wire| == sent by { assert Sent(n'.Sender(), c, sent, unanswered - 1); }
    hide Reachable, Alone, Sent, BlocksOf, LastUnanswered;
  }

  lemma Answered(n: Net, m': Session, k: nat) returns (n': Net)
    requires n.Ok() && n.id == 0 && n.acks == {k} && k < |n.Sender().outcomes| && n.Sender().outcomes[k] == Pending && Reachable(n)
    requires Enabled(n.m, Answer(0, k, None)) && m' == Step(n.m, Answer(0, k, None))
    ensures n' == n.(m := m', acks := {}) && Reachable(n')
  {
    hide Step, Reachable;
    assert NetEnabled(n, ResultArrives(k));
    n' := NetStep(n, ResultArrives(k));
    assert IsNetStep(n, n');
    Onward(n, n');
    assert n.acks - {k} == {};
  }

  lemma CopyIsAcked(n: Net, k: nat, block: seq<Byte>)
    requires n.Ok() && k + 1 == n.delivered && n.Sender().wire[k] == Data(k % SEQ_MODULUS, block)
    requires n.r.registered && !n.r.finished && n.r.expectedSeq == n.delivered % SEQ_MODULUS && k in n.r.parked
    ensures NetEnabled(n, Redeliver(k))
    ensures NetStep(n, Redeliver(k)) == n.(acks := n.acks + {k}, early := n.early + {k})
  {
    RedeliveryDistance(n.delivered, k);
  }

  /** The session is resumed: the last block arrives again, and is acked although its first copy's ack is withheld. */
  lemma IsReplayed(n: Net, c: Config, sent: nat, unanswered: nat) returns (n': Net)
    requires Steady(n, c, sent, unanswered) && sent > 0 && sent - 1 in n.r.parked && n.acks == {} && Reachable(n)
    ensures n' == n.(acks := {sent - 1}, early := n.early + {sent - 1}) && Steady(n', c, sent, unanswered) && Reachable(n')
  {
    var block := n.Sender().blocks[sent - 1];
    assert n.Sender().wire[sent - 1] == Data((sent - 1) % SEQ_MODULUS, block);
    CopyIsAcked(n, sent - 1, block);
    hide Reachable, Alone, BlocksOf, Sent, NetStep, NetEnabled;
    n' := NetStep(n, Redeliver(sent - 1));
    assert IsNetStep(n, n');
    Onward(n, n');
    assert n.acks + {sent - 1} == {sent - 1};
  }

  // ------------------------------------------------------------ its phases

  /** Blocks that leave the buffer short of its mark are acked as they come. */
  lemma {:induction false} Fills(n: Net, c: Config, sent: nat, target: nat) returns (n': Net)
    requires c.Valid() && Steady(n, c, sent, 0) && n.acks == {} && n.early == {} && Reachable(n)
    requires sent <= target && BlocksOf(target, c.blockSize) < c.Mark()
    ensures Steady(n', c, target, 0) && n'.acks == {} && n'.early == {} && Reachable(n')
    decreases target - sent
  {
    hide Reachable, Sent, Alone, BlocksOf, LastUnanswered;
    if sent == target {
      n' := n;
    } else {
      Scaled(sent + 1, target, c.blockSize);
      var full := Round(n, c, sent, 0);
      var acked := IsAcked(full, c, sent + 1, 1);
      n' := Fills(acked, c, sent + 1, target);
    }
  }

  /** From then on every ack is withheld, until the sender's window is full. */
  lemma {:induction false} Loads(n: Net, c: Config, sent: nat, unanswered: nat) returns (n': Net)
    requires c.Valid() && Steady(n, c, sent, unanswered) && unanswered < c.window && n.acks == {} && n.early == {} && Reachable(n)
    requires BlocksOf(sent + 1, c.blockSize) >= c.Mark()
    ensures var last := sent + c.window - unanswered;
            && Steady(n', c, last, c.window) && LastUnanswered(n', last) && last > 0 && last - 1 in n'.r.parked
            && n'.acks == {} && n'.early == {} && Reachable(n')
    decreases c.window - unanswered
  {
    hide Reachable, Sent, Alone, BlocksOf, LastUnanswered;
    n' := Round(n, c, sent, unanswered);
    if unanswered + 1 < c.window {
      Scaled(sent + 1, sent + 2, c.blockSize);
      n' := Loads(n', c, sent + 1, unanswered + 1);
    }
  }

  /** A replay of the last block, whose ack is withheld, lets one more block in, whose ack is withheld as well. */
  lemma {:induction false} Replays(n: Net, c: Config, sent: nat, times: nat) returns (n': Net)
    requires c.Valid() && Steady(n, c, sent, c.window) && LastUnanswered(n, sent) && sent > 0 && sent - 1 in n.r.parked
    requires n.acks == {} && sent - 1 !in n.early && Reachable(n) && BlocksOf(sent, c.blockSize) >= c.Mark()
    ensures Steady(n', c, sent + times, c.window) && |n'.early| == |n.early| + times && Reachable(n')
    decreases times
  {
    hide Reachable, Sent, Alone, BlocksOf;
    if times == 0 {
      n' := n;
    } else {
      Scaled(sent, sent + 1, c.blockSize);
      var again := IsReplayed(n, c, sent, c.window);
      var acked := IsAcked(again, c, sent, c.window);
      hide LastUnanswered;
      var next := Round(acked, c, sent, c.window - 1);
      assert sent !in next.early by { assert forall k :: k in acked.early ==> k < sent; }
      n' := Replays(next, c, sent + 1, times - 1);
    }
  }

  // ------------------------------------------------------------ the results

  /** The most full blocks that stay short of the mark, and the one that reaches it. */
  lemma BelowMark(mark: nat, size: nat) returns (below: nat)
    requires mark > 0 && size > 0
    ensures BlocksOf(below, size) < mark <= BlocksOf(below + 1, size)
  {
    below := (mark - 1) / size;
  }

  /** A state of a run of this configuration. */
  ghost predicate StateOf(n: Net, c: Config) {
    && n.id < |n.m.streams| && n.r.highWaterMark == c.Mark()
    && n.Sender().window == c.window && n.Sender().blockSize == c.blockSize
  }

  lemma LoadsAndReplays(c: Config, times: nat) returns (n: Net, below: nat)
    requires c.Valid()
    ensures Reachable(n) && Steady(n, c, below + c.window + times, c.window) && |n.early| == times
    ensures c.Mark() <= BlocksOf(below + 1, c.blockSize)
  {
    hide Reachable, Sent, Alone, BlocksOf, LastUnanswered;
    below := BelowMark(c.Mark(), c.blockSize);
    n := Starts(c);
    n := Fills(n, c, 0, below);
    n := Loads(n, c, below, 0);
    Scaled(below + 1, below + c.window, c.blockSize);
    n := Replays(n, c, below + c.window, times);
  }

  lemma BlocksAdd(a: nat, b: nat, size: nat)
    ensures BlocksOf(a + b, size) == BlocksOf(a, size) + b * size
  {
  }

  /** Within one block of the high-water mark plus W blocks plus one per early ack. */
  ghost predicate NearBound(n: Net, c: Config, times: nat) {
    n.r.unread + c.blockSize >= c.Mark() + (c.window + times) * c.blockSize
  }

  lemma IsNear(n: Net, c: Config, below: nat, times: nat)
    requires n.r.unread == BlocksOf(below + c.window + times, c.blockSize) && c.Mark() <= BlocksOf(below + 1, c.blockSize)
    ensures NearBound(n, c, times)
  {
    BlocksAdd(below + 1, c.window + times, c.blockSize);
    BlocksAdd(below + c.window + times, 1, c.blockSize);
    hide BlocksOf, ReceiveBufferBytes;
  }

  lemma RunTo(n: Net) returns (run: seq<Net>)
    requires Reachable(n)
    ensures |run| > 0 && IsNetRun(run) && run[|run| - 1] == n
  {
    hide IsNetStep, NetInit;
    run :| IsNetRun(run) && run[|run| - 1] == n;
  }

  lemma NearRun(c: Config, times: nat) returns (run: seq<Net>)
    requires c.Valid()
    ensures |run| > 0 && IsNetRun(run) && StateOf(run[|run| - 1], c) && |run[|run| - 1].early| == times && NearBound(run[|run| - 1], c, times)
  {
    hide IsNetRun, Reachable, Alone, Sent, NearBound, StateOf, BlocksOf, ReceiveBufferBytes;
    var n, below := LoadsAndReplays(c, times);
    IsNear(n, c, below, times);
    SteadyIsState(n, c, below + c.window + times);
    hide IsNetRun, Reachable, Steady, NearBound, StateOf, BlocksOf;
    run := RunTo(n);
  }

  lemma SteadyIsState(n: Net, c: Config, sent: nat)
    requires Steady(n, c, sent, c.window)
    ensures StateOf(n, c)
  {
    hide Alone, BlocksOf, ReceiveBufferBytes;
  }

  /**
   * The bound on the receiver's memory is tight in every configuration, however many held blocks have been replayed
   * and acked early: some run comes within one block of it.
   */
  lemma MemoryBoundIsTight(c: Config, times: nat)
    requires c.Valid()
    ensures exists run: seq<Net> :: IsNetRun(run) &&
              var n := run[|run| - 1]; StateOf(n, c) && |n.early| == times && NearBound(n, c, times)
  {
    hide IsNetRun, NearBound, StateOf;
    var run := NearRun(c, times);
  }

  /** The bound that the backpressure is for: the high-water mark plus a window of blocks. */
  ghost predicate WithinWindow(n: Net, c: Config) {
    n.r.unread < c.Mark() + c.window * c.blockSize
  }

  lemma NearIsBeyond(n: Net, c: Config)
    requires NearBound(n, c, 1)
    ensures !WithinWindow(n, c)
  {
    assert (c.window + 1) * c.blockSize == c.window * c.blockSize + c.blockSize;
  }

  /**
   * In every configuration, the bound holds in all the runs with at most so many early acks if and only if that
   * number is 0: a single replay of a single held block breaks it, and nothing else does.
   */
  lemma BackpressureHoldsIff(c: Config, times: nat)
    requires c.Valid()
    ensures times == 0 <==>
            forall run: seq<Net>, i: nat :: IsNetRun(run) && i < |run| && StateOf(run[i], c) && |run[i].early| <= times ==>
              WithinWindow(run[i], c)
  {
    hide NearBound, IsNetStep, NetInit;
    if times == 0 {
      forall run: seq<Net>, i: nat | IsNetRun(run) && i < |run| && StateOf(run[i], c) && |run[i].early| <= times
        ensures WithinWindow(run[i], c)
      {
        UnreadIsBounded(run, i);
      }
    } else {
      MemoryBoundIsTight(c, 1);
      var run: seq<Net> :| IsNetRun(run) && var n := run[|run| - 1]; StateOf(n, c) && |n.early| == 1 && NearBound(n, c, 1);
      var i: nat := |run| - 1;
      NearIsBeyond(run[i], c);
      hide WithinWindow;
      assert IsNetRun(run) && i < |run| && StateOf(run[i], c) && |run[i].early| <= times && !WithinWindow(run[i], c);
    }
  }
}
