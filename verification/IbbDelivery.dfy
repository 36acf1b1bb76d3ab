/**
 * One plain stream end to end: the session that sends it, a channel that delivers its stanzas in order but may
 * deliver any of the last 64 again (stream resumption replays), and the receiver.
 */
module IbbDelivery {
  import opened Bytes
  import opened IbbOutStream
  import opened IbbScheduler
  import opened IbbStreamSafety
  import opened IbbInStream
  import Select

  // ------------------------------------------------------------ what a session step does to a stream

  /** Nothing sent is unsent, and no block becomes acknowledged. */
  ghost predicate Grows(o: OutStream, o': OutStream) {
    && o'.blockSize == o.blockSize && o'.window == o.window
    && o.blocks <= o'.blocks && o.wire <= o'.wire && o.written <= o'.written
    && |o.outcomes| <= |o'.outcomes|
    && forall k :: 0 <= k < |o'.outcomes| && o'.outcomes[k] == Acked ==> k < |o.outcomes| && o.outcomes[k] == Acked
  }

  lemma GrowsTrans(a: OutStream, b: OutStream, c: OutStream)
    requires Grows(a, b) && Grows(b, c)
    ensures Grows(a, c)
  {
  }

  ghost predicate AllGrow(m: Session, m': Session) {
    |m.streams| <= |m'.streams| && forall i :: 0 <= i < |m.streams| ==> Grows(m.streams[i], m'.streams[i])
  }

  lemma AllGrowTrans(a: Session, b: Session, c: Session)
    requires AllGrow(a, b) && AllGrow(b, c)
    ensures AllGrow(a, c)
  {
    hide Grows;
    forall i | 0 <= i < |a.streams| ensures Grows(a.streams[i], c.streams[i]) {
      GrowsTrans(a.streams[i], b.streams[i], c.streams[i]);
    }
  }

  lemma SameTransfersGrow(m: Session, m': Session)
    requires SameTransfers(m.streams, m'.streams)
    ensures AllGrow(m, m')
  {
    forall i | 0 <= i < |m.streams| ensures Grows(m.streams[i], m'.streams[i]) {
      assert SameTransfer(m.streams[i], m'.streams[i]);
    }
  }

  lemma WithGrows(m: Session, id: nat, o: OutStream)
    requires id < |m.streams| && Grows(m.streams[id], o)
    ensures AllGrow(m, m.With(id, o))
  {
  }

  lemma DispatchGrows(o: OutStream)
    ensures Grows(o, Dispatch(o))
  {
  }

  lemma LeavesGrows(m: Session, id: nat, pump: Pump, phase: ClosePhase)
    requires m.WellFormed() && id < |m.streams|
    ensures AllGrow(m, PumpLeaves(m, id, pump, phase))
  {
    GiveBackSameTransfers(m, id);
    var g := GiveBack(m, id);
    SameTransfersGrow(m, g);
    if pump == ClosePump {
      WithGrows(g, id, g.streams[id].(phase := phase));
      AllGrowTrans(m, g, PumpLeaves(m, id, pump, phase));
    }
  }

  lemma {:induction false} RunPumpGrows(m: Session, id: nat, pump: Pump)
    requires m.WellFormed() && id < |m.streams|
    ensures AllGrow(m, RunPump(m, id, pump))
    decreases |m.streams[id].buffered|
  {
    hide AllGrow, Grows, Acquire, PumpLeaves;
    var o := m.streams[id];
    if !o.HasBlock() {
      LeavesGrows(m, id, pump, DrainReady);
    } else if !o.Usable() {
      LeavesGrows(m, id, pump, PumpThrew);
    } else if o.inFlight >= o.window {
      WithGrows(m, id, Park(o, pump));
    } else if o.granted > 0 {
      var s := StartBlock(m.With(id, o.(granted := o.granted - 1)), id);
      GrantedGrows(m, id);
      RunPumpGrows(s, id, pump);
      AllGrowTrans(m, s, RunPump(s, id, pump));
    } else {
      AcquiredGrows(m, id, pump);
      var (a, free) := Acquire(m, id);
      if free {
        RunPumpGrows(StartBlock(a, id), id, pump);
        AllGrowTrans(m, StartBlock(a, id), RunPump(StartBlock(a, id), id, pump));
      }
    }
  }

  lemma GrantedGrows(m: Session, id: nat)
    requires m.WellFormed() && id < |m.streams|
    ensures AllGrow(m, StartBlock(m.With(id, m.streams[id].(granted := m.streams[id].granted - 1)), id))
  {
    hide AllGrow;
    var n := m.With(id, m.streams[id].(granted := m.streams[id].granted - 1));
    WithGrows(m, id, n.streams[id]);
    BlockGrows(n, id);
    AllGrowTrans(m, n, StartBlock(n, id));
  }

  lemma AcquiredGrows(m: Session, id: nat, pump: Pump)
    requires m.WellFormed() && id < |m.streams|
    ensures var (a, free) := Acquire(m, id); AllGrow(m, if free then StartBlock(a, id) else a.With(id, Park(a.streams[id], pump)))
  {
    hide AllGrow, Acquire;
    AcquireSameTransfers(m, id);
    var (a, free) := Acquire(m, id);
    SameTransfersGrow(m, a);
    if free {
      BlockGrows(a, id);
      AllGrowTrans(m, a, StartBlock(a, id));
    } else {
      WithGrows(a, id, Park(a.streams[id], pump));
      AllGrowTrans(m, a, a.With(id, Park(a.streams[id], pump)));
    }
  }

  lemma BlockGrows(m: Session, id: nat)
    requires m.WellFormed() && id < |m.streams|
    ensures AllGrow(m, StartBlock(m, id))
  {
    DispatchGrows(m.streams[id]);
    WithGrows(m, id, Dispatch(m.streams[id]));
  }

  lemma ContinueGrows(o: OutStream)
    ensures Grows(o, ContinueClose(o))
  {
    var c := ContinueClose(o);
    assert c == o.(phase := c.phase, closeSent := c.closeSent, wire := c.wire) && (c.wire == o.wire || c.wire == o.wire + [Close]);
    hide ContinueClose;
  }

  lemma CloseAnswerGrows(o: OutStream, refusal: Option<StreamError>)
    ensures Grows(o, CloseAnswered(o, refusal))
  {
  }

  lemma AbortGrows(o: OutStream, reason: StreamError)
    ensures Grows(o, Abort(o, reason))
  {
  }

  lemma PeerClosedGrows(o: OutStream)
    ensures Grows(o, PeerClosed(o))
  {
  }

  lemma RecordGrows(o: OutStream, k: nat, outcome: Outcome)
    requires k < |o.outcomes|
    ensures Grows(o.(outcomes := o.outcomes[k := Acked]), RecordOutcome(o, k, outcome))
    ensures outcome != Acked ==> Grows(o, RecordOutcome(o, k, outcome))
  {
  }

  lemma WakeGrows(o: OutStream)
    ensures Grows(o, WakeAfterSettle(o))
  {
  }

  /** An answer changes its own block's outcome; only a result makes it acknowledged. */
  lemma SettleGrows(m: Session, id: nat, k: nat, refusal: Option<StreamError>)
    requires m.WellFormed() && id < |m.streams| && k < |m.streams[id].outcomes|
    ensures var s := Settle(m, id, k, refusal);
            && |s.streams| == |m.streams|
            && (forall i :: 0 <= i < |m.streams| && i != id ==> Grows(m.streams[i], s.streams[i]))
            && (var o, o' := m.streams[id], s.streams[id];
                (refusal.Some? ==> Grows(o, o'))
                && Grows(o.(outcomes := o.outcomes[k := Acked]), o'))
  {
    hide Grows, EndSlot, RecordOutcome, WakeAfterSettle;
    var o := m.streams[id];
    var outcome := if refusal.None? then Acked else Rejection(o, refusal.value);
    var r := RecordOutcome(o, k, outcome);
    RecordGrows(o, k, outcome);
    WellFormedAfterRecord(m, id, k, outcome);
    var n := m.With(id, r);
    EndSlotSameTransfers(n, id, k, refusal.None?);
    var e := EndSlot(n, id, k, refusal.None?);
    SameTransfersGrow(n, e);
    var w := WakeAfterSettle(e.streams[id]);
    WakeGrows(e.streams[id]);
    GrowsTrans(r, e.streams[id], w);
    forall i | 0 <= i < |m.streams| && i != id ensures Grows(m.streams[i], e.streams[i]) {
      assert n.streams[i] == m.streams[i];
      assert Grows(n.streams[i], e.streams[i]);
    }
    if refusal.Some? { GrowsTrans(o, r, w); }
    GrowsTrans(o.(outcomes := o.outcomes[k := Acked]), r, w);
  }

  lemma WellFormedAfterRecord(m: Session, id: nat, k: nat, outcome: Outcome)
    requires m.WellFormed() && id < |m.streams| && k < |m.streams[id].outcomes|
    ensures m.With(id, RecordOutcome(m.streams[id], k, outcome)).WellFormed()
  {
  }

  lemma PumpGrowsFrom(m: Session, i: nat, o: OutStream, pump: Pump)
    requires m.WellFormed() && i < |m.streams| && Grows(m.streams[i], o)
    ensures m.With(i, o).WellFormed() && AllGrow(m, RunPump(m.With(i, o), i, pump))
  {
    hide RunPump;
    RunPumpGrows(m.With(i, o), i, pump);
    WithGrows(m, i, o);
    AllGrowTrans(m, m.With(i, o), RunPump(m.With(i, o), i, pump));
  }

  lemma StartGrows(o: OutStream, bytes: seq<Byte>)
    ensures Grows(o, o.(buffered := o.buffered + bytes, written := o.written + bytes))
    ensures Grows(o, o.(closed := true, phase := PumpRunning)) && Grows(o, o.(phase := PumpRunning))
    ensures Grows(o, o.(phase := Rejected)) && Grows(o, o.(phase := Resolved))
    ensures o.readyWrites > 0 ==> Grows(o, o.(readyWrites := o.readyWrites - 1))
    ensures Grows(o, o)
  {
  }

  lemma StepGrows(m: Session, e: Event, id: nat)
    requires m.WellFormed() && Enabled(m, e) && id < |m.streams|
    requires !(e.Answer? && e.id == id && e.refusal.None?)
    ensures id < |Step(m, e).streams| && Grows(m.streams[id], Step(m, e).streams[id])
  {
    hide Grows, RunPump, Settle, Grant, ContinueClose, CloseAnswered, Abort, PeerClosed;
    StartGrows(m.streams[id], []);
    match e
    case Open(_, _, _) =>
    case Write(i, bytes) =>
      var o := m.streams[i];
      StartGrows(o, bytes);
      if o.Usable() && !o.closed {
        PumpGrowsFrom(m, i, o.(buffered := o.buffered + bytes, written := o.written + bytes), WritePump);
      }
    case ResumeWrite(i) =>
      StartGrows(m.streams[i], []);
      PumpGrowsFrom(m, i, m.streams[i].(readyWrites := m.streams[i].readyWrites - 1), WritePump);
    case CloseCall(i) =>
      var o := m.streams[i];
      StartGrows(o, []);
      if o.Usable() { PumpGrowsFrom(m, i, o.(closed := true, phase := PumpRunning), ClosePump); }
    case ResumeClose(i) =>
      StartGrows(m.streams[i], []);
      PumpGrowsFrom(m, i, m.streams[i].(phase := PumpRunning), ClosePump);
    case Continue(i) => ContinueGrows(m.streams[i]);
    case Answer(i, k, refusal) => SettleGrows(m, i, k, refusal);
    case CloseAnswer(i, refusal) => CloseAnswerGrows(m.streams[i], refusal);
    case AbortCall(i, reason) => AbortGrows(m.streams[i], reason);
    case PeerClose(i) => PeerClosedGrows(m.streams[i]);
    case ReclaimTimer =>
      GrantSameTransfers(Reclaim(m));
      SameTransfersGrow(Reclaim(m), Grant(Reclaim(m)));
    case Tick(_) =>
  }

  // ------------------------------------------------------------ the system

  /**
   * The session `m` and its stream `id`; the receiver; how many of the stream's stanzas have been delivered a
   * first time, and how many blocks the receiver has taken; the results on their way back; and, for the record,
   * the blocks whose redelivered copy was acknowledged while the original's ack was withheld, and whether the
   * reader was cancelled or timed out.
   */
  datatype Net = Net(m: Session, id: nat, r: InStream, delivered: nat, taken: nat, acks: set<nat>,
                     early: set<nat>, abandoned: bool)
  {
    predicate Ok() {
      m.WellFormed() && id < |m.streams| && delivered <= |m.streams[id].wire|
    }
    function Sender(): OutStream
      requires id < |m.streams|
    {
      m.streams[id]
    }
  }

  datatype NetEvent =
    | Session_(e: Event)
    | Deliver
    | Redeliver(k: nat)
    | ResultArrives(k: nat)
    | Resume(h: nat)
    | ReadBytes(n: nat)
    | Abandon(cancelled: bool)

  /** Results of this stream come from the receiver only; anything may refuse a block at any time. */
  predicate NetEnabled(n: Net, e: NetEvent) {
    n.Ok() &&
    match e
    case Session_(s) => Enabled(n.m, s) && !(s.Answer? && s.id == n.id && s.refusal.None?) && !(s.PeerClose? && s.id == n.id)
    case Deliver => n.delivered < |n.Sender().wire|
    case Redeliver(k) => k < n.delivered && n.delivered - k <= REDELIVERY_WINDOW && n.Sender().wire[k].Data?
    case ResultArrives(k) => k in n.acks
    case Resume(h) => h in n.r.woken
    case ReadBytes(b) => b <= n.r.unread
    case Abandon(_) => true
  }

  function Replied(n: Net, r: InStream, k: nat, reply: Option<Reply>): Net {
    n.(r := r, acks := if reply == Some(Result) then n.acks + {k} else n.acks)
  }

  function NetStep(n: Net, e: NetEvent): Net
    requires NetEnabled(n, e)
  {
    match e
    case Session_(s) => n.(m := Step(n.m, s))
    case Deliver =>
      (match n.Sender().wire[n.delivered]
       case Data(seqNo, bytes) =>
         var (r, reply) := OnData(n.r, n.delivered, Some(seqNo), Some(bytes));
         var took := if n.r.registered && !n.r.finished && seqNo == n.r.expectedSeq then 1 else 0;
         Replied(n, r, n.delivered, reply).(delivered := n.delivered + 1, taken := n.taken + took)
       case Close => n.(r := OnClose(n.r).0, delivered := n.delivered + 1))
    case Redeliver(k) =>
      var d := n.Sender().wire[k];
      var (r, reply) := OnData(n.r, k, Some(d.seqNo), Some(d.bytes));
      Replied(n, r, k, reply).(early := if k in n.r.Held() then n.early + {k} else n.early)
    case ResultArrives(k) =>
      var o := n.Sender();
      if k < |o.outcomes| && o.outcomes[k] == Pending
      then n.(m := Step(n.m, Answer(n.id, k, None)), acks := n.acks - {k})
      else n.(acks := n.acks - {k})
    case Resume(h) =>
      var (r, reply) := ResumeHandler(n.r, h);
      Replied(n, r, h, reply)
    case ReadBytes(b) => n.(r := Read(n.r, b))
    case Abandon(cancelled) =>
      n.(r := Finish(if cancelled then n.r.(cancelled := true) else n.r, true), abandoned := true)
  }

  /** A block size an <open/> is accepted with, and the windows the two sides may be configured to. */
  predicate Configured(blockSize: nat, window: nat, receiveWindow: nat) {
    1 <= blockSize <= Select.MAX_CHUNK_SIZE && 1 <= window <= MAX_WINDOW && 1 <= receiveWindow <= MAX_WINDOW
  }

  /** A new stream on a session in any reachable state, and its fresh receiver. */
  ghost predicate StartsAs(n: Net, blockSize: nat, window: nat, receiveWindow: nat) {
    && n.m.WellFormed() && StreamsInv(n.m.streams) && n.id < |n.m.streams|
    && (exists flush: bool :: n.m.streams[n.id] == FreshStream(blockSize, window, flush))
    && n.r == FreshInStream(ReceiveBufferBytes(receiveWindow, blockSize))
    && n.delivered == n.taken == 0 && n.acks == {} && n.early == {} && !n.abandoned
  }

  ghost predicate NetInit(n: Net) {
    exists b: nat, w: nat, r: nat :: Configured(b, w, r) && StartsAs(n, b, w, r)
  }

  // ------------------------------------------------------------ what holds

  /** The receiver has taken exactly the blocks delivered so far, each once, and never fails of its own accord. */
  ghost predicate DeliveryInv(n: Net) {
    && n.Ok() && StreamsInv(n.m.streams)
    && (var o := n.Sender();
        && n.taken <= n.delivered && n.taken <= |o.blocks|
        && n.r.enqueued == Flatten(o.blocks[..n.taken])
        && (n.r.registered <==> !n.r.finished)
        && (!n.r.finished ==> n.taken == n.delivered && n.r.expectedSeq == n.taken % SEQ_MODULUS && n.r.reader == Reading)
        && (n.r.reader == Errored ==> n.abandoned)
        && (n.r.reader == Ended ==> o.closeSent && n.taken == |o.blocks|))
  }

  /** Every ack, sent or arrived, is of a block taken. */
  ghost predicate AckInv(n: Net) {
    && n.id < |n.m.streams|
    && (forall k :: k in n.acks ==> k < n.taken)
    && (forall k :: k in n.r.Held() ==> k < n.taken)
    && (forall k :: 0 <= k < |n.Sender().outcomes| && n.Sender().outcomes[k] == Acked ==> k < n.taken)
  }

  lemma WireAt(o: OutStream, k: nat)
    requires BytesInv(o) && k < |o.wire|
    ensures o.wire[k].Data? <==> k < |o.blocks|
    ensures k < |o.blocks| ==> o.wire[k] == Data(k % SEQ_MODULUS, o.blocks[k])
    ensures o.wire[k].Close? ==> o.closeSent && k == |o.blocks|
  {
  }

  lemma BytesOf(m: Session, id: nat)
    requires id < |m.streams| && StreamsInv(m.streams)
    ensures BytesInv(m.streams[id])
  {
    assert StreamInv(m.streams[id]);
  }

  /** The sender moves on: what was taken is still what was sent. */
  lemma SenderStepKeeps(n: Net, m': Session)
    requires DeliveryInv(n) && AckInv(n)
    requires m'.WellFormed() && StreamsInv(m'.streams) && n.id < |m'.streams| && Grows(n.Sender(), m'.streams[n.id])
    ensures DeliveryInv(n.(m := m')) && AckInv(n.(m := m'))
  {
    hide StreamsInv;
    var o, o' := n.Sender(), m'.streams[n.id];
    assert o'.blocks[..n.taken] == o.blocks[..n.taken];
    BytesOf(n.m, n.id);
    BytesOf(m', n.id);
    if n.r.reader == Ended { ClosedStaysPut(o, o'); }
  }

  lemma ClosedStaysPut(o: OutStream, o': OutStream)
    requires BytesInv(o) && BytesInv(o') && o.wire <= o'.wire && o.blocks <= o'.blocks && o.closeSent
    ensures o'.blocks == o.blocks && o'.closeSent
  {
    assert o.wire[|o.blocks|] == Close;
    assert o'.wire[|o.blocks|] == Close;
  }

  lemma ResultArrivesKeeps(n: Net, k: nat)
    requires DeliveryInv(n) && AckInv(n) && k in n.acks
    ensures DeliveryInv(NetStep(n, ResultArrives(k))) && AckInv(NetStep(n, ResultArrives(k)))
  {
    hide StreamInv, Step, Grows, Settle;
    var o := n.Sender();
    if k < |o.outcomes| && o.outcomes[k] == Pending {
      var e := Answer(n.id, k, None);
      assert Enabled(n.m, e);
      StepKeepsStreams(n.m, e);
      SettleGrows(n.m, n.id, k, None);
      var m' := Step(n.m, e);
      assert m' == Settle(n.m, n.id, k, None) by { StepIsSettle(n.m, n.id, k); }
      AckedStepKeeps(n, k, m');
      var n' := n.(m := m');
      assert DeliveryInv(n'.(acks := n.acks - {k})) && AckInv(n'.(acks := n.acks - {k}));
    }
  }

  lemma StepIsSettle(m: Session, id: nat, k: nat)
    requires m.WellFormed() && Enabled(m, Answer(id, k, None))
    ensures Step(m, Answer(id, k, None)) == Settle(m, id, k, None)
  {
  }

  lemma AckedStepKeeps(n: Net, k: nat, m': Session)
    requires DeliveryInv(n) && AckInv(n) && k in n.acks && k < |n.Sender().outcomes|
    requires m'.WellFormed() && StreamsInv(m'.streams) && n.id < |m'.streams|
    requires Grows(n.Sender().(outcomes := n.Sender().outcomes[k := Acked]), m'.streams[n.id])
    ensures DeliveryInv(n.(m := m')) && AckInv(n.(m := m'))
  {
    hide StreamsInv;
    var o, o' := n.Sender(), m'.streams[n.id];
    assert o'.blocks[..n.taken] == o.blocks[..n.taken];
    BytesOf(n.m, n.id);
    BytesOf(m', n.id);
    if n.r.reader == Ended { ClosedStaysPut(o, o'); }
  }

  /** The block in sequence is taken: enqueued, and answered unless the consumer lags. */
  function TakenBlock(n: Net, block: seq<Byte>): Net {
    var s := n.r.(expectedSeq := (n.r.expectedSeq + 1) % SEQ_MODULUS,
                  enqueued := n.r.enqueued + block, unread := n.r.unread + |block|);
    var (r, reply) := Respond(s, n.delivered);
    Replied(n, r, n.delivered, reply).(delivered := n.delivered + 1, taken := n.taken + 1)
  }

  /** What a first delivery amounts to: a block taken, or nothing once the stream is finished, or the close. */
  lemma DeliverCases(n: Net)
    requires DeliveryInv(n) && NetEnabled(n, Deliver)
    ensures NetStep(n, Deliver) ==
              if n.delivered >= |n.Sender().blocks| then n.(r := OnClose(n.r).0, delivered := n.delivered + 1)
              else if n.r.finished then n.(delivered := n.delivered + 1)
              else TakenBlock(n, n.Sender().blocks[n.delivered])
    ensures n.delivered >= |n.Sender().blocks| ==> n.Sender().closeSent && n.delivered == |n.Sender().blocks|
  {
    hide StreamsInv;
    BytesOf(n.m, n.id);
    WireAt(n.Sender(), n.delivered);
    RedeliveryDistance(n.delivered, n.delivered);
  }

  /** What taking one block does: its ack is withheld, one more than before, or there is room. */
  lemma TakenIs(n: Net, block: seq<Byte>)
    requires !n.r.finished
    ensures var n' := TakenBlock(n, block);
            && n' == n.(r := n'.r, acks := n'.acks, delivered := n.delivered + 1, taken := n.taken + 1)
            && n'.r == n.r.(expectedSeq := (n.r.expectedSeq + 1) % SEQ_MODULUS, enqueued := n.r.enqueued + block,
                            unread := n.r.unread + |block|, parked := n'.r.parked)
            && (if n'.r.unread >= n.r.highWaterMark
                then n'.r.parked == n.r.parked + {n.delivered} && n'.acks == n.acks
                else n'.r.parked == n.r.parked && n'.acks == n.acks + {n.delivered})
  {
  }

  lemma TakenKeeps(n: Net)
    requires DeliveryInv(n) && AckInv(n) && NetEnabled(n, Deliver) && n.delivered < |n.Sender().blocks| && !n.r.finished
    ensures DeliveryInv(TakenBlock(n, n.Sender().blocks[n.delivered])) && AckInv(TakenBlock(n, n.Sender().blocks[n.delivered]))
  {
    hide StreamsInv, TakenBlock;
    var o, k := n.Sender(), n.delivered;
    TakenIs(n, o.blocks[k]);
    NextSeq(k);
    FlattenSnoc(o.blocks[..k], o.blocks[k]);
    hide Flatten;
    assert o.blocks[..k + 1] == o.blocks[..k] + [o.blocks[k]];
    assert TakenBlock(n, o.blocks[k]).r.enqueued == Flatten(o.blocks[..k + 1]);
    forall j | j in TakenBlock(n, o.blocks[k]).r.Held() ensures j in n.r.Held() || j == k { }
  }

  lemma ClosedKeeps(n: Net)
    requires DeliveryInv(n) && AckInv(n) && NetEnabled(n, Deliver)
    requires n.Sender().closeSent && n.delivered == |n.Sender().blocks|
    ensures var n' := n.(r := OnClose(n.r).0, delivered := n.delivered + 1); DeliveryInv(n') && AckInv(n')
  {
    hide StreamsInv, Flatten;
    assert OnClose(n.r).0.Held() == n.r.Held();
  }

  lemma DeliverKeeps(n: Net)
    requires DeliveryInv(n) && AckInv(n) && NetEnabled(n, Deliver)
    ensures DeliveryInv(NetStep(n, Deliver)) && AckInv(NetStep(n, Deliver))
  {
    DeliverCases(n);
    if n.delivered >= |n.Sender().blocks| {
      ClosedKeeps(n);
    } else if !n.r.finished {
      TakenKeeps(n);
    }
    hide StreamsInv, Flatten, NetStep, TakenBlock;
  }

  lemma RedeliverKeeps(n: Net, k: nat)
    requires DeliveryInv(n) && AckInv(n) && NetEnabled(n, Redeliver(k))
    ensures DeliveryInv(NetStep(n, Redeliver(k))) && AckInv(NetStep(n, Redeliver(k)))
  {
    RedeliverIs(n, k);
    hide StreamsInv, NetStep, Flatten;
  }

  /** A copy of an earlier block changes nothing but, perhaps, the acks under way. */
  lemma RedeliverIs(n: Net, k: nat)
    requires DeliveryInv(n) && NetEnabled(n, Redeliver(k))
    ensures NetStep(n, Redeliver(k)) ==
              n.(acks := if n.r.finished then n.acks else n.acks + {k}, early := if k in n.r.Held() then n.early + {k} else n.early)
    ensures !n.r.finished ==> k < n.taken
  {
    hide StreamsInv, Flatten;
    BytesOf(n.m, n.id);
    WireAt(n.Sender(), k);
    RedeliveryDistance(n.delivered, k);
    hide BytesInv;
  }

  lemma ResumeKeepsDelivery(n: Net, h: nat)
    requires DeliveryInv(n) && AckInv(n) && NetEnabled(n, Resume(h))
    ensures DeliveryInv(NetStep(n, Resume(h))) && AckInv(NetStep(n, Resume(h)))
  {
    hide StreamsInv, Flatten;
    assert h in n.r.Held();
    forall k | k in NetStep(n, Resume(h)).r.Held() ensures k in n.r.Held() { }
  }

  lemma ReadKeepsDelivery(n: Net, b: nat)
    requires DeliveryInv(n) && AckInv(n) && NetEnabled(n, ReadBytes(b))
    ensures DeliveryInv(NetStep(n, ReadBytes(b))) && AckInv(NetStep(n, ReadBytes(b)))
  {
    hide StreamsInv, Flatten;
    assert Read(n.r, b).Held() == n.r.Held();
  }

  lemma AbandonKeepsDelivery(n: Net, cancelled: bool)
    requires DeliveryInv(n) && AckInv(n) && NetEnabled(n, Abandon(cancelled))
    ensures DeliveryInv(NetStep(n, Abandon(cancelled))) && AckInv(NetStep(n, Abandon(cancelled)))
  {
    hide StreamsInv, Flatten;
    assert NetStep(n, Abandon(cancelled)).r.Held() == n.r.Held();
  }

  lemma NetStepKeeps(n: Net, e: NetEvent)
    requires DeliveryInv(n) && AckInv(n) && NetEnabled(n, e)
    ensures DeliveryInv(NetStep(n, e)) && AckInv(NetStep(n, e))
  {
    match e
    case Session_(s) =>
      SessionStepKeeps(n, s);
    case Deliver => DeliverKeeps(n);
    case Redeliver(k) => RedeliverKeeps(n, k);
    case ResultArrives(k) => ResultArrivesKeeps(n, k);
    case Resume(h) => ResumeKeepsDelivery(n, h);
    case ReadBytes(b) => ReadKeepsDelivery(n, b);
    case Abandon(cancelled) => AbandonKeepsDelivery(n, cancelled);
  }

  lemma SessionStepKeeps(n: Net, s: Event)
    requires DeliveryInv(n) && AckInv(n) && NetEnabled(n, Session_(s))
    ensures DeliveryInv(NetStep(n, Session_(s))) && AckInv(NetStep(n, Session_(s)))
  {
    hide StreamInv, Step, Enabled, Grows;
    StepKeepsStreams(n.m, s);
    StepGrows(n.m, s, n.id);
    SenderStepKeeps(n, Step(n.m, s));
  }

  ghost predicate IsNetStep(n: Net, n': Net) {
    exists e: NetEvent :: NetEnabled(n, e) && n' == NetStep(n, e)
  }

  ghost predicate IsNetRun(run: seq<Net>) {
    run != [] && NetInit(run[0]) && forall i :: 0 < i < |run| ==> IsNetStep(run[i - 1], run[i])
  }

  lemma InitKeeps(n: Net)
    requires NetInit(n)
    ensures DeliveryInv(n) && AckInv(n)
  {
    assert n.Sender().blocks[..0] == [];
  }

  lemma {:induction false} EveryNetRun(run: seq<Net>, i: nat)
    requires IsNetRun(run) && i < |run|
    ensures DeliveryInv(run[i]) && AckInv(run[i])
  {
    hide NetStep, NetEnabled, NetInit, DeliveryInv, AckInv;
    if i == 0 {
      InitKeeps(run[0]);
    } else {
      EveryNetRun(run, i - 1);
      assert IsNetStep(run[i - 1], run[i]);
      var e: NetEvent :| NetEnabled(run[i - 1], e) && run[i] == NetStep(run[i - 1], e);
      NetStepKeeps(run[i - 1], e);
    }
  }

  /**
   * End-to-end delivery: in every reachable state the bytes handed to the reader are a prefix of the bytes
   * written, made of whole blocks each taken once; the receiver never fails the stream; every acked block is in it.
   */
  lemma DeliveredInOrderOnce(run: seq<Net>, i: nat)
    requires IsNetRun(run) && i < |run|
    ensures var n := run[i];
            && n.id < |n.m.streams|
            && (var o := n.Sender();
                && n.taken <= |o.blocks| && n.r.enqueued == Flatten(o.blocks[..n.taken]) && n.r.enqueued <= o.written
                && (n.r.reader == Errored ==> n.abandoned)
                && (forall k :: 0 <= k < |o.outcomes| && o.outcomes[k] == Acked ==> k < n.taken))
  {
    EveryNetRun(run, i);
    var n := run[i];
    BytesOf(n.m, n.id);
    FlattenPrefix(n.Sender().blocks, n.taken);
  }

  /** A close() that resolves means the reader was handed exactly what was written. */
  lemma ResolvedCloseMeansDelivered(run: seq<Net>, i: nat)
    requires IsNetRun(run) && i < |run|
    ensures var n := run[i];
            n.id < |n.m.streams| && (n.Sender().phase == Resolved && !n.Sender().closedByPeer ==> n.r.enqueued == n.Sender().written)
  {
    EveryNetRun(run, i);
    var n := run[i];
    var o := n.Sender();
    assert StreamInv(o);
    if o.phase == Resolved && !o.closedByPeer {
      CloseDelivers(o);
      if |o.blocks| > 0 { assert o.outcomes[|o.blocks| - 1] == Acked; }
      assert o.blocks[..n.taken] == o.blocks;
    }
  }

  /** A reader that ends cleanly has everything its sender dispatched; all that was written unless the sender aborted. */
  lemma CleanEndIsComplete(run: seq<Net>, i: nat)
    requires IsNetRun(run) && i < |run|
    ensures var n := run[i];
            n.id < |n.m.streams| && (n.r.reader == Ended ==>
              n.r.enqueued == Flatten(n.Sender().blocks) && (!n.Sender().Aborted() ==> n.r.enqueued == n.Sender().written))
  {
    EveryNetRun(run, i);
    var n := run[i];
    var o := n.Sender();
    assert StreamInv(o);
    if n.r.reader == Ended { assert o.blocks[..n.taken] == o.blocks; assert Flatten(o.blocks) + [] == Flatten(o.blocks); }
  }

  // ------------------------------------------------------------ memory at the receiver

  /** The bytes of so many full blocks. */
  function BlocksOf(count: nat, size: nat): nat { count * size }

  /** What the receiver holds unread is bounded by its buffer plus one block per ack it is withholding. */
  ghost predicate MemoryInv(n: Net) {
    && n.id < |n.m.streams|
    && (var o := n.Sender();
        && n.r.highWaterMark > 0 && n.r.parked !! n.r.woken
        && (!n.r.finished ==> n.r.unread < n.r.highWaterMark + BlocksOf(|n.r.Held()|, o.blockSize))
        && n.r.unread < n.r.highWaterMark + BlocksOf(o.window + |n.early|, o.blockSize)
        && (forall k :: k in n.r.Held() && k !in n.early ==> k !in n.acks && k < |o.outcomes| && o.outcomes[k] != Acked))
  }

  lemma {:induction false} UnackedSet(outcomes: seq<Outcome>, held: set<nat>)
    requires forall k :: k in held ==> k < |outcomes| && outcomes[k] != Acked
    ensures |held| <= CountUnacked(outcomes)
  {
    if outcomes == [] {
      assert held == {};
    } else {
      var last := |outcomes| - 1;
      UnackedSet(outcomes[..last], held - {last});
    }
  }

  lemma {:induction false} Smaller(a: set<nat>, b: set<nat>)
    requires a <= b
    ensures |a| <= |b|
  {
    if a != {} { var x :| x in a; Smaller(a - {x}, b - {x}); }
  }

  lemma Scaled(a: nat, b: nat, c: nat)
    requires a <= b
    ensures BlocksOf(a, c) <= BlocksOf(b, c) && BlocksOf(0, c) == 0
  {
  }

  /** The transfer part of a sender step, as far as the receiver's memory is concerned. */
  lemma SenderStepKeepsMemory(n: Net, n': Net)
    requires MemoryInv(n) && n'.id == n.id && n.id < |n'.m.streams| && n'.r == n.r && n'.early == n.early && n'.acks <= n.acks
    requires n'.Sender().window == n.Sender().window && n'.Sender().blockSize == n.Sender().blockSize
    requires |n.Sender().outcomes| <= |n'.Sender().outcomes|
    requires forall k :: 0 <= k < |n.Sender().outcomes| && n'.Sender().outcomes[k] == Acked ==>
               n.Sender().outcomes[k] == Acked || k in n.acks
    ensures MemoryInv(n')
  {
  }

  /** Steps that take no block: the same acks are withheld, and any new ack is of a block not held, or noted as early. */
  lemma IdleKeepsMemory(n: Net, n': Net)
    requires MemoryInv(n) && n'.m == n.m && n'.id == n.id && n.early <= n'.early
    requires n'.r.Held() == n.r.Held() && n'.r.parked !! n'.r.woken && n'.r.highWaterMark == n.r.highWaterMark
    requires n'.r.unread == n.r.unread && (n.r.finished ==> n'.r.finished)
    requires forall k :: k in n'.acks ==> k in n.acks || k !in n.r.Held() || k in n'.early
    ensures MemoryInv(n')
  {
    var o := n.Sender();
    Smaller(n.early, n'.early);
    Scaled(o.window + |n.early|, o.window + |n'.early|, o.blockSize);
  }

  lemma DeliverKeepsMemory(n: Net)
    requires DeliveryInv(n) && AckInv(n) && MemoryInv(n) && NetEnabled(n, Deliver)
    ensures MemoryInv(NetStep(n, Deliver))
  {
    DeliverCases(n);
    HeldApart(n);
    if n.delivered < |n.Sender().blocks| && !n.r.finished {
      TakesKeepsMemory(n);
    } else {
      assert OnClose(n.r).0.Held() == n.r.Held();
      IdleKeepsMemory(n, NetStep(n, Deliver));
    }
    hide MemoryInv, NetStep, TakenBlock, DeliveryInv, AckInv;
  }

  lemma HeldApart(n: Net)
    requires MemoryInv(n)
    ensures n.r.parked !! n.r.woken
  {
  }

  /** The block just delivered is new: nobody withholds its ack, none was sent, and the sender still waits for it. */
  lemma NewBlock(n: Net)
    requires DeliveryInv(n) && AckInv(n) && n.delivered < |n.Sender().blocks| && !n.r.finished
    ensures n.delivered !in n.r.Held() && n.delivered !in n.acks && |n.Sender().blocks[n.delivered]| <= n.Sender().blockSize
    ensures n.delivered < |n.Sender().outcomes| && n.Sender().outcomes[n.delivered] != Acked
  {
    hide StreamsInv;
    BytesOf(n.m, n.id);
  }

  /** Who is withheld now: the new block perhaps, and it is not acked either. */
  lemma TakenHolds(n: Net)
    requires DeliveryInv(n) && AckInv(n) && MemoryInv(n) && n.delivered < |n.Sender().blocks| && !n.r.finished
    ensures var n' := TakenBlock(n, n.Sender().blocks[n.delivered]);
            && n'.r.parked !! n'.r.woken
            && (n'.r.unread >= n.r.highWaterMark ==> |n'.r.Held()| == |n.r.Held()| + 1)
            && (forall k :: k in n'.r.Held() && k !in n.early ==>
                  k !in n'.acks && k < |n.Sender().outcomes| && n.Sender().outcomes[k] != Acked)
  {
    var k, held := n.delivered, n.r.Held();
    NewBlock(n);
    TakenIs(n, n.Sender().blocks[k]);
    hide DeliveryInv, AckInv, TakenBlock;
    var n' := TakenBlock(n, n.Sender().blocks[k]);
    if n'.r.unread >= n.r.highWaterMark { assert n'.r.Held() == held + {k}; } else { assert n'.r.Held() == held; }
  }

  lemma TakesKeepsMemory(n: Net)
    requires DeliveryInv(n) && AckInv(n) && MemoryInv(n) && n.delivered < |n.Sender().blocks| && !n.r.finished
    ensures MemoryInv(TakenBlock(n, n.Sender().blocks[n.delivered]))
  {
    hide BlocksOf, StreamsInv;
    var o := n.Sender();
    var n' := TakenBlock(n, o.blocks[n.delivered]);
    NewBlock(n);
    TakenIs(n, o.blocks[n.delivered]);
    TakenHolds(n);
    hide TakenBlock;
    HeldNowBounded(n, n');
    hide DeliveryInv, AckInv;
    var size, bound := o.blockSize, o.window + |n.early|;
    if n'.r.unread >= n.r.highWaterMark {
      OneMoreHeld(n.r.unread, n.r.highWaterMark, |o.blocks[n.delivered]|, |n.r.Held()|, |n'.r.Held()|, bound, size);
    } else {
      Scaled(0, |n'.r.Held()|, size);
      Scaled(0, bound, size);
    }
  }

  lemma OneMoreHeld(unread: nat, mark: nat, length: nat, before: nat, after: nat, bound: nat, size: nat)
    requires unread < mark + BlocksOf(before, size) && length <= size && after == before + 1 && after <= bound
    ensures unread + length < mark + BlocksOf(after, size) && unread + length < mark + BlocksOf(bound, size)
  {
    assert after * size == before * size + size;
    Scaled(after, bound, size);
  }

  lemma HeldNowBounded(n: Net, n': Net)
    requires DeliveryInv(n) && n'.m == n.m && n'.id == n.id && n'.early == n.early
    requires forall k :: k in n'.r.Held() && k !in n.early ==> k < |n.Sender().outcomes| && n.Sender().outcomes[k] != Acked
    ensures |n'.r.Held()| <= n.Sender().window + |n.early|
  {
    hide StreamsInv;
    BytesOf(n.m, n.id);
    var held := n'.r.Held();
    UnackedSet(n.Sender().outcomes, held - n.early);
    assert |held - n.early| + |held * n.early| == |held|;
    Smaller(held * n.early, n.early);
  }

  lemma RedeliverLeavesReceiver(n: Net, k: nat)
    requires DeliveryInv(n) && NetEnabled(n, Redeliver(k))
    ensures var n' := NetStep(n, Redeliver(k));
            && n'.m == n.m && n'.id == n.id && n'.r == n.r && n.early <= n'.early
            && forall j :: j in n'.acks ==> j in n.acks || j !in n.r.Held() || j in n'.early
  {
    RedeliverIs(n, k);
    hide DeliveryInv, NetStep;
  }

  lemma RedeliverKeepsMemory(n: Net, k: nat)
    requires DeliveryInv(n) && MemoryInv(n) && NetEnabled(n, Redeliver(k))
    ensures MemoryInv(NetStep(n, Redeliver(k)))
  {
    RedeliverLeavesReceiver(n, k);
    HeldApart(n);
    hide MemoryInv, NetStep, DeliveryInv;
    IdleKeepsMemory(n, NetStep(n, Redeliver(k)));
  }

  /** A woken handler parks again, or answers and is gone. */
  lemma ResumedIs(n: Net, h: nat)
    requires NetEnabled(n, Resume(h)) && n.r.parked !! n.r.woken
    ensures var n' := NetStep(n, Resume(h));
            && n'.m == n.m && n'.id == n.id && n'.early == n.early
            && n'.r == n.r.(parked := n'.r.parked, woken := n.r.woken - {h}) && n'.r.parked !! n'.r.woken
            && (if !n.r.finished && n.r.Full() then n'.acks == n.acks && n'.r.Held() == n.r.Held()
                else n'.acks <= n.acks + {h} && n'.r.Held() == n.r.Held() - {h})
  {
    var n' := NetStep(n, Resume(h));
    if !n.r.finished && n.r.Full() {
      assert n'.r.Held() == n.r.Held();
    } else {
      assert n'.r.Held() == n.r.Held() - {h};
    }
  }

  /** Fewer acks withheld, the same bytes unread: fine as soon as there is room, or nothing was let go. */
  lemma LessHeld(n: Net, n': Net)
    requires MemoryInv(n) && n'.m == n.m && n'.id == n.id && n'.early == n.early
    requires n'.r.unread <= n.r.unread && n'.r.highWaterMark == n.r.highWaterMark && (n.r.finished ==> n'.r.finished)
    requires n'.r.parked !! n'.r.woken && n'.r.Held() <= n.r.Held() && n'.acks <= n.acks + (n.r.Held() - n'.r.Held())
    requires n'.r.finished || n'.r.unread < n'.r.highWaterMark || n'.r.Held() == n.r.Held()
    ensures MemoryInv(n')
  {
    hide BlocksOf;
    Scaled(0, |n'.r.Held()|, n.Sender().blockSize);
  }

  lemma ResumeKeepsMemory(n: Net, h: nat)
    requires MemoryInv(n) && NetEnabled(n, Resume(h))
    ensures MemoryInv(NetStep(n, Resume(h)))
  {
    HeldApart(n);
    ResumedIs(n, h);
    assert h in n.r.Held();
    hide NetStep, NetEnabled, MemoryInv;
    LessHeld(n, NetStep(n, Resume(h)));
  }

  lemma ReadKeepsMemory(n: Net, b: nat)
    requires MemoryInv(n) && NetEnabled(n, ReadBytes(b))
    ensures MemoryInv(NetStep(n, ReadBytes(b)))
  {
    HeldApart(n);
    hide MemoryInv;
    assert Read(n.r, b).Held() == n.r.Held();
    LessHeld(n, NetStep(n, ReadBytes(b)));
  }

  lemma AbandonKeepsMemory(n: Net, cancelled: bool)
    requires MemoryInv(n) && NetEnabled(n, Abandon(cancelled))
    ensures MemoryInv(NetStep(n, Abandon(cancelled)))
  {
    HeldApart(n);
    hide MemoryInv;
    assert NetStep(n, Abandon(cancelled)).r.Held() == n.r.Held();
    LessHeld(n, NetStep(n, Abandon(cancelled)));
  }

  lemma NetStepKeepsMemory(n: Net, e: NetEvent)
    requires DeliveryInv(n) && AckInv(n) && MemoryInv(n) && NetEnabled(n, e)
    ensures MemoryInv(NetStep(n, e))
  {
    match e
    case Session_(s) => SessionStepKeepsMemory(n, s);
    case Deliver => DeliverKeepsMemory(n);
    case Redeliver(k) => RedeliverKeepsMemory(n, k);
    case ResultArrives(k) => ResultKeepsMemory(n, k);
    case Resume(h) => ResumeKeepsMemory(n, h);
    case ReadBytes(b) => ReadKeepsMemory(n, b);
    case Abandon(c) => AbandonKeepsMemory(n, c);
  }

  lemma SessionStepKeepsMemory(n: Net, s: Event)
    requires DeliveryInv(n) && AckInv(n) && MemoryInv(n) && NetEnabled(n, Session_(s))
    ensures MemoryInv(NetStep(n, Session_(s)))
  {
    hide StreamInv, Step, Enabled, MemoryInv;
    StepGrows(n.m, s, n.id);
    SenderStepKeepsMemory(n, NetStep(n, Session_(s)));
  }

  lemma ResultKeepsMemory(n: Net, k: nat)
    requires DeliveryInv(n) && AckInv(n) && MemoryInv(n) && NetEnabled(n, ResultArrives(k))
    ensures MemoryInv(NetStep(n, ResultArrives(k)))
  {
    hide StreamInv, Step, MemoryInv, Settle;
    var o := n.Sender();
    if k < |o.outcomes| && o.outcomes[k] == Pending {
      assert Enabled(n.m, Answer(n.id, k, None));
      StepIsSettle(n.m, n.id, k);
      SettleGrows(n.m, n.id, k, None);
    }
    SenderStepKeepsMemory(n, NetStep(n, ResultArrives(k)));
  }

  lemma {:induction false} EveryNetRunBoundsMemory(run: seq<Net>, i: nat)
    requires IsNetRun(run) && i < |run|
    ensures MemoryInv(run[i])
  {
    hide NetStep, NetEnabled, NetInit, DeliveryInv, AckInv, MemoryInv;
    if i == 0 {
      InitBoundsMemory(run[0]);
    } else {
      EveryNetRunBoundsMemory(run, i - 1);
      EveryNetRun(run, i - 1);
      assert IsNetStep(run[i - 1], run[i]);
      var e: NetEvent :| NetEnabled(run[i - 1], e) && run[i] == NetStep(run[i - 1], e);
      NetStepKeepsMemory(run[i - 1], e);
    }
  }

  lemma InitBoundsMemory(n: Net)
    requires NetInit(n)
    ensures MemoryInv(n)
  {
    Scaled(0, n.Sender().window + |n.early|, n.Sender().blockSize);
  }

  /**
   * The receiver's memory: with a sender window of W blocks of at most B bytes, unread bytes stay below the
   * high-water mark plus W blocks, and one more for every held block whose replayed copy was acked early.
   */
  lemma UnreadIsBounded(run: seq<Net>, i: nat)
    requires IsNetRun(run) && i < |run|
    ensures var n := run[i];
            n.id < |n.m.streams|
            && n.r.unread < n.r.highWaterMark + (n.Sender().window + |n.early|) * n.Sender().blockSize
    ensures var n := run[i];
            n.early == {} ==> n.r.unread < n.r.highWaterMark + n.Sender().window * n.Sender().blockSize
  {
    EveryNetRunBoundsMemory(run, i);
  }
}
