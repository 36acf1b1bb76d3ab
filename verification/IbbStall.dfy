/**
 * The stall itself: a run of the session after which no event but a further call by the stream's own
 * user ever hands out a slot again, although streams are waiting.
 */
module IbbStall {
  import opened Bytes
  import opened IbbOutStream
  import opened IbbScheduler
  import opened IbbSchedulerSafety

  /** A stream that holds a reserved slot but has nothing to come: no pump woken, no block unanswered. */
  ghost predicate Hostage(o: OutStream) {
    && !o.AnyReady() && o.inFlight == 0
    && forall k :: 0 <= k < |o.outcomes| ==> o.outcomes[k] != Pending
  }

  /** Streams wait, and the whole budget is reserved for `hostages`. */
  ghost predicate Stalled(m: Session, hostages: set<nat>) {
    && m.WellFormed() && m.queue != []
    && m.counted == [] && m.sendInFlight == m.limit
    && forall i :: 0 <= i < |m.streams| ==>
         if i in hostages then Hostage(m.streams[i]) else m.streams[i].granted == 0 && m.streams[i].phase != PumpRunning
  }

  /** A call by the user of a hostage stream: the one thing that would run its pump. */
  predicate Rescues(e: Event, hostages: set<nat>) {
    match e
    case Write(id, _) => id in hostages
    case CloseCall(id) => id in hostages
    case AbortCall(id, _) => id in hostages
    case PeerClose(id) => id in hostages
    case _ => false
  }

  lemma StalledPump(m: Session, id: nat, pump: Pump)
    requires m.WellFormed() && id < |m.streams| && m.streams[id].granted == 0
    requires m.queue != [] && m.counted == [] && m.sendInFlight == m.limit
    ensures var r := RunPump(m, id, pump);
            && r.queue != [] && r.counted == [] && r.sendInFlight == m.limit && r.limit == m.limit && r.turns == m.turns
            && |r.streams| == |m.streams|
            && (forall i :: 0 <= i < |m.streams| && i != id ==> r.streams[i] == m.streams[i])
            && r.streams[id].granted == 0 && (pump == ClosePump || m.streams[id].phase != PumpRunning ==> r.streams[id].phase != PumpRunning)
  {
    var o := m.streams[id];
    if o.HasBlock() && o.Usable() && o.inFlight < o.window {
      assert Reclaim(m) == m;
      assert Grant(m) == m;
    }
  }

  lemma StalledRun(m: Session, id: nat, o: OutStream, pump: Pump, hostages: set<nat>)
    requires Stalled(m, hostages) && id < |m.streams| && id !in hostages
    requires o.granted == 0 && o.blockSize > 0 && (o.phase == PumpRunning ==> pump == ClosePump)
    ensures m.With(id, o).WellFormed()
    ensures Stalled(RunPump(m.With(id, o), id, pump), hostages)
    ensures var r := RunPump(m.With(id, o), id, pump); r.turns == m.turns && |r.streams| == |m.streams|
  {
    hide RunPump;
    var n := m.With(id, o);
    StalledPump(n, id, pump);
    var r := RunPump(n, id, pump);
    forall i | 0 <= i < |r.streams| && i != id ensures r.streams[i] == m.streams[i] { }
  }

  /** A stream's own plain step. */
  lemma StalledWith(m: Session, id: nat, o: OutStream, hostages: set<nat>)
    requires Stalled(m, hostages) && id < |m.streams| && o.blockSize > 0
    requires if id in hostages then Hostage(o) else o.granted == 0 && o.phase != PumpRunning
    ensures Stalled(m.With(id, o), hostages)
  {
  }

  lemma StalledSettle(m: Session, id: nat, k: nat, refusal: Option<StreamError>, hostages: set<nat>)
    requires Stalled(m, hostages) && id < |m.streams| && id !in hostages && k < |m.streams[id].outcomes|
    ensures Stalled(Settle(m, id, k, refusal), hostages) && Settle(m, id, k, refusal).turns == m.turns
    ensures |Settle(m, id, k, refusal).streams| == |m.streams|
  {
    var o := m.streams[id];
    var outcome := if refusal.None? then Acked else Rejection(o, refusal.value);
    var o' := WakeAfterSettle(RecordOutcome(o, k, outcome));
    assert Settle(m, id, k, refusal) == m.With(id, o');
  }

  /** The plain steps of a stream keep a hostage a hostage, and any other stream out of the budget. */
  lemma PlainSteps(o: OutStream, hostage: bool)
    requires if hostage then Hostage(o) else o.granted == 0 && o.phase != PumpRunning
    ensures var c := ContinueClose(o); if hostage then Hostage(c) else c.granted == 0 && c.phase != PumpRunning
    ensures forall refusal: Option<StreamError> ::
              var c := CloseAnswered(o, refusal); if hostage then Hostage(c) else c.granted == 0 && c.phase != PumpRunning
    ensures !hostage ==> PeerClosed(o).granted == 0 && PeerClosed(o).phase != PumpRunning
    ensures !hostage ==> forall reason: StreamError :: Abort(o, reason).granted == 0 && Abort(o, reason).phase != PumpRunning
    ensures ContinueClose(o).blockSize == PeerClosed(o).blockSize == o.blockSize
    ensures forall refusal: Option<StreamError> :: CloseAnswered(o, refusal).blockSize == o.blockSize
    ensures forall reason: StreamError :: Abort(o, reason).blockSize == o.blockSize
  {
    ContinueStays(o, hostage);
    forall refusal: Option<StreamError>
      ensures var c := CloseAnswered(o, refusal);
              c.blockSize == o.blockSize && if hostage then Hostage(c) else c.granted == 0 && c.phase != PumpRunning
    {
      AnswerStays(o, hostage, refusal);
    }
    hide ContinueClose, CloseAnswered, Hostage;
  }

  lemma ContinueStays(o: OutStream, hostage: bool)
    requires if hostage then Hostage(o) else o.granted == 0 && o.phase != PumpRunning
    ensures var c := ContinueClose(o);
            c.blockSize == o.blockSize && if hostage then Hostage(c) else c.granted == 0 && c.phase != PumpRunning
  {
  }

  lemma AnswerStays(o: OutStream, hostage: bool, refusal: Option<StreamError>)
    requires if hostage then Hostage(o) else o.granted == 0 && o.phase != PumpRunning
    ensures var c := CloseAnswered(o, refusal);
            c.blockSize == o.blockSize && if hostage then Hostage(c) else c.granted == 0 && c.phase != PumpRunning
  {
  }

  lemma PlainStall(m: Session, e: Event, id: nat, o: OutStream, hostages: set<nat>)
    requires Stalled(m, hostages) && id < |m.streams| && Enabled(m, e) && o.blockSize == m.streams[id].blockSize
    requires if id in hostages then Hostage(o) else o.granted == 0 && o.phase != PumpRunning
    requires Step(m, e) == m.With(id, o)
    ensures Stalled(Step(m, e), hostages) && Step(m, e).turns == m.turns && |Step(m, e).streams| == |m.streams|
  {
    hide Step, Hostage;
    StalledWith(m, id, o, hostages);
  }

  /** A call or a wake-up that runs a pump. */
  lemma RunStall(m: Session, e: Event, hostages: set<nat>)
    requires Stalled(m, hostages) && Enabled(m, e) && !Rescues(e, hostages)
    requires e.Write? || e.ResumeWrite? || e.CloseCall? || e.ResumeClose?
    ensures Stalled(Step(m, e), hostages) && Step(m, e).turns == m.turns && |Step(m, e).streams| == |m.streams|
  {
    hide RunPump;
    match e
    case Write(id, bytes) =>
      var o := m.streams[id];
      if o.Usable() && !o.closed {
        StalledRun(m, id, o.(buffered := o.buffered + bytes, written := o.written + bytes), WritePump, hostages);
      }
    case ResumeWrite(id) =>
      var o := m.streams[id];
      StalledRun(m, id, o.(readyWrites := o.readyWrites - 1), WritePump, hostages);
    case CloseCall(id) =>
      var o := m.streams[id];
      if o.failed.Some? { StalledWith(m, id, o.(phase := Rejected), hostages); }
      else if o.closedByPeer { StalledWith(m, id, o.(phase := Resolved), hostages); }
      else { StalledRun(m, id, o.(closed := true, phase := PumpRunning), ClosePump, hostages); }
    case ResumeClose(id) => StalledRun(m, id, m.streams[id].(phase := PumpRunning), ClosePump, hostages);
  }

  /** Time passing, the timer and a new stream change nothing about it. */
  lemma IdleStall(m: Session, e: Event, hostages: set<nat>)
    requires Stalled(m, hostages) && Enabled(m, e) && (e.Open? || e.ReclaimTimer? || e.Tick?)
    requires forall h :: h in hostages ==> h < |m.streams|
    ensures Stalled(Step(m, e), hostages) && Step(m, e).turns == m.turns && |m.streams| <= |Step(m, e).streams|
  {
    hide Hostage, RunPump, Settle;
    match e
    case Open(_, _, _) =>
    case ReclaimTimer => assert Reclaim(m) == m && Grant(m) == m;
    case Tick(_) =>
  }

  /** An answer, or the end of a close() or of the stream. */
  lemma StreamStall(m: Session, e: Event, hostages: set<nat>)
    requires Stalled(m, hostages) && Enabled(m, e) && !Rescues(e, hostages)
    requires e.Continue? || e.CloseAnswer? || e.AbortCall? || e.PeerClose? || e.Answer?
    ensures Stalled(Step(m, e), hostages) && Step(m, e).turns == m.turns && |Step(m, e).streams| == |m.streams|
  {
    hide RunPump, Settle, ContinueClose, CloseAnswered, Abort, PeerClosed, Hostage, Grant;
    PlainSteps(m.streams[e.id], e.id in hostages);
    match e
    case Continue(id) => PlainStall(m, e, id, ContinueClose(m.streams[id]), hostages);
    case CloseAnswer(id, refusal) => PlainStall(m, e, id, CloseAnswered(m.streams[id], refusal), hostages);
    case AbortCall(id, reason) => PlainStall(m, e, id, Abort(m.streams[id], reason), hostages);
    case PeerClose(id) => PlainStall(m, e, id, PeerClosed(m.streams[id]), hostages);
    case Answer(id, k, refusal) =>
      AnsweredIsNoHostage(m.streams[id], k);
      StalledSettle(m, id, k, refusal, hostages);
  }

  /** No other event ends a stall: not an answer, not the timer, not the clock, not anything other streams do. */
  lemma StallPersists(m: Session, e: Event, hostages: set<nat>)
    requires Stalled(m, hostages) && Enabled(m, e) && !Rescues(e, hostages)
    requires forall h :: h in hostages ==> h < |m.streams|
    ensures Stalled(Step(m, e), hostages) && Step(m, e).turns == m.turns
    ensures forall h :: h in hostages ==> h < |Step(m, e).streams|
  {
    WellFormedStall(m, hostages);
    hide Stalled, Step, Enabled, Rescues;
    if e.Open? || e.ReclaimTimer? || e.Tick? {
      IdleStall(m, e, hostages);
    } else if e.Write? || e.ResumeWrite? || e.CloseCall? || e.ResumeClose? {
      RunStall(m, e, hostages);
    } else {
      StreamStall(m, e, hostages);
    }
  }

  lemma WellFormedStall(m: Session, hostages: set<nat>)
    requires Stalled(m, hostages)
    ensures m.WellFormed()
  {
  }

  lemma AnsweredIsNoHostage(o: OutStream, k: nat)
    requires k < |o.outcomes| && o.outcomes[k] == Pending
    ensures !Hostage(o)
  {
  }

  // ------------------------------------------------------------ a stall is reachable

  /** A block that is written whole leaves at once: the state of its stream afterwards. */
  function SentBlock(o: OutStream, block: seq<Byte>): OutStream {
    Dispatch(o.(buffered := block, written := o.written + block))
  }

  lemma SendBlock(m: Session, id: nat, block: seq<Byte>)
    requires m.WellFormed() && id < |m.streams| && m.queue == []
    requires var o := m.streams[id];
             o.Usable() && !o.closed && o.buffered == [] && o.blockSize == |block| && !o.flushEachWrite
             && o.inFlight < o.window && o.granted == 0
    requires Reclaim(m).sendInFlight < m.limit
    ensures Enabled(m, Write(id, block))
    ensures Step(m, Write(id, block)) ==
            m.With(id, SentBlock(m.streams[id], block)).(
              counted := Reclaim(m).counted + [Slot(id, |m.streams[id].blocks|, m.now)],
              sendInFlight := Reclaim(m).sendInFlight + 1, turns := m.turns + [Direct(id)])
  {
    var o := m.streams[id];
    var n := m.With(id, o.(buffered := o.buffered + block, written := o.written + block));
    assert o.buffered + block == block;
    assert Grant(Reclaim(n)) == Reclaim(n);
    var s := StartBlock(Acquire(n, id).0, id);
    assert block[|block|..] == [];
    assert !s.streams[id].HasBlock();
    assert RunPump(s, id, WritePump) == s;
    assert RunPump(n, id, WritePump) == RunPump(s, id, WritePump);
    assert s.streams == m.streams[id := SentBlock(o, block)];
  }

  /** A full budget, swept to nothing: the step that parks a pump on a slot it has just been granted. */
  lemma StrandGrant(m: Session, id: nat)
    requires m.WellFormed() && id < |m.streams| && m.queue == [id] && m.limit == 1 && |m.counted| == 1 && m.sendInFlight == 1
    requires Swept(m) == 1
    requires var o := m.streams[id];
             o.Usable() && o.HasBlock() && o.inFlight == 0 && o.window > 0 && o.granted == 0
             && o.readyWrites == 1 && o.parkedWrites == 0 && o.phase == NotClosing
    ensures var r := Step(m, ResumeWrite(id));
            r.queue == [id] && r.counted == [] && r.sendInFlight == 1 && r.limit == 1 && r.WellFormed()
            && r.streams == m.streams[id := m.streams[id].(readyWrites := 0, parkedWrites := 1, granted := 1)]
  {
    var n := m.With(id, m.streams[id].(readyWrites := 0));
    StrandAcquire(n, id);
    hide Acquire, Swept;
  }

  lemma StrandAcquire(n: Session, id: nat)
    requires n.WellFormed() && id < |n.streams| && n.queue == [id] && n.limit == 1 && |n.counted| == 1 && n.sendInFlight == 1
    requires Swept(n) == 1 && n.streams[id].Wants()
    ensures var (a, free) := Acquire(n, id);
            !free && a.queue == [id] && a.counted == [] && a.sendInFlight == 1 && a.limit == 1
            && a.streams == n.streams[id := Wake(n.streams[id].(granted := n.streams[id].granted + 1))]
  {
    hide Swept;
    var c := Reclaim(n);
    assert c.counted == [] && c.sendInFlight == 0;
    var t := TakeTurn(c);
    assert t.queue == [];
    assert Grant(c) == t;
  }

  /** An ack of a counted block, while nobody waits. */
  lemma AckCounted(m: Session, id: nat, k: nat)
    requires m.WellFormed() && id < |m.streams| && m.queue == [] && SlotIndex(m.counted, id, k) < |m.counted|
    requires k < |m.streams[id].outcomes| && m.streams[id].outcomes[k] == Pending
    ensures Enabled(m, Answer(id, k, None))
    ensures var i := SlotIndex(m.counted, id, k);
            Step(m, Answer(id, k, None)) ==
            m.With(id, WakeAfterSettle(RecordOutcome(m.streams[id], k, Acked))).(
              counted := m.counted[..i] + m.counted[i + 1..], sendInFlight := m.sendInFlight - 1,
              latency := Some(Smoothed(m.latency, m.now - m.counted[i].at)))
  {
    hide RecordOutcome, WakeAfterSettle;
  }

  /** A write that finds the budget full queues its stream. */
  lemma QueueByte(m: Session, id: nat, x: Byte)
    requires m.WellFormed() && id < |m.streams| && m.queue == [] && m.sendInFlight == m.limit && Swept(m) == 0
    requires var o := m.streams[id];
             o.Usable() && !o.closed && o.buffered == [] && o.blockSize == 1 && o.inFlight < o.window && o.granted == 0
    ensures Step(m, Write(id, [x])) ==
            m.With(id, m.streams[id].(buffered := [x], written := m.streams[id].written + [x],
                                      parkedWrites := m.streams[id].parkedWrites + 1)).(queue := [id])
  {
    var o := m.streams[id];
    var n := m.With(id, o.(buffered := o.buffered + [x], written := o.written + [x]));
    assert o.buffered + [x] == [x];
    FullQueues(n, id);
    hide Acquire, Swept;
  }

  /** A request for a slot when there is none to reclaim either. */
  lemma FullQueues(n: Session, id: nat)
    requires n.WellFormed() && id < |n.streams| && n.queue == [] && n.sendInFlight == n.limit && Swept(n) == 0
    ensures Acquire(n, id) == (n.(queue := [id]), false)
  {
    hide Swept;
    assert Reclaim(n) == n;
    assert Grant(n) == n;
    assert n.queue + [id] == [id];
  }

  /** A stream of one-byte blocks that is open, healthy and has sent all it was given. */
  ghost predicate ByteStream(o: OutStream, outcomes: seq<Outcome>, inFlight: int) {
    && o.Usable() && !o.closed && o.buffered == [] && o.blockSize == 1 && o.window == 8 && !o.flushEachWrite
    && o.granted == 0 && o.parkedWrites == 0 && o.readyWrites == 0 && o.phase == NotClosing
    && o.outcomes == outcomes && |o.blocks| == |outcomes| && o.inFlight == inFlight
  }

  lemma SentByteStream(o: OutStream, outcomes: seq<Outcome>, inFlight: int, x: Byte)
    requires ByteStream(o, outcomes, inFlight)
    ensures ByteStream(SentBlock(o, [x]), outcomes + [Pending], inFlight + 1)
  {
  }

  lemma AckedByteStream(o: OutStream)
    requires ByteStream(o, [Pending], 1)
    ensures ByteStream(WakeAfterSettle(RecordOutcome(o, 0, Acked)), [Acked], 0)
  {
  }

  /** The session, apart from its streams and its log. */
  ghost predicate At(m: Session, now: real, latency: Option<real>, inFlight: int, queue: seq<nat>, counted: seq<Slot>) {
    && m.WellFormed() && m.limit == 1 && m.parkFloor == 250.0 && |m.streams| == 2
    && m.now == now && m.latency == latency && m.sendInFlight == inFlight && m.queue == queue && m.counted == counted
  }

  lemma Opened() returns (s0: Session, s1: Session, s2: Session)
    ensures s0 == Init(1, 250.0) && IsStep(s0, s1) && IsStep(s1, s2)
    ensures At(s2, 0.0, None, 0, [], []) && ByteStream(s2.streams[0], [], 0) && ByteStream(s2.streams[1], [], 0)
  {
    s0 := Init(1, 250.0);
    assert Enabled(s0, Open(1, 8, false));
    s1 := Step(s0, Open(1, 8, false));
    assert Enabled(s1, Open(1, 8, false));
    s2 := Step(s1, Open(1, 8, false));
  }

  lemma Sends(m: Session, id: nat, x: Byte, now: real, latency: Option<real>, counted: seq<Slot>,
              outcomes: seq<Outcome>, inFlight: int) returns (m': Session)
    requires At(m, now, latency, |counted|, [], counted) && id < 2 && ByteStream(m.streams[id], outcomes, inFlight) && inFlight < 8
    requires Swept(m) == |counted|
    ensures IsStep(m, m') && At(m', now, latency, 1, [], [Slot(id, |outcomes|, now)])
    ensures ByteStream(m'.streams[id], outcomes + [Pending], inFlight + 1) && m'.streams[1 - id] == m.streams[1 - id]
  {
    hide Step, Enabled, SentBlock;
    SendBlock(m, id, [x]);
    SentByteStream(m.streams[id], outcomes, inFlight, x);
    m' := Step(m, Write(id, [x]));
  }

  lemma Ticks(m: Session, elapsed: real) returns (m': Session)
    requires m.WellFormed() && elapsed >= 0.0
    ensures IsStep(m, m') && m' == m.(now := m.now + elapsed)
  {
    m' := Step(m, Tick(elapsed));
    assert Enabled(m, Tick(elapsed));
  }

  /** The first ack of the session is timed. */
  lemma TimesAck(m: Session) returns (m': Session)
    requires At(m, 1.0, None, 1, [], [Slot(0, 0, 0.0)]) && ByteStream(m.streams[0], [Pending], 1)
    ensures IsStep(m, m') && At(m', 1.0, Some(1.0), 0, [], [])
    ensures ByteStream(m'.streams[0], [Acked], 0) && m'.streams[1] == m.streams[1]
  {
    hide Step, Enabled, RecordOutcome, WakeAfterSettle;
    assert SlotIndex(m.counted, 0, 0) == 0;
    AckCounted(m, 0, 0);
    AckedByteStream(m.streams[0]);
    m' := Step(m, Answer(0, 0, None));
  }

  /** Stream 1 after it queued with a byte to send and a block out, and then after that block's ack woke it. */
  ghost predicate Waiting(o: OutStream, woken: bool) {
    && o.Usable() && !o.closed && |o.buffered| == 1 && o.blockSize == 1 && o.window == 8 && o.granted == 0 && o.phase == NotClosing
    && (if woken then o.inFlight == 0 && o.outcomes == [Acked] && o.readyWrites == 1 && o.parkedWrites == 0
        else o.inFlight == 1 && o.outcomes == [Pending] && o.readyWrites == 0 && o.parkedWrites == 1)
  }

  lemma Queues(m: Session) returns (m': Session)
    requires At(m, 301.0, Some(1.0), 1, [], [Slot(0, 1, 301.0)]) && ByteStream(m.streams[1], [Pending], 1)
    ensures IsStep(m, m') && At(m', 301.0, Some(1.0), 1, [1], [Slot(0, 1, 301.0)])
    ensures Waiting(m'.streams[1], false) && m'.streams[0] == m.streams[0]
  {
    hide Step;
    assert m.ParkThreshold() == 250.0;
    QueueByte(m, 1, 4);
    assert Enabled(m, Write(1, [4]));
    m' := Step(m, Write(1, [4]));
  }

  lemma OwnAckWakes(m: Session) returns (m': Session)
    requires At(m, 551.0, Some(1.0), 1, [1], [Slot(0, 1, 301.0)]) && Waiting(m.streams[1], false)
    ensures IsStep(m, m') && At(m', 551.0, Some(1.0), 1, [1], [Slot(0, 1, 301.0)])
    ensures Waiting(m'.streams[1], true) && m'.streams[0] == m.streams[0]
  {
    assert SlotIndex(m.counted, 1, 0) == 1;
    var o := WakeAfterSettle(RecordOutcome(m.streams[1], 0, Acked));
    assert Waiting(o, true);
    m' := Step(m, Answer(1, 0, None));
    assert Enabled(m, Answer(1, 0, None));
    assert m' == m.With(1, o);
  }

  lemma Strands(m: Session) returns (m': Session)
    requires At(m, 551.0, Some(1.0), 1, [1], [Slot(0, 1, 301.0)]) && Waiting(m.streams[1], true)
    requires m.streams[0].granted == 0 && m.streams[0].phase == NotClosing
    ensures IsStep(m, m') && Stalled(m', {1})
  {
    hide Step;
    assert m.ParkThreshold() == 250.0;
    assert Swept(m) == 1;
    StrandGrant(m, 1);
    assert Enabled(m, ResumeWrite(1));
    m' := Step(m, ResumeWrite(1));
  }

  /**
   * With a budget of one block: stream 1 waits behind a block of stream 0 that has grown old; the ack of an
   * earlier block of its own wakes its pump before the timer fires; the pump sweeps, is granted the slot, and parks.
   */
  lemma StallIsReachable()
    ensures exists run: seq<Session> :: IsRun(run) && run[0] == Init(1, 250.0) && Stalled(run[|run| - 1], {1})
  {
    hide Step, Enabled, Init, Stalled, IsStep;
    var s0, s1, s2 := Opened();
    var s3 := Sends(s2, 0, 1, 0.0, None, [], [], 0);
    var s4 := Ticks(s3, 1.0);
    var s5 := TimesAck(s4);
    var s6 := Sends(s5, 1, 2, 1.0, Some(1.0), [], [], 0);
    var s7 := Ticks(s6, 300.0);
    assert s7.ParkThreshold() == 250.0 && Swept(s7) == 1;
    var s8 := Sends(s7, 0, 3, 301.0, Some(1.0), [Slot(1, 0, 1.0)], [Acked], 0);
    var s9 := Queues(s8);
    var s10 := Ticks(s9, 250.0);
    var s11 := OwnAckWakes(s10);
    var s12 := Strands(s11);
    var run := [s0, s1, s2, s3, s4, s5, s6, s7, s8, s9, s10, s11, s12];
    assert IsRun(run);
  }

  ghost predicate UnrescuedStep(m: Session, m': Session, hostages: set<nat>) {
    m.WellFormed() && exists e: Event :: Enabled(m, e) && !Rescues(e, hostages) && m' == Step(m, e)
  }

  /** Once stalled, a run hands out no further slot until the hostage's own user calls again. */
  lemma {:induction false} StallLasts(run: seq<Session>, i: nat, hostages: set<nat>)
    requires i < |run| && Stalled(run[0], hostages) && forall h :: h in hostages ==> h < |run[0].streams|
    requires forall j :: 0 < j < |run| ==> UnrescuedStep(run[j - 1], run[j], hostages)
    ensures Stalled(run[i], hostages) && run[i].turns == run[0].turns
    ensures forall h :: h in hostages ==> h < |run[i].streams|
  {
    hide Step, Enabled, Stalled;
    if i > 0 {
      StallLasts(run, i - 1, hostages);
      var m := run[i - 1];
      assert UnrescuedStep(m, run[i], hostages);
      var e: Event :| Enabled(m, e) && !Rescues(e, hostages) && run[i] == Step(m, e);
      StallPersists(m, e, hostages);
    }
  }
}
