/** Every event of a session keeps every stream's transfer invariant, so it holds in every run. */
module IbbStreamSafety {
  import opened Bytes
  import opened IbbOutStream
  import opened IbbScheduler

  ghost predicate StreamsInv(streams: seq<OutStream>) {
    forall i :: 0 <= i < |streams| ==> StreamInv(streams[i])
  }

  ghost predicate SameTransfers(a: seq<OutStream>, b: seq<OutStream>) {
    |a| == |b| && forall i :: 0 <= i < |a| ==> SameTransfer(a[i], b[i])
  }

  lemma SameTransfersTrans(a: seq<OutStream>, b: seq<OutStream>, c: seq<OutStream>)
    requires SameTransfers(a, b) && SameTransfers(b, c)
    ensures SameTransfers(a, c)
  {
    forall i | 0 <= i < |a| ensures SameTransfer(a[i], c[i]) {
      assert SameTransfer(a[i], b[i]) && SameTransfer(b[i], c[i]);
    }
  }

  lemma SameTransfersKeep(a: seq<OutStream>, b: seq<OutStream>)
    requires StreamsInv(a) && SameTransfers(a, b)
    ensures StreamsInv(b)
  {
    forall i | 0 <= i < |b| ensures StreamInv(b[i]) { SameTransferKeeps(a[i], b[i]); }
  }

  lemma OneTransfer(m: Session, id: nat, o: OutStream)
    requires id < |m.streams| && SameTransfer(m.streams[id], o)
    ensures SameTransfers(m.streams, m.With(id, o).streams)
  {
  }

  lemma {:induction false} GrantSameTransfers(m: Session)
    requires m.WellFormed()
    ensures SameTransfers(m.streams, Grant(m).streams)
    decreases |m.queue|
  {
    if m.sendInFlight < m.limit && m.queue != [] {
      var t := TakeTurn(m);
      assert SameTransfers(m.streams, t.streams);
      GrantSameTransfers(t);
      SameTransfersTrans(m.streams, t.streams, Grant(t).streams);
    }
  }

  lemma AcquireSameTransfers(m: Session, id: nat)
    requires m.WellFormed() && id < |m.streams|
    ensures SameTransfers(m.streams, Acquire(m, id).0.streams)
  {
    GrantSameTransfers(Reclaim(m));
  }

  lemma ReleaseSameTransfers(m: Session)
    requires m.WellFormed()
    ensures SameTransfers(m.streams, Release(m).streams)
  {
    GrantSameTransfers(m.(sendInFlight := m.sendInFlight - 1));
  }

  lemma EndSlotSameTransfers(m: Session, id: nat, k: nat, acked: bool)
    requires m.WellFormed()
    ensures SameTransfers(m.streams, EndSlot(m, id, k, acked).streams)
  {
    var i := SlotIndex(m.counted, id, k);
    if i < |m.counted| {
      var latency := if acked then Some(Smoothed(m.latency, m.now - m.counted[i].at)) else m.latency;
      ReleaseSameTransfers(m.(counted := m.counted[..i] + m.counted[i + 1..], latency := latency));
    }
  }

  lemma {:induction false} GiveBackSameTransfers(m: Session, id: nat)
    requires m.WellFormed() && id < |m.streams|
    ensures SameTransfers(m.streams, GiveBack(m, id).streams)
    decreases |m.queue|, m.streams[id].granted
  {
    var o := m.streams[id];
    if o.granted > 0 {
      hide SameTransfer;
      var n := m.With(id, o.(granted := o.granted - 1));
      OneTransfer(m, id, n.streams[id]);
      GrantShrinks(n.(sendInFlight := n.sendInFlight - 1), id);
      ReleaseSameTransfers(n);
      var r := Release(n);
      GiveBackSameTransfers(r, id);
      SameTransfersTrans(m.streams, n.streams, r.streams);
      SameTransfersTrans(m.streams, r.streams, GiveBack(r, id).streams);
    }
  }

  /** Replacing one stream by one that satisfies the invariant. */
  lemma WithKeeps(m: Session, id: nat, o: OutStream)
    requires id < |m.streams| && StreamsInv(m.streams) && StreamInv(o)
    ensures StreamsInv(m.With(id, o).streams)
  {
    hide StreamInv;
  }

  lemma PumpLeavesKeeps(m: Session, id: nat, pump: Pump, phase: ClosePhase)
    requires m.WellFormed() && id < |m.streams| && StreamsInv(m.streams)
    requires pump == ClosePump ==> m.streams[id].phase == PumpRunning
    requires phase == PumpThrew || (phase == DrainReady && !m.streams[id].HasBlock())
    ensures StreamsInv(PumpLeaves(m, id, pump, phase).streams)
  {
    hide StreamInv;
    GiveBackSameTransfers(m, id);
    var g := GiveBack(m, id);
    SameTransfersKeep(m.streams, g.streams);
    if pump == ClosePump {
      assert SameTransfer(m.streams[id], g.streams[id]);
      LeaveKeeps(g.streams[id], phase);
      WithKeeps(g, id, g.streams[id].(phase := phase));
    }
  }

  lemma ParkedKeeps(m: Session, id: nat, pump: Pump)
    requires id < |m.streams| && StreamsInv(m.streams) && (pump == ClosePump ==> m.streams[id].phase == PumpRunning)
    ensures StreamsInv(m.With(id, Park(m.streams[id], pump)).streams)
  {
    hide StreamInv;
    ParkKeeps(m.streams[id], pump);
    WithKeeps(m, id, Park(m.streams[id], pump));
  }

  lemma StartKeeps(m: Session, id: nat)
    requires m.WellFormed() && id < |m.streams| && StreamsInv(m.streams)
    requires m.streams[id].HasBlock() && m.streams[id].Usable() && m.streams[id].inFlight < m.streams[id].window
    ensures StreamsInv(StartBlock(m, id).streams) && StartBlock(m, id).streams[id].phase == m.streams[id].phase
  {
    hide StreamInv;
    DispatchKeeps(m.streams[id]);
    WithKeeps(m, id, Dispatch(m.streams[id]));
  }

  /** Asking for a slot changes no transfer. */
  lemma AcquiredKeeps(m: Session, id: nat)
    requires m.WellFormed() && id < |m.streams| && StreamsInv(m.streams)
    ensures var (a, free) := Acquire(m, id);
            && |a.streams| == |m.streams| && StreamsInv(a.streams) && SameTransfer(m.streams[id], a.streams[id])
  {
    hide StreamInv, SameTransfer, Acquire;
    AcquireSameTransfers(m, id);
    SameTransfersKeep(m.streams, Acquire(m, id).0.streams);
  }

  lemma {:induction false} RunPumpKeeps(m: Session, id: nat, pump: Pump)
    requires m.WellFormed() && id < |m.streams| && StreamsInv(m.streams)
    requires pump == ClosePump ==> m.streams[id].phase == PumpRunning
    ensures StreamsInv(RunPump(m, id, pump).streams)
    decreases |m.streams[id].buffered|
  {
    hide StreamsInv, Acquire, PumpLeaves;
    var o := m.streams[id];
    if !o.HasBlock() {
      PumpLeavesKeeps(m, id, pump, DrainReady);
    } else if !o.Usable() {
      PumpLeavesKeeps(m, id, pump, PumpThrew);
    } else if o.inFlight >= o.window {
      ParkedKeeps(m, id, pump);
    } else if o.granted > 0 {
      var n := m.With(id, o.(granted := o.granted - 1));
      ReservedKeeps(m, id);
      StartKeeps(n, id);
      RunPumpKeeps(StartBlock(n, id), id, pump);
    } else {
      AcquiredKeeps(m, id);
      var (a, free) := Acquire(m, id);
      if free {
        StartKeeps(a, id);
        RunPumpKeeps(StartBlock(a, id), id, pump);
      } else {
        ParkedKeeps(a, id, pump);
      }
    }
  }

  lemma ReservedKeeps(m: Session, id: nat)
    requires id < |m.streams| && StreamsInv(m.streams)
    ensures var o := m.streams[id]; StreamsInv(m.With(id, o.(granted := o.granted - 1)).streams)
  {
    hide StreamInv;
    var o := m.streams[id];
    SameTransferKeeps(o, o.(granted := o.granted - 1));
    WithKeeps(m, id, o.(granted := o.granted - 1));
  }

  lemma SettleKeeps(m: Session, id: nat, k: nat, refusal: Option<StreamError>)
    requires m.WellFormed() && id < |m.streams| && k < |m.streams[id].outcomes|
    requires StreamsInv(m.streams) && m.streams[id].outcomes[k] == Pending
    ensures StreamsInv(Settle(m, id, k, refusal).streams)
  {
    hide StreamInv, SameTransfer;
    var o := m.streams[id];
    var outcome := if refusal.None? then Acked else Rejection(o, refusal.value);
    var recorded := RecordOutcome(o, k, outcome);
    var n := m.With(id, recorded);
    EndSlotSameTransfers(n, id, k, refusal.None?);
    var e := EndSlot(n, id, k, refusal.None?);
    RecordKeeps(o, k, outcome);
    assert SameTransfer(recorded, e.streams[id]);
    WokenSameTransfer(recorded, e.streams[id]);
    SameTransferKeeps(WakeAfterSettle(recorded), WakeAfterSettle(e.streams[id]));
    forall i | 0 <= i < |e.streams| && i != id ensures StreamInv(e.streams[i]) {
      assert SameTransfer(n.streams[i], e.streams[i]);
      SameTransferKeeps(n.streams[i], e.streams[i]);
    }
  }

  lemma WokenSameTransfer(o: OutStream, o': OutStream)
    requires SameTransfer(o, o')
    ensures SameTransfer(WakeAfterSettle(o), WakeAfterSettle(o'))
  {
  }

  lemma StepKeepsStreams(m: Session, e: Event)
    requires m.WellFormed() && Enabled(m, e) && StreamsInv(m.streams)
    ensures StreamsInv(Step(m, e).streams)
  {
    hide StreamInv, RunPump, Settle, Grant, ContinueClose, CloseAnswered, Abort, PeerClosed;
    match e
    case Open(blockSize, window, flush) => FreshKeeps(blockSize, window, flush);
    case Continue(id) => ContinueCloseKeeps(m.streams[id]);
    case Answer(id, k, refusal) => SettleKeeps(m, id, k, refusal);
    case CloseAnswer(id, refusal) => CloseAnsweredKeeps(m.streams[id], refusal);
    case AbortCall(id, reason) => AbortKeeps(m.streams[id], reason);
    case PeerClose(id) => PeerClosedKeeps(m.streams[id]);
    case ReclaimTimer =>
      GrantSameTransfers(Reclaim(m));
      SameTransfersKeep(m.streams, Grant(Reclaim(m)).streams);
    case Tick(_) =>
    case _ => PumpStepKeepsStreams(m, e);
  }

  lemma PumpStepKeepsStreams(m: Session, e: Event)
    requires m.WellFormed() && Enabled(m, e) && StreamsInv(m.streams)
    requires e.Write? || e.ResumeWrite? || e.CloseCall? || e.ResumeClose?
    ensures StreamsInv(Step(m, e).streams)
  {
    hide StreamInv, RunPump;
    match e
    case Write(id, bytes) =>
      var o := m.streams[id];
      if o.Usable() && !o.closed {
        WriteKeeps(o, bytes);
        RunPumpKeeps(m.With(id, o.(buffered := o.buffered + bytes, written := o.written + bytes)), id, WritePump);
      }
    case ResumeWrite(id) =>
      var o := m.streams[id];
      ResumeKeeps(o);
      RunPumpKeeps(m.With(id, o.(readyWrites := o.readyWrites - 1)), id, WritePump);
    case CloseCall(id) =>
      var o := m.streams[id];
      CloseCallKeeps(o);
      if o.Usable() {
        RunPumpKeeps(m.With(id, o.(closed := true, phase := PumpRunning)), id, ClosePump);
      }
    case ResumeClose(id) =>
      ResumeKeeps(m.streams[id]);
      RunPumpKeeps(m.With(id, m.streams[id].(phase := PumpRunning)), id, ClosePump);
  }

  /** The transfer invariant of every stream holds in every state of every run. */
  lemma {:induction false} EveryRunTransfersCorrectly(run: seq<Session>, limit: int, parkFloor: real, i: nat)
    requires IsRun(run) && run[0] == Init(limit, parkFloor) && i < |run|
    ensures StreamsInv(run[i].streams)
  {
    hide StreamInv, Step, Enabled;
    if i > 0 {
      EveryRunTransfersCorrectly(run, limit, parkFloor, i - 1);
      var m := run[i - 1];
      assert IsStep(m, run[i]);
      var e: Event :| Enabled(m, e) && run[i] == Step(m, e);
      StepKeepsStreams(m, e);
    }
  }

  /**
   * The close contract, in every state of every run: nothing written is lost or reordered on its way to the wire, at
   * most one <close/> leaves and no <data/> follows it, and a close() that resolved without the peer closing means
   * every block was acknowledged and the blocks are exactly the bytes written.
   */
  lemma CloseContract(run: seq<Session>, limit: int, parkFloor: real, i: nat, id: nat)
    requires IsRun(run) && run[0] == Init(limit, parkFloor) && i < |run| && id < |run[i].streams|
    ensures var o := run[i].streams[id];
            && Flatten(o.blocks) + o.buffered == o.written && 0 <= o.inFlight <= o.window
            && o.wire == DataStanzas(o.blocks) + (if o.closeSent then [Close] else [])
            && (o.phase == Resolved && !o.closedByPeer ==> AllAcked(o) && Flatten(o.blocks) == o.written && o.closeSent)
  {
    EveryRunTransfersCorrectly(run, limit, parkFloor, i);
    var o := run[i].streams[id];
    assert StreamInv(o);
    if o.phase == Resolved && !o.closedByPeer { CloseDelivers(o); }
  }

  /**
   * In whatever order rejections arrive, the failure a stream reports is a local abort, or the refusal of the block
   * sent earliest among all refused so far, or else of its own <close/>; and a refused block is never forgotten.
   */
  lemma EarliestFailureIsReported(run: seq<Session>, limit: int, parkFloor: real, i: nat, id: nat)
    requires IsRun(run) && run[0] == Init(limit, parkFloor) && i < |run| && id < |run[i].streams|
    ensures var o := run[i].streams[id];
            && (o.failed.None? ==> forall k :: 0 <= k < |o.outcomes| ==> !o.outcomes[k].Refused?)
            && (o.failed.Some? && !o.Aborted() ==>
                  var f := o.failed.value;
                  && 0 <= f.ordinal <= |o.outcomes|
                  && (forall k :: 0 <= k < f.ordinal ==> !o.outcomes[k].Refused?)
                  && (if f.ordinal < |o.outcomes| then o.outcomes[f.ordinal] == Refused(f.error) else o.closeSent))
  {
    EveryRunTransfersCorrectly(run, limit, parkFloor, i);
    assert StreamInv(run[i].streams[id]);
  }
}
