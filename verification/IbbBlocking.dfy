/**
 * How the bytes written are cut into blocks, and when: a pump leaves nothing it could send, a block is a full one or all
 * that was there, and a stream that does not flush each write sends one short block at most, its last.
 */
module IbbBlocking {
  import opened Bytes
  import opened IbbOutStream
  import opened IbbScheduler
  import opened IbbStreamSafety
  import opened IbbSchedulerSafety

  /** No pump of the stream is parked, woken or running. */
  predicate AtRest(o: OutStream) {
    o.parkedWrites == 0 && o.readyWrites == 0 && o.phase != PumpParked && o.phase != PumpReady && o.phase != PumpRunning
  }

  /**
   * In every state of every run a usable stream that no pump works for holds less than a block back, and nothing at all
   * if each write is flushed or the stream is closing.
   */
  lemma NothingIsHeldBack(run: seq<Session>, limit: int, parkFloor: real, i: nat, id: nat)
    requires IsRun(run) && run[0] == Init(limit, parkFloor) && limit >= 1 && i < |run| && id < |run[i].streams|
    ensures var o := run[i].streams[id];
            o.failed.None? && !o.closedByPeer && AtRest(o) ==>
              |o.buffered| < o.blockSize && (o.flushEachWrite || o.closed ==> o.buffered == [])
  {
    hide Step, Init;
    EveryRunSchedules(run, limit, parkFloor, i);
    PumpOkAt(run[i], id);
    hide SchedInv;
  }

  // ------------------------------------------------------------ the cut

  /** A block that may be short: the last, if the buffer is empty behind it, and no more is to be waited for. */
  predicate ShortLast(o: OutStream, j: int) {
    0 < |o.blocks| == j + 1 && o.buffered == [] && 0 < |o.blocks[j]| < o.blockSize && (o.flushEachWrite || o.closed)
  }

  /** A stretch without writes: what leaves is new blocks, each of them full, but for a last one that empties the buffer. */
  ghost predicate CutsFully(o: OutStream, o': OutStream) {
    && o'.blockSize == o.blockSize && o'.written == o.written && o'.closed == o.closed && o'.flushEachWrite == o.flushEachWrite
    && o.blocks <= o'.blocks
    && (o.buffered == [] ==> o'.blocks == o.blocks && o'.buffered == [])
    && forall j :: |o.blocks| <= j < |o'.blocks| ==> |o'.blocks[j]| == o.blockSize || ShortLast(o', j)
  }

  lemma CutsTrans(a: OutStream, b: OutStream, c: OutStream)
    requires CutsFully(a, b) && CutsFully(b, c)
    ensures CutsFully(a, c)
  {
    forall j | |a.blocks| <= j < |c.blocks| ensures |c.blocks[j]| == a.blockSize || ShortLast(c, j) {
      if j < |b.blocks| { assert c.blocks[j] == b.blocks[j]; }
    }
  }

  lemma SameTransferCuts(o: OutStream, o': OutStream)
    requires SameTransfer(o, o')
    ensures CutsFully(o, o')
  {
  }

  lemma DispatchCuts(o: OutStream)
    requires o.HasBlock() && o.blockSize > 0
    ensures CutsFully(o, Dispatch(o))
  {
  }

  /** A stream's steps that move no byte. */
  lemma PlainCuts(o: OutStream, o': OutStream)
    requires o'.blockSize == o.blockSize && o'.written == o.written && o'.blocks == o.blocks && o'.buffered == o.buffered
    requires o'.closed == o.closed && o'.flushEachWrite == o.flushEachWrite
    ensures CutsFully(o, o')
  {
  }

  ghost predicate AllCutFully(m: Session, m': Session) {
    |m'.streams| == |m.streams| && forall i :: 0 <= i < |m.streams| ==> CutsFully(m.streams[i], m'.streams[i])
  }

  lemma AllCutTrans(a: Session, b: Session, c: Session)
    requires AllCutFully(a, b) && AllCutFully(b, c)
    ensures AllCutFully(a, c)
  {
    hide CutsFully;
    forall i | 0 <= i < |a.streams| ensures CutsFully(a.streams[i], c.streams[i]) { CutsTrans(a.streams[i], b.streams[i], c.streams[i]); }
  }

  lemma SameTransfersCut(m: Session, m': Session)
    requires SameTransfers(m.streams, m'.streams)
    ensures AllCutFully(m, m')
  {
    hide CutsFully, SameTransfer;
    forall i | 0 <= i < |m.streams| ensures CutsFully(m.streams[i], m'.streams[i]) { SameTransferCuts(m.streams[i], m'.streams[i]); }
  }

  lemma WithCuts(m: Session, id: nat, o: OutStream)
    requires id < |m.streams| && CutsFully(m.streams[id], o)
    ensures AllCutFully(m, m.With(id, o))
  {
    hide CutsFully;
    forall i | 0 <= i < |m.streams| && i != id ensures CutsFully(m.streams[i], m.With(id, o).streams[i]) { PlainCuts(m.streams[i], m.streams[i]); }
  }

  lemma BlockCuts(m: Session, id: nat)
    requires m.WellFormed() && id < |m.streams| && m.streams[id].HasBlock()
    ensures AllCutFully(m, StartBlock(m, id))
  {
    DispatchCuts(m.streams[id]);
    WithCuts(m, id, Dispatch(m.streams[id]));
  }

  lemma LeavesCuts(m: Session, id: nat, pump: Pump, phase: ClosePhase)
    requires m.WellFormed() && id < |m.streams|
    ensures AllCutFully(m, PumpLeaves(m, id, pump, phase))
  {
    GiveBackSameTransfers(m, id);
    var g := GiveBack(m, id);
    SameTransfersCut(m, g);
    var o := g.streams[id].(phase := phase);
    PlainCuts(g.streams[id], o);
    WithCuts(g, id, o);
    AllCutTrans(m, g, g.With(id, o));
  }

  lemma GrantedCuts(m: Session, id: nat)
    requires m.WellFormed() && id < |m.streams| && m.streams[id].HasBlock()
    ensures AllCutFully(m, StartBlock(m.With(id, m.streams[id].(granted := m.streams[id].granted - 1)), id))
  {
    var n := m.With(id, m.streams[id].(granted := m.streams[id].granted - 1));
    PlainCuts(m.streams[id], n.streams[id]);
    WithCuts(m, id, n.streams[id]);
    BlockCuts(n, id);
    hide AllCutFully;
    AllCutTrans(m, n, StartBlock(n, id));
  }

  lemma AcquiredCuts(m: Session, id: nat, pump: Pump)
    requires m.WellFormed() && id < |m.streams| && m.streams[id].HasBlock()
    ensures var (a, free) := Acquire(m, id); AllCutFully(m, if free then StartBlock(a, id) else a.With(id, Park(a.streams[id], pump)))
  {
    AcquireSameTransfers(m, id);
    var (a, free) := Acquire(m, id);
    assert SameTransfer(m.streams[id], a.streams[id]);
    SameTransfersCut(m, a);
    hide AllCutFully, Acquire;
    if free {
      BlockCuts(a, id);
      AllCutTrans(m, a, StartBlock(a, id));
    } else {
      PlainCuts(a.streams[id], Park(a.streams[id], pump));
      WithCuts(a, id, Park(a.streams[id], pump));
      AllCutTrans(m, a, a.With(id, Park(a.streams[id], pump)));
    }
  }

  lemma {:induction false} RunPumpCuts(m: Session, id: nat, pump: Pump)
    requires m.WellFormed() && id < |m.streams|
    ensures AllCutFully(m, RunPump(m, id, pump))
    decreases |m.streams[id].buffered|
  {
    hide AllCutFully, CutsFully, Acquire, PumpLeaves;
    var o := m.streams[id];
    if !o.HasBlock() {
      LeavesCuts(m, id, pump, DrainReady);
    } else if !o.Usable() {
      LeavesCuts(m, id, pump, PumpThrew);
    } else if o.inFlight >= o.window {
      PlainCuts(o, Park(o, pump));
      WithCuts(m, id, Park(o, pump));
    } else if o.granted > 0 {
      var s := StartBlock(m.With(id, o.(granted := o.granted - 1)), id);
      GrantedCuts(m, id);
      RunPumpCuts(s, id, pump);
      AllCutTrans(m, s, RunPump(s, id, pump));
    } else {
      AcquiredCuts(m, id, pump);
      var (a, free) := Acquire(m, id);
      if free {
        RunPumpCuts(StartBlock(a, id), id, pump);
        AllCutTrans(m, StartBlock(a, id), RunPump(StartBlock(a, id), id, pump));
      }
    }
  }

  /** The stream as an event finds it once it has taken in what it brings: the bytes of a write, or the end of them. */
  function Taken(m: Session, e: Event, id: nat): OutStream
    requires id < |m.streams|
  {
    var o := m.streams[id];
    if e.Write? && e.id == id && o.Usable() && !o.closed then o.(buffered := o.buffered + e.bytes, written := o.written + e.bytes)
    else if e.CloseCall? && e.id == id && o.Usable() then o.(closed := true)
    else o
  }

  lemma PumpStepCuts(m: Session, e: Event, id: nat)
    requires m.WellFormed() && Enabled(m, e) && id < |m.streams|
    requires e.Write? || e.ResumeWrite? || e.CloseCall? || e.ResumeClose?
    ensures id < |Step(m, e).streams| && CutsFully(Taken(m, e, id), Step(m, e).streams[id])
  {
    hide CutsFully, RunPump, Settle, Grant;
    var o := m.streams[e.id];
    PlainCuts(m.streams[id], m.streams[id]);
    match e
    case Write(x, bytes) =>
      if o.Usable() && !o.closed { StartedCuts(m, x, Taken(m, e, x), Taken(m, e, x), WritePump, id); }
    case ResumeWrite(x) => StartedCuts(m, x, o, o.(readyWrites := o.readyWrites - 1), WritePump, id);
    case CloseCall(x) =>
      if o.Usable() {
        StartedCuts(m, x, Taken(m, e, x), o.(closed := true, phase := PumpRunning), ClosePump, id);
      } else {
        PlainCuts(o, Step(m, e).streams[x]);
      }
    case ResumeClose(x) => StartedCuts(m, x, o, o.(phase := PumpRunning), ClosePump, id);
  }

  /** A pump starts on stream `x`, left as `started`, which holds what `taken` does. */
  lemma StartedCuts(m: Session, x: nat, taken: OutStream, started: OutStream, pump: Pump, id: nat)
    requires m.WellFormed() && x < |m.streams| && id < |m.streams| && started.blockSize > 0
    requires started.blockSize == taken.blockSize && started.written == taken.written && started.blocks == taken.blocks
    requires started.buffered == taken.buffered && started.closed == taken.closed && started.flushEachWrite == taken.flushEachWrite
    ensures CutsFully(if id == x then taken else m.streams[id], RunPump(m.With(x, started), x, pump).streams[id])
  {
    hide RunPump;
    RunPumpCuts(m.With(x, started), x, pump);
    PlainCuts(taken, started);
    hide CutsFully;
    if id == x { CutsTrans(taken, started, RunPump(m.With(x, started), x, pump).streams[id]); }
  }

  lemma StepCutsFully(m: Session, e: Event, id: nat)
    requires m.WellFormed() && Enabled(m, e) && id < |m.streams|
    ensures id < |Step(m, e).streams| && CutsFully(Taken(m, e, id), Step(m, e).streams[id])
  {
    hide CutsFully, RunPump, Settle, Grant, ContinueClose, CloseAnswered, Abort, PeerClosed;
    PlainCuts(m.streams[id], m.streams[id]);
    match e
    case Open(_, _, _) =>
    case Continue(x) => ContinueCuts(m.streams[x]);
    case CloseAnswer(x, refusal) => AnswerCuts(m.streams[x], refusal);
    case AbortCall(x, reason) => AbortCuts(m.streams[x], reason);
    case PeerClose(x) => AbortCuts(m.streams[x], NotFound);
    case Answer(x, k, refusal) => SettleCuts(m, x, k, refusal);
    case ReclaimTimer =>
      GrantSameTransfers(Reclaim(m));
      SameTransfersCut(Reclaim(m), Grant(Reclaim(m)));
    case Tick(_) =>
    case _ => PumpStepCuts(m, e, id);
  }

  lemma ContinueCuts(o: OutStream)
    ensures CutsFully(o, ContinueClose(o))
  {
    hide CutsFully;
    PlainCuts(o, ContinueClose(o));
  }

  lemma AnswerCuts(o: OutStream, refusal: Option<StreamError>)
    ensures CutsFully(o, CloseAnswered(o, refusal))
  {
    hide CutsFully;
    PlainCuts(o, CloseAnswered(o, refusal));
  }

  lemma AbortCuts(o: OutStream, reason: StreamError)
    ensures CutsFully(o, Abort(o, reason)) && CutsFully(o, PeerClosed(o))
  {
    hide CutsFully;
    PlainCuts(o, Abort(o, reason));
    PlainCuts(o, PeerClosed(o));
  }

  lemma SettleCuts(m: Session, x: nat, k: nat, refusal: Option<StreamError>)
    requires m.WellFormed() && x < |m.streams| && k < |m.streams[x].outcomes|
    ensures AllCutFully(m, Settle(m, x, k, refusal))
  {
    hide AllCutFully, EndSlot;
    var o := m.streams[x];
    var r := RecordOutcome(o, k, if refusal.None? then Acked else Rejection(o, refusal.value));
    PlainCuts(o, r);
    WithCuts(m, x, r);
    var n := m.With(x, r);
    EndSlotSameTransfers(n, x, k, refusal.None?);
    var e := EndSlot(n, x, k, refusal.None?);
    SameTransfersCut(n, e);
    PlainCuts(e.streams[x], WakeAfterSettle(e.streams[x]));
    WithCuts(e, x, WakeAfterSettle(e.streams[x]));
    AllCutTrans(m, n, e);
    AllCutTrans(m, e, e.With(x, WakeAfterSettle(e.streams[x])));
  }

  // ------------------------------------------------------------ over runs

  /** Without a flush after each write, only the last block may be short, and then the stream is closing and has no more. */
  predicate FullBlocks(o: OutStream) {
    !o.flushEachWrite ==> forall j :: 0 <= j < |o.blocks| ==> |o.blocks[j]| == o.blockSize || (ShortLast(o, j) && o.closed)
  }

  lemma CutsKeepFull(m: Session, e: Event, id: nat, o': OutStream)
    requires id < |m.streams| && FullBlocks(m.streams[id]) && CutsFully(Taken(m, e, id), o')
    ensures FullBlocks(o')
  {
    var o := m.streams[id];
    forall j | !o'.flushEachWrite && 0 <= j < |o'.blocks| ensures |o'.blocks[j]| == o'.blockSize || (ShortLast(o', j) && o'.closed) {
      if j < |o.blocks| { assert o'.blocks[j] == o.blocks[j]; }
    }
  }

  lemma {:induction false} EveryRunCutsFully(run: seq<Session>, limit: int, parkFloor: real, i: nat, id: nat)
    requires IsRun(run) && run[0] == Init(limit, parkFloor) && i < |run| && id < |run[i].streams|
    ensures FullBlocks(run[i].streams[id])
  {
    hide Step, Enabled, FullBlocks;
    if i > 0 {
      var m := run[i - 1];
      assert IsStep(m, run[i]);
      var e: Event :| Enabled(m, e) && run[i] == Step(m, e);
      if id < |m.streams| {
        EveryRunCutsFully(run, limit, parkFloor, i - 1, id);
        StepCutsFully(m, e, id);
        CutsKeepFull(m, e, id, run[i].streams[id]);
      } else {
        NewIsFull(m, e, id);
      }
    }
  }

  lemma NewIsFull(m: Session, e: Event, id: nat)
    requires m.WellFormed() && Enabled(m, e) && |m.streams| <= id < |Step(m, e).streams|
    ensures FullBlocks(Step(m, e).streams[id])
  {
    hide RunPump, Settle, Grant;
    if !e.Open? { SameCount(m, e); }
  }

  lemma SameCount(m: Session, e: Event)
    requires m.WellFormed() && Enabled(m, e) && !e.Open?
    ensures |Step(m, e).streams| == |m.streams|
  {
    hide RunPump, Settle, Grant;
  }

  /**
   * How the bytes are cut, in every run: a stream that does not flush each write sends full blocks only, but for a last
   * one when it closes; and on any stream a block is a full one, or all that was buffered when it left.
   */
  lemma BlocksAreFull(run: seq<Session>, limit: int, parkFloor: real, i: nat, id: nat)
    requires IsRun(run) && run[0] == Init(limit, parkFloor) && 0 < i < |run| && id < |run[i].streams|
    ensures var o := run[i].streams[id];
            && (!o.flushEachWrite ==>
                  forall j :: 0 <= j < |o.blocks| ==> |o.blocks[j]| == o.blockSize || (j == |o.blocks| - 1 && o.closed && o.buffered == []))
            && (id < |run[i - 1].streams| ==>
                  forall j :: |run[i - 1].streams[id].blocks| <= j < |o.blocks| ==>
                    |o.blocks[j]| == o.blockSize || (j == |o.blocks| - 1 && o.buffered == [] && 0 < |o.blocks[j]| < o.blockSize))
  {
    EveryRunCutsFully(run, limit, parkFloor, i, id);
    hide Step, Enabled;
    var m := run[i - 1];
    assert IsStep(m, run[i]);
    var e: Event :| Enabled(m, e) && run[i] == Step(m, e);
    if id < |m.streams| { StepCutsFully(m, e, id); }
  }
}
