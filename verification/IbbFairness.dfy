/**
 * A waiting stream's turn is a grant. The scheduler drops only streams that do not want a slot, so one that keeps
 * wanting is granted a slot after at most as many turns of others as there were streams ahead of it.
 */
module IbbFairness {
  import opened Bytes
  import opened IbbOutStream
  import opened IbbScheduler
  import opened IbbStreamSafety
  import opened IbbSchedulerSafety

  ghost predicate NewDrop(m: Session, m': Session, x: nat) {
    exists t :: |m.turns| <= t < |m'.turns| && m'.turns[t] == Dropped(x)
  }

  /** Apart from stream `own`: whoever was dropped did not want a slot, and whoever still waits is as it was. */
  ghost predicate DropsFairly(m: Session, m': Session, own: int) {
    && m.turns <= m'.turns && |m'.streams| == |m.streams|
    && (forall x: nat :: x != own && NewDrop(m, m', x) ==> x in m.queue && x < |m.streams| && !m.streams[x].Wants())
    && (forall x: nat :: x != own && x in m'.queue ==> x in m.queue && x < |m.streams| && m'.streams[x] == m.streams[x])
  }

  lemma FairlyTrans(a: Session, b: Session, c: Session, own: int)
    requires DropsFairly(a, b, own) && DropsFairly(b, c, own)
    ensures DropsFairly(a, c, own)
    ensures forall x: nat :: NewDrop(a, c, x) ==> NewDrop(a, b, x) || NewDrop(b, c, x)
  {
    forall x: nat | NewDrop(a, c, x) ensures NewDrop(a, b, x) || NewDrop(b, c, x) {
      var t :| |a.turns| <= t < |c.turns| && c.turns[t] == Dropped(x);
      if t < |b.turns| { assert b.turns[t] == Dropped(x); }
    }
  }

  /** A step of the stream's own, without a turn. */
  lemma OwnFairly(m: Session, n: Session, id: nat)
    requires n.queue == m.queue && n.turns == m.turns && |n.streams| == |m.streams| && m.WellFormed()
    requires forall x :: 0 <= x < |m.streams| && x != id ==> n.streams[x] == m.streams[x]
    ensures DropsFairly(m, n, id) && !NewDrop(m, n, id)
  {
  }

  lemma TurnFairly(m: Session)
    requires m.WellFormed() && m.queue != [] && NoDuplicates(m.queue)
    ensures DropsFairly(m, TakeTurn(m), -1) && NoDuplicates(TakeTurn(m).queue)
  {
    var t := TakeTurn(m);
    assert m.queue == [m.queue[0]] + t.queue;
  }

  lemma {:induction false} GrantFairly(m: Session)
    requires m.WellFormed() && NoDuplicates(m.queue)
    ensures DropsFairly(m, Grant(m), -1)
    decreases |m.queue|
  {
    if m.sendInFlight < m.limit && m.queue != [] {
      hide DropsFairly, NoDuplicates;
      TurnFairly(m);
      GrantFairly(TakeTurn(m));
      FairlyTrans(m, TakeTurn(m), Grant(TakeTurn(m)), -1);
    }
  }

  /** A stream that asks for a slot is not dropped by its own request. */
  lemma AcquireFairly(m: Session, id: nat)
    requires m.WellFormed() && id < |m.streams| && NoDuplicates(m.queue)
    ensures var a := Acquire(m, id).0; DropsFairly(m, a, id) && (m.streams[id].Wants() ==> !NewDrop(m, a, id))
  {
    GrantFairly(Reclaim(m));
    hide Grant, NoDuplicates;
    var g, a := Grant(Reclaim(m)), Acquire(m, id).0;
    FairlyFrom(m, Reclaim(m), g, -1);
    AskedFairly(m, g, a, id);
  }

  /** Drops are the same counted from a state with the same queue, streams and log. */
  lemma FairlyFrom(m: Session, n: Session, r: Session, own: int)
    requires DropsFairly(n, r, own) && n.queue == m.queue && n.streams == m.streams && n.turns == m.turns
    ensures DropsFairly(m, r, own)
    ensures forall x: nat :: NewDrop(m, r, x) <==> NewDrop(n, r, x)
  {
    forall x: nat ensures NewDrop(m, r, x) <==> NewDrop(n, r, x) { SameDrops(m, n, r, x); }
    hide NewDrop;
  }

  lemma SameDrops(m: Session, n: Session, r: Session, x: nat)
    requires n.turns == m.turns
    ensures NewDrop(m, r, x) <==> NewDrop(n, r, x)
  {
  }

  /** The request itself drops nobody: it takes a turn of its own, or a place at the back. */
  lemma AskedFairly(m: Session, g: Session, a: Session, id: nat)
    requires id < |m.streams| && DropsFairly(m, g, -1) && a.streams == g.streams
    requires (a.turns == g.turns && (a.queue == g.queue || a.queue == g.queue + [id])) || (a.turns == g.turns + [Direct(id)] && a.queue == g.queue)
    ensures DropsFairly(m, a, id) && (m.streams[id].Wants() ==> !NewDrop(m, a, id))
  {
    forall x: nat ensures NewDrop(m, a, x) <==> NewDrop(m, g, x) { AskedDrops(m, g, a, id, x); }
    hide NewDrop;
  }

  lemma AskedDrops(m: Session, g: Session, a: Session, id: nat, x: nat)
    requires m.turns <= g.turns && (a.turns == g.turns || a.turns == g.turns + [Direct(id)])
    ensures NewDrop(m, a, x) <==> NewDrop(m, g, x)
  {
    if NewDrop(m, g, x) {
      var t :| |m.turns| <= t < |g.turns| && g.turns[t] == Dropped(x);
      assert a.turns[t] == Dropped(x);
    }
  }

  lemma ReleaseFairly(m: Session)
    requires m.WellFormed() && NoDuplicates(m.queue)
    ensures DropsFairly(m, Release(m), -1)
  {
    var n := m.(sendInFlight := m.sendInFlight - 1);
    GrantFairly(n);
    hide NoDuplicates, Grant;
    FairlyFrom(m, n, Release(m), -1);
  }

  /** Giving one reserved slot back, then the others. */
  lemma GiveBackOne(m: Session, id: nat)
    requires m.WellFormed() && id < |m.streams|
    ensures var o := m.streams[id];
            GiveBack(m, id) == if o.granted <= 0 then m else GiveBack(Release(m.With(id, o.(granted := o.granted - 1))), id)
  {
    hide Release, Grant;
  }

  lemma {:induction false} GiveBackFairly(m: Session, id: nat)
    requires id < |m.streams| && SchedInv(m, id, 0)
    ensures DropsFairly(m, GiveBack(m, id), id)
    decreases |m.queue|, m.streams[id].granted
  {
    hide SumGranted, GrantStep, CountedInv, PumpOk, Fifo, DropsFairly, NewDrop, WakeInv, PumpInv, GiveBack, Release, GrantFrame;
    var o := m.streams[id];
    GiveBackOne(m, id);
    if o.granted > 0 {
      TakeGrantKeeps(m, id);
      var n := m.With(id, o.(granted := o.granted - 1));
      ReleaseShrinks(m, id);
      ReleaseKeeps(n, id, -1);
      ReleaseFairly(n);
      OwnFairly(m, n, id);
      FairlyOf(n, Release(n), id);
      FairlyTrans(m, n, Release(n), id);
      GiveBackFairly(Release(n), id);
      FairlyTrans(m, Release(n), GiveBack(m, id), id);
    } else {
      OwnFairly(m, m, id);
    }
  }

  lemma FairlyOf(m: Session, n: Session, id: int)
    requires DropsFairly(m, n, -1)
    ensures DropsFairly(m, n, id)
  {
  }

  /** A pump drops its own stream only when it leaves, with nothing to send or no stream to send it on. */
  lemma LeavingFairly(m: Session, id: nat, pump: Pump, phase: ClosePhase)
    requires m.WellFormed() && id < |m.streams| && SchedInv(m, id, 0) && !(m.streams[id].HasBlock() && m.streams[id].Usable())
    ensures var r := PumpLeaves(m, id, pump, phase); DropsFairly(m, r, id) && !r.streams[id].Wants()
  {
    hide SumGranted, GrantStep, CountedInv, PumpOk, Fifo, DropsFairly, WakeInv, PumpInv;
    GiveBackKeeps(m, id);
    GiveBackFairly(m, id);
    var g, r := GiveBack(m, id), PumpLeaves(m, id, pump, phase);
    OwnFairly(g, r, id);
    FairlyTrans(m, g, r, id);
  }

  lemma UniqueOf(m: Session, running: int, taken: int)
    requires SchedInv(m, running, taken)
    ensures m.WellFormed() && NoDuplicates(m.queue)
  {
  }

  /** One block sent: nobody's own turn is lost. */
  lemma SentFairly(m: Session, a: Session, id: nat)
    requires m.WellFormed() && a.WellFormed() && id < |m.streams| && DropsFairly(m, a, id) && !NewDrop(m, a, id)
    ensures DropsFairly(m, StartBlock(a, id), id) && !NewDrop(m, StartBlock(a, id), id)
  {
    OwnFairly(a, StartBlock(a, id), id);
    FairlyTrans(m, a, StartBlock(a, id), id);
  }

  lemma {:induction false} RunPumpFairly(m: Session, id: nat, pump: Pump)
    requires id < |m.streams| && SchedInv(m, id, 0)
    requires pump == ClosePump <==> m.streams[id].phase == PumpRunning
    ensures m.WellFormed()
    ensures var r := RunPump(m, id, pump); DropsFairly(m, r, id) && (NewDrop(m, r, id) ==> !r.streams[id].Wants())
    decreases |m.streams[id].buffered|
  {
    hide SchedInv, Fifo, Acquire, PumpLeaves, StartBlock, DropsFairly, NewDrop;
    UniqueOf(m, id, 0);
    var o := m.streams[id];
    if !o.HasBlock() {
      LeavingFairly(m, id, pump, DrainReady);
    } else if !o.Usable() {
      LeavingFairly(m, id, pump, PumpThrew);
    } else if o.inFlight >= o.window {
      OwnFairly(m, m.With(id, Park(o, pump)), id);
    } else if o.granted > 0 {
      SendWithGrant(m, id);
      var n := m.With(id, o.(granted := o.granted - 1));
      OwnFairly(m, n, id);
      SentFairly(m, n, id);
      RunPumpFairly(StartBlock(n, id), id, pump);
      FairlyTrans(m, StartBlock(n, id), RunPump(m, id, pump), id);
    } else {
      NotReserved(m, id);
      AcquireFairly(m, id);
      var (a, free) := Acquire(m, id);
      if free {
        SendWithSlot(m, id);
        SentFairly(m, a, id);
        RunPumpFairly(StartBlock(a, id), id, pump);
        FairlyTrans(m, StartBlock(a, id), RunPump(m, id, pump), id);
      } else {
        OwnFairly(a, RunPump(m, id, pump), id);
        FairlyTrans(m, a, RunPump(m, id, pump), id);
      }
    }
  }

  lemma NotReserved(m: Session, id: nat)
    requires id < |m.streams| && SchedInv(m, id, 0) && m.streams[id].granted <= 0
    ensures m.streams[id].granted == 0
  {
  }

  /** What a step may drop: a stream that did not want a slot before it, or does not after it. */
  ghost predicate DropsUnwilling(m: Session, m': Session) {
    forall x: nat :: NewDrop(m, m', x) ==>
      x < |m.streams| && x < |m'.streams| && !(m.streams[x].Wants() && m'.streams[x].Wants())
  }

  lemma PumpDrops(m: Session, id: nat, o: OutStream, pump: Pump)
    requires id < |m.streams| && SchedInv(m, -1, 0) && SameSlots(m.streams[id], o)
    requires pump == ClosePump <==> o.phase == PumpRunning
    ensures m.With(id, o).WellFormed()
    ensures DropsUnwilling(m, RunPump(m.With(id, o), id, pump))
  {
    hide SchedCore, WorkConserving, RunPump, DropsFairly, NewDrop;
    StartPump(m, id, o);
    var n := m.With(id, o);
    UniqueOf(m, -1, 0);
    UniqueOf(n, id, 0);
    RunPumpFairly(n, id, pump);
    OwnFairly(m, n, id);
    FairlyTrans(m, n, RunPump(n, id, pump), id);
    FairIsWilling(m, RunPump(n, id, pump), id);
  }

  lemma FairIsWilling(m: Session, m': Session, id: nat)
    requires DropsFairly(m, m', id) && id < |m.streams| && (NewDrop(m, m', id) ==> !m'.streams[id].Wants())
    ensures DropsUnwilling(m, m')
  {
  }

  /** A grant, or a wake-up, makes nobody want a slot. */
  lemma GrantStepWants(o: OutStream, o': OutStream)
    requires GrantStep(o, o') && o'.Wants()
    ensures o.Wants()
  {
  }

  lemma SettleDrops(m: Session, id: nat, k: nat, refusal: Option<StreamError>)
    requires id < |m.streams| && k < |m.streams[id].outcomes| && SchedInv(m, -1, 0)
    ensures m.WellFormed() && DropsUnwilling(m, Settle(m, id, k, refusal))
  {
    hide SchedCore, WorkConserving, Fifo, Release, RecordOutcome, DropsFairly, NewDrop;
    UniqueOf(m, -1, 0);
    var o := m.streams[id];
    var outcome := if refusal.None? then Acked else Rejection(o, refusal.value);
    var i := SlotIndex(m.counted, id, k);
    var n := m.With(id, RecordOutcome(o, k, outcome));
    var s := Settle(m, id, k, refusal);
    if i == |m.counted| {
      OwnFairly(m, s, id);
    } else {
      var latency := if refusal.None? then Some(Smoothed(m.latency, m.now - m.counted[i].at)) else m.latency;
      PumpOkAt(m, id);
      RecordKeepsCounted(m, id, k, outcome, latency);
      var n' := n.(counted := m.counted[..i] + m.counted[i + 1..], latency := latency);
      ReleaseKeeps(n', -1, id);
      ReleaseFairly(n');
      SettledDrops(m, n', Release(n'), s, id);
    }
    FairIsWilling(m, s, id);
  }

  lemma SettledDrops(m: Session, n: Session, r: Session, s: Session, id: nat)
    requires m.WellFormed() && id < |m.streams| && n.queue == m.queue && n.turns == m.turns && |n.streams| == |m.streams|
    requires forall x :: 0 <= x < |m.streams| && x != id ==> n.streams[x] == m.streams[x]
    requires n.WellFormed() && r.WellFormed() && DropsFairly(n, r, -1) && GrantFrame(n, r)
    requires s == r.With(id, WakeAfterSettle(r.streams[id]))
    ensures DropsFairly(m, s, id) && (NewDrop(m, s, id) ==> !s.streams[id].Wants())
  {
    hide DropsFairly, GrantStep;
    OwnFairly(m, n, id);
    FairlyOf(n, r, id);
    FairlyTrans(m, n, r, id);
    OwnFairly(r, s, id);
    FairlyTrans(m, r, s, id);
    if NewDrop(m, s, id) && s.streams[id].Wants() {
      assert NewDrop(n, r, id);
      GrantStepWants(n.streams[id], r.streams[id]);
      DroppedUnwilling(n, r, id);
    }
  }

  lemma DroppedUnwilling(m: Session, m': Session, x: nat)
    requires DropsFairly(m, m', -1) && NewDrop(m, m', x)
    ensures x < |m.streams| && !m.streams[x].Wants()
  {
  }

  lemma TimerDrops(m: Session)
    requires SchedInv(m, -1, 0)
    ensures m.WellFormed() && DropsUnwilling(m, Grant(Reclaim(m)))
  {
    GrantFairly(Reclaim(m));
    hide SchedInv, Grant;
    FairlyFrom(m, Reclaim(m), Grant(Reclaim(m)), -1);
  }

  lemma NoTurnNoDrop(m: Session, m': Session)
    requires m'.turns == m.turns
    ensures DropsUnwilling(m, m')
  {
  }

  lemma StepDropsUnwilling(m: Session, e: Event)
    requires m.WellFormed() && Enabled(m, e) && SchedInv(m, -1, 0)
    ensures DropsUnwilling(m, Step(m, e))
  {
    hide SchedInv, RunPump, Settle, Grant, ContinueClose, CloseAnswered, Abort, PeerClosed, DropsUnwilling;
    match e
    case Write(id, bytes) =>
      var o := m.streams[id];
      PumpOkAt(m, id);
      NoTurnNoDrop(m, m);
      if o.Usable() && !o.closed {
        PumpDrops(m, id, o.(buffered := o.buffered + bytes, written := o.written + bytes), WritePump);
      }
    case ResumeWrite(id) =>
      PumpOkAt(m, id);
      PumpDrops(m, id, m.streams[id].(readyWrites := m.streams[id].readyWrites - 1), WritePump);
    case CloseCall(id) =>
      var o := m.streams[id];
      PumpOkAt(m, id);
      if o.Usable() { PumpDrops(m, id, o.(closed := true, phase := PumpRunning), ClosePump); }
      else { NoTurnNoDrop(m, Step(m, e)); }
    case ResumeClose(id) => PumpDrops(m, id, m.streams[id].(phase := PumpRunning), ClosePump);
    case Answer(id, k, refusal) => SettleDrops(m, id, k, refusal);
    case ReclaimTimer => TimerDrops(m);
    case _ => NoTurnNoDrop(m, Step(m, e));
  }

  /** The turn that stood `p` places behind the last one taken in `m` was taken by `m'`, and was a grant to `id`. */
  predicate Served(m: Session, m': Session, id: nat, p: nat) {
    |m.turns| + p < |m'.turns| && m'.turns[|m.turns| + p] == Granted(id)
  }

  /**
   * A stream at position `p` that keeps wanting a slot until it has one: the p-th turn from now is logged as its
   * grant, or it is still waiting, one place further up for every turn taken. So at most `p` turns of others, grants
   * included, come before its own grant.
   */
  lemma {:induction false} KeepsWantingIsGranted(run: seq<Session>, limit: int, parkFloor: real, i: nat, j: nat, p: nat)
    requires IsRun(run) && run[0] == Init(limit, parkFloor) && limit >= 1 && i <= j < |run| && p < |run[i].queue|
    requires forall k :: i <= k <= j ==>
               Served(run[i], run[k], run[i].queue[p], p)
               || (run[i].queue[p] < |run[k].streams| && run[k].streams[run[i].queue[p]].Wants())
    ensures var id, q := run[i].queue[p], |run[i].turns| + p - |run[j].turns|;
            Served(run[i], run[j], id, p) || (0 <= q < |run[j].queue| && run[j].queue[q] == id)
    decreases j - i
  {
    hide Step, Enabled, Init, SchedInv, Fifo, InOrder, DropsUnwilling;
    var id := run[i].queue[p];
    if i < j {
      TurnsAreFair(run, limit, parkFloor, i, j);
      PlaceOf(run[i], run[j], p);
      KeepsWantingIsGranted(run, limit, parkFloor, i, j - 1, p);
      TurnsAreFair(run, limit, parkFloor, j - 1, j);
      EveryRunSchedules(run, limit, parkFloor, j - 1);
      assert IsStep(run[j - 1], run[j]);
      var e: Event :| Enabled(run[j - 1], e) && run[j] == Step(run[j - 1], e);
      StepDropsUnwilling(run[j - 1], e);
      hide IsRun;
      TurnIsGrant(run[i], run[j - 1], run[j], id, p);
    }
  }

  lemma PlaceOf(m: Session, m': Session, p: nat)
    requires Fifo(m, m') && p < |m.queue|
    ensures InOrder(|m.turns|, m.queue[p], p, m')
  {
  }

  lemma TurnIsGrant(m: Session, a: Session, b: Session, id: nat, p: nat)
    requires Fifo(a, b) && DropsUnwilling(a, b) && InOrder(|m.turns|, id, p, b)
    requires Served(m, a, id, p) || (|m.turns| + p >= |a.turns| && id < |a.streams| && a.streams[id].Wants())
    requires Served(m, b, id, p) || (id < |b.streams| && b.streams[id].Wants())
    ensures Served(m, b, id, p) || (0 <= |m.turns| + p - |b.turns| < |b.queue| && b.queue[|m.turns| + p - |b.turns|] == id)
  {
    var t := |m.turns| + p;
    if |a.turns| <= t < |b.turns| && b.turns[t].Dropped? {
      assert NewDrop(a, b, id);
    }
  }
}
