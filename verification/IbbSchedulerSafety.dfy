/**
 * What the session scheduler keeps in every run: exact accounting of the budget, no idle slot while
 * anyone waits, no parked pump without a wake-up to come, and first-come-first-served turns.
 */
module IbbSchedulerSafety {
  import opened Bytes
  import opened IbbOutStream
  import opened IbbScheduler
  import opened IbbStreamSafety

  // ------------------------------------------------------------ the invariant

  function SumGranted(streams: seq<OutStream>): int {
    if streams == [] then 0
    else SumGranted(streams[..|streams| - 1]) + streams[|streams| - 1].granted
  }

  /** The budget in use is exactly the counted blocks plus the unused grants, plus what a running pump just took. */
  ghost predicate Accounting(m: Session, taken: int) {
    && m.limit >= 1
    && m.sendInFlight == |m.counted| + SumGranted(m.streams) + taken
    && m.sendInFlight <= m.limit
    && (forall i :: 0 <= i < |m.streams| ==> m.streams[i].granted >= 0)
  }

  ghost predicate SlotInv(m: Session, s: Slot) {
    && s.id < |m.streams|
    && s.ordinal < |m.streams[s.id].outcomes|
    && m.streams[s.id].outcomes[s.ordinal] == Pending
    && s.at <= m.now
  }

  ghost predicate SameBlock(s: Slot, t: Slot) { s.id == t.id && s.ordinal == t.ordinal }

  /** Every counted slot is a block in flight, counted once; the slots are in dispatch order. */
  ghost predicate CountedInv(m: Session) {
    && (forall i :: 0 <= i < |m.counted| ==> SlotInv(m, m.counted[i]))
    && (forall i, j :: 0 <= i < j < |m.counted| ==>
          m.counted[i].at <= m.counted[j].at && !SameBlock(m.counted[i], m.counted[j]))
  }

  ghost predicate NoDuplicates(queue: seq<nat>) {
    forall i, j :: 0 <= i < j < |queue| ==> queue[i] != queue[j]
  }

  /** Nobody waits while a slot is free. */
  ghost predicate WorkConserving(m: Session) {
    m.queue != [] ==> m.sendInFlight == m.limit
  }

  /** A parked pump has a block in flight, whose answer wakes it, or a place in the queue. */
  ghost predicate WakeInv(m: Session, exempt: int) {
    forall i :: 0 <= i < |m.streams| && i != exempt && m.streams[i].AnyParked() ==>
      m.streams[i].inFlight > 0 || i in m.queue
  }

  ghost predicate PumpOk(o: OutStream) {
    && ((o.Usable() && o.HasBlock()) || o.granted > 0 ==> o.AnyParked() || o.AnyReady())
    && o.phase != PumpRunning
  }

  /** Between steps, a stream with a block to send, or with a slot reserved, has a pump to do it. */
  ghost predicate PumpInv(m: Session, running: int) {
    forall i :: 0 <= i < |m.streams| && i != running ==> PumpOk(m.streams[i])
  }

  ghost predicate WindowsPositive(streams: seq<OutStream>) {
    forall i :: 0 <= i < |streams| ==> streams[i].window > 0 && |streams[i].outcomes| == |streams[i].blocks|
  }

  ghost predicate SchedCore(m: Session, running: int, exempt: int, taken: int) {
    && m.WellFormed() && WindowsPositive(m.streams)
    && Accounting(m, taken) && CountedInv(m) && NoDuplicates(m.queue)
    && WakeInv(m, exempt) && PumpInv(m, running)
  }

  /** The scheduler's invariant while the pump of stream `running` runs (-1: between steps). */
  ghost predicate SchedInv(m: Session, running: int, taken: int) {
    SchedCore(m, running, -1, taken) && WorkConserving(m)
  }

  // ------------------------------------------------------------ turns

  /**
   * A stream that stood at position `p` when `before` turns had been taken: either the turn `p` places
   * on was its own, or it has moved up one place for every turn taken since.
   */
  ghost predicate InOrder(before: nat, id: nat, p: nat, m: Session) {
    if before + p < |m.turns| then !m.turns[before + p].Direct? && m.turns[before + p].id == id
    else 0 <= before + p - |m.turns| < |m.queue| && m.queue[before + p - |m.turns|] == id
  }

  /** Turns are only added, and the waiting streams take theirs in order. */
  ghost predicate Fifo(m: Session, m': Session) {
    && m'.limit == m.limit
    && |m.turns| <= |m'.turns|
    && (forall j :: 0 <= j < |m.turns| ==> m'.turns[j] == m.turns[j])
    && (forall p :: 0 <= p < |m.queue| ==> InOrder(|m.turns|, m.queue[p], p, m'))
  }

  lemma FifoTrans(a: Session, b: Session, c: Session)
    requires Fifo(a, b) && Fifo(b, c)
    ensures Fifo(a, c)
  {
    forall p | 0 <= p < |a.queue| ensures InOrder(|a.turns|, a.queue[p], p, c) {
      assert InOrder(|a.turns|, a.queue[p], p, b);
      var q := |a.turns| + p - |b.turns|;
      if q >= 0 { assert InOrder(|b.turns|, b.queue[q], q, c); }
    }
  }

  // ------------------------------------------------------------ what granting does to a stream

  /** A stream after some rounds of granting. */
  ghost predicate GrantStep(o: OutStream, o': OutStream) {
    && SameTransfer(o, o')
    && (o'.AnyParked() || o'.AnyReady() <==> o.AnyParked() || o.AnyReady())
    && (o'.AnyParked() ==> o.AnyParked())
    && o'.granted >= o.granted
    && (o.AnyReady() ==> o'.AnyReady())
    && (o'.granted > o.granted ==> o.Usable() && o.HasBlock() && (o.AnyParked() ==> o'.AnyReady()))
  }

  /** Scheduler steps: streams are granted and woken, and whoever left the queue was woken. */
  ghost predicate GrantFrame(m: Session, g: Session) {
    && |g.streams| == |m.streams|
    && g.limit == m.limit && g.now == m.now && g.latency == m.latency && g.parkFloor == m.parkFloor
    && (forall i :: 0 <= i < |m.streams| ==> GrantStep(m.streams[i], g.streams[i]))
    && (forall i :: 0 <= i < |m.streams| && i in m.queue && i !in g.queue ==> !g.streams[i].AnyParked())
  }

  lemma {:induction false} SumUpdate(streams: seq<OutStream>, id: nat, o: OutStream)
    requires id < |streams|
    ensures SumGranted(streams[id := o]) == SumGranted(streams) - streams[id].granted + o.granted
  {
    var last := |streams| - 1;
    if id == last {
      assert streams[id := o][..last] == streams[..last];
    } else {
      assert streams[id := o][..last] == streams[..last][id := o];
      SumUpdate(streams[..last], id, o);
    }
  }

  lemma {:induction false} SumNonNegative(streams: seq<OutStream>, id: nat)
    requires id < |streams| && forall i :: 0 <= i < |streams| ==> streams[i].granted >= 0
    ensures SumGranted(streams) >= streams[id].granted
    decreases |streams|
  {
    var last := |streams| - 1;
    if |streams| > 1 {
      if id < last { SumNonNegative(streams[..last], id); } else { SumNonNegative(streams[..last], 0); }
    }
  }

  lemma GrantFrameTrans(a: Session, b: Session, c: Session)
    requires GrantFrame(a, b) && GrantFrame(b, c)
    requires forall i :: i in c.queue ==> i in b.queue
    ensures GrantFrame(a, c)
  {
    forall i | 0 <= i < |a.streams| ensures GrantStep(a.streams[i], c.streams[i]) {
      GrantStepTrans(a.streams[i], b.streams[i], c.streams[i]);
    }
    forall i | 0 <= i < |a.streams| && i in a.queue && i !in c.queue ensures !c.streams[i].AnyParked() {
      assert GrantStep(b.streams[i], c.streams[i]);
    }
  }

  lemma GrantStepTrans(a: OutStream, b: OutStream, c: OutStream)
    requires GrantStep(a, b) && GrantStep(b, c)
    ensures GrantStep(a, c)
  {
  }

  lemma TakeTurnFrame(m: Session)
    requires m.WellFormed() && m.queue != [] && NoDuplicates(m.queue)
    ensures var t := TakeTurn(m); NoDuplicates(t.queue) && GrantFrame(m, t) && Fifo(m, t)
  {
    var id := m.queue[0];
    var t := TakeTurn(m);
    assert GrantStep(m.streams[id], t.streams[id]);
    forall i | 0 <= i < |m.streams| && i in m.queue && i !in t.queue ensures !t.streams[i].AnyParked() {
      assert m.queue == [id] + t.queue;
      assert i == id;
    }
  }

  lemma TakeTurnKeeps(m: Session, taken: int)
    requires m.WellFormed() && m.queue != [] && m.sendInFlight < m.limit
    requires Accounting(m, taken)
    ensures Accounting(TakeTurn(m), taken)
  {
    var id := m.queue[0];
    SumUpdate(m.streams, id, TakeTurn(m).streams[id]);
  }

  lemma {:induction false} GrantKeeps(m: Session, taken: int)
    requires m.WellFormed() && Accounting(m, taken) && NoDuplicates(m.queue)
    ensures var g := Grant(m);
            && Accounting(g, taken) && NoDuplicates(g.queue) && WorkConserving(g)
            && (g.sendInFlight < g.limit ==> g.queue == [])
            && (forall i :: i in g.queue ==> i in m.queue)
            && g.counted == m.counted && GrantFrame(m, g) && Fifo(m, g)
    decreases |m.queue|
  {
    if m.sendInFlight < m.limit && m.queue != [] {
      hide GrantStep, SumGranted;
      TakeTurnKeeps(m, taken);
      TakeTurnFrame(m);
      var t := TakeTurn(m);
      GrantKeeps(t, taken);
      GrantFrameTrans(m, t, Grant(t));
      FifoTrans(m, t, Grant(t));
    } else {
      assert forall i :: 0 <= i < |m.streams| ==> GrantStep(m.streams[i], m.streams[i]);
    }
  }

  // ------------------------------------------------------------ every step keeps the invariant

  lemma FrameKeeps(m: Session, g: Session, running: int, exempt: int)
    requires GrantFrame(m, g) && WindowsPositive(m.streams) && WakeInv(m, exempt) && PumpInv(m, running)
    ensures WindowsPositive(g.streams) && WakeInv(g, exempt) && PumpInv(g, running)
  {
    forall i | 0 <= i < |g.streams|
      ensures g.streams[i].window > 0 && |g.streams[i].outcomes| == |g.streams[i].blocks|
      ensures i != running ==> PumpOk(g.streams[i])
    {
      assert GrantStep(m.streams[i], g.streams[i]);
    }
    forall i | 0 <= i < |g.streams| && i != exempt && g.streams[i].AnyParked()
      ensures g.streams[i].inFlight > 0 || i in g.queue
    {
      assert GrantStep(m.streams[i], g.streams[i]);
    }
  }

  lemma FrameTransfer(m: Session, g: Session, i: nat)
    requires GrantFrame(m, g) && i < |m.streams|
    ensures SameTransfer(m.streams[i], g.streams[i])
  {
    assert GrantStep(m.streams[i], g.streams[i]);
  }

  lemma WellFormedOf(m: Session, running: int, taken: int)
    requires SchedInv(m, running, taken)
    ensures m.WellFormed()
  {
  }

  lemma FrameKeepsCounted(m: Session, g: Session)
    requires GrantFrame(m, g) && g.counted == m.counted && CountedInv(m)
    ensures CountedInv(g)
  {
    forall i | 0 <= i < |g.counted| ensures SlotInv(g, g.counted[i]) {
      assert SlotInv(m, m.counted[i]);
      assert GrantStep(m.streams[m.counted[i].id], g.streams[m.counted[i].id]);
    }
  }

  lemma GrantKeepsCore(m: Session, running: int, exempt: int, taken: int)
    requires SchedCore(m, running, exempt, taken)
    ensures SchedCore(Grant(m), running, exempt, taken) && WorkConserving(Grant(m))
  {
    hide GrantStep, SumGranted, Grant;
    GrantKeeps(m, taken);
    FrameKeeps(m, Grant(m), running, exempt);
    FrameKeepsCounted(m, Grant(m));
  }

  lemma ReclaimKeeps(m: Session, running: int, exempt: int, taken: int)
    requires SchedCore(m, running, exempt, taken)
    ensures SchedCore(Reclaim(m), running, exempt, taken)
  {
    var r := Reclaim(m);
    forall i | 0 <= i < |r.counted| ensures SlotInv(r, r.counted[i]) {
      assert r.counted[i] == m.counted[Swept(m) + i];
      assert SlotInv(m, m.counted[Swept(m) + i]);
    }
  }

  lemma ReclaimGrantFrame(m: Session, taken: int)
    requires m.WellFormed() && Accounting(m, taken) && NoDuplicates(m.queue)
    ensures var g := Grant(Reclaim(m)); GrantFrame(m, g) && Fifo(m, g) && (g.sendInFlight < g.limit ==> g.queue == [])
  {
    GrantKeeps(Reclaim(m), taken);
  }

  /** A slot now means nobody was waiting; no slot means a place in the queue. */
  lemma AcquireKeeps(m: Session, id: nat)
    requires id < |m.streams| && SchedInv(m, id, 0)
    ensures var (a, free) := Acquire(m, id);
            && SchedInv(a, id, if free then 1 else 0)
            && (if free then a.queue == [] else id in a.queue && a.sendInFlight == a.limit)
            && GrantFrame(m, a) && Fifo(m, a)
  {
    hide Grant, SumGranted, CountedInv, GrantStep, PumpOk;
    var g := Grant(Reclaim(m));
    ReclaimKeeps(m, id, -1, 0);
    GrantKeepsCore(Reclaim(m), id, -1, 0);
    ReclaimGrantFrame(m, 0);
    var (a, free) := Acquire(m, id);
    assert a.streams == g.streams && a.counted == g.counted && a.now == g.now;
    assert CountedInv(a) by { CountedOf(g, a); }
    FrameKeeps(m, g, id, -1);
    if !free {
      assert WakeInv(a, -1);
      AcquireFifo(m, g, a);
    } else {
      AcquireFifo(m, g, a);
    }
  }

  lemma CountedOf(g: Session, a: Session)
    requires CountedInv(g) && a.streams == g.streams && a.counted == g.counted && a.now == g.now
    ensures CountedInv(a)
  {
    forall i | 0 <= i < |a.counted| ensures SlotInv(a, a.counted[i]) { assert SlotInv(g, g.counted[i]); }
  }

  /** A direct turn, or joining the back of the queue, keeps everyone's place. */
  lemma AcquireFifo(m: Session, g: Session, a: Session)
    requires Fifo(m, g) && a.limit == g.limit
    requires (a.turns == g.turns && g.queue <= a.queue) || (g.queue == [] && a.queue == [] && |a.turns| == |g.turns| + 1 && g.turns <= a.turns)
    ensures Fifo(m, a)
  {
    forall p | 0 <= p < |m.queue| ensures InOrder(|m.turns|, m.queue[p], p, a) {
      assert InOrder(|m.turns|, m.queue[p], p, g);
    }
  }

  lemma ReleaseKeeps(m: Session, running: int, exempt: int)
    requires SchedCore(m, running, exempt, 1)
    ensures SchedCore(Release(m), running, exempt, 0) && WorkConserving(Release(m))
    ensures GrantFrame(m, Release(m)) && Fifo(m, Release(m))
  {
    hide Grant, SumGranted, GrantStep;
    var n := m.(sendInFlight := m.sendInFlight - 1);
    CountedOf(m, n);
    GrantKeepsCore(n, running, exempt, 0);
    GrantKeeps(n, 0);
  }

  /** Replacing the running stream by one that differs only where no counted block or waiting pump is concerned. */
  lemma WithKeepsCounted(m: Session, id: nat, o: OutStream)
    requires id < |m.streams| && CountedInv(m)
    requires |m.streams[id].outcomes| <= |o.outcomes|
    requires forall k :: 0 <= k < |m.streams[id].outcomes| ==> o.outcomes[k] == m.streams[id].outcomes[k]
    ensures CountedInv(m.With(id, o))
  {
    var n := m.With(id, o);
    forall i | 0 <= i < |n.counted| ensures SlotInv(n, n.counted[i]) { assert SlotInv(m, m.counted[i]); }
  }

  /** One unused grant is taken back from the stream: by its pump to use it, or to give it up. */
  lemma TakeGrantKeeps(m: Session, id: nat)
    requires id < |m.streams| && SchedInv(m, id, 0) && m.streams[id].granted > 0
    ensures var o := m.streams[id]; SchedInv(m.With(id, o.(granted := o.granted - 1)), id, 1)
  {
    var o := m.streams[id];
    var o' := o.(granted := o.granted - 1);
    SumUpdate(m.streams, id, o');
    WithKeepsCounted(m, id, o');
  }

  lemma {:induction false} GiveBackKeeps(m: Session, id: nat)
    requires id < |m.streams| && SchedInv(m, id, 0)
    ensures var g := GiveBack(m, id);
            SchedInv(g, id, 0) && g.streams[id].granted == 0 && SameTransfer(m.streams[id], g.streams[id]) && Fifo(m, g)
    decreases |m.queue|, m.streams[id].granted
  {
    hide SumGranted, GrantStep, CountedInv, PumpOk;
    var o := m.streams[id];
    if o.granted > 0 {
      TakeGrantKeeps(m, id);
      var n := m.With(id, o.(granted := o.granted - 1));
      GrantShrinks(n.(sendInFlight := n.sendInFlight - 1), id);
      ReleaseKeeps(n, id, -1);
      var r := Release(n);
      FrameTransfer(n, r, id);
      GiveBackKeeps(r, id);
      FifoTrans(m, r, GiveBack(r, id));
    }
  }

  /** The new block's slot is the youngest, and its block no other's. */
  lemma StartCounted(m: Session, id: nat)
    requires id < |m.streams| && SchedInv(m, id, 1)
    ensures CountedInv(StartBlock(m, id))
  {
    var o := m.streams[id];
    var s := StartBlock(m, id);
    WithKeepsCounted(m, id, Dispatch(o));
    var slot := Slot(id, |o.blocks|, m.now);
    assert SlotInv(s, slot);
    forall i | 0 <= i < |s.counted| ensures SlotInv(s, s.counted[i])
    {
      if i < |m.counted| { assert SlotInv(m.With(id, Dispatch(o)), m.counted[i]); }
    }
    forall i | 0 <= i < |m.counted| ensures m.counted[i].at <= slot.at && !SameBlock(m.counted[i], slot) {
      assert SlotInv(m, m.counted[i]);
    }
  }

  lemma StartBlockKeeps(m: Session, id: nat)
    requires id < |m.streams| && SchedInv(m, id, 1)
    ensures SchedInv(StartBlock(m, id), id, 0) && Fifo(m, StartBlock(m, id))
  {
    StartCounted(m, id);
    SumUpdate(m.streams, id, Dispatch(m.streams[id]));
    hide CountedInv, SumGranted;
    assert WakeInv(StartBlock(m, id), -1);
  }

  /** The stream's own pump has stopped and left the stream as `o`. */
  lemma PumpStopped(m: Session, id: nat, o: OutStream)
    requires id < |m.streams| && SchedInv(m, id, 0)
    requires o == m.streams[id].(phase := o.phase, parkedWrites := o.parkedWrites)
    requires PumpOk(o)
    requires o.AnyParked() ==> m.streams[id].AnyParked() || m.streams[id].inFlight > 0 || id in m.queue
    ensures SchedInv(m.With(id, o), -1, 0)
  {
    var n := m.With(id, o);
    SumUpdate(m.streams, id, o);
    WithKeepsCounted(m, id, o);
    assert Accounting(n, 0);
    assert PumpInv(n, -1);
    assert WakeInv(n, -1);
  }

  lemma PumpLeavesKeepsSched(m: Session, id: nat, pump: Pump, phase: ClosePhase)
    requires id < |m.streams| && SchedInv(m, id, 0)
    requires pump == ClosePump <==> m.streams[id].phase == PumpRunning
    requires !(m.streams[id].Usable() && m.streams[id].HasBlock())
    requires phase == PumpThrew || phase == DrainReady
    ensures SchedInv(PumpLeaves(m, id, pump, phase), -1, 0) && Fifo(m, PumpLeaves(m, id, pump, phase))
  {
    hide SumGranted, CountedInv, WakeInv, PumpInv, Fifo, NoDuplicates, GiveBack, WindowsPositive, WorkConserving;
    GiveBackKeeps(m, id);
    var g := GiveBack(m, id);
    var o := if pump == ClosePump then g.streams[id].(phase := phase) else g.streams[id];
    PumpStopped(g, id, o);
    assert g.With(id, o) == PumpLeaves(m, id, pump, phase);
    SameFifo(g, g.With(id, o));
    FifoTrans(m, g, g.With(id, o));
  }

  lemma ParkKeepsSched(m: Session, id: nat, pump: Pump)
    requires id < |m.streams| && SchedInv(m, id, 0)
    requires pump == ClosePump <==> m.streams[id].phase == PumpRunning
    requires m.streams[id].inFlight >= m.streams[id].window || id in m.queue
    ensures SchedInv(m.With(id, Park(m.streams[id], pump)), -1, 0)
  {
    PumpStopped(m, id, Park(m.streams[id], pump));
  }

  /** One turn of the pump's loop that sends a block; `s` is the session afterwards. */
  ghost predicate SentOne(m: Session, s: Session, id: nat) {
    && id < |m.streams| && |s.streams| == |m.streams| && SchedInv(s, id, 0) && Fifo(m, s)
    && (s.streams[id].phase == PumpRunning <==> m.streams[id].phase == PumpRunning)
  }

  lemma SendWithGrant(m: Session, id: nat)
    requires id < |m.streams| && SchedInv(m, id, 0) && m.streams[id].granted > 0
    ensures var o := m.streams[id];
            SentOne(m, StartBlock(m.With(id, o.(granted := o.granted - 1)), id), id)
  {
    hide SchedCore, WorkConserving, Fifo;
    WellFormedOf(m, id, 0);
    TakeGrantKeeps(m, id);
    var o := m.streams[id];
    var n := m.With(id, o.(granted := o.granted - 1));
    WellFormedOf(n, id, 1);
    SameFifo(m, n);
    StartBlockKeeps(n, id);
    FifoTrans(m, n, StartBlock(n, id));
  }

  lemma SendWithSlot(m: Session, id: nat)
    requires id < |m.streams| && SchedInv(m, id, 0) && Acquire(m, id).1
    ensures SentOne(m, StartBlock(Acquire(m, id).0, id), id)
  {
    hide SchedCore, WorkConserving, Fifo, GrantStep;
    WellFormedOf(m, id, 0);
    AcquireKeeps(m, id);
    var (a, free) := Acquire(m, id);
    WellFormedOf(a, id, 1);
    FrameTransfer(m, a, id);
    StartBlockKeeps(a, id);
    FifoTrans(m, a, StartBlock(a, id));
  }

  lemma ParkInQueue(m: Session, id: nat, pump: Pump)
    requires id < |m.streams| && SchedInv(m, id, 0) && !Acquire(m, id).1
    requires pump == ClosePump <==> m.streams[id].phase == PumpRunning
    ensures var a := Acquire(m, id).0; var p := a.With(id, Park(a.streams[id], pump));
            SchedInv(p, -1, 0) && Fifo(m, p)
  {
    hide SchedCore, WorkConserving, Fifo, GrantStep;
    WellFormedOf(m, id, 0);
    AcquireKeeps(m, id);
    var (a, free) := Acquire(m, id);
    FrameTransfer(m, a, id);
    ParkKeepsSched(a, id, pump);
    var p := a.With(id, Park(a.streams[id], pump));
    SameFifo(a, p);
    FifoTrans(m, a, p);
  }

  lemma {:induction false} RunPumpKeepsSched(m: Session, id: nat, pump: Pump)
    requires id < |m.streams| && SchedInv(m, id, 0)
    requires pump == ClosePump <==> m.streams[id].phase == PumpRunning
    ensures SchedInv(RunPump(m, id, pump), -1, 0) && Fifo(m, RunPump(m, id, pump))
    decreases |m.streams[id].buffered|
  {
    hide SchedInv, Fifo, Acquire, PumpLeaves;
    WellFormedOf(m, id, 0);
    var o := m.streams[id];
    if !o.HasBlock() {
      PumpLeavesKeepsSched(m, id, pump, DrainReady);
    } else if !o.Usable() {
      PumpLeavesKeepsSched(m, id, pump, PumpThrew);
    } else if o.inFlight >= o.window {
      ParkKeepsSched(m, id, pump);
      SameFifo(m, m.With(id, Park(o, pump)));
    } else if o.granted > 0 {
      SendWithGrant(m, id);
      var s := StartBlock(m.With(id, o.(granted := o.granted - 1)), id);
      RunPumpKeepsSched(s, id, pump);
      FifoTrans(m, s, RunPump(s, id, pump));
    } else if Acquire(m, id).1 {
      SendWithSlot(m, id);
      var s := StartBlock(Acquire(m, id).0, id);
      RunPumpKeepsSched(s, id, pump);
      FifoTrans(m, s, RunPump(s, id, pump));
    } else {
      ParkInQueue(m, id, pump);
    }
  }

  lemma SameFifo(m: Session, n: Session)
    requires n.queue == m.queue && n.turns == m.turns && n.limit == m.limit
    ensures Fifo(m, n)
  {
  }

  // ------------------------------------------------------------ the events

  /** What the scheduler's invariant rests on in a stream, apart from its pumps. */
  predicate SameSlots(o: OutStream, o': OutStream) {
    && o'.outcomes == o.outcomes && o'.blocks == o.blocks && o'.granted == o.granted
    && o'.window == o.window && o'.blockSize == o.blockSize && o'.inFlight == o.inFlight
    && (o'.AnyParked() ==> o.AnyParked())
  }

  lemma StartPump(m: Session, id: nat, o: OutStream)
    requires id < |m.streams| && SchedInv(m, -1, 0) && SameSlots(m.streams[id], o)
    ensures SchedInv(m.With(id, o), id, 0)
  {
    SumUpdate(m.streams, id, o);
    WithKeepsCounted(m, id, o);
    assert WakeInv(m.With(id, o), -1);
  }

  lemma PlainStep(m: Session, id: nat, o: OutStream)
    requires id < |m.streams| && SchedInv(m, -1, 0) && SameSlots(m.streams[id], o) && PumpOk(o)
    ensures SchedInv(m.With(id, o), -1, 0) && Fifo(m, m.With(id, o))
  {
    hide SumGranted, CountedInv, PumpOk, NoDuplicates;
    StartPump(m, id, o);
    var n := m.With(id, o);
    assert PumpInv(n, -1);
    SameFifo(m, n);
  }

  lemma RecordKeepsCore(m: Session, id: nat, k: nat, outcome: Outcome)
    requires id < |m.streams| && k < |m.streams[id].outcomes| && SchedInv(m, -1, 0)
    requires SlotIndex(m.counted, id, k) == |m.counted|
    ensures var n := m.With(id, RecordOutcome(m.streams[id], k, outcome));
            SchedCore(n, -1, id, 0) && WorkConserving(n)
  {
    var o := RecordOutcome(m.streams[id], k, outcome);
    var n := m.With(id, o);
    SumUpdate(m.streams, id, o);
    PumpOkAt(m, id);
    RecordIsPlain(m.streams[id], k, outcome);
    hide CountedInv, SumGranted, RecordOutcome, PumpOk, SlotIndex;
    UncountedStays(m, n, id, k);
    assert PumpInv(n, -1) by { hide Accounting, WakeInv, NoDuplicates; }
    assert WakeInv(n, id) by { hide Accounting, PumpInv, NoDuplicates; }
  }

  lemma UncountedStays(m: Session, n: Session, id: nat, k: nat)
    requires id < |m.streams| && CountedInv(m) && SlotIndex(m.counted, id, k) == |m.counted|
    requires n.counted == m.counted && n.now == m.now && |n.streams| == |m.streams| && |n.streams[id].outcomes| == |m.streams[id].outcomes|
    requires forall x :: 0 <= x < |m.streams| && x != id ==> n.streams[x] == m.streams[x]
    requires forall x :: 0 <= x < |m.streams[id].outcomes| && x != k ==> n.streams[id].outcomes[x] == m.streams[id].outcomes[x]
    ensures CountedInv(n)
  {
    forall i | 0 <= i < |n.counted| ensures SlotInv(n, n.counted[i]) { assert SlotInv(m, m.counted[i]); }
  }

  lemma RecordedCounted(m: Session, n: Session, id: nat, k: nat, i: nat)
    requires id < |m.streams| && k < |m.streams[id].outcomes| && CountedInv(m)
    requires i < |m.counted| && m.counted[i].id == id && m.counted[i].ordinal == k
    requires |n.streams| == |m.streams| && n.now == m.now
    requires forall x :: 0 <= x < |m.streams| && x != id ==> n.streams[x] == m.streams[x]
    requires |n.streams[id].outcomes| == |m.streams[id].outcomes|
    requires forall x :: 0 <= x < |m.streams[id].outcomes| && x != k ==> n.streams[id].outcomes[x] == m.streams[id].outcomes[x]
    requires n.counted == m.counted[..i] + m.counted[i + 1..]
    ensures CountedInv(n)
  {
    forall j | 0 <= j < |n.counted| ensures SlotInv(n, n.counted[j]) {
      var was := if j < i then j else j + 1;
      assert n.counted[j] == m.counted[was];
      assert SlotInv(m, m.counted[was]);
      assert !SameBlock(m.counted[was], m.counted[i]);
    }
  }

  lemma RecordIsPlain(o: OutStream, k: nat, outcome: Outcome)
    requires k < |o.outcomes| && PumpOk(o)
    ensures var r := RecordOutcome(o, k, outcome);
            PumpOk(r) && r.granted == o.granted && r.window == o.window && |r.outcomes| == |o.outcomes|
            && r.blocks == o.blocks && r.blockSize == o.blockSize
            && forall x :: 0 <= x < |o.outcomes| && x != k ==> r.outcomes[x] == o.outcomes[x]
  {
  }

  lemma RecordKeepsCounted(m: Session, id: nat, k: nat, outcome: Outcome, latency: Option<real>)
    requires id < |m.streams| && k < |m.streams[id].outcomes| && SchedInv(m, -1, 0)
    requires SlotIndex(m.counted, id, k) < |m.counted| && PumpOk(m.streams[id])
    ensures var i := SlotIndex(m.counted, id, k);
            var n := m.With(id, RecordOutcome(m.streams[id], k, outcome));
            SchedCore(n.(counted := m.counted[..i] + m.counted[i + 1..], latency := latency), -1, id, 1)
  {
    var i := SlotIndex(m.counted, id, k);
    var o := RecordOutcome(m.streams[id], k, outcome);
    var n := m.With(id, o).(counted := m.counted[..i] + m.counted[i + 1..], latency := latency);
    hide SumGranted, RecordOutcome, PumpOk, SlotIndex;
    RecordIsPlain(m.streams[id], k, outcome);
    SumUpdate(m.streams, id, o);
    hide CountedInv;
    RecordedCounted(m, n, id, k, i);
    assert Accounting(n, 1) by { hide PumpInv, WakeInv, NoDuplicates; }
    assert PumpInv(n, -1) by { hide Accounting, WakeInv, NoDuplicates; }
    assert WakeInv(n, id) by { hide Accounting, PumpInv, NoDuplicates; }
  }

  lemma WakeSettledKeeps(m: Session, id: nat)
    requires id < |m.streams| && SchedCore(m, -1, id, 0) && WorkConserving(m)
    ensures SchedInv(m.With(id, WakeAfterSettle(m.streams[id])), -1, 0)
  {
    var o := WakeAfterSettle(m.streams[id]);
    SumUpdate(m.streams, id, o);
    WithKeepsCounted(m, id, o);
    assert PumpOk(o) by { assert PumpOk(m.streams[id]); }
    assert WakeInv(m.With(id, o), -1);
  }

  lemma SettleKeepsSched(m: Session, id: nat, k: nat, refusal: Option<StreamError>)
    requires id < |m.streams| && k < |m.streams[id].outcomes| && SchedInv(m, -1, 0)
    ensures SchedInv(Settle(m, id, k, refusal), -1, 0) && Fifo(m, Settle(m, id, k, refusal))
  {
    hide SchedCore, WorkConserving, Fifo, Release, RecordOutcome, WakeAfterSettle, GrantFrame;
    WellFormedOf(m, -1, 0);
    var o := m.streams[id];
    var outcome := if refusal.None? then Acked else Rejection(o, refusal.value);
    var i := SlotIndex(m.counted, id, k);
    var n := m.With(id, RecordOutcome(o, k, outcome));
    if i == |m.counted| {
      RecordKeepsCore(m, id, k, outcome);
      WakeSettledKeeps(n, id);
      SameFifo(m, Settle(m, id, k, refusal));
    } else {
      var latency := if refusal.None? then Some(Smoothed(m.latency, m.now - m.counted[i].at)) else m.latency;
      PumpOkAt(m, id);
      RecordKeepsCounted(m, id, k, outcome, latency);
      var n' := n.(counted := m.counted[..i] + m.counted[i + 1..], latency := latency);
      ReleaseKeeps(n', -1, id);
      var r := Release(n');
      WakeSettledKeeps(r, id);
      SameFifo(m, n');
      FifoTrans(m, n', r);
      SameFifo(r, Settle(m, id, k, refusal));
      FifoTrans(m, r, Settle(m, id, k, refusal));
    }
  }

  lemma OpenKeeps(m: Session, o: OutStream)
    requires SchedInv(m, -1, 0) && o.blockSize > 0 && o.window > 0 && o == FreshStream(o.blockSize, o.window, o.flushEachWrite)
    ensures SchedInv(m.(streams := m.streams + [o]), -1, 0)
  {
    var n := m.(streams := m.streams + [o]);
    assert n.streams[..|m.streams|] == m.streams;
    assert SumGranted(n.streams) == SumGranted(m.streams);
    hide SumGranted;
    OpenKeepsCounted(m, n);
    hide CountedInv;
    assert PumpOk(o);
    assert forall i :: 0 <= i < |m.streams| ==> n.streams[i] == m.streams[i];
    hide PumpOk;
  }

  lemma OpenKeepsCounted(m: Session, n: Session)
    requires CountedInv(m) && n.counted == m.counted && n.now == m.now && m.streams <= n.streams
    ensures CountedInv(n)
  {
    forall i | 0 <= i < |n.counted| ensures SlotInv(n, n.counted[i]) { assert SlotInv(m, m.counted[i]); }
  }

  lemma TickKeeps(m: Session, elapsed: real)
    requires SchedInv(m, -1, 0) && elapsed >= 0.0
    ensures SchedInv(m.(now := m.now + elapsed), -1, 0)
  {
    var n := m.(now := m.now + elapsed);
    forall i | 0 <= i < |n.counted| ensures SlotInv(n, n.counted[i]) { assert SlotInv(m, m.counted[i]); }
  }

  lemma TimerKeeps(m: Session)
    requires SchedInv(m, -1, 0)
    ensures SchedInv(Grant(Reclaim(m)), -1, 0) && Fifo(m, Grant(Reclaim(m)))
  {
    hide Grant, GrantFrame, CountedInv, WakeInv, PumpInv;
    ReclaimKeeps(m, -1, -1, 0);
    GrantKeepsCore(Reclaim(m), -1, -1, 0);
    ReclaimGrantFrame(m, 0);
  }

  lemma PumpOkAt(m: Session, id: nat)
    requires id < |m.streams| && SchedInv(m, -1, 0)
    ensures PumpOk(m.streams[id]) && m.streams[id].window > 0
  {
  }

  /** A pump starts on stream `id`, which its caller has left as `o`. */
  lemma StartAndRun(m: Session, id: nat, o: OutStream, pump: Pump)
    requires id < |m.streams| && SchedInv(m, -1, 0) && SameSlots(m.streams[id], o)
    requires pump == ClosePump <==> o.phase == PumpRunning
    ensures m.With(id, o).WellFormed()
    ensures SchedInv(RunPump(m.With(id, o), id, pump), -1, 0) && Fifo(m, RunPump(m.With(id, o), id, pump))
  {
    hide SchedCore, WorkConserving, Fifo, RunPump;
    StartPump(m, id, o);
    var n := m.With(id, o);
    WellFormedOf(n, id, 0);
    RunPumpKeepsSched(n, id, pump);
    SameFifo(m, n);
    FifoTrans(m, n, RunPump(n, id, pump));
  }

  lemma ContinueIsPlain(o: OutStream)
    requires PumpOk(o)
    ensures SameSlots(o, ContinueClose(o)) && PumpOk(ContinueClose(o))
  {
    var c := ContinueClose(o);
    assert c == o.(phase := c.phase, closeSent := c.closeSent, wire := c.wire);
    assert c.phase != PumpRunning && (c.phase == PumpParked <==> o.phase == PumpParked) && (c.phase == PumpReady <==> o.phase == PumpReady);
    hide ContinueClose;
  }

  lemma CloseAnswerIsPlain(o: OutStream, refusal: Option<StreamError>)
    requires PumpOk(o)
    ensures SameSlots(o, CloseAnswered(o, refusal)) && PumpOk(CloseAnswered(o, refusal))
  {
  }

  lemma AbortIsPlain(o: OutStream, reason: StreamError)
    requires PumpOk(o)
    ensures SameSlots(o, Abort(o, reason)) && PumpOk(Abort(o, reason))
  {
  }

  lemma PeerClosedIsPlain(o: OutStream)
    requires PumpOk(o)
    ensures SameSlots(o, PeerClosed(o)) && PumpOk(PeerClosed(o))
  {
  }

  lemma RefusedCloseCall(o: OutStream)
    requires PumpOk(o) && o.phase == NotClosing && !o.Usable()
    ensures SameSlots(o, o.(phase := Rejected)) && PumpOk(o.(phase := Rejected))
    ensures SameSlots(o, o.(phase := Resolved)) && PumpOk(o.(phase := Resolved))
  {
  }

  lemma StepKeepsSched(m: Session, e: Event)
    requires m.WellFormed() && Enabled(m, e) && SchedInv(m, -1, 0)
    ensures SchedInv(Step(m, e), -1, 0) && Fifo(m, Step(m, e))
  {
    hide SchedInv, Fifo, RunPump, Settle, Grant, ContinueClose, CloseAnswered, Abort, PeerClosed;
    match e
    case Open(blockSize, window, flush) =>
      OpenKeeps(m, FreshStream(blockSize, window, flush));
      SameFifo(m, Step(m, e));
    case Write(id, bytes) =>
      var o := m.streams[id];
      PumpOkAt(m, id);
      SameFifo(m, m);
      if o.Usable() && !o.closed {
        StartAndRun(m, id, o.(buffered := o.buffered + bytes, written := o.written + bytes), WritePump);
      }
    case ResumeWrite(id) =>
      var o := m.streams[id];
      PumpOkAt(m, id);
      StartAndRun(m, id, o.(readyWrites := o.readyWrites - 1), WritePump);
    case CloseCall(id) =>
      var o := m.streams[id];
      PumpOkAt(m, id);
      if !o.Usable() { RefusedCloseCall(o); }
      if o.failed.Some? { PlainStep(m, id, o.(phase := Rejected)); }
      else if o.closedByPeer { PlainStep(m, id, o.(phase := Resolved)); }
      else { StartAndRun(m, id, o.(closed := true, phase := PumpRunning), ClosePump); }
    case ResumeClose(id) => StartAndRun(m, id, m.streams[id].(phase := PumpRunning), ClosePump);
    case Continue(id) => PumpOkAt(m, id); ContinueIsPlain(m.streams[id]); PlainStep(m, id, ContinueClose(m.streams[id]));
    case Answer(id, k, refusal) => SettleKeepsSched(m, id, k, refusal);
    case CloseAnswer(id, refusal) => PumpOkAt(m, id); CloseAnswerIsPlain(m.streams[id], refusal); PlainStep(m, id, CloseAnswered(m.streams[id], refusal));
    case AbortCall(id, reason) => PumpOkAt(m, id); AbortIsPlain(m.streams[id], reason); PlainStep(m, id, Abort(m.streams[id], reason));
    case PeerClose(id) => PumpOkAt(m, id); PeerClosedIsPlain(m.streams[id]); PlainStep(m, id, PeerClosed(m.streams[id]));
    case ReclaimTimer => TimerKeeps(m);
    case Tick(elapsed) => TickKeeps(m, elapsed); SameFifo(m, Step(m, e));
  }

  /** The scheduler's invariant in every state of every run that starts with a positive budget. */
  lemma {:induction false} EveryRunSchedules(run: seq<Session>, limit: int, parkFloor: real, i: nat)
    requires IsRun(run) && run[0] == Init(limit, parkFloor) && limit >= 1 && i < |run|
    ensures SchedInv(run[i], -1, 0)
  {
    hide Step, Enabled;
    if i > 0 {
      hide SchedInv;
      EveryRunSchedules(run, limit, parkFloor, i - 1);
      assert IsStep(run[i - 1], run[i]);
      var e: Event :| Enabled(run[i - 1], e) && run[i] == Step(run[i - 1], e);
      StepKeepsSched(run[i - 1], e);
    }
  }

  /**
   * Bounded bypass: between any two states of a run, a stream that stood at position p has either taken the
   * p-th turn since, or moved up one place for every turn: nobody overtakes it, directly or otherwise.
   */
  lemma {:induction false} TurnsAreFair(run: seq<Session>, limit: int, parkFloor: real, i: nat, j: nat)
    requires IsRun(run) && run[0] == Init(limit, parkFloor) && limit >= 1 && i <= j < |run|
    ensures Fifo(run[i], run[j])
    decreases j - i
  {
    hide Step, Enabled;
    if i == j {
      SameFifo(run[i], run[j]);
    } else {
      hide SchedInv, Fifo;
      TurnsAreFair(run, limit, parkFloor, i, j - 1);
      EveryRunSchedules(run, limit, parkFloor, j - 1);
      assert IsStep(run[j - 1], run[j]);
      var e: Event :| Enabled(run[j - 1], e) && run[j] == Step(run[j - 1], e);
      StepKeepsSched(run[j - 1], e);
      FifoTrans(run[i], run[j - 1], run[j]);
    }
  }

  /**
   * What that invariant says between any two steps: the budget is the counted blocks plus the reserved slots and never
   * exceeds the limit; each counted slot is a different block in flight, in dispatch order; nobody waits twice, nor
   * while a slot is free; and a parked pump has an answer coming or a place in the queue.
   */
  lemma BudgetIsExact(run: seq<Session>, limit: int, parkFloor: real, i: nat)
    requires IsRun(run) && run[0] == Init(limit, parkFloor) && limit >= 1 && i < |run|
    ensures var m := run[i];
            && m.sendInFlight == |m.counted| + SumGranted(m.streams) && m.sendInFlight <= limit
            && (forall k :: 0 <= k < |m.counted| ==> SlotInv(m, m.counted[k]))
            && (forall k, l :: 0 <= k < l < |m.counted| ==>
                  m.counted[k].at <= m.counted[l].at && !SameBlock(m.counted[k], m.counted[l]))
            && NoDuplicates(m.queue) && (m.queue != [] ==> m.sendInFlight == limit)
            && (forall id :: 0 <= id < |m.streams| && m.streams[id].AnyParked() ==> m.streams[id].inFlight > 0 || id in m.queue)
  {
    hide Init;
    EveryRunSchedules(run, limit, parkFloor, i);
    TurnsAreFair(run, limit, parkFloor, 0, i);
    StartLimit(limit, parkFloor);
  }

  lemma StartLimit(limit: int, parkFloor: real)
    ensures Init(limit, parkFloor).limit == limit
  {
  }
}
