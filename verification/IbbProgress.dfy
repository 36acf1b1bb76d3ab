/**
 * Who is woken, and when nobody is. A waiting stream is normally always owed an event; the one way to
 * lose it is a pump that finds, inside its own request for a slot, that the sweep has just granted it one.
 */
module IbbProgress {
  import opened Bytes
  import opened IbbOutStream
  import opened IbbScheduler
  import opened IbbStreamSafety
  import opened IbbSchedulerSafety

  // ------------------------------------------------------------ the sweep

  /** The early exit loses nothing: slots are in dispatch order, so exactly those at or past the cutoff go. */
  lemma {:induction false} SweepIsExact(counted: seq<Slot>, cutoff: real)
    requires forall i, j :: 0 <= i < j < |counted| ==> counted[i].at <= counted[j].at
    ensures forall i :: 0 <= i < |counted| ==> (i < SweepCount(counted, cutoff) <==> counted[i].at <= cutoff)
  {
    if counted != [] && counted[0].at <= cutoff {
      SweepIsExact(counted[1..], cutoff);
      forall i | 0 <= i < |counted| ensures i < SweepCount(counted, cutoff) <==> counted[i].at <= cutoff {
        if i > 0 { assert counted[1..][i - 1] == counted[i]; }
      }
    }
  }

  /** A sample moves the latency an eighth of the way to itself; the first one is taken as it is. */
  lemma SmoothedMoves(latency: Option<real>, sample: real)
    ensures latency.None? ==> Smoothed(latency, sample) == sample
    ensures latency.Some? ==> 8.0 * (Smoothed(latency, sample) - latency.value) == sample - latency.value
  {
  }

  /**
   * Which blocks a sweep reclaims: none before the first ack has been timed; then those unanswered for at least the
   * configured floor, and at least four times the latency.
   */
  lemma ReclaimedIff(m: Session, i: nat)
    requires CountedInv(m) && i < |m.counted|
    ensures i < Swept(m) <==>
              m.latency.Some? && var age := m.now - m.counted[i].at;
              age >= 0.0 && age >= m.parkFloor && age >= 4.0 * m.latency.value
    ensures Reclaim(m).counted == m.counted[Swept(m)..] && Reclaim(m).sendInFlight == m.sendInFlight - Swept(m)
  {
    if m.latency.Some? { SweepIsExact(m.counted, m.now - m.ParkThreshold()); }
    assert SlotInv(m, m.counted[i]);
  }

  /** An answer is timed exactly if it is an ack and its block is still counted. */
  lemma OnlyCountedAcksAreTimed(m: Session, id: nat, ordinal: nat, acked: bool)
    requires m.WellFormed() && NoDuplicates(m.queue)
    ensures var counted := exists s :: s in m.counted && s.id == id && s.ordinal == ordinal;
            if acked && counted then
              exists s :: s in m.counted && s.id == id && s.ordinal == ordinal
                && EndSlot(m, id, ordinal, acked).latency == Some(Smoothed(m.latency, m.now - s.at))
            else EndSlot(m, id, ordinal, acked).latency == m.latency
  {
    var i := SlotIndex(m.counted, id, ordinal);
    if i < |m.counted| {
      var latency := if acked then Some(Smoothed(m.latency, m.now - m.counted[i].at)) else m.latency;
      var n := m.(counted := m.counted[..i] + m.counted[i + 1..], latency := latency);
      GrantKeepsLatency(n.(sendInFlight := n.sendInFlight - 1));
      assert m.counted[i] in m.counted;
    }
    hide Smoothed;
  }

  lemma {:induction false} GrantKeepsLatency(m: Session)
    requires m.WellFormed()
    ensures Grant(m).latency == m.latency
    decreases |m.queue|
  {
    if m.sendInFlight < m.limit && m.queue != [] { GrantKeepsLatency(TakeTurn(m)); }
  }

  // ------------------------------------------------------------ what a round of granting hands out

  /** How many of the waiting streams would take a slot if it were their turn now. */
  function Wanters(streams: seq<OutStream>, queue: seq<nat>): (n: nat)
    requires forall i :: 0 <= i < |queue| ==> queue[i] < |streams|
    ensures n <= |queue|
  {
    if queue == [] then 0
    else (if streams[queue[0]].Wants() then 1 else 0) + Wanters(streams, queue[1..])
  }

  /** How many of them stand before stream `id`. */
  function WantersBefore(streams: seq<OutStream>, queue: seq<nat>, id: nat): nat
    requires forall i :: 0 <= i < |queue| ==> queue[i] < |streams|
  {
    if queue == [] || queue[0] == id then 0
    else (if streams[queue[0]].Wants() then 1 else 0) + WantersBefore(streams, queue[1..], id)
  }

  lemma {:induction false} WantersFrame(a: seq<OutStream>, b: seq<OutStream>, queue: seq<nat>, id: nat)
    requires |a| == |b| && forall i :: 0 <= i < |queue| ==> queue[i] < |a| && a[queue[i]] == b[queue[i]]
    ensures Wanters(a, queue) == Wanters(b, queue)
    ensures WantersBefore(a, queue, id) == WantersBefore(b, queue, id)
  {
    if queue != [] {
      assert a[queue[0]] == b[queue[0]];
      WantersFrame(a, b, queue[1..], id);
    }
  }

  /** Slots go to the wanters in order, as far as they last; the stream itself is served if enough remain. */
  lemma {:induction false} GrantOutcome(m: Session, id: nat)
    requires m.WellFormed() && NoDuplicates(m.queue) && id < |m.streams| && m.sendInFlight <= m.limit
    ensures var g := Grant(m);
            var free := m.limit - m.sendInFlight;
            && (g.sendInFlight == m.limit <==> Wanters(m.streams, m.queue) >= free)
            && (g.streams[id].granted ==
                 m.streams[id].granted +
                 (if id in m.queue && m.streams[id].Wants() && WantersBefore(m.streams, m.queue, id) < free then 1 else 0))
    decreases |m.queue|
  {
    if m.sendInFlight < m.limit && m.queue != [] {
      hide TakeTurn;
      TurnOutcome(m, id);
      var t := TakeTurn(m);
      var head := m.queue[0];
      assert m.queue == [head] + t.queue;
      assert head !in t.queue;
      WantersFrame(m.streams, t.streams, t.queue, id);
      GrantOutcome(t, id);
      if head == id { assert Grant(t).streams[id].granted == t.streams[id].granted; }
    }
  }

  /** One turn: its stream is served if it wants a slot, and no other is. */
  lemma TurnOutcome(m: Session, id: nat)
    requires m.WellFormed() && m.queue != [] && id < |m.streams|
    ensures var t, head := TakeTurn(m), m.queue[0];
            var served := if m.streams[head].Wants() then 1 else 0;
            && t.WellFormed() && |t.streams| == |m.streams|
            && t.sendInFlight == m.sendInFlight + served && t.limit == m.limit && t.queue == m.queue[1..]
            && t.streams[id].granted == m.streams[id].granted + (if id == head then served else 0)
            && (forall i :: 0 <= i < |m.streams| && i != head ==> t.streams[i] == m.streams[i])
  {
  }

  /**
   * Exactly when a request for a slot is refused and yet leaves the stream with a slot it will not use:
   * it was already waiting, its turn came in the very sweep the request made, and the slots ran out at or after it.
   */
  predicate StrandsRequest(m: Session, id: nat)
    requires m.WellFormed()
  {
    var free := m.limit - (m.sendInFlight - Swept(m));
    id in m.queue && WantersBefore(m.streams, m.queue, id) < free <= Wanters(m.streams, m.queue)
  }

  lemma RequestStrandsIff(m: Session, id: nat)
    requires id < |m.streams| && SchedInv(m, id, 0)
    requires m.streams[id].granted == 0 && m.streams[id].Wants()
    ensures var (a, free) := Acquire(m, id);
            (!free && a.streams[id].granted > 0) <==> StrandsRequest(m, id)
  {
    ReclaimKeeps(m, id, -1, 0);
    GrantOutcome(Reclaim(m), id);
    GrantKeeps(Reclaim(m), 0);
  }

  // ------------------------------------------------------------ progress

  /** A reserved slot that will be used or given back: its pump is about to run, or an answer will wake it. */
  ghost predicate GrantsLive(m: Session) {
    forall i :: 0 <= i < |m.streams| && m.streams[i].granted > 0 ==>
      m.streams[i].AnyReady() || m.streams[i].inFlight > 0
  }

  /** Some event is pending that hands a slot on: a pump or an answer of a stream holding one, or the answer to a counted block. */
  ghost predicate Progress(m: Session) {
    exists i :: 0 <= i < |m.streams| &&
      ((m.streams[i].granted > 0 && (m.streams[i].AnyReady() || m.streams[i].inFlight > 0))
       || (m.streams[i].inFlight > 0 && exists s :: s in m.counted && s.id == i))
  }

  lemma {:induction false} SomeGrant(streams: seq<OutStream>) returns (i: nat)
    requires SumGranted(streams) > 0
    ensures i < |streams| && streams[i].granted > 0
  {
    var last := |streams| - 1;
    if streams[last].granted > 0 { i := last; } else { i := SomeGrant(streams[..last]); }
  }

  lemma WaitersAreServed(m: Session)
    requires SchedInv(m, -1, 0) && StreamsInv(m.streams) && GrantsLive(m) && m.queue != []
    ensures m.sendInFlight == m.limit && Progress(m)
  {
    hide StreamInv, SumGranted;
    if m.counted != [] {
      var s := m.counted[0];
      assert s in m.counted && SlotInv(m, s);
      InFlightOf(m.streams[s.id], s.ordinal);
    } else {
      var i := SomeGrant(m.streams);
    }
  }

  lemma InFlightOf(o: OutStream, k: nat)
    requires StreamInv(o) && k < |o.outcomes| && o.outcomes[k] == Pending
    ensures o.inFlight > 0
  {
    PendingCounts(o.outcomes, k);
  }

  /**
   * When a pump that starts, or wakes up, strands a slot: its first request is such a request, and nothing else of
   * the stream's is to come: no block unanswered, no other pump parked or woken.
   */
  predicate StrandsPump(m: Session, id: nat)
    requires m.WellFormed() && id < |m.streams|
  {
    var o := m.streams[id];
    && o.Wants() && o.granted <= 0 && o.inFlight <= 0 && !o.AnyParked() && !o.AnyReady()
    && StrandsRequest(m, id)
  }

  /** The same of an event: `StrandsPump` in the state in which it starts or wakes its pump. */
  predicate StrandsStep(m: Session, e: Event)
    requires m.WellFormed() && Enabled(m, e)
  {
    match e
    case Write(id, bytes) =>
      var o := m.streams[id];
      o.Usable() && !o.closed && StrandsPump(m.With(id, o.(buffered := o.buffered + bytes, written := o.written + bytes)), id)
    case ResumeWrite(id) =>
      var o := m.streams[id];
      StrandsPump(m.With(id, o.(readyWrites := o.readyWrites - 1)), id)
    case CloseCall(id) =>
      var o := m.streams[id];
      o.Usable() && StrandsPump(m.With(id, o.(closed := true, phase := PumpRunning)), id)
    case ResumeClose(id) => StrandsPump(m.With(id, m.streams[id].(phase := PumpRunning)), id)
    case _ => false
  }

  ghost predicate LiveBut(m: Session, exempt: int) {
    forall i :: 0 <= i < |m.streams| && i != exempt && m.streams[i].granted > 0 ==>
      m.streams[i].AnyReady() || m.streams[i].inFlight > 0
  }

  lemma FrameKeepsLive(m: Session, g: Session, running: int, exempt: int)
    requires GrantFrame(m, g) && PumpInv(m, running) && LiveBut(m, exempt) && (running == exempt || running == -1)
    ensures LiveBut(g, exempt)
  {
    forall i | 0 <= i < |g.streams| && i != exempt && g.streams[i].granted > 0
      ensures g.streams[i].AnyReady() || g.streams[i].inFlight > 0
    {
      assert GrantStep(m.streams[i], g.streams[i]);
      if i != running { assert PumpOk(m.streams[i]); }
    }
  }

  lemma {:induction false} GiveBackKeepsLive(m: Session, id: nat)
    requires id < |m.streams| && SchedInv(m, id, 0) && LiveBut(m, id)
    ensures LiveBut(GiveBack(m, id), id)
    decreases |m.queue|, m.streams[id].granted
  {
    hide SumGranted, GrantStep, CountedInv, PumpOk, Fifo;
    var o := m.streams[id];
    if o.granted > 0 {
      TakeGrantKeeps(m, id);
      var n := m.With(id, o.(granted := o.granted - 1));
      GrantShrinks(n.(sendInFlight := n.sendInFlight - 1), id);
      ReleaseKeeps(n, id, -1);
      FrameKeepsLive(n, Release(n), id, id);
      GiveBackKeepsLive(Release(n), id);
    }
  }

  /** A refused request leaves the stream a slot it has no use for exactly if it strands one. */
  lemma AcquireLive(m: Session, id: nat)
    requires id < |m.streams| && SchedInv(m, id, 0) && LiveBut(m, id)
    requires m.streams[id].granted == 0 && m.streams[id].Wants()
    ensures var (a, free) := Acquire(m, id);
            && LiveBut(a, id) && SameTransfer(m.streams[id], a.streams[id])
            && (!free ==> (LiveStream(a.streams[id]) <==> !StrandsPump(m, id)))
            && (free ==> !StrandsPump(m, id))
  {
    hide SumGranted, PumpOk, CountedInv, Fifo, StrandsRequest;
    AcquireKeeps(m, id);
    FrameKeepsLive(m, Acquire(m, id).0, id, id);
    RequestStrandsIff(m, id);
    if Acquire(m, id).1 { FreeIsNoStranding(m, id); }
    var (a, free) := Acquire(m, id);
    NoNegativeGrant(a, id);
    assert GrantStep(m.streams[id], a.streams[id]);
    hide SchedInv, Acquire, GrantFrame;
  }

  lemma FreeIsNoStranding(m: Session, id: nat)
    requires id < |m.streams| && SchedInv(m, id, 0) && Acquire(m, id).1
    ensures !StrandsRequest(m, id)
  {
    ReclaimKeeps(m, id, -1, 0);
    GrantOutcome(Reclaim(m), id);
    GrantKeeps(Reclaim(m), 0);
  }

  lemma NoNegativeGrant(m: Session, id: nat)
    requires id < |m.streams| && (SchedInv(m, id, 0) || SchedInv(m, id, 1))
    ensures m.streams[id].granted >= 0
  {
  }

  /** A stream that has just sent has an answer to come. */
  lemma StartIsLive(m: Session, id: nat)
    requires m.WellFormed() && id < |m.streams| && m.streams[id].HasBlock() && m.streams[id].inFlight >= 0 && LiveBut(m, id)
    ensures var s := StartBlock(m, id);
            LiveBut(s, id) && s.streams[id].inFlight > 0 && !StrandsPump(s, id)
            && |s.streams[id].buffered| < |m.streams[id].buffered|
  {
  }

  /** The next block leaves in a reserved slot. */
  lemma GrantedSends(m: Session, id: nat)
    requires id < |m.streams| && SchedInv(m, id, 0) && LiveBut(m, id)
    requires var o := m.streams[id]; o.HasBlock() && o.inFlight >= 0 && o.granted > 0
    ensures m.WellFormed()
    ensures var o := m.streams[id];
            var s := StartBlock(m.With(id, o.(granted := o.granted - 1)), id);
            && SentOne(m, s, id) && LiveBut(s, id) && s.streams[id].inFlight > 0 && !StrandsPump(s, id)
            && |s.streams[id].buffered| < |o.buffered|
  {
    hide SchedInv, Fifo, StrandsPump;
    WellFormedOf(m, id, 0);
    SendWithGrant(m, id);
    var o := m.streams[id];
    StartIsLive(m.With(id, o.(granted := o.granted - 1)), id);
  }

  /** Or in one just acquired; or the pump parks, and strands a slot or not. */
  lemma AcquiredSends(m: Session, id: nat)
    requires id < |m.streams| && SchedInv(m, id, 0) && LiveBut(m, id)
    requires var o := m.streams[id]; o.Wants() && o.inFlight >= 0 && o.granted <= 0
    ensures m.WellFormed()
    ensures var (a, free) := Acquire(m, id);
            && id < |a.streams|
            && (free ==>
                  var s := StartBlock(a, id);
                  && SentOne(m, s, id) && LiveBut(s, id) && s.streams[id].inFlight > 0 && !StrandsPump(s, id)
                  && |s.streams[id].buffered| < |m.streams[id].buffered| && !StrandsPump(m, id))
            && (!free ==> forall pump :: (pump == ClosePump <==> m.streams[id].phase == PumpRunning) ==>
                  (GrantsLive(a.With(id, Park(a.streams[id], pump))) <==> !StrandsPump(m, id)))
  {
    hide SchedInv, Fifo, Acquire, StrandsPump;
    WellFormedOf(m, id, 0);
    NoNegativeGrant(m, id);
    AcquireLive(m, id);
    var (a, free) := Acquire(m, id);
    if free {
      SendWithSlot(m, id);
      StartIsLive(a, id);
    } else {
      forall pump | pump == ClosePump <==> m.streams[id].phase == PumpRunning
        ensures GrantsLive(a.With(id, Park(a.streams[id], pump))) <==> !StrandsPump(m, id)
      {
        ParkedLive(a, id, pump);
      }
    }
  }

  lemma ParkedLive(a: Session, id: nat, pump: Pump)
    requires id < |a.streams| && LiveBut(a, id) && (pump == ClosePump <==> a.streams[id].phase == PumpRunning)
    ensures GrantsLive(a.With(id, Park(a.streams[id], pump))) <==> LiveStream(a.streams[id])
  {
    var p := a.With(id, Park(a.streams[id], pump));
    assert LiveStream(p.streams[id]) <==> LiveStream(a.streams[id]);
    assert forall i :: 0 <= i < |a.streams| && i != id ==> p.streams[i] == a.streams[i];
  }

  /** A pump that leaves has given every reserved slot back. */
  lemma LeavingKeepsLive(m: Session, id: nat, pump: Pump, phase: ClosePhase)
    requires m.WellFormed() && id < |m.streams| && SchedInv(m, id, 0) && LiveBut(m, id)
    ensures GrantsLive(PumpLeaves(m, id, pump, phase))
  {
    GiveBackKeeps(m, id);
    GiveBackKeepsLive(m, id);
    hide SchedInv, GiveBack, Fifo;
  }

  /** A pump that parks on its full window has answers to come. */
  lemma FullWindowIsLive(m: Session, id: nat, pump: Pump)
    requires id < |m.streams| && SchedInv(m, id, 0) && LiveBut(m, id) && m.streams[id].inFlight >= m.streams[id].window
    ensures GrantsLive(m.With(id, Park(m.streams[id], pump)))
  {
    WindowOf(m, id);
    hide SchedInv;
  }

  /** However many blocks it sends, a pump leaves every grant live if and only if it does not strand one. */
  lemma {:induction false} RunPumpLiveIff(m: Session, id: nat, pump: Pump)
    requires id < |m.streams| && SchedInv(m, id, 0) && LiveBut(m, id) && m.streams[id].inFlight >= 0
    requires pump == ClosePump <==> m.streams[id].phase == PumpRunning
    ensures m.WellFormed() && (GrantsLive(RunPump(m, id, pump)) <==> !StrandsPump(m, id))
    decreases |m.streams[id].buffered|
  {
    hide SchedInv, Fifo, Acquire, PumpLeaves, LiveBut, GrantsLive, StartBlock, StrandsRequest;
    WellFormedOf(m, id, 0);
    var o := m.streams[id];
    if !o.HasBlock() {
      LeavingKeepsLive(m, id, pump, DrainReady);
    } else if !o.Usable() {
      LeavingKeepsLive(m, id, pump, PumpThrew);
    } else if o.inFlight >= o.window {
      WindowOf(m, id);
      FullWindowIsLive(m, id, pump);
    } else if o.granted > 0 {
      GrantedSends(m, id);
      RunPumpLiveIff(StartBlock(m.With(id, o.(granted := o.granted - 1)), id), id, pump);
    } else {
      hide StrandsPump;
      NoNegativeGrant(m, id);
      AcquiredSends(m, id);
      var (a, free) := Acquire(m, id);
      if free { RunPumpLiveIff(StartBlock(a, id), id, pump); }
    }
  }

  lemma WindowOf(m: Session, id: nat)
    requires id < |m.streams| && SchedInv(m, id, 0)
    ensures m.streams[id].window > 0
  {
  }

  lemma StartAndRunLive(m: Session, id: nat, o: OutStream, pump: Pump)
    requires id < |m.streams| && SchedInv(m, -1, 0) && SameSlots(m.streams[id], o) && GrantsLive(m)
    requires o.inFlight >= 0 && (pump == ClosePump <==> o.phase == PumpRunning)
    ensures var n := m.With(id, o);
            n.WellFormed() && (GrantsLive(RunPump(n, id, pump)) <==> !StrandsPump(n, id))
  {
    hide RunPump, SchedCore, StrandsPump;
    StartPump(m, id, o);
    WellFormedOf(m.With(id, o), id, 0);
    RunPumpLiveIff(m.With(id, o), id, pump);
  }

  lemma SettleKeepsLive(m: Session, id: nat, k: nat, refusal: Option<StreamError>)
    requires id < |m.streams| && k < |m.streams[id].outcomes| && SchedInv(m, -1, 0) && GrantsLive(m)
    ensures GrantsLive(Settle(m, id, k, refusal))
  {
    hide Release, RecordOutcome, CountedInv, SumGranted, GrantStep, Fifo;
    var o := m.streams[id];
    var outcome := if refusal.None? then Acked else Rejection(o, refusal.value);
    var i := SlotIndex(m.counted, id, k);
    var n := m.With(id, RecordOutcome(o, k, outcome));
    assert LiveBut(n, id);
    PumpOkAt(m, id);
    RecordIsPlain(o, k, outcome);
    var r := n;
    if i < |m.counted| {
      var latency := if refusal.None? then Some(Smoothed(m.latency, m.now - m.counted[i].at)) else m.latency;
      RecordKeepsCounted(m, id, k, outcome, latency);
      var n' := n.(counted := m.counted[..i] + m.counted[i + 1..], latency := latency);
      assert LiveBut(n', id);
      ReleaseKeeps(n', -1, id);
      r := Release(n');
      FrameKeepsLive(n', r, -1, id);
    }
    assert PumpOk(r.streams[id]);
    WokenGrantIsLive(r.streams[id]);
  }

  lemma WokenGrantIsLive(o: OutStream)
    requires PumpOk(o)
    ensures var w := WakeAfterSettle(o); w.granted > 0 ==> w.AnyReady()
  {
  }

  /** A stream whose reserved slot, if any, has something to come. */
  predicate LiveStream(o: OutStream) { o.granted > 0 ==> o.AnyReady() || o.inFlight > 0 }

  /** Plain steps of a stream: a reserved slot keeps its pump, woken if it was. */
  lemma CloseStepsLive(o: OutStream, refusal: Option<StreamError>)
    requires LiveStream(o) && PumpOk(o)
    ensures LiveStream(ContinueClose(o)) && LiveStream(CloseAnswered(o, refusal))
  {
  }

  lemma EndingsLive(o: OutStream, reason: StreamError)
    requires LiveStream(o) && PumpOk(o)
    ensures LiveStream(Abort(o, reason)) && LiveStream(PeerClosed(o))
  {
  }

  lemma TimerKeepsLive(m: Session)
    requires SchedInv(m, -1, 0) && GrantsLive(m)
    ensures GrantsLive(Grant(Reclaim(m)))
  {
    hide GrantStep, SumGranted;
    ReclaimGrantFrame(m, 0);
    assert LiveBut(m, -1);
    FrameKeepsLive(m, Grant(Reclaim(m)), -1, -1);
  }

  ghost predicate CountsNonNegative(m: Session) {
    forall i :: 0 <= i < |m.streams| ==> m.streams[i].inFlight >= 0
  }

  predicate RunsPump(e: Event) { e.Write? || e.ResumeWrite? || e.CloseCall? || e.ResumeClose? }

  lemma PumpStepLiveIff(m: Session, e: Event)
    requires m.WellFormed() && Enabled(m, e) && SchedInv(m, -1, 0) && GrantsLive(m) && CountsNonNegative(m) && RunsPump(e)
    ensures GrantsLive(Step(m, e)) <==> !StrandsStep(m, e)
  {
    hide SchedInv, RunPump, StrandsPump;
    PumpOkAt(m, e.id);
    var o := m.streams[e.id];
    match e
    case Write(id, bytes) =>
      if o.Usable() && !o.closed {
        StartAndRunLive(m, id, o.(buffered := o.buffered + bytes, written := o.written + bytes), WritePump);
      }
    case ResumeWrite(id) => StartAndRunLive(m, id, o.(readyWrites := o.readyWrites - 1), WritePump);
    case CloseCall(id) =>
      if o.Usable() { StartAndRunLive(m, id, o.(closed := true, phase := PumpRunning), ClosePump); }
    case ResumeClose(id) => StartAndRunLive(m, id, o.(phase := PumpRunning), ClosePump);
  }

  lemma OtherStepLive(m: Session, e: Event)
    requires m.WellFormed() && Enabled(m, e) && SchedInv(m, -1, 0) && GrantsLive(m) && !RunsPump(e)
    ensures GrantsLive(Step(m, e))
  {
    hide SchedInv, Settle, Grant, ContinueClose, CloseAnswered, Abort, PeerClosed;
    match e
    case Open(_, _, _) =>
    case Continue(id) => PumpOkAt(m, id); CloseStepsLive(m.streams[id], None);
    case Answer(id, k, refusal) => SettleKeepsLive(m, id, k, refusal);
    case CloseAnswer(id, refusal) => PumpOkAt(m, id); CloseStepsLive(m.streams[id], refusal);
    case AbortCall(id, reason) => PumpOkAt(m, id); EndingsLive(m.streams[id], reason);
    case PeerClose(id) => PumpOkAt(m, id); EndingsLive(m.streams[id], NotFound);
    case ReclaimTimer => TimerKeepsLive(m);
    case Tick(_) =>
  }

  /** The exact condition, event by event: every grant is still live after it if and only if it strands none. */
  lemma StepLiveIff(m: Session, e: Event)
    requires m.WellFormed() && Enabled(m, e) && SchedInv(m, -1, 0) && GrantsLive(m) && CountsNonNegative(m)
    ensures GrantsLive(Step(m, e)) <==> !StrandsStep(m, e)
  {
    if RunsPump(e) { PumpStepLiveIff(m, e); } else { OtherStepLive(m, e); }
    hide SchedInv, Step, StrandsPump;
  }

  /** Only a request that sweeps a parked block can strand a slot: with nothing to reclaim, none is lost. */
  lemma StrandingNeedsSweep(m: Session, e: Event)
    requires m.WellFormed() && Enabled(m, e) && SchedInv(m, -1, 0) && StrandsStep(m, e)
    ensures Swept(m) > 0
  {
    hide SumGranted, CountedInv, WakeInv, PumpInv;
  }

  /** The run that `events` drive from the empty session. */
  ghost predicate IsDriven(run: seq<Session>, events: seq<Event>, limit: int, parkFloor: real) {
    && |run| == |events| + 1 && run[0] == Init(limit, parkFloor)
    && forall i :: 0 <= i < |events| ==>
         run[i].WellFormed() && Enabled(run[i], events[i]) && run[i + 1] == Step(run[i], events[i])
  }

  lemma DrivenIsRun(run: seq<Session>, events: seq<Event>, limit: int, parkFloor: real)
    requires IsDriven(run, events, limit, parkFloor)
    ensures IsRun(run)
  {
    forall i | 0 < i < |run| ensures IsStep(run[i - 1], run[i]) {
      assert Enabled(run[i - 1], events[i - 1]);
    }
  }

  /**
   * No lost wake-up, exactly: in every run, all reserved slots have stayed live if and only if no event of the run so
   * far stranded one. And while they are live, a waiting stream means that the budget is full and that some pending
   * event will hand a slot on.
   */
  lemma {:induction false} EveryRunProgresses(run: seq<Session>, events: seq<Event>, limit: int, parkFloor: real, i: nat)
    requires IsDriven(run, events, limit, parkFloor) && limit >= 1 && i < |run|
    ensures (forall k :: 0 <= k <= i ==> GrantsLive(run[k])) <==> (forall k :: 0 <= k < i ==> !StrandsStep(run[k], events[k]))
    ensures GrantsLive(run[i]) && run[i].queue != [] ==> run[i].sendInFlight == limit && Progress(run[i])
  {
    hide Step, Enabled, SchedInv, Progress, GrantsLive, StrandsStep, Fifo;
    DrivenIsRun(run, events, limit, parkFloor);
    if i > 0 {
      EveryRunProgresses(run, events, limit, parkFloor, i - 1);
      if GrantsLive(run[i - 1]) { StepInRun(run, events, limit, parkFloor, i - 1); }
    } else {
      StartsLive(limit, parkFloor);
    }
    WaitersOfRun(run, limit, parkFloor, i);
  }

  lemma StartsLive(limit: int, parkFloor: real)
    ensures GrantsLive(Init(limit, parkFloor))
  {
  }

  lemma StepInRun(run: seq<Session>, events: seq<Event>, limit: int, parkFloor: real, i: nat)
    requires IsDriven(run, events, limit, parkFloor) && limit >= 1 && i < |events| && GrantsLive(run[i])
    ensures GrantsLive(run[i + 1]) <==> !StrandsStep(run[i], events[i])
  {
    hide Step, Enabled, SchedInv, GrantsLive, StrandsStep;
    DrivenIsRun(run, events, limit, parkFloor);
    EveryRunSchedules(run, limit, parkFloor, i);
    EveryRunTransfersCorrectly(run, limit, parkFloor, i);
    StepLiveIff(run[i], events[i]);
  }

  lemma WaitersOfRun(run: seq<Session>, limit: int, parkFloor: real, i: nat)
    requires IsRun(run) && run[0] == Init(limit, parkFloor) && limit >= 1 && i < |run|
    ensures GrantsLive(run[i]) && run[i].queue != [] ==> run[i].sendInFlight == limit && Progress(run[i])
  {
    hide Step, Enabled, SchedInv, Progress, StreamInv, GrantsLive;
    EveryRunSchedules(run, limit, parkFloor, i);
    EveryRunTransfersCorrectly(run, limit, parkFloor, i);
    TurnsAreFair(run, limit, parkFloor, 0, i);
    StartLimit(limit, parkFloor);
    if GrantsLive(run[i]) && run[i].queue != [] { WaitersAreServed(run[i]); }
  }
}
