/**
 * All sending streams of one session and the fair scheduler in front of them
 * (#createOutStream and the session scheduler of src/ibb/ibb.ts), as one state machine:
 * each event is a stretch of code between two awaits.
 */
module IbbScheduler {
  import opened Bytes
  import opened IbbOutStream

  const MAX_WINDOW := 256
  const PARK_FACTOR: real := 4.0

  /** A counted block's hold on the session budget. */
  datatype Slot = Slot(id: nat, ordinal: nat, at: real)

  /** A log of what the scheduler did: a waiting stream was handed a slot or dropped, or nobody waited. */
  datatype Turn = Granted(id: nat) | Dropped(id: nat) | Direct(id: nat)

  datatype Session = Session(
    now: real, limit: int, parkFloor: real, latency: Option<real>,
    sendInFlight: int, queue: seq<nat>, counted: seq<Slot>,
    streams: seq<OutStream>, turns: seq<Turn>)
  {
    predicate WellFormed() {
      && (forall i :: 0 <= i < |queue| ==> queue[i] < |streams|)
      && (forall i :: 0 <= i < |streams| ==> streams[i].blockSize > 0)
    }

    function With(id: nat, o: OutStream): (r: Session)
      requires id < |streams|
      ensures WellFormed() && o.blockSize > 0 ==> r.WellFormed()
    {
      this.(streams := streams[id := o])
    }

    /** The age at which an unanswered block stops holding a slot. */
    function ParkThreshold(): real {
      var slow := PARK_FACTOR * (if latency.Some? then latency.value else 0.0);
      var floor := if parkFloor < 0.0 then 0.0 else parkFloor;
      if floor < slow then slow else floor
    }
  }

  /** The part of the streams no scheduler step touches that termination and well-formedness rest on. */
  predicate SameBuffers(a: seq<OutStream>, b: seq<OutStream>) {
    && |a| == |b|
    && forall i :: 0 <= i < |a| ==> a[i].blockSize == b[i].blockSize && a[i].buffered == b[i].buffered
  }

  // ------------------------------------------------------------ scheduler steps

  /** One round of the granting loop: the head of the queue is handed a slot, or dropped; either way it is woken. */
  function TakeTurn(m: Session): Session
    requires m.WellFormed() && m.queue != []
  {
    var id := m.queue[0];
    var o := m.streams[id];
    if !o.Wants() then
      m.(queue := m.queue[1..], streams := m.streams[id := Wake(o)], turns := m.turns + [Dropped(id)])
    else
      m.(queue := m.queue[1..], streams := m.streams[id := Wake(o.(granted := o.granted + 1))],
         sendInFlight := m.sendInFlight + 1, turns := m.turns + [Granted(id)])
  }

  function Grant(m: Session): (g: Session)
    requires m.WellFormed()
    ensures g.WellFormed() && SameBuffers(m.streams, g.streams)
    decreases |m.queue|
  {
    if m.sendInFlight < m.limit && m.queue != [] then Grant(TakeTurn(m)) else m
  }

  /** How many slots, oldest first, are at or past the cutoff: the sweep stops at the first young one. */
  function SweepCount(counted: seq<Slot>, cutoff: real): (k: nat)
    ensures k <= |counted|
  {
    if counted != [] && counted[0].at <= cutoff then 1 + SweepCount(counted[1..], cutoff) else 0
  }

  function Swept(m: Session): (k: nat)
    ensures k <= |m.counted|
  {
    if m.latency.None? then 0 else SweepCount(m.counted, m.now - m.ParkThreshold())
  }

  function Reclaim(m: Session): Session {
    m.(counted := m.counted[Swept(m)..], sendInFlight := m.sendInFlight - Swept(m))
  }

  /** A slot for one block of stream `id` now, or false with the stream queued. */
  function Acquire(m: Session, id: nat): (r: (Session, bool))
    requires m.WellFormed() && id < |m.streams|
    ensures r.0.WellFormed() && SameBuffers(m.streams, r.0.streams)
  {
    var g := Grant(Reclaim(m));
    if g.sendInFlight < g.limit then
      (g.(sendInFlight := g.sendInFlight + 1, turns := g.turns + [Direct(id)]), true)
    else if id in g.queue then (g, false)
    else (g.(queue := g.queue + [id]), false)
  }

  function Release(m: Session): (r: Session)
    requires m.WellFormed()
    ensures r.WellFormed() && SameBuffers(m.streams, r.streams)
  {
    Grant(m.(sendInFlight := m.sendInFlight - 1))
  }

  /** The position of block (id, ordinal) among the counted slots, or their number if it is not counted. */
  function SlotIndex(counted: seq<Slot>, id: nat, ordinal: nat): (i: nat)
    ensures i <= |counted|
    ensures i < |counted| ==> counted[i].id == id && counted[i].ordinal == ordinal
    ensures forall j :: 0 <= j < i ==> !(counted[j].id == id && counted[j].ordinal == ordinal)
  {
    if counted == [] || (counted[0].id == id && counted[0].ordinal == ordinal) then 0
    else 1 + SlotIndex(counted[1..], id, ordinal)
  }

  function Smoothed(latency: Option<real>, sample: real): real {
    if latency.None? then sample else latency.value + (sample - latency.value) / 8.0
  }

  /** The answer to a block: if its slot has not been reclaimed it goes to the next in line, and an ack is timed. */
  function EndSlot(m: Session, id: nat, ordinal: nat, acked: bool): (r: Session)
    requires m.WellFormed()
    ensures r.WellFormed() && SameBuffers(m.streams, r.streams)
  {
    var i := SlotIndex(m.counted, id, ordinal);
    if i == |m.counted| then m
    else
      var latency := if acked then Some(Smoothed(m.latency, m.now - m.counted[i].at)) else m.latency;
      Release(m.(counted := m.counted[..i] + m.counted[i + 1..], latency := latency))
  }

  /** Gives back the slots reserved for a stream whose pump is leaving. */
  function GiveBack(m: Session, id: nat): (r: Session)
    requires m.WellFormed() && id < |m.streams|
    ensures r.WellFormed() && SameBuffers(m.streams, r.streams)
    decreases |m.queue|, m.streams[id].granted
  {
    var o := m.streams[id];
    if o.granted <= 0 then m
    else
      var n := m.With(id, o.(granted := o.granted - 1));
      ReleaseShrinks(m, id);
      GiveBack(Release(n), id)
  }

  /** Giving one slot back shortens the queue, or leaves one grant fewer and all else alone. */
  lemma ReleaseShrinks(m: Session, id: nat)
    requires m.WellFormed() && id < |m.streams|
    ensures var n := m.With(id, m.streams[id].(granted := m.streams[id].granted - 1));
            var r := Release(n);
            |r.queue| < |m.queue| || (r.queue == m.queue && r.streams[id].granted == m.streams[id].granted - 1)
  {
    var n := m.With(id, m.streams[id].(granted := m.streams[id].granted - 1));
    GrantShrinks(n.(sendInFlight := n.sendInFlight - 1), id);
  }

  /** Either the queue got shorter, or the granting loop did nothing. */
  lemma GrantShrinks(m: Session, id: nat)
    requires m.WellFormed() && id < |m.streams|
    ensures Grant(m) == m || |Grant(m).queue| < |m.queue|
    decreases |m.queue|
  {
    if m.sendInFlight < m.limit && m.queue != [] { GrantShrinks(TakeTurn(m), id); }
  }

  /** The next block leaves, in the slot its pump holds. */
  function StartBlock(m: Session, id: nat): (r: Session)
    requires m.WellFormed() && id < |m.streams|
    ensures r.WellFormed() && |r.streams| == |m.streams|
    ensures m.streams[id].buffered != [] ==> |r.streams[id].buffered| < |m.streams[id].buffered|
  {
    var o := m.streams[id];
    m.With(id, Dispatch(o)).(counted := m.counted + [Slot(id, |o.blocks|, m.now)])
  }

  function PumpLeaves(m: Session, id: nat, pump: Pump, phase: ClosePhase): (r: Session)
    requires m.WellFormed() && id < |m.streams|
    ensures r.WellFormed() && |r.streams| == |m.streams|
  {
    var g := GiveBack(m, id);
    if pump == ClosePump then g.With(id, g.streams[id].(phase := phase)) else g
  }

  /** Runs a pump until it parks or leaves: one synchronous step, however many blocks it sends. */
  function RunPump(m: Session, id: nat, pump: Pump): (r: Session)
    requires m.WellFormed() && id < |m.streams|
    ensures r.WellFormed() && |r.streams| == |m.streams|
    decreases |m.streams[id].buffered|
  {
    var o := m.streams[id];
    if !o.HasBlock() then PumpLeaves(m, id, pump, DrainReady)
    else if !o.Usable() then PumpLeaves(m, id, pump, PumpThrew)
    else if o.inFlight >= o.window then m.With(id, Park(o, pump))
    else if o.granted > 0 then
      RunPump(StartBlock(m.With(id, o.(granted := o.granted - 1)), id), id, pump)
    else
      var (a, free) := Acquire(m, id);
      if free then RunPump(StartBlock(a, id), id, pump)
      else a.With(id, Park(a.streams[id], pump))
  }

  /** Block `k` of stream `id` is answered: by a result, or by a refusal or its deadline. */
  function Settle(m: Session, id: nat, k: nat, refusal: Option<StreamError>): (r: Session)
    requires m.WellFormed() && id < |m.streams| && k < |m.streams[id].outcomes|
    ensures r.WellFormed() && |r.streams| == |m.streams|
  {
    var o := m.streams[id];
    var outcome := if refusal.None? then Acked else Rejection(o, refusal.value);
    var e := EndSlot(m.With(id, RecordOutcome(o, k, outcome)), id, k, refusal.None?);
    e.With(id, WakeAfterSettle(e.streams[id]))
  }

  // ------------------------------------------------------------ events and runs

  datatype Event =
    | Open(blockSize: nat, window: nat, flushEachWrite: bool)
    | Write(id: nat, bytes: seq<Byte>)
    | ResumeWrite(id: nat)
    | CloseCall(id: nat)
    | ResumeClose(id: nat)
    | Continue(id: nat)
    | Answer(id: nat, ordinal: nat, refusal: Option<StreamError>)
    | CloseAnswer(id: nat, refusal: Option<StreamError>)
    | AbortCall(id: nat, reason: StreamError)
    | PeerClose(id: nat)
    | ReclaimTimer
    | Tick(elapsed: real)

  predicate Enabled(m: Session, e: Event) {
    match e
    case Open(blockSize, window, _) => blockSize > 0 && 1 <= window <= MAX_WINDOW
    case Write(id, _) => id < |m.streams|
    case ResumeWrite(id) => id < |m.streams| && m.streams[id].readyWrites > 0
    case CloseCall(id) => id < |m.streams| && m.streams[id].phase == NotClosing
    case ResumeClose(id) => id < |m.streams| && m.streams[id].phase == PumpReady
    case Continue(id) => id < |m.streams| && m.streams[id].phase in {PumpThrew, DrainReady}
    case Answer(id, k, _) => id < |m.streams| && k < |m.streams[id].outcomes| && m.streams[id].outcomes[k] == Pending
    case CloseAnswer(id, _) => id < |m.streams|
    case AbortCall(id, _) => id < |m.streams|
    case PeerClose(id) => id < |m.streams|
    case ReclaimTimer => true
    case Tick(elapsed) => elapsed >= 0.0
  }

  function Step(m: Session, e: Event): (r: Session)
    requires m.WellFormed() && Enabled(m, e)
    ensures r.WellFormed()
  {
    match e
    case Open(blockSize, window, flush) => m.(streams := m.streams + [FreshStream(blockSize, window, flush)])
    case Write(id, bytes) =>
      var o := m.streams[id];
      if !o.Usable() || o.closed then m
      else RunPump(m.With(id, o.(buffered := o.buffered + bytes, written := o.written + bytes)), id, WritePump)
    case ResumeWrite(id) =>
      var o := m.streams[id];
      RunPump(m.With(id, o.(readyWrites := o.readyWrites - 1)), id, WritePump)
    case CloseCall(id) =>
      var o := m.streams[id];
      if o.failed.Some? then m.With(id, o.(phase := Rejected))
      else if o.closedByPeer then m.With(id, o.(phase := Resolved))
      else RunPump(m.With(id, o.(closed := true, phase := PumpRunning)), id, ClosePump)
    case ResumeClose(id) => RunPump(m.With(id, m.streams[id].(phase := PumpRunning)), id, ClosePump)
    case Continue(id) => m.With(id, ContinueClose(m.streams[id]))
    case Answer(id, k, refusal) => Settle(m, id, k, refusal)
    case CloseAnswer(id, refusal) => m.With(id, CloseAnswered(m.streams[id], refusal))
    case AbortCall(id, reason) => m.With(id, Abort(m.streams[id], reason))
    case PeerClose(id) => m.With(id, PeerClosed(m.streams[id]))
    case ReclaimTimer => Grant(Reclaim(m))
    case Tick(elapsed) => m.(now := m.now + elapsed)
  }

  function Init(limit: int, parkFloor: real): Session {
    Session(0.0, limit, parkFloor, None, 0, [], [], [], [])
  }

  ghost predicate IsStep(m: Session, m': Session) {
    m.WellFormed() && exists e: Event :: Enabled(m, e) && m' == Step(m, e)
  }

  /** `run` is a run of the session: each state follows from the one before by an enabled event. */
  ghost predicate IsRun(run: seq<Session>) {
    run != [] && forall i :: 0 < i < |run| ==> IsStep(run[i - 1], run[i])
  }
}
