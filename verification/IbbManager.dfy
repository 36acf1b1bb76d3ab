/**
 * The manager as the source writes it: one object whose fields the scheduler and the pumps update in place,
 * each method proved to do exactly what the session's step functions say.
 */
module IbbManager {
  import opened Bytes
  import opened IbbOutStream
  import opened IbbScheduler

  lemma TurnKeepsForm(m: Session)
    requires m.WellFormed() && m.queue != []
    ensures TakeTurn(m).WellFormed() && |TakeTurn(m).queue| < |m.queue|
  {
  }

  class Manager {
    var clock: real
    const sendLimit: int
    const parkFloorMs: real
    var ackLatencyMs: Option<real>
    var sendInFlight: int
    var sendQueue: seq<nat>
    var counted: seq<Slot>
    var streams: seq<OutStream>
    ghost var turns: seq<Turn>

    ghost function View(): Session
      reads this
    {
      Session(clock, sendLimit, parkFloorMs, ackLatencyMs, sendInFlight, sendQueue, counted, streams, turns)
    }

    constructor (limit: int, parkFloor: real)
      ensures View() == Init(limit, parkFloor)
    {
      clock, sendLimit, parkFloorMs, ackLatencyMs := 0.0, limit, parkFloor, None;
      sendInFlight, sendQueue, counted, streams, turns := 0, [], [], [], [];
    }

    method ParkThresholdMs() returns (t: real)
      ensures t == View().ParkThreshold()
    {
      var floor := if parkFloorMs < 0.0 then 0.0 else parkFloorMs;
      var slow := PARK_FACTOR * (if ackLatencyMs.Some? then ackLatencyMs.value else 0.0);
      t := if floor < slow then slow else floor;
    }

    method ReclaimParked()
      modifies this
      ensures View() == Reclaim(old(View()))
    {
      if ackLatencyMs.None? { return; }
      var threshold := ParkThresholdMs();
      var cutoff := clock - threshold;
      while counted != [] && counted[0].at <= cutoff
        invariant |counted| <= |old(counted)|
        invariant var k := |old(counted)| - |counted|;
          && View() == old(View()).(counted := old(counted)[k..], sendInFlight := old(sendInFlight) - k)
          && k + SweepCount(counted, cutoff) == SweepCount(old(counted), cutoff)
        decreases |counted|
      {
        counted := counted[1..];
        sendInFlight := sendInFlight - 1;
      }
    }

    /** The head of the queue is handed a slot, or dropped; either way it is woken. */
    method ServeHead()
      requires View().WellFormed() && sendQueue != []
      modifies this
      ensures View() == TakeTurn(old(View()))
    {
      var id := sendQueue[0];
      sendQueue := sendQueue[1..];
      var entry := streams[id];
      if !entry.Wants() {
        streams := streams[id := Wake(entry)];
        turns := turns + [Dropped(id)];
      } else {
        streams := streams[id := Wake(entry.(granted := entry.granted + 1))];
        sendInFlight := sendInFlight + 1;
        turns := turns + [Granted(id)];
      }
    }

    method GrantSendSlots()
      requires View().WellFormed()
      modifies this
      ensures View() == Grant(old(View()))
    {
      hide TakeTurn;
      while sendInFlight < sendLimit && sendQueue != []
        invariant View().WellFormed() && Grant(View()) == Grant(old(View()))
        decreases |sendQueue|
      {
        ghost var before := View();
        ServeHead();
        TurnKeepsForm(before);
      }
    }

    method AcquireSendSlot(id: nat) returns (free: bool)
      requires View().WellFormed() && id < |streams|
      modifies this
      ensures (View(), free) == Acquire(old(View()), id)
    {
      ReclaimParked();
      GrantSendSlots();
      if sendInFlight < sendLimit {
        sendInFlight := sendInFlight + 1;
        turns := turns + [Direct(id)];
        return true;
      }
      if id !in sendQueue { sendQueue := sendQueue + [id]; }
      return false;
    }

    method ReleaseSendSlot()
      requires View().WellFormed()
      modifies this
      ensures View() == Release(old(View()))
    {
      sendInFlight := sendInFlight - 1;
      GrantSendSlots();
    }

    method EndSendSlot(id: nat, ordinal: nat, acked: bool)
      requires View().WellFormed()
      modifies this
      ensures View() == EndSlot(old(View()), id, ordinal, acked)
    {
      var i := SlotIndex(counted, id, ordinal);
      if i == |counted| { return; }
      var slot := counted[i];
      counted := counted[..i] + counted[i + 1..];
      if acked { ackLatencyMs := Some(Smoothed(ackLatencyMs, clock - slot.at)); }
      ReleaseSendSlot();
    }

    method GiveBackOne(id: nat)
      requires View().WellFormed() && id < |streams| && streams[id].granted > 0
      modifies this
      ensures |streams| == |old(streams)| && View().WellFormed()
      ensures GiveBack(View(), id) == GiveBack(old(View()), id)
      ensures |sendQueue| < |old(sendQueue)|
           || (|sendQueue| == |old(sendQueue)| && streams[id].granted == old(streams)[id].granted - 1)
    {
      hide Grant;
      streams := streams[id := streams[id].(granted := streams[id].granted - 1)];
      GrantShrinks(View().(sendInFlight := sendInFlight - 1), id);
      ReleaseSendSlot();
    }

    method GiveBackGrants(id: nat)
      requires View().WellFormed() && id < |streams|
      modifies this
      ensures View() == GiveBack(old(View()), id)
    {
      hide Grant;
      while streams[id].granted > 0
        invariant View().WellFormed() && id < |streams|
        invariant GiveBack(View(), id) == GiveBack(old(View()), id)
        decreases |sendQueue|, streams[id].granted
      {
        GiveBackOne(id);
      }
    }

    /** The block and its slot, in one synchronous step. */
    method DispatchBlock(id: nat)
      requires View().WellFormed() && id < |streams|
      modifies this
      ensures View() == StartBlock(old(View()), id)
    {
      counted := counted + [Slot(id, |streams[id].blocks|, clock)];
      streams := streams[id := Dispatch(streams[id])];
    }

    method Pumping(id: nat, pump: Pump)
      requires View().WellFormed() && id < |streams|
      modifies this
      ensures View() == RunPump(old(View()), id, pump)
    {
      hide Acquire, GiveBack, Release, Grant, Swept, StartBlock;
      var phase := DrainReady;
      while streams[id].HasBlock()
        invariant View().WellFormed() && id < |streams|
        invariant RunPump(View(), id, pump) == RunPump(old(View()), id, pump)
        invariant phase == DrainReady
        decreases |streams[id].buffered|
      {
        var o := streams[id];
        if !o.Usable() {
          phase := PumpThrew;
          break;
        }
        if o.inFlight >= o.window {
          streams := streams[id := Park(o, pump)];
          return;
        }
        if o.granted > 0 {
          streams := streams[id := o.(granted := o.granted - 1)];
        } else {
          var free := AcquireSendSlot(id);
          if !free {
            streams := streams[id := Park(streams[id], pump)];
            return;
          }
        }
        DispatchBlock(id);
      }
      GiveBackGrants(id);
      if pump == ClosePump { streams := streams[id := streams[id].(phase := phase)]; }
    }

    method Write(id: nat, bytes: seq<Byte>)
      requires View().WellFormed() && id < |streams|
      modifies this
      ensures View() == Step(old(View()), Event.Write(id, bytes))
    {
      var o := streams[id];
      if !o.Usable() || o.closed { return; }
      streams := streams[id := o.(buffered := o.buffered + bytes, written := o.written + bytes)];
      Pumping(id, WritePump);
    }

    method Close(id: nat)
      requires View().WellFormed() && Enabled(View(), CloseCall(id))
      modifies this
      ensures View() == Step(old(View()), CloseCall(id))
    {
      var o := streams[id];
      if o.failed.Some? { streams := streams[id := o.(phase := Rejected)]; return; }
      if o.closedByPeer { streams := streams[id := o.(phase := Resolved)]; return; }
      streams := streams[id := o.(closed := true, phase := PumpRunning)];
      Pumping(id, ClosePump);
    }

    method Settle(id: nat, k: nat, refusal: Option<StreamError>)
      requires View().WellFormed() && Enabled(View(), Answer(id, k, refusal))
      modifies this
      ensures View() == Step(old(View()), Answer(id, k, refusal))
    {
      var o := streams[id];
      var outcome := if refusal.None? then Acked else Rejection(o, refusal.value);
      streams := streams[id := RecordOutcome(o, k, outcome)];
      EndSendSlot(id, k, refusal.None?);
      streams := streams[id := WakeAfterSettle(streams[id])];
    }

    method OnReclaimTimer()
      requires View().WellFormed()
      modifies this
      ensures View() == Step(old(View()), ReclaimTimer)
    {
      ReclaimParked();
      GrantSendSlots();
    }
  }
}
