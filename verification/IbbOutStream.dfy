/**
 * One windowed sending stream (the closure variables of #createOutStream in src/ibb/ibb.ts),
 * apart from the session scheduler: what each run-to-completion step does to it, and what
 * every step keeps.
 */
module IbbOutStream {
  import opened Bytes

  const SEQ_MODULUS := 65536

  datatype StreamError = NotFound | ErrorCode(code: int)

  /** The latched failure: ordinal -1 is a local abort, an ordinal past the last block a refused <close/>. */
  datatype Failure = Failure(ordinal: int, error: StreamError)

  /** What became of a dispatched block. A refusal the peer's own <close/> explains is `Discarded`. */
  datatype Outcome = Pending | Acked | Refused(error: StreamError) | Discarded

  datatype Stanza = Data(seqNo: nat, bytes: seq<Byte>) | Close

  /** Which call a pump belongs to. */
  datatype Pump = WritePump | ClosePump

  /** How far the one close() call has got; the first four are its pump. */
  datatype ClosePhase =
    | NotClosing
    | PumpRunning | PumpParked | PumpReady
    | PumpThrew               // the pump threw, the catch clause has not run yet
    | DrainReady | DrainParked  // at the wait for the outstanding acks
    | AwaitingAnswer          // our <close/> is on the wire
    | Resolved | Rejected

  datatype OutStream = OutStream(
    blockSize: nat, window: nat, flushEachWrite: bool,
    seqNo: nat,
    buffered: seq<Byte>,
    closed: bool, closedByPeer: bool,
    failed: Option<Failure>,
    inFlight: int,
    closeSent: bool,
    phase: ClosePhase,
    // the scheduler's view: session slots reserved, and writers' pumps parked or woken
    granted: int, parkedWrites: nat, readyWrites: nat,
    // what happened so far
    written: seq<Byte>, blocks: seq<seq<Byte>>, outcomes: seq<Outcome>, wire: seq<Stanza>)
  {
    predicate Aborted() { failed.Some? && failed.value.ordinal == -1 }

    predicate Usable() { failed.None? && !closedByPeer }

    /** There is a block to take: bytes enough for a full one, or any at all if no more are to be waited for. */
    predicate HasBlock() {
      |buffered| >= blockSize || ((closed || flushEachWrite) && |buffered| > 0)
    }

    /** Would use a slot if it were given one: its own window admits another block, counting slots it already holds. */
    predicate Wants() {
      Usable() && HasBlock() && inFlight + granted < window
    }

    predicate AnyParked() { parkedWrites > 0 || phase == PumpParked }

    predicate AnyReady() { readyWrites > 0 || phase == PumpReady }
  }

  function FreshStream(blockSize: nat, window: nat, flushEachWrite: bool): OutStream {
    OutStream(blockSize, window, flushEachWrite, 0, [], false, false, None, 0, false, NotClosing,
              0, 0, 0, [], [], [], [])
  }

  /** Resolves every parked pump's promise: each will run again in a step of its own. */
  function Wake(o: OutStream): OutStream {
    o.(parkedWrites := 0, readyWrites := o.readyWrites + o.parkedWrites,
       phase := if o.phase == PumpParked then PumpReady else o.phase)
  }

  function WakeDrain(o: OutStream): OutStream {
    if o.phase == DrainParked then o.(phase := DrainReady) else o
  }

  function Park(o: OutStream, pump: Pump): OutStream {
    match pump
    case WritePump => o.(parkedWrites := o.parkedWrites + 1)
    case ClosePump => o.(phase := PumpParked)
  }

  function BlockLength(o: OutStream): nat {
    if o.blockSize <= |o.buffered| then o.blockSize else |o.buffered|
  }

  /** The next block goes from the buffer to the wire, numbered, and is unanswered from then on. */
  function Dispatch(o: OutStream): OutStream {
    var n := BlockLength(o);
    var block := o.buffered[..n];
    o.(seqNo := (o.seqNo + 1) % SEQ_MODULUS,
       buffered := o.buffered[n..],
       inFlight := o.inFlight + 1,
       blocks := o.blocks + [block],
       outcomes := o.outcomes + [Pending],
       wire := o.wire + [Data(o.seqNo, block)])
  }

  /** The outcome a rejection amounts to: after the peer's <close/>, item-not-found is an ordinary discard. */
  function Rejection(o: OutStream, error: StreamError): Outcome {
    if o.closedByPeer && error == NotFound then Discarded else Refused(error)
  }

  /** Records block `k`'s answer: latches a refusal that comes earlier in send order than any so far. */
  function RecordOutcome(o: OutStream, k: nat, outcome: Outcome): OutStream
    requires k < |o.outcomes|
  {
    var latched :=
      if outcome.Refused? && (o.failed.None? || k < o.failed.value.ordinal)
      then Some(Failure(k, outcome.error)) else o.failed;
    o.(outcomes := o.outcomes[k := outcome], failed := latched, inFlight := o.inFlight - 1)
  }

  /** After a settlement: the pumps re-evaluate, and the last ack ends the drain. */
  function WakeAfterSettle(o: OutStream): OutStream {
    var woken := Wake(o);
    if woken.inFlight == 0 then WakeDrain(woken) else woken
  }

  function SendClose(o: OutStream): OutStream {
    o.(closeSent := true, wire := o.wire + [Close])
  }

  function PeerClosed(o: OutStream): (r: OutStream)
    ensures r.blockSize == o.blockSize
  {
    if o.closedByPeer then o else WakeDrain(Wake(o.(closedByPeer := true)))
  }

  function Abort(o: OutStream, reason: StreamError): (r: OutStream)
    ensures r.blockSize == o.blockSize
  {
    if o.closeSent || o.failed.Some? || o.closedByPeer then o
    else SendClose(WakeDrain(Wake(o.(failed := Some(Failure(-1, reason))))))
  }

  /** close() after its pump: the catch clause, or the wait for acks and then our <close/>. */
  function ContinueClose(o: OutStream): (r: OutStream)
    ensures r.blockSize == o.blockSize
  {
    if o.phase == PumpThrew then
      o.(phase := if o.failed.None? && o.closedByPeer then Resolved else Rejected)
    else if o.phase != DrainReady then o
    else if o.inFlight > 0 && !o.closedByPeer && !o.Aborted() then o.(phase := DrainParked)
    else if o.failed.Some? then o.(phase := Rejected)
    else if o.closedByPeer then o.(phase := Resolved)
    else SendClose(o).(phase := AwaitingAnswer)
  }

  /** The answer to our <close/>. */
  function CloseAnswered(o: OutStream, refusal: Option<StreamError>): (r: OutStream)
    ensures r.blockSize == o.blockSize
  {
    if o.phase != AwaitingAnswer then o
    else if refusal.None? || o.closedByPeer then o.(phase := Resolved)
    else o.(phase := Rejected,
            failed := if o.failed.Some? then o.failed else Some(Failure(|o.blocks|, refusal.value)))
  }

  // ------------------------------------------------------------ what holds

  function CountPending(outcomes: seq<Outcome>): nat {
    if outcomes == [] then 0
    else CountPending(outcomes[..|outcomes| - 1]) + (if outcomes[|outcomes| - 1] == Pending then 1 else 0)
  }

  /** Blocks not (yet) acknowledged: what the peer may still be holding unanswered. */
  function CountUnacked(outcomes: seq<Outcome>): nat {
    if outcomes == [] then 0
    else CountUnacked(outcomes[..|outcomes| - 1]) + (if outcomes[|outcomes| - 1] == Acked then 0 else 1)
  }

  /** What a stream that dispatched `blocks` must have put on the wire: consecutive seqs from 0, wrapping. */
  function DataStanzas(blocks: seq<seq<Byte>>): seq<Stanza> {
    seq(|blocks|, i requires 0 <= i < |blocks| => Data(i % SEQ_MODULUS, blocks[i]))
  }

  ghost predicate AllAcked(o: OutStream) {
    forall i :: 0 <= i < |o.outcomes| ==> o.outcomes[i] == Acked
  }

  /** The bytes: nothing lost, nothing reordered, at most one <close/> and no <data/> after it. */
  ghost predicate BytesInv(o: OutStream) {
    && o.blockSize > 0 && o.window > 0
    && |o.outcomes| == |o.blocks|
    && o.seqNo == |o.blocks| % SEQ_MODULUS
    && (forall i :: 0 <= i < |o.blocks| ==> 0 < |o.blocks[i]| <= o.blockSize)
    && Flatten(o.blocks) + o.buffered == o.written
    && o.wire == DataStanzas(o.blocks) + (if o.closeSent then [Close] else [])
    && 0 <= o.inFlight <= o.window
    && o.inFlight == CountPending(o.outcomes)
    && CountUnacked(o.outcomes) <= o.window
  }

  /** The latched failure is the lowest-ordinal refusal so far, unless a local abort came first. */
  ghost predicate FailureInv(o: OutStream) {
    && (o.failed.None? ==> forall i :: 0 <= i < |o.outcomes| ==> !o.outcomes[i].Refused?)
    && (o.failed.Some? ==>
          var f := o.failed.value;
          && -1 <= f.ordinal <= |o.outcomes|
          && (f.ordinal >= 0 ==> forall i :: 0 <= i < f.ordinal ==> !o.outcomes[i].Refused?)
          && (0 <= f.ordinal < |o.outcomes| ==> o.outcomes[f.ordinal] == Refused(f.error))
          && (f.ordinal == |o.outcomes| ==> o.closeSent && o.inFlight == 0)
          && (f.ordinal == -1 ==> o.closeSent))
    && (!o.closedByPeer ==> forall i :: 0 <= i < |o.outcomes| ==> o.outcomes[i] != Discarded)
    && (o.closeSent && !o.Aborted() ==> o.closed && o.buffered == [] && o.inFlight == 0)
  }

  /** Where close() stands, and what that means for the bytes. */
  ghost predicate CloseInv(o: OutStream) {
    && (o.phase == NotClosing ==> !o.closed)
    && (o.phase.PumpRunning? || o.phase.PumpParked? || o.phase.PumpReady? ==> o.closed)
    && (o.phase.DrainReady? || o.phase.DrainParked? ==> o.closed && o.buffered == [])
    && (o.phase.DrainParked? ==> o.inFlight > 0 && !o.closedByPeer && !o.Aborted())
    && (o.phase.AwaitingAnswer? ==>
          o.closed && o.closeSent && o.buffered == [] && o.failed.None? && AllAcked(o))
    && (o.phase.Resolved? && !o.closedByPeer ==> o.closed && o.closeSent && o.buffered == [] && AllAcked(o))
    && (o.closeSent && !o.Aborted() ==> o.phase.AwaitingAnswer? || o.phase.Resolved? || o.phase.Rejected?)
  }

  ghost predicate StreamInv(o: OutStream) {
    BytesInv(o) && FailureInv(o) && CloseInv(o)
  }

  /** Only the scheduler's fields differ. */
  predicate SameTransfer(o: OutStream, o': OutStream) {
    o' == o.(granted := o'.granted, parkedWrites := o'.parkedWrites, readyWrites := o'.readyWrites, phase := o'.phase)
    && (o'.phase == o.phase || (o.phase == PumpParked && o'.phase == PumpReady))
  }

  lemma SameTransferKeeps(o: OutStream, o': OutStream)
    requires StreamInv(o) && SameTransfer(o, o')
    ensures StreamInv(o')
  {
  }

  lemma FreshKeeps(blockSize: nat, window: nat, flush: bool)
    requires blockSize > 0 && window > 0
    ensures StreamInv(FreshStream(blockSize, window, flush))
  {
    var o := FreshStream(blockSize, window, flush);
    assert Flatten(o.blocks) + o.buffered == o.written;
    assert DataStanzas(o.blocks) == [];
    hide Flatten, DataStanzas;
  }

  lemma CountSnoc(outcomes: seq<Outcome>, x: Outcome)
    ensures CountPending(outcomes + [x]) == CountPending(outcomes) + (if x == Pending then 1 else 0)
    ensures CountUnacked(outcomes + [x]) == CountUnacked(outcomes) + (if x == Acked then 0 else 1)
  {
    assert (outcomes + [x])[..|outcomes|] == outcomes;
  }

  lemma {:induction false} CountUpdate(outcomes: seq<Outcome>, k: nat, x: Outcome)
    requires k < |outcomes| && outcomes[k] == Pending
    ensures CountPending(outcomes[k := x]) == CountPending(outcomes) - (if x == Pending then 0 else 1)
    ensures CountUnacked(outcomes[k := x]) == CountUnacked(outcomes) - (if x == Acked then 1 else 0)
  {
    var last := |outcomes| - 1;
    if k == last {
      assert outcomes[k := x][..last] == outcomes[..last];
    } else {
      assert outcomes[k := x][..last] == outcomes[..last][k := x];
      CountUpdate(outcomes[..last], k, x);
    }
  }

  /** No failure, no peer close: the unacknowledged blocks are exactly the ones in flight. */
  lemma {:induction false} UnackedArePending(outcomes: seq<Outcome>)
    requires forall i :: 0 <= i < |outcomes| ==> !outcomes[i].Refused? && outcomes[i] != Discarded
    ensures CountUnacked(outcomes) == CountPending(outcomes)
  {
    if outcomes != [] { UnackedArePending(outcomes[..|outcomes| - 1]); }
  }

  lemma {:induction false} NonePending(outcomes: seq<Outcome>)
    requires CountPending(outcomes) == 0
    ensures forall i :: 0 <= i < |outcomes| ==> outcomes[i] != Pending
  {
    if outcomes != [] { NonePending(outcomes[..|outcomes| - 1]); }
  }

  lemma {:induction false} PendingCounts(outcomes: seq<Outcome>, k: nat)
    requires k < |outcomes| && outcomes[k] == Pending
    ensures CountPending(outcomes) > 0
  {
    if k < |outcomes| - 1 { PendingCounts(outcomes[..|outcomes| - 1], k); }
  }

  lemma DispatchBytes(o: OutStream)
    requires BytesInv(o) && o.HasBlock() && o.inFlight < o.window
    requires CountUnacked(o.outcomes) == CountPending(o.outcomes)
    ensures BytesInv(Dispatch(o)) || o.closeSent
  {
    CountSnoc(o.outcomes, Pending);
    DispatchFlat(o);
    DispatchWire(o);
    hide Flatten, DataStanzas, CountPending, CountUnacked;
    assert |o.buffered[..BlockLength(o)]| == BlockLength(o) > 0;
  }

  lemma DispatchFlat(o: OutStream)
    requires Flatten(o.blocks) + o.buffered == o.written
    ensures var o' := Dispatch(o); Flatten(o'.blocks) + o'.buffered == o'.written
  {
    var n := BlockLength(o);
    FlattenSnoc(o.blocks, o.buffered[..n]);
    hide Flatten;
    assert o.buffered == o.buffered[..n] + o.buffered[n..];
  }

  lemma DispatchWire(o: OutStream)
    requires o.wire == DataStanzas(o.blocks) + (if o.closeSent then [Close] else []) && o.seqNo == |o.blocks| % SEQ_MODULUS
    ensures var o' := Dispatch(o); o'.closeSent == o.closeSent && (!o.closeSent ==> o'.wire == DataStanzas(o'.blocks) + [])
  {
    StanzasSnoc(o.blocks, o.buffered[..BlockLength(o)]);
    hide DataStanzas;
    assert DataStanzas(o.blocks) + [] == DataStanzas(o.blocks);
  }

  lemma StanzasSnoc(blocks: seq<seq<Byte>>, block: seq<Byte>)
    ensures DataStanzas(blocks + [block]) == DataStanzas(blocks) + [Data(|blocks| % SEQ_MODULUS, block)]
  {
  }

  lemma DispatchKeeps(o: OutStream)
    requires StreamInv(o) && o.Usable() && o.HasBlock() && o.inFlight < o.window
    ensures StreamInv(Dispatch(o))
  {
    UnackedArePending(o.outcomes);
    DispatchBytes(o);
  }

  lemma RecordKeeps(o: OutStream, k: nat, outcome: Outcome)
    requires StreamInv(o) && k < |o.outcomes| && o.outcomes[k] == Pending
    requires outcome == Acked || (exists e :: outcome == Rejection(o, e))
    ensures var o' := WakeAfterSettle(RecordOutcome(o, k, outcome)); StreamInv(o')
  {
    RecordBytes(o, k, outcome);
    RecordFailure(o, k, outcome);
    RecordClose(o, k, outcome);
    WakeIsPlain(RecordOutcome(o, k, outcome));
    hide BytesInv, FailureInv, CloseInv, RecordOutcome, WakeAfterSettle;
  }

  lemma RecordBytes(o: OutStream, k: nat, outcome: Outcome)
    requires BytesInv(o) && k < |o.outcomes| && o.outcomes[k] == Pending && outcome != Pending
    ensures BytesInv(RecordOutcome(o, k, outcome))
  {
    CountUpdate(o.outcomes, k, outcome);
    PendingCounts(o.outcomes, k);
    hide Flatten, DataStanzas, CountPending, CountUnacked;
  }

  lemma RecordFailure(o: OutStream, k: nat, outcome: Outcome)
    requires StreamInv(o) && k < |o.outcomes| && o.outcomes[k] == Pending
    requires outcome == Acked || exists e :: outcome == Rejection(o, e)
    ensures FailureInv(RecordOutcome(o, k, outcome))
  {
    PendingCounts(o.outcomes, k);
    hide Flatten, DataStanzas, CountPending, CountUnacked;
  }

  lemma RecordClose(o: OutStream, k: nat, outcome: Outcome)
    requires StreamInv(o) && k < |o.outcomes| && o.outcomes[k] == Pending && outcome != Pending
    ensures var r := RecordOutcome(o, k, outcome); if r.inFlight > 0 then CloseInv(r) else CloseInv(WakeDrain(r))
  {
    PendingCounts(o.outcomes, k);
    assert !AllAcked(o);
    hide Flatten, DataStanzas, CountPending, CountUnacked;
  }

  /** Waking pumps, and ending the wait for acks, touches neither the bytes nor the failure. */
  lemma WakeIsPlain(r: OutStream)
    requires BytesInv(r) && FailureInv(r) && (if r.inFlight > 0 then CloseInv(r) else CloseInv(WakeDrain(r)))
    ensures StreamInv(WakeAfterSettle(r))
  {
    hide Flatten, DataStanzas, CountPending, CountUnacked;
  }

  lemma ParkKeeps(o: OutStream, pump: Pump)
    requires StreamInv(o) && (pump == ClosePump ==> o.phase == PumpRunning)
    ensures StreamInv(Park(o, pump))
  {
  }

  /** The close pump leaves: normally with nothing left to send, or by throwing. */
  lemma LeaveKeeps(o: OutStream, phase: ClosePhase)
    requires StreamInv(o) && o.phase == PumpRunning
    requires phase == PumpThrew || (phase == DrainReady && !o.HasBlock())
    ensures StreamInv(o.(phase := phase))
  {
  }

  lemma CloseCallKeeps(o: OutStream)
    requires StreamInv(o) && o.phase == NotClosing
    ensures o.Usable() ==> StreamInv(o.(closed := true, phase := PumpRunning))
    ensures o.failed.Some? ==> StreamInv(o.(phase := Rejected))
    ensures o.closedByPeer ==> StreamInv(o.(phase := Resolved))
  {
  }

  lemma ResumeKeeps(o: OutStream)
    requires StreamInv(o)
    ensures o.phase == PumpReady ==> StreamInv(o.(phase := PumpRunning))
    ensures o.readyWrites > 0 ==> StreamInv(o.(readyWrites := o.readyWrites - 1))
  {
  }

  lemma WriteKeeps(o: OutStream, bytes: seq<Byte>)
    requires StreamInv(o) && o.Usable() && !o.closed
    ensures StreamInv(o.(buffered := o.buffered + bytes, written := o.written + bytes))
  {
    assert Flatten(o.blocks) + (o.buffered + bytes) == o.written + bytes;
  }

  lemma PeerClosedKeeps(o: OutStream)
    requires StreamInv(o)
    ensures StreamInv(PeerClosed(o))
  {
  }

  lemma AbortKeeps(o: OutStream, reason: StreamError)
    requires StreamInv(o)
    ensures StreamInv(Abort(o, reason))
  {
  }

  lemma ContinueCloseKeeps(o: OutStream)
    requires StreamInv(o)
    ensures StreamInv(ContinueClose(o))
  {
    if o.phase == DrainReady && o.inFlight == 0 && o.Usable() {
      NonePending(o.outcomes);
      ClosingKeeps(o);
    } else {
      SettledKeeps(o);
    }
    hide *;
  }

  /** Our <close/> leaves: everything was taken from the buffer and acknowledged. */
  lemma ClosingKeeps(o: OutStream)
    requires StreamInv(o) && o.phase == DrainReady && o.inFlight == 0 && o.Usable()
    requires forall i :: 0 <= i < |o.outcomes| ==> o.outcomes[i] != Pending
    ensures StreamInv(ContinueClose(o))
  {
    hide Flatten, CountPending, CountUnacked;
    assert o.wire + [Close] == DataStanzas(o.blocks) + [Close];
  }

  /** Everywhere else close() only moves between its phases. */
  lemma SettledKeeps(o: OutStream)
    requires StreamInv(o) && !(o.phase == DrainReady && o.inFlight == 0 && o.Usable())
    ensures StreamInv(ContinueClose(o))
  {
    hide Flatten, CountPending, CountUnacked, DataStanzas;
  }

  lemma CloseAnsweredKeeps(o: OutStream, refusal: Option<StreamError>)
    requires StreamInv(o)
    ensures StreamInv(CloseAnswered(o, refusal))
  {
  }

  // ------------------------------------------------------------ what fails a stream, and how close() ends

  /**
   * What an answer does: an ack fails nothing; a refusal fails the stream, reported for the block sent earliest, unless it
   * is the item-not-found that the peer's own <close/> explains.
   */
  lemma AnswerOutcome(o: OutStream, k: nat, error: StreamError)
    requires k < |o.outcomes|
    ensures RecordOutcome(o, k, Acked).failed == o.failed
    ensures var r := RecordOutcome(o, k, Rejection(o, error));
            if o.closedByPeer && error == NotFound then r.failed == o.failed && r.outcomes[k] == Discarded
            else r.outcomes[k] == Refused(error) && r.failed.Some?
                 && r.failed == if o.failed.Some? && o.failed.value.ordinal <= k then o.failed else Some(Failure(k, error))
  {
  }

  /**
   * How close() goes on once its pump is through: it waits for the blocks still unanswered, unless the peer has closed or
   * the stream was aborted; then a failure is what it reports, before all else; then the peer's <close/> means it is done;
   * and only then does it send its own.
   */
  lemma CloseGoesOn(o: OutStream)
    requires StreamInv(o) && (o.phase == DrainReady || o.phase == PumpThrew) && (o.phase == PumpThrew ==> !o.Usable())
    ensures var c := ContinueClose(o);
            var waits := o.phase == DrainReady && o.inFlight > 0 && !o.closedByPeer && !o.Aborted();
            && (c.phase == DrainParked <==> waits)
            && (c.phase == Rejected <==> !waits && o.failed.Some?)
            && (c.phase == Resolved <==> !waits && o.failed.None? && o.closedByPeer)
            && (c.phase == AwaitingAnswer <==> !waits && o.failed.None? && !o.closedByPeer)
            && (c.phase == AwaitingAnswer <==> c.closeSent && !o.closeSent)
            && c.wire == (if c.phase == AwaitingAnswer then o.wire + [Close] else o.wire) && c.failed == o.failed
  {
    hide Flatten, DataStanzas, CountPending, CountUnacked;
  }

  /** The answer to our <close/>: a refusal rejects close() unless the peer's <close/> crossed it, and is reported if nothing failed before. */
  lemma CloseIsAnswered(o: OutStream, refusal: Option<StreamError>)
    requires o.phase == AwaitingAnswer
    ensures var c := CloseAnswered(o, refusal);
            && (c.phase == Resolved || c.phase == Rejected) && (c.phase == Rejected <==> refusal.Some? && !o.closedByPeer)
            && c.failed == if c.phase == Rejected && o.failed.None? then Some(Failure(|o.blocks|, refusal.value)) else o.failed
  {
  }

  /** abort() does nothing to a stream that has failed, closed or been closed; any other it fails at once, with one <close/>. */
  lemma AbortOutcome(o: OutStream, reason: StreamError)
    ensures var a := Abort(o, reason);
            if o.closeSent || o.failed.Some? || o.closedByPeer then a == o
            else a.failed == Some(Failure(-1, reason)) && a.closeSent && a.wire == o.wire + [Close]
                 && a.parkedWrites == 0 && a.readyWrites == o.readyWrites + o.parkedWrites && a.phase != PumpParked && a.phase != DrainParked
                 && a.buffered == o.buffered && a.blocks == o.blocks && a.outcomes == o.outcomes
  {
  }

  /** The peer's <close/> is noted once, and whoever waits looks again. */
  lemma PeerCloseOutcome(o: OutStream)
    ensures var p := PeerClosed(o);
            && p.closedByPeer && p.failed == o.failed && p.wire == o.wire && p.buffered == o.buffered
            && (o.closedByPeer ==> p == o)
            && (!o.closedByPeer ==> p.parkedWrites == 0 && p.readyWrites == o.readyWrites + o.parkedWrites
                                    && p.phase != PumpParked && p.phase != DrainParked)
  {
  }

  /**
   * What a resolved close() promises when the peer has not closed: every block was acknowledged,
   * and the blocks in dispatch order are exactly the bytes all writers handed over.
   */
  lemma CloseDelivers(o: OutStream)
    requires StreamInv(o) && o.phase == Resolved && !o.closedByPeer
    ensures AllAcked(o) && Flatten(o.blocks) == o.written
    ensures o.wire == DataStanzas(o.blocks) + [Close]
  {
    assert o.buffered == [];
    assert Flatten(o.blocks) + [] == Flatten(o.blocks);
  }
}
