/**
 * One duplex endpoint and everything that can end it (#createDuplex of src/ibb/ibb.ts): close(), abort(), a cancelled
 * reader, a refused block, a failed inbound half, the peer's <close/>, an <open> that is refused or times out. Whatever
 * the peer, the user and the clock do, its blocks are followed by one <close/> at most, and both halves end together.
 */
module IbbTeardown {
  import opened Bytes
  import opened IbbOutStream
  import opened IbbInStream
  import opened IbbDuplex

  /** The <open> of the side that asked for the stream: until it is accepted nobody but the peer can use the stream. */
  datatype Opening = Asking | Open | Declined(timedOut: bool)

  /** What close() still has to do once the sending half's own close() has settled. */
  datatype CloseCall = Unfinished | Telling | Over

  /**
   * The two halves, and what ties them together: `peerKnows`; the requests put on the wire; whether tellPeer() sent
   * one of them; abort() calls that wait for the sending half, and that wait in tellPeer(); deferred onFail calls.
   */
  datatype Tunnel = Tunnel(opening: Opening, out: OutStream, inb: InStream, peerKnows: bool,
                           sent: seq<Stanza>, told: bool,
                           aborting: nat, telling: nat, failing: nat, closeCall: CloseCall)

  datatype Event =
    | UserWrite(bytes: seq<Byte>)
    | UserClose
    | UserAbort(reason: StreamError)
    | ReaderCancels(reason: StreamError)
    | ReadBytes(n: nat)
    | PumpSend
    | WriterLeaves
    | ClosePumpLeaves
    | Continue
    | BlockAnswered(k: nat, refusal: Option<StreamError>)
    | CloseAnswer(refusal: Option<StreamError>)
    | CloseFails
    | CloseEnds
    | OpenAccepted
    | OpenRefused(timedOut: bool)
    | PeerData(h: nat, seqNo: Option<int>, payload: Option<seq<Byte>>)
    | PeerMessage(seqNo: Option<int>, payload: Option<seq<Byte>>)
    | PeerClose
    | IdleTimeout
    | Resume(h: nat)
    | OnFail(reason: StreamError)
    | AbortTells
    | AbortEnds

  predicate Enabled(t: Tunnel, e: Event) {
    var o := t.out;
    match e
    case UserWrite(_) => t.opening == Open
    case UserClose => t.opening == Open && o.phase == NotClosing
    case UserAbort(_) => t.opening == Open
    case ReaderCancels(_) => t.opening == Open
    case ReadBytes(n) => t.opening == Open && n <= t.inb.unread
    case PumpSend => Active(o) && o.HasBlock() && o.Usable() && o.inFlight < o.window
    case WriterLeaves => o.readyWrites > 0 && !(o.HasBlock() && o.Usable())
    case ClosePumpLeaves => o.phase == PumpRunning && !(o.HasBlock() && o.Usable())
    case Continue => o.phase == PumpThrew || o.phase == DrainReady
    case BlockAnswered(k, _) => k < |o.outcomes| && o.outcomes[k] == Pending
    case CloseAnswer(_) => o.phase == AwaitingAnswer
    case CloseFails => o.phase == Rejected && t.closeCall == Unfinished
    case CloseEnds => (o.phase == Resolved && t.closeCall == Unfinished) || t.closeCall == Telling
    case OpenAccepted => t.opening == Asking
    case OpenRefused(_) => t.opening == Asking
    case Resume(h) => h in t.inb.woken
    case OnFail(_) => t.failing > 0
    case AbortTells => t.aborting > 0
    case AbortEnds => t.telling > 0
    case _ => true
  }

  // ------------------------------------------------------------ what the steps are made of

  function TellPeer(t: Tunnel): Tunnel {
    if t.peerKnows then t else t.(peerKnows := true, sent := t.sent + [Close], told := true)
  }

  /** abort(), up to where it waits for the sending half: that one may have failed, closed or been closed before. */
  function StartAbort(t: Tunnel, reason: StreamError): Tunnel {
    var o := Abort(t.out, reason);
    var sends := o.closeSent && !t.out.closeSent;
    var n := t.(out := o, aborting := t.aborting + 1);
    if sends then n.(peerKnows := true, inb := Retire(t.inb, true), sent := t.sent + [Close]) else n
  }

  /** The inbound half after a stanza or a deadline: failing of its own accord, it has its onFail called later. */
  function Inbound(t: Tunnel, s: InStream): Tunnel {
    t.(inb := s, failing := if s.finished && !t.inb.finished then t.failing + 1 else t.failing)
  }

  function Unregister(s: InStream): InStream { s.(registered := false) }

  function Step(t: Tunnel, e: Event): Tunnel
    requires Enabled(t, e)
  {
    var o := t.out;
    match e
    case UserWrite(bytes) =>
      if !o.Usable() || o.closed then t
      else t.(out := o.(buffered := o.buffered + bytes, written := o.written + bytes, readyWrites := o.readyWrites + 1))
    case UserClose =>
      t.(out := if o.failed.Some? then o.(phase := Rejected)
                else if o.closedByPeer then o.(phase := Resolved)
                else o.(closed := true, phase := PumpRunning))
    case UserAbort(reason) => StartAbort(t, reason)
    case ReaderCancels(reason) =>
      StartAbort(t.(inb := t.inb.(unread := 0, reader := if t.inb.reader == Reading then Ended else t.inb.reader)), reason)
    case ReadBytes(n) => t.(inb := Read(t.inb, n))
    case PumpSend => t.(out := Dispatch(o), sent := t.sent + [Data(o.seqNo, o.buffered[..BlockLength(o)])])
    case WriterLeaves => t.(out := o.(readyWrites := o.readyWrites - 1))
    case ClosePumpLeaves => t.(out := o.(phase := if o.HasBlock() then PumpThrew else DrainReady))
    case Continue =>
      var o' := ContinueClose(o);
      if o'.closeSent && !o.closeSent
      then t.(out := o', peerKnows := true, inb := Retire(t.inb, false), sent := t.sent + [Close])
      else t.(out := o')
    case BlockAnswered(k, refusal) =>
      var r := RecordOutcome(o, k, if refusal.None? then Acked else Rejection(o, refusal.value));
      var first := o.failed.None? && r.failed.Some?;
      t.(out := WakeAfterSettle(r), aborting := if first then t.aborting + 1 else t.aborting)
    case CloseAnswer(refusal) => t.(out := CloseAnswered(o, refusal))
    case CloseFails => TellPeer(t.(inb := Retire(t.inb, true))).(closeCall := Telling)
    case CloseEnds => t.(inb := Unregister(t.inb), closeCall := Over)
    case OpenAccepted => t.(opening := Open)
    case OpenRefused(timedOut) =>
      t.(opening := Declined(timedOut), peerKnows := true, inb := Unregister(Retire(t.inb, true)),
         sent := if timedOut then t.sent + [Close] else t.sent)
    case PeerData(h, seqNo, payload) => Inbound(t, OnData(t.inb, h, seqNo, payload).0)
    case PeerMessage(seqNo, payload) => Inbound(t, OnMessageData(t.inb, seqNo, payload))
    case PeerClose =>
      if !t.inb.registered then t
      else t.(inb := OnClose(t.inb).0, peerKnows := true, out := PeerClosed(o))
    case IdleTimeout => if t.inb.finished then t else Inbound(t, Finish(t.inb, true))
    case Resume(h) => t.(inb := ResumeHandler(t.inb, h).0)
    case OnFail(reason) => StartAbort(t.(failing := t.failing - 1), reason)
    case AbortTells => TellPeer(t.(inb := Retire(t.inb, true))).(aborting := t.aborting - 1, telling := t.telling + 1)
    case AbortEnds => t.(inb := Unregister(Retire(t.inb, true)), telling := t.telling - 1)
  }

  /** A new duplex: the side that asks for it, or the one that accepts. */
  function Fresh(opening: Opening, blockSize: nat, window: nat, mark: nat): Tunnel {
    Tunnel(opening, FreshStream(blockSize, window, true), FreshInStream(mark), false, [], false, 0, 0, 0, Unfinished)
  }

  ghost predicate IsStart(t: Tunnel) {
    exists b: nat, w: nat, mark: nat :: b > 0 && w > 0 && (t == Fresh(Asking, b, w, mark) || t == Fresh(Open, b, w, mark))
  }

  ghost predicate IsStep(t: Tunnel, t': Tunnel) {
    exists e: Event :: Enabled(t, e) && t' == Step(t, e)
  }

  ghost predicate IsRun(run: seq<Tunnel>) {
    run != [] && IsStart(run[0]) && forall i :: 0 < i < |run| ==> IsStep(run[i - 1], run[i])
  }

  // ------------------------------------------------------------ what holds

  /** The sending half is over: nothing can be sent on it any more but its own <close/>. */
  predicate OutOver(o: OutStream) { o.closeSent || o.failed.Some? || o.closedByPeer }

  /** How many <close/> stanzas this side has sent. */
  function Closes(t: Tunnel): nat {
    (if t.out.closeSent || t.told then 1 else 0) + (if t.opening == Declined(true) then 1 else 0)
  }

  function CloseStanzas(n: nat): seq<Stanza> { seq(n, i => Close) }

  /** tellPeer() speaks for a failed half that has not closed; and a stream not open yet has sent no block. */
  predicate RestOfWire(t: Tunnel) {
    && (t.told ==> t.out.failed.Some? && !t.out.closeSent && t.opening == Open)
    && (t.opening != Open ==> t.out.phase == NotClosing && t.out.written == [] && t.out.blocks == [] && t.out.buffered == [])
  }

  /** The wire: all blocks in order, then the <close/>. */
  ghost predicate WireInv(t: Tunnel) {
    t.sent == DataStanzas(t.out.blocks) + CloseStanzas(Closes(t)) && RestOfWire(t)
  }

  /** Who knows that the stream is over. */
  ghost predicate KnowsInv(t: Tunnel) {
    && (t.out.closeSent || t.told || t.out.closedByPeer || t.opening.Declined? ==> t.peerKnows)
    && (t.peerKnows ==> t.out.closeSent || t.told || t.out.closedByPeer || t.opening.Declined?)
    && (t.aborting > 0 || t.telling > 0 ==> OutOver(t.out))
    && (t.telling > 0 || t.closeCall == Telling ==> t.peerKnows)
    && (t.out.phase == PumpThrew ==> !t.out.Usable())
    && (t.out.phase == Rejected ==> t.out.failed.Some?)
    && (t.out.phase == Resolved ==> t.out.closeSent || t.out.closedByPeer)
    && (t.closeCall != Unfinished ==> CloseSettled(t.out))
    && (t.closeCall == Over && t.out.phase == Rejected ==> t.peerKnows)
  }

  /** Some continuation of abort() or close() is still to run, which unregisters the inbound half. */
  predicate Ending(t: Tunnel) {
    t.aborting > 0 || t.telling > 0 || t.out.phase == AwaitingAnswer || (CloseSettled(t.out) && t.closeCall != Over)
  }

  /** The halves end together, or a call is pending that ends the other one. */
  ghost predicate HalvesInv(t: Tunnel) {
    var o, s := t.out, t.inb;
    && (OutOver(o) ==> s.finished || t.aborting > 0)
    && (o.closeSent || o.closedByPeer || t.closeCall == Telling || t.opening.Declined? ==> s.finished)
    && (s.finished ==> OutOver(o) || t.failing > 0 || t.opening.Declined?)
    && (s.finished ==> t.peerKnows || t.failing > 0 || t.aborting > 0)
    && (if s.finished then s.reader != Reading && s.parked == {} else !s.cancelled)
    && (s.registered && s.finished ==> Ending(t))
    && (!s.registered ==> s.finished)
    && (t.failing > 0 ==> s.finished)
  }

  /** While the <open> is unanswered or refused, only a failed inbound half can have sent anything. */
  ghost predicate OpeningInv(t: Tunnel) {
    t.opening != Open ==>
      && !t.told && t.closeCall == Unfinished
      && (t.inb.registered ==> !t.inb.finished && t.inb.reader == Reading)
      && (t.out.failed.Some? ==> t.out.closeSent)
      && (t.out.closeSent || t.failing > 0 <==> FailedItself(t.inb))
      && (t.failing > 0 ==> t.failing == 1 && !OutOver(t.out))
  }

  /** The inbound half failed, and was not ended by this side or by the peer. */
  predicate FailedItself(s: InStream) { s.finished && s.reader == Errored && !s.cancelled }

  ghost predicate Inv(t: Tunnel) {
    StreamInv(t.out) && WireInv(t) && KnowsInv(t) && HalvesInv(t) && OpeningInv(t)
  }

  lemma StartKeeps(t: Tunnel)
    requires IsStart(t)
    ensures Inv(t)
  {
  }

  // ------------------------------------------------------------ every step keeps it

  /** The sending half keeps its own invariant. */
  lemma StepKeepsOut(t: Tunnel, e: Event)
    requires Inv(t) && Enabled(t, e)
    ensures StreamInv(Step(t, e).out)
  {
    if FromOut(e) || e.PumpSend? { SendingKeepsOut(t, e); } else { EndingKeepsOut(t, e); }
    hide Step, Inv, StreamInv, Enabled;
  }

  lemma EndingKeepsOut(t: Tunnel, e: Event)
    requires Inv(t) && Enabled(t, e) && !FromOut(e) && !e.PumpSend?
    ensures StreamInv(Step(t, e).out)
  {
    hide StreamInv, Abort, PeerClosed, Retire, OnData, OnMessageData, Finish, OnClose, WireInv, KnowsInv, HalvesInv, OpeningInv;
    match e
    case UserAbort(reason) => AbortKeeps(t.out, reason);
    case ReaderCancels(reason) => AbortKeeps(t.out, reason);
    case PeerClose => PeerClosedKeeps(t.out);
    case OnFail(reason) => AbortKeeps(t.out, reason);
    case _ =>
  }

  lemma SendingKeepsOut(t: Tunnel, e: Event)
    requires Inv(t) && Enabled(t, e) && (FromOut(e) || e.PumpSend?)
    ensures StreamInv(Step(t, e).out)
  {
    var o := t.out;
    hide StreamInv, RecordOutcome, WakeAfterSettle, Dispatch, ContinueClose, CloseAnswered, Abort, PeerClosed, Retire, OnData,
         OnMessageData, Finish, OnClose, WireInv, KnowsInv, HalvesInv, OpeningInv;
    match e
    case UserWrite(bytes) => if o.Usable() && !o.closed { QuietWrite(o, bytes); }
    case UserClose => CloseCallKeeps(o);
    case PumpSend => DispatchKeeps(o);
    case WriterLeaves => ResumeKeeps(o);
    case ClosePumpLeaves => LeaveKeeps(o, if o.HasBlock() then PumpThrew else DrainReady);
    case Continue => ContinueCloseKeeps(o);
    case BlockAnswered(k, refusal) => RecordKeeps(o, k, if refusal.None? then Acked else Rejection(o, refusal.value));
    case CloseAnswer(refusal) => CloseAnsweredKeeps(o, refusal);
  }

  lemma OneMoreClose(data: seq<Stanza>, n: nat)
    ensures data + CloseStanzas(n) + [Close] == data + CloseStanzas(n + 1)
  {
  }

  /** A block leaves while no <close/> has. */
  lemma SendKeepsWire(t: Tunnel)
    requires Inv(t) && Enabled(t, Event.PumpSend)
    ensures WireInv(Step(t, Event.PumpSend))
  {
    var o, n := t.out, BlockLength(t.out);
    assert Closes(t) == 0;
    assert DataStanzas(Dispatch(o).blocks) == DataStanzas(o.blocks) + [Data(o.seqNo, o.buffered[..n])];
    assert CloseStanzas(0) == [];
  }

  /** The requests of a step that sends no block: a <close/> when it is counted as sent, and otherwise nothing. */
  ghost predicate WireStep(t: Tunnel, t': Tunnel) {
    && t'.out.blocks == t.out.blocks
    && (if Closes(t') == Closes(t) then t'.sent == t.sent
        else Closes(t') == Closes(t) + 1 && t'.sent == t.sent + [Close])
  }

  lemma WireStepKeeps(t: Tunnel, t': Tunnel)
    requires t.sent == DataStanzas(t.out.blocks) + CloseStanzas(Closes(t)) && WireStep(t, t')
    ensures t'.sent == DataStanzas(t'.out.blocks) + CloseStanzas(Closes(t'))
  {
    OneMoreClose(DataStanzas(t.out.blocks), Closes(t));
  }

  /** The user, the sending half and the answers to it. */
  predicate FromOut(e: Event) {
    e.UserWrite? || e.UserClose? || e.WriterLeaves? || e.ClosePumpLeaves? || e.Continue? || e.BlockAnswered? || e.CloseAnswer?
  }

  /** What reaches the inbound half, and its reader. */
  predicate FromIn(e: Event) {
    e.PeerData? || e.PeerMessage? || e.IdleTimeout? || e.Resume? || e.ReadBytes?
  }

  lemma InboundOnly(t: Tunnel, e: Event)
    requires Enabled(t, e) && FromIn(e)
    ensures var t' := Step(t, e); t' == t.(inb := t'.inb, failing := t'.failing)
  {
  }

  lemma OutIsWireStep(t: Tunnel, e: Event)
    requires Inv(t) && Enabled(t, e) && FromOut(e)
    ensures WireStep(t, Step(t, e)) && RestOfWire(Step(t, e))
  {
    hide Flatten, DataStanzas, CloseStanzas;
  }

  lemma TellIsWireStep(t: Tunnel, e: Event)
    requires Inv(t) && Enabled(t, e) && !FromOut(e) && !FromIn(e) && !e.PumpSend?
    ensures WireStep(t, Step(t, e)) && RestOfWire(Step(t, e))
  {
    hide StreamInv, OnClose, CloseStanzas, DataStanzas, Retire;
  }

  lemma StepKeepsWire(t: Tunnel, e: Event)
    requires Inv(t) && Enabled(t, e)
    ensures WireInv(Step(t, e))
  {
    if e.PumpSend? {
      SendKeepsWire(t);
    } else if FromIn(e) {
      InboundOnly(t, e);
    } else {
      if FromOut(e) { OutIsWireStep(t, e); } else { TellIsWireStep(t, e); }
      WireStepKeeps(t, Step(t, e));
    }
    hide Step, StreamInv, KnowsInv, HalvesInv, OpeningInv, WireStep, Enabled, DataStanzas, CloseStanzas;
  }

  lemma OutKeepsKnows(t: Tunnel, e: Event)
    requires Inv(t) && Enabled(t, e) && (FromOut(e) || e.PumpSend?)
    ensures KnowsInv(Step(t, e))
  {
    if e.Continue? || e.CloseAnswer? { ClosingKeepsKnows(t, e); } else { SendingKeepsKnows(t, e); }
    hide Step, Inv, KnowsInv, Enabled;
  }

  lemma ClosingKeepsKnows(t: Tunnel, e: Event)
    requires Inv(t) && Enabled(t, e) && (e.Continue? || e.CloseAnswer?)
    ensures KnowsInv(Step(t, e))
  {
    hide BytesInv, Retire, WireInv, HalvesInv, OpeningInv;
    match e
    case Continue =>
    case CloseAnswer(_) =>
  }

  lemma SendingKeepsKnows(t: Tunnel, e: Event)
    requires Inv(t) && Enabled(t, e) && (FromOut(e) || e.PumpSend?) && !e.Continue? && !e.CloseAnswer?
    ensures KnowsInv(Step(t, e))
  {
    hide BytesInv, Retire, WireInv, HalvesInv, OpeningInv;
    match e
    case BlockAnswered(_, _) =>
    case PumpSend =>
    case _ =>
  }

  lemma TellKeepsKnows(t: Tunnel, e: Event)
    requires Inv(t) && Enabled(t, e) && !FromOut(e) && !FromIn(e) && !e.PumpSend?
    ensures KnowsInv(Step(t, e))
  {
    hide StreamInv, OnClose, Retire;
  }

  lemma StepKeepsKnows(t: Tunnel, e: Event)
    requires Inv(t) && Enabled(t, e)
    ensures KnowsInv(Step(t, e))
  {
    if FromOut(e) || e.PumpSend? {
      OutKeepsKnows(t, e);
    } else if FromIn(e) {
      InboundOnly(t, e);
    } else {
      TellKeepsKnows(t, e);
    }
    hide Step, StreamInv, WireInv, HalvesInv, OpeningInv, Enabled;
  }

  lemma OutKeepsHalves(t: Tunnel, e: Event)
    requires Inv(t) && Enabled(t, e) && (FromOut(e) || e.PumpSend?)
    ensures HalvesInv(Step(t, e))
  {
    if e.Continue? || e.CloseAnswer? { ClosingKeepsHalves(t, e); } else { SendingKeepsHalves(t, e); }
    hide Step, Inv, HalvesInv, Enabled;
  }

  lemma ClosingKeepsHalves(t: Tunnel, e: Event)
    requires Inv(t) && Enabled(t, e) && (e.Continue? || e.CloseAnswer?)
    ensures HalvesInv(Step(t, e))
  {
    hide BytesInv, WireInv, OpeningInv;
    match e
    case Continue =>
    case CloseAnswer(_) =>
  }

  lemma SendingKeepsHalves(t: Tunnel, e: Event)
    requires Inv(t) && Enabled(t, e) && (FromOut(e) || e.PumpSend?) && !e.Continue? && !e.CloseAnswer?
    ensures HalvesInv(Step(t, e))
  {
    hide BytesInv, WireInv, OpeningInv;
    match e
    case UserClose =>
    case BlockAnswered(_, _) =>
    case _ =>
  }

  lemma InboundKeepsHalves(t: Tunnel, e: Event)
    requires Inv(t) && Enabled(t, e) && (FromIn(e) || e.PeerClose?)
    ensures HalvesInv(Step(t, e))
  {
    hide StreamInv, WireInv, OpeningInv, IsRedelivery;
    match e
    case PeerData(_, _, _) =>
    case PeerMessage(_, _) =>
    case PeerClose =>
    case _ =>
  }

  lemma TellKeepsHalves(t: Tunnel, e: Event)
    requires Inv(t) && Enabled(t, e) && !FromOut(e) && !FromIn(e) && !e.PumpSend? && !e.PeerClose?
    ensures HalvesInv(Step(t, e))
  {
    hide StreamInv;
  }

  lemma StepKeepsHalves(t: Tunnel, e: Event)
    requires Inv(t) && Enabled(t, e)
    ensures HalvesInv(Step(t, e))
  {
    if FromOut(e) || e.PumpSend? {
      OutKeepsHalves(t, e);
    } else if FromIn(e) || e.PeerClose? {
      InboundKeepsHalves(t, e);
    } else {
      TellKeepsHalves(t, e);
    }
    hide Step, Inv, HalvesInv, Enabled;
  }

  lemma StepKeepsOpening(t: Tunnel, e: Event)
    requires Inv(t) && Enabled(t, e)
    ensures OpeningInv(Step(t, e))
  {
    if FromOut(e) || e.PumpSend? {
      OutKeepsOpening(t, e);
    } else if FromIn(e) || e.PeerClose? {
      InboundKeepsOpening(t, e);
    } else {
      TellKeepsOpening(t, e);
    }
    hide Step, Inv, OpeningInv, Enabled;
  }

  lemma OutKeepsOpening(t: Tunnel, e: Event)
    requires Inv(t) && Enabled(t, e) && (FromOut(e) || e.PumpSend?)
    ensures OpeningInv(Step(t, e))
  {
    hide Flatten, DataStanzas, CountPending, CountUnacked, CloseInv, Retire, Dispatch, WakeAfterSettle;
  }

  lemma InboundKeepsOpening(t: Tunnel, e: Event)
    requires Inv(t) && Enabled(t, e) && (FromIn(e) || e.PeerClose?)
    ensures OpeningInv(Step(t, e))
  {
    hide StreamInv, WireInv, IsRedelivery;
  }

  lemma TellKeepsOpening(t: Tunnel, e: Event)
    requires Inv(t) && Enabled(t, e) && !FromOut(e) && !FromIn(e) && !e.PumpSend? && !e.PeerClose?
    ensures OpeningInv(Step(t, e))
  {
    hide StreamInv;
  }

  lemma {:induction false} EveryRunTearsDown(run: seq<Tunnel>, i: nat)
    requires IsRun(run) && i < |run|
    ensures Inv(run[i])
  {
    hide Step, Enabled, Inv, IsStart;
    if i == 0 {
      StartKeeps(run[0]);
    } else {
      EveryRunTearsDown(run, i - 1);
      assert IsStep(run[i - 1], run[i]);
      var e: Event :| Enabled(run[i - 1], e) && run[i] == Step(run[i - 1], e);
      StepKeeps(run[i - 1], e);
    }
  }

  lemma StepKeeps(t: Tunnel, e: Event)
    requires Inv(t) && Enabled(t, e)
    ensures Inv(Step(t, e))
  {
    hide Step, Enabled, StreamInv, WireInv, KnowsInv, HalvesInv, OpeningInv;
    StepKeepsOut(t, e);
    StepKeepsWire(t, e);
    StepKeepsKnows(t, e);
    StepKeepsHalves(t, e);
    StepKeepsOpening(t, e);
  }

  // ------------------------------------------------------------ the results

  /**
   * The close contract of a duplex, in every state of every run, whatever ends it: what this side has sent is its blocks
   * in order, numbered from 0, then at most one <close/>, by whichever path, and nothing after it. The one exception is
   * an <open> that times out after the inbound half had failed, and been torn down, by itself: then there are two.
   */
  lemma OneCloseAtTheEnd(run: seq<Tunnel>, i: nat)
    requires IsRun(run) && i < |run|
    ensures var t := run[i];
            && t.sent == DataStanzas(t.out.blocks) + CloseStanzas(Closes(t)) && t.out.written == Flatten(t.out.blocks) + t.out.buffered
            && (Closes(t) <= 1 <==> !(t.opening == Declined(true) && t.out.closeSent))
            && (t.peerKnows <==> Closes(t) > 0 || t.out.closedByPeer || t.opening.Declined?)
  {
    EveryRunTearsDown(run, i);
  }

  /** No call, no answer and no deferred callback is pending that could still end a half. */
  predicate Quiet(t: Tunnel) {
    && t.aborting == 0 && t.telling == 0 && t.failing == 0
    && (t.out.phase == NotClosing || t.closeCall == Over)
  }

  /**
   * Both halves end together, on every path: once nothing is pending, the inbound half is over exactly if the sending
   * half is, or the <open> was refused; and then the peer has been told or has said so itself, the reader has its end
   * or its error, no data handler is left waiting, and the entry is gone from the manager.
   */
  lemma HalvesEndTogether(run: seq<Tunnel>, i: nat)
    requires IsRun(run) && i < |run| && Quiet(run[i])
    ensures var t := run[i];
            && (t.inb.finished <==> OutOver(t.out) || t.opening.Declined?)
            && (if t.inb.finished
                then t.peerKnows && !t.inb.registered && t.inb.reader != Reading && t.inb.parked == {}
                else t.inb.registered && !t.peerKnows && t.sent == DataStanzas(t.out.blocks))
  {
    EveryRunTearsDown(run, i);
    var t := run[i];
    assert CloseStanzas(0) == [];
    assert DataStanzas(t.out.blocks) + [] == DataStanzas(t.out.blocks);
  }

  /** The inbound half failing by itself, or closed by the peer: in either case without this side's doing. */
  predicate FromPeer(e: Event) { e.PeerData? || e.PeerMessage? || e.PeerClose? || e.IdleTimeout? }

  /**
   * How the reader learns of the end: it is clean after an own close() or the peer's, and an error after anything else; one
   * that was cancelled has had its end. The entry stays behind, as a tombstone that acks what still comes, exactly if this
   * side ended it and an answer of the peer is awaited.
   */
  lemma HowItEnds(t: Tunnel, e: Event)
    requires Inv(t) && Enabled(t, e) && !t.inb.finished && Step(t, e).inb.finished
    ensures var s, s' := t.inb, Step(t, e).inb;
            && s'.reader == (if s.reader != Reading then s.reader
                             else if e.Continue? || e.PeerClose? || e.ReaderCancels? then Ended else Errored)
            && (s'.registered <==> !FromPeer(e) && !e.AbortEnds? && !e.OpenRefused?)
            && (s'.cancelled <==> !FromPeer(e))
            && s'.parked == {} && s'.woken == s.parked + s.woken
  {
    hide StreamInv, WireInv, OpeningInv, IsRedelivery;
    if FromPeer(e) { PeerEnds(t, e); } else { SideEnds(t, e); }
    hide Step, HalvesInv;
  }

  lemma PeerEnds(t: Tunnel, e: Event)
    requires HalvesInv(t) && Enabled(t, e) && FromPeer(e) && !t.inb.finished && Step(t, e).inb.finished
    ensures var s, s' := t.inb, Step(t, e).inb;
            && s'.reader == (if s.reader != Reading then s.reader else if e.PeerClose? then Ended else Errored)
            && !s'.registered && !s'.cancelled && s'.parked == {} && s'.woken == s.parked + s.woken
  {
    hide IsRedelivery;
    match e
    case PeerData(_, _, _) =>
    case PeerMessage(_, _) =>
    case PeerClose =>
    case IdleTimeout =>
  }

  lemma SideEnds(t: Tunnel, e: Event)
    requires HalvesInv(t) && t.inb.registered && Enabled(t, e) && !FromPeer(e) && !t.inb.finished && Step(t, e).inb.finished
    ensures var s, s' := t.inb, Step(t, e).inb;
            && s'.reader == (if s.reader != Reading then s.reader else if e.Continue? || e.ReaderCancels? then Ended else Errored)
            && (s'.registered <==> !e.AbortEnds? && !e.OpenRefused?) && s'.cancelled
            && s'.parked == {} && s'.woken == s.parked + s.woken
  {
    hide OnData, OnMessageData, OnClose, Finish, RecordOutcome, WakeAfterSettle, CloseAnswered, Dispatch, PeerClosed, HalvesInv, ContinueClose, Abort;
    match e
    case UserAbort(_) =>
    case ReaderCancels(_) =>
    case OnFail(_) =>
    case Continue =>
    case AbortTells =>
    case AbortEnds =>
    case CloseFails =>
    case OpenRefused(_) =>
    case _ =>
  }

  /**
   * A refused block tears the stream down once: by the first refusal that is not the item-not-found which the peer's own
   * <close/> explains.
   */
  lemma RefusalTearsDownOnce(t: Tunnel, k: nat, refusal: Option<StreamError>)
    requires Enabled(t, BlockAnswered(k, refusal))
    ensures var t' := Step(t, BlockAnswered(k, refusal));
            && t'.aborting == t.aborting + (if t.out.failed.None? && t'.out.failed.Some? then 1 else 0)
            && (t'.out.failed.Some? <==> t.out.failed.Some? || (refusal.Some? && !(t.out.closedByPeer && refusal.value == NotFound)))
            && t'.inb == t.inb && t'.sent == t.sent && t'.peerKnows == t.peerKnows
  {
  }

  /** After an <open> that timed out there are two <close/> stanzas exactly if the inbound half had failed before. */
  lemma SecondCloseIff(run: seq<Tunnel>, i: nat)
    requires IsRun(run) && i < |run| && run[i].opening == Declined(true) && run[i].failing == 0
    ensures run[i].sent == if FailedItself(run[i].inb) then [Close, Close] else [Close]
  {
    EveryRunTearsDown(run, i);
    assert CloseStanzas(1) == [Close] && CloseStanzas(2) == [Close, Close];
    assert run[i].sent == [] + CloseStanzas(Closes(run[i]));
  }

  lemma Leads(t: Tunnel, e: Event, t': Tunnel)
    requires Enabled(t, e) && t' == Step(t, e)
    ensures IsStep(t, t')
  {
  }

  lemma IdleRunsOut(t: Tunnel) returns (t': Tunnel)
    requires t == Fresh(Asking, 4096, 8, 65536)
    ensures IsStep(t, t') && t' == t.(inb := t'.inb, failing := 1) && t'.inb.finished && !t'.inb.cancelled
  {
    t' := Step(t, IdleTimeout);
    Leads(t, IdleTimeout, t');
  }

  lemma FailureTearsDown(t: Tunnel) returns (t': Tunnel)
    requires t.failing == 1 && t.inb.finished && !OutOver(t.out)
    ensures IsStep(t, t') && t'.opening == t.opening && t'.sent == t.sent + [Close]
  {
    t' := Step(t, OnFail(NotFound));
    Leads(t, OnFail(NotFound), t');
  }

  lemma OpenTimesOut(t: Tunnel) returns (t': Tunnel)
    requires t.opening == Asking
    ensures IsStep(t, t') && t'.sent == t.sent + [Close]
  {
    t' := Step(t, OpenRefused(true));
    Leads(t, OpenRefused(true), t');
  }

  /** An idle timeout of the duplex that is shorter than the time-out of its <open>, and a peer that never answers. */
  lemma SecondCloseIsReachable()
    ensures exists run: seq<Tunnel> :: IsRun(run) && run[|run| - 1].sent == [Close, Close]
  {
    var t0 := Fresh(Asking, 4096, 8, 65536);
    assert IsStart(t0);
    assert t0.sent == [] && t0.opening == Asking && !OutOver(t0.out);
    hide IsStep, IsStart;
    var t1 := IdleRunsOut(t0);
    var t2 := FailureTearsDown(t1);
    var t3 := OpenTimesOut(t2);
    var run := [t0, t1, t2, t3];
    assert IsRun(run) && run[|run| - 1] == t3;
  }

  // ------------------------------------------------------------ as the source writes it

  /** The closure variables of one duplex, and the calls that end it; what waits between two of them is for the record. */
  class Duplex {
    var opening: Opening
    var out: OutStream
    var inb: InStream
    var peerKnows: bool
    var sent: seq<Stanza>
    ghost var told: bool
    ghost var aborting: nat
    ghost var telling: nat
    ghost var failing: nat
    ghost var closeCall: CloseCall

    ghost function View(): Tunnel
      reads this
    {
      Tunnel(opening, out, inb, peerKnows, sent, told, aborting, telling, failing, closeCall)
    }

    constructor (opening: Opening, blockSize: nat, window: nat, mark: nat)
      ensures View() == Fresh(opening, blockSize, window, mark)
    {
      this.opening, out, inb := opening, FreshStream(blockSize, window, true), FreshInStream(mark);
      peerKnows, sent := false, [];
      told, aborting, telling, failing, closeCall := false, 0, 0, 0, Unfinished;
    }

    method RetireInbound(error: bool, keepTombstone: bool)
      modifies this`inb
      ensures inb == if old(inb).finished || keepTombstone then Retire(old(inb), error) else Unregister(Retire(old(inb), error))
    {
      if inb.finished { return; }
      inb := inb.(cancelled := true);
      if inb.reader == Reading { inb := inb.(reader := if error then Errored else Ended); }
      inb := WakeHandlers(inb.(finished := true));
      if !keepTombstone { inb := Unregister(inb); }
    }

    method RemoveTombstone()
      modifies this`inb
      ensures inb == Unregister(old(inb))
    {
      inb := Unregister(inb);
    }

    method Send(stanza: Stanza)
      modifies this`sent
      ensures sent == old(sent) + [stanza]
    {
      sent := sent + [stanza];
    }

    method TellPeerOnce()
      modifies this`peerKnows, this`sent, this`told
      ensures View() == TellPeer(old(View()))
    {
      if peerKnows { return; }
      peerKnows, told := true, true;
      Send(Close);
    }

    method BeforeSendClose(error: bool)
      modifies this`peerKnows, this`inb
      ensures peerKnows && inb == Retire(old(inb), error)
    {
      peerKnows := true;
      RetireInbound(error, true);
    }

    method AbortCall(reason: StreamError)
      modifies this
      ensures View() == StartAbort(old(View()), reason)
    {
      aborting := aborting + 1;
      if out.closeSent || out.failed.Some? || out.closedByPeer { return; }
      out := out.(failed := Some(Failure(-1, reason)));
      out := SendClose(WakeDrain(Wake(out)));
      BeforeSendClose(true);
      Send(Close);
    }

    /** abort(), once the sending half's own is through. */
    method AbortContinues()
      requires aborting > 0
      modifies this
      ensures View() == Step(old(View()), AbortTells)
    {
      RetireInbound(true, true);
      TellPeerOnce();
      aborting, telling := aborting - 1, telling + 1;
    }

    method AbortFinally()
      requires telling > 0
      modifies this
      ensures View() == Step(old(View()), AbortEnds)
    {
      RetireInbound(true, false);
      RemoveTombstone();
      telling := telling - 1;
    }

    method CloseCatch()
      requires out.phase == Rejected && closeCall == Unfinished
      modifies this
      ensures View() == Step(old(View()), CloseFails)
    {
      RetireInbound(true, true);
      TellPeerOnce();
      closeCall := Telling;
    }

    method CloseFinally()
      requires Enabled(View(), CloseEnds)
      modifies this
      ensures View() == Step(old(View()), CloseEnds)
    {
      RemoveTombstone();
      closeCall := Over;
    }

    /** The <open> was refused, or timed out. */
    method Discard(timedOut: bool)
      requires opening == Asking
      modifies this
      ensures View() == Step(old(View()), OpenRefused(timedOut))
    {
      hide StartAbort, TellPeer, RecordOutcome, WakeAfterSettle, ContinueClose, CloseAnswered, Dispatch, OnClose, PeerClosed, Retire;
      opening, peerKnows := Declined(timedOut), true;
      RetireInbound(true, false);
      RemoveTombstone();
      if timedOut { Send(Close); }
    }

    method OnPeerClose()
      modifies this
      ensures View() == Step(old(View()), PeerClose)
    {
      if !inb.registered { return; }
      inb := OnClose(inb).0;
      peerKnows := true;
      out := PeerClosed(out);
    }

    /** The first refusal tears the duplex down at once, before its block gives up its place in the window. */
    method OnBlockAnswered(k: nat, refusal: Option<StreamError>)
      requires Enabled(View(), BlockAnswered(k, refusal))
      modifies this
      ensures View() == Step(old(View()), BlockAnswered(k, refusal))
    {
      var healthy := out.failed.None?;
      out := RecordOutcome(out, k, if refusal.None? then Acked else Rejection(out, refusal.value));
      if healthy && out.failed.Some? { AbortCall(out.failed.value.error); }
      out := WakeAfterSettle(out);
    }
  }
}
