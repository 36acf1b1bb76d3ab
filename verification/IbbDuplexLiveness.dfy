/**
 * Whole runs of a duplex: nothing is ever refused, internal activity dies down within a bound, and once it has,
 * every close() has resolved and both readers have ended.
 */
module IbbDuplexLiveness {
  import opened Bytes
  import opened IbbOutStream
  import opened IbbInStream
  import opened IbbDuplex

  predicate Enabled(s: System, onA: bool, e: Action) {
    if onA then CanAct(s.a, s.ba, e) else CanAct(s.b, s.ab, e)
  }

  function Step(s: System, onA: bool, e: Action): System
    requires Enabled(s, onA, e)
  {
    if onA then
      var (a, ab, ba) := Act(s.a, s.ab, s.ba, e);
      System(a, s.b, ab, ba)
    else
      var (b, ba, ab) := Act(s.b, s.ba, s.ab, e);
      System(s.a, b, ab, ba)
  }

  ghost predicate IsStep(s: System, s': System) {
    exists onA: bool, e: Action :: Enabled(s, onA, e) && s' == Step(s, onA, e)
  }

  /** A step nobody asked for: the pumps, the channels, the handlers and the readers going on. */
  ghost predicate IsInternalStep(s: System, s': System) {
    exists onA: bool, e: Action :: Internal(e) && Enabled(s, onA, e) && s' == Step(s, onA, e)
  }

  ghost predicate IsStart(s: System) {
    exists z: nat, wa: nat, wb: nat, ha: nat, hb: nat ::
      z > 0 && wa > 0 && wb > 0 && ha > 0 && hb > 0 && s == Start(z, wa, wb, ha, hb)
  }

  ghost predicate IsRun(run: seq<System>) {
    run != [] && IsStart(run[0]) && forall i :: 0 < i < |run| ==> IsStep(run[i - 1], run[i])
  }

  lemma StepKeeps(s: System, onA: bool, e: Action)
    requires Inv(s) && Enabled(s, onA, e)
    ensures Inv(Step(s, onA, e))
  {
    hide Act, Local, Dir;
    if onA { ActKeeps(s.a, s.b, s.ab, s.ba, e); } else { ActKeeps(s.b, s.a, s.ba, s.ab, e); }
  }

  lemma StartKeeps(s: System)
    requires IsStart(s)
    ensures Inv(s)
  {
    hide Inv, Start;
    var z: nat, wa: nat, wb: nat, ha: nat, hb: nat :|
      z > 0 && wa > 0 && wb > 0 && ha > 0 && hb > 0 && s == Start(z, wa, wb, ha, hb);
    StartInv(z, wa, wb, ha, hb);
  }

  lemma {:induction false} EveryRunKeeps(run: seq<System>, i: nat)
    requires IsRun(run) && i < |run|
    ensures Inv(run[i])
  {
    if i == 0 {
      hide IsStart;
      StartKeeps(run[0]);
    } else {
      hide Step, Enabled, Inv, IsStart;
      EveryRunKeeps(run, i - 1);
      assert IsStep(run[i - 1], run[i]);
      var onA: bool, e: Action :| Enabled(run[i - 1], onA, e) && run[i] == Step(run[i - 1], onA, e);
      StepKeeps(run[i - 1], onA, e);
    }
  }

  /** No stanza of the run is ever refused, so no stream fails, no reader errors, and no close() rejects. */
  ghost predicate Clean(s: System) {
    && (forall m :: m in s.ab + s.ba ==> (m.DataReply? || m.CloseReply? ==> m.reply == Result))
    && s.a.out.failed.None? && s.b.out.failed.None?
    && s.a.inb.reader != Errored && s.b.inb.reader != Errored
    && s.a.out.phase != Rejected && s.b.out.phase != Rejected
  }

  /** Nothing is answered item-not-found, or anything but a result, in any state of any run. */
  lemma NothingIsRefused(run: seq<System>, i: nat)
    requires IsRun(run) && i < |run|
    ensures Clean(run[i])
  {
    EveryRunKeeps(run, i);
  }

  // ------------------------------------------------------------ once nothing more can happen

  ghost predicate Quiet(s: System) {
    forall onA: bool, e: Action :: Internal(e) ==> !Enabled(s, onA, e)
  }

  /** Side `x` has nothing left to do. */
  ghost predicate Idle(x: Endpoint, d: seq<Msg>) {
    forall e: Action :: Internal(e) ==> !CanAct(x, d, e)
  }

  lemma {:induction false} NoPending(outcomes: seq<Outcome>)
    requires forall i :: 0 <= i < |outcomes| ==> outcomes[i] != Pending
    ensures CountPending(outcomes) == 0
  {
    if outcomes != [] { NoPending(outcomes[..|outcomes| - 1]); }
  }

  lemma IdleSide(x: Endpoint, d: seq<Msg>)
    requires Local(x) && Idle(x, d)
    ensures d == [] && x.inb.Held() == {} && (x.out.inFlight == 0 ==> !Active(x.out))
    ensures x.out.phase != PumpThrew && x.out.phase != DrainReady
  {
    hide StreamInv;
    assert !CanAct(x, d, Receive) && !CanAct(x, d, Continue) && !CanAct(x, d, PumpSend);
    assert !CanAct(x, d, WriterLeaves) && !CanAct(x, d, ClosePumpLeaves);
    assert !CanAct(x, d, ReadBytes(x.inb.unread));
    forall h: nat ensures h !in x.inb.woken { assert !CanAct(x, d, Resume(h)); }
    SizesOf(x.out);
  }

  lemma UnsentIsInTransit(o: OutStream, got: nat, c: seq<Msg>)
    requires InTransit(o, got, c)
    ensures got == |o.blocks| || c != []
  {
    if got < |o.blocks| {
      var m := DataMsg(got, got % SEQ_MODULUS, o.blocks[got]);
      assert m in c;
    }
  }

  /** With empty channels and nothing held, every block has been answered. */
  lemma NothingOutstanding(x: Endpoint, y: Endpoint)
    requires Local(x) && Dir(x, y, [], []) && y.inb.Held() == {}
    ensures x.out.inFlight == 0
  {
    var o := x.out;
    SizesOf(o);
    UnsentIsInTransit(o, y.got, []);
    forall k | 0 <= k < |o.outcomes| ensures o.outcomes[k] != Pending {
    }
    NoPending(o.outcomes);
  }

  /** Where a side stands once nothing more can happen: its close() is over, and the two agree that it ended. */
  lemma IdleEnds(x: Endpoint, y: Endpoint)
    requires Both(x, y, [], []) && Idle(x, []) && Idle(y, [])
    ensures x.out.phase == NotClosing || x.out.phase == Resolved
    ensures x.out.closeSent <==> y.out.closedByPeer
    ensures x.inb.finished <==> !x.inb.registered
  {
    IdleSide(x, []);
    IdleSide(y, []);
    NothingOutstanding(x, y);
    assert CloseMsg !in [] && CloseReply(Result) !in [];
  }

  lemma QuietIsIdle(s: System)
    requires Inv(s) && Quiet(s)
    ensures s.ab == [] && s.ba == [] && Idle(s.a, []) && Idle(s.b, [])
  {
    hide Local, Dir;
    assert forall e: Action :: Internal(e) ==> !Enabled(s, true, e);
    assert forall e: Action :: Internal(e) ==> !Enabled(s, false, e);
    IdleSide(s.a, s.ba);
    IdleSide(s.b, s.ab);
  }

  /**
   * Crossing closes: once a side of a duplex has called close(), at any moment, and nothing more can happen, every
   * close() that was called has resolved, both readers have ended cleanly, and neither sid is registered any more.
   */
  lemma ClosesResolve(run: seq<System>, i: nat)
    requires IsRun(run) && i < |run| && Quiet(run[i])
    requires run[i].a.out.phase != NotClosing || run[i].b.out.phase != NotClosing
    ensures var s := run[i];
            && s.ab == [] && s.ba == []
            && (s.a.out.phase == Resolved || (s.a.out.phase == NotClosing && s.a.out.closedByPeer))
            && (s.b.out.phase == Resolved || (s.b.out.phase == NotClosing && s.b.out.closedByPeer))
            && s.a.inb.reader == Ended && s.b.inb.reader == Ended
            && !s.a.inb.registered && !s.b.inb.registered
  {
    EveryRunKeeps(run, i);
    var s := run[i];
    QuietIsIdle(s);
    IdleEnds(s.a, s.b);
    IdleEnds(s.b, s.a);
    hide Dir, Idle, Quiet;
    ResolvedMeansOver(s.a);
    ResolvedMeansOver(s.b);
  }

  lemma ResolvedMeansOver(x: Endpoint)
    requires Local(x)
    ensures x.out.phase == Resolved ==> x.out.closeSent || x.out.closedByPeer
    ensures x.out.closeSent ==> x.out.phase != NotClosing
  {
  }

  // ------------------------------------------------------------ and that moment comes

  function PhaseWeight(p: ClosePhase): nat {
    match p
    case PumpRunning => 13
    case PumpThrew => 12
    case DrainReady => 12
    case DrainParked => 11
    case AwaitingAnswer => 3
    case _ => 0
  }

  function Weight(m: Msg): nat {
    match m
    case DataMsg(_, _, bytes) => 7 + 2 * |bytes|
    case CloseMsg => 6
    case DataReply(_, _) => 2
    case CloseReply(_) => 2
  }

  function Load(c: seq<Msg>): nat {
    if c == [] then 0 else Weight(c[0]) + Load(c[1..])
  }

  lemma {:induction false} LoadSnoc(c: seq<Msg>, m: Msg)
    ensures Load(c + [m]) == Load(c) + Weight(m)
  {
    if c == [] {
    } else {
      assert (c + [m])[1..] == c[1..] + [m];
      LoadSnoc(c[1..], m);
    }
  }

  /** The work one side still holds. */
  function Work(x: Endpoint): nat {
    10 * |x.out.buffered| + PhaseWeight(x.out.phase) + x.out.readyWrites + 2 * x.inb.unread + 4 * |x.inb.Held()|
  }

  function TotalWork(s: System): nat {
    Work(s.a) + Work(s.b) + Load(s.ab) + Load(s.ba)
  }

  function WokenCount(s: System): nat { |s.a.inb.woken| + |s.b.inb.woken| }

  /** How many more internal steps there can be: a handler that re-parks costs no work, but there are only so many. */
  function Rank(s: System): nat { TotalWork(s) * (TotalWork(s) + 1) + WokenCount(s) }

  /** Less work, or the same work with one handler fewer awake. */
  predicate Less(x: Endpoint, c: seq<Msg>, d: seq<Msg>, x': Endpoint, c': seq<Msg>, d': seq<Msg>) {
    var before, after := Work(x) + Load(c) + Load(d), Work(x') + Load(c') + Load(d');
    after < before || (after == before && |x'.inb.woken| < |x.inb.woken|)
  }

  lemma PumpSendShrinks(x: Endpoint, c: seq<Msg>, d: seq<Msg>)
    requires Local(x) && CanAct(x, d, PumpSend)
    ensures var (x', c', d') := Act(x, c, d, PumpSend); Less(x, c, d, x', c', d')
  {
    var o := x.out;
    SizesOf(o);
    hide StreamInv;
    var n := BlockLength(o);
    LoadSnoc(c, DataMsg(|o.blocks|, o.seqNo, o.buffered[..n]));
  }

  lemma PumpLeavesShrinks(x: Endpoint, c: seq<Msg>, d: seq<Msg>, e: Action)
    requires Local(x) && CanAct(x, d, e) && (e.WriterLeaves? || e.ClosePumpLeaves?)
    ensures var (x', c', d') := Act(x, c, d, e); Less(x, c, d, x', c', d')
  {
    hide StreamInv;
  }

  lemma ContinueShrinks(x: Endpoint, c: seq<Msg>, d: seq<Msg>)
    requires Local(x) && CanAct(x, d, Continue)
    ensures var (x', c', d') := Act(x, c, d, Continue); Less(x, c, d, x', c', d')
  {
    ContinueIs(x, c, d);
    ContinueWork(x, c, d);
    LoadSnoc(c, CloseMsg);
    hide Act, Local;
  }

  lemma ContinueWork(x: Endpoint, c: seq<Msg>, d: seq<Msg>)
    requires CanAct(x, d, Continue)
    ensures var x' := Act(x, c, d, Continue).0;
            && x'.out.buffered == x.out.buffered && x'.out.readyWrites == x.out.readyWrites && x'.inb.unread == x.inb.unread
            && PhaseWeight(x'.out.phase) + (if x'.out.phase == AwaitingAnswer then 6 else 0) < PhaseWeight(x.out.phase)
  {
  }

  lemma RecvDataShrinks(x: Endpoint, y: Endpoint, c: seq<Msg>, d: seq<Msg>)
    requires Both(x, y, c, d) && d != [] && d[0].DataMsg?
    ensures var (x', c', d') := Act(x, c, d, Receive); Less(x, c, d, x', c', d')
  {
    RecvDataIs(x, y, c, d);
    DataUnread(x, c, d);
    hide Local, Dir, Act;
    LoadSnoc(c, DataReply(x.got, Result));
    HeldGrows(x.inb.Held(), x.got);
  }

  lemma HeldGrows(s: set<nat>, k: nat)
    ensures |s + {k}| <= |s| + 1
  {
    if k in s { assert s + {k} == s; }
  }

  lemma DataUnread(x: Endpoint, c: seq<Msg>, d: seq<Msg>)
    requires d != [] && d[0].DataMsg?
    ensures Act(x, c, d, Receive).0.inb.unread <= x.inb.unread + |d[0].bytes|
  {
  }

  lemma RecvCloseShrinks(x: Endpoint, y: Endpoint, c: seq<Msg>, d: seq<Msg>)
    requires Both(x, y, c, d) && d != [] && d[0].CloseMsg?
    ensures var (x', c', d') := Act(x, c, d, Receive); Less(x, c, d, x', c', d')
  {
    hide Dir, StreamInv;
    RecvCloseIs(x, y, c, d);
    NothingHeld(x, y, c, d);
    LoadSnoc(c, CloseReply(Result));
  }

  /** An answer to a block leaves the work of the sending half as it was, but may end the wait for acks. */
  lemma AnswerWork(o: OutStream, k: nat)
    requires k < |o.outcomes| && o.parkedWrites == 0 && o.phase != PumpParked
    ensures var o' := WakeAfterSettle(RecordOutcome(o, k, Acked));
            && o'.buffered == o.buffered && o'.readyWrites == o.readyWrites
            && PhaseWeight(o'.phase) <= PhaseWeight(o.phase) + 1
  {
  }

  lemma RecvReplyShrinks(x: Endpoint, y: Endpoint, c: seq<Msg>, d: seq<Msg>)
    requires Both(x, y, c, d) && d != [] && d[0].DataReply?
    ensures var (x', c', d') := Act(x, c, d, Receive); Less(x, c, d, x', c', d')
  {
    RecvReplyIs(x, y, c, d);
    AnswerWork(x.out, d[0].k);
    hide Dir, StreamInv, WakeAfterSettle, RecordOutcome, PhaseWeight;
  }

  lemma RecvCloseReplyShrinks(x: Endpoint, y: Endpoint, c: seq<Msg>, d: seq<Msg>)
    requires Both(x, y, c, d) && d != [] && d[0].CloseReply?
    ensures var (x', c', d') := Act(x, c, d, Receive); Less(x, c, d, x', c', d')
  {
    RecvCloseReplyIs(x, y, c, d);
    hide Dir, Local, Act;
    assert x.inb.(registered := false).Held() == x.inb.Held();
  }

  lemma ResumeShrinks(x: Endpoint, y: Endpoint, c: seq<Msg>, d: seq<Msg>, h: nat)
    requires Both(x, y, c, d) && h in x.inb.woken
    ensures var (x', c', d') := Act(x, c, d, Resume(h)); Less(x, c, d, x', c', d')
  {
    hide Dir, Local, Act;
    ResumeIs(x, y, c, d, h);
    ResumeWork(x, c, d, h);
    LoadSnoc(c, DataReply(h, Result));
    assert h in x.inb.Held();
    assert |x.inb.Held() - {h}| == |x.inb.Held()| - 1;
    assert |x.inb.woken - {h}| == |x.inb.woken| - 1;
  }

  lemma ResumeWork(x: Endpoint, c: seq<Msg>, d: seq<Msg>, h: nat)
    requires h in x.inb.woken
    ensures var x' := Act(x, c, d, Resume(h)).0; x'.inb.unread == x.inb.unread && x'.inb.woken == x.inb.woken - {h}
  {
  }

  lemma ReadShrinks(x: Endpoint, c: seq<Msg>, d: seq<Msg>, n: nat)
    requires Local(x) && CanAct(x, d, ReadBytes(n))
    ensures var (x', c', d') := Act(x, c, d, ReadBytes(n)); Less(x, c, d, x', c', d')
  {
    ReadIs(x, c, d, n);
    hide StreamInv;
  }

  lemma ActShrinks(x: Endpoint, y: Endpoint, c: seq<Msg>, d: seq<Msg>, e: Action)
    requires Both(x, y, c, d) && CanAct(x, d, e) && Internal(e)
    ensures var (x', c', d') := Act(x, c, d, e); Less(x, c, d, x', c', d')
  {
    hide Act, Local, Dir, Less;
    match e
    case PumpSend => PumpSendShrinks(x, c, d);
    case WriterLeaves => PumpLeavesShrinks(x, c, d, e);
    case ClosePumpLeaves => PumpLeavesShrinks(x, c, d, e);
    case Continue => ContinueShrinks(x, c, d);
    case Resume(h) => ResumeShrinks(x, y, c, d, h);
    case ReadBytes(n) => ReadShrinks(x, c, d, n);
    case Receive =>
      match d[0] {
        case DataMsg(_, _, _) => RecvDataShrinks(x, y, c, d);
        case CloseMsg => RecvCloseShrinks(x, y, c, d);
        case DataReply(_, _) => RecvReplyShrinks(x, y, c, d);
        case CloseReply(_) => RecvCloseReplyShrinks(x, y, c, d);
      }
  }

  lemma WokenIsWork(s: System)
    ensures WokenCount(s) <= TotalWork(s)
  {
    SubsetSize(s.a.inb.woken, s.a.inb.Held());
    SubsetSize(s.b.inb.woken, s.b.inb.Held());
  }

  lemma {:induction false} SubsetSize(a: set<nat>, b: set<nat>)
    requires a <= b
    ensures |a| <= |b|
  {
    if a != {} {
      var x :| x in a;
      SubsetSize(a - {x}, b - {x});
    }
  }

  lemma Lexicographic(before: nat, woken: nat, after: nat, woken': nat)
    requires woken' <= after && (after < before || (after == before && woken' < woken))
    ensures after * (after + 1) + woken' < before * (before + 1) + woken
  {
    if after < before {
      assert after * (after + 1) + woken' <= after * (after + 1) + after;
      assert (after + 1) * (after + 1) <= before * (after + 1) <= before * before by {
        Times(after + 1, before, after + 1);
        Times(after + 1, before, before);
      }
    }
  }

  lemma Times(a: nat, b: nat, k: nat)
    requires a <= b
    ensures a * k <= b * k
  {
  }

  lemma InternalStepShrinks(s: System, s': System)
    requires Inv(s) && IsInternalStep(s, s')
    ensures Rank(s') < Rank(s)
  {
    hide Act, Local, Dir, Internal, CanAct, Work, Load;
    var onA: bool, e: Action :| Internal(e) && Enabled(s, onA, e) && s' == Step(s, onA, e);
    if onA { ActShrinks(s.a, s.b, s.ab, s.ba, e); } else { ActShrinks(s.b, s.a, s.ba, s.ab, e); }
    WokenIsWork(s');
    Lexicographic(TotalWork(s), WokenCount(s), TotalWork(s'), WokenCount(s'));
  }

  /** From any reachable state, internal activity lasts at most `Rank` more steps: a quiet state is always reached. */
  lemma {:induction false} ActivityDiesDown(run: seq<System>, i: nat)
    requires IsRun(run) && i < |run| && forall j :: i < j < |run| ==> IsInternalStep(run[j - 1], run[j])
    ensures |run| - 1 - i <= Rank(run[i])
    decreases |run| - i
  {
    hide Rank, IsStart, IsStep;
    if i + 1 < |run| {
      EveryRunKeeps(run, i);
      assert IsInternalStep(run[i], run[i + 1]);
      InternalStepShrinks(run[i], run[i + 1]);
      ActivityDiesDown(run, i + 1);
    }
  }
}
