/**
 * Two duplex endpoints of one sid and the two FIFO channels between them (#createDuplex, #onData and #onClose of
 * src/ibb/ibb.ts), with no timeouts and no aborts: whoever closes, and whenever, both closes resolve.
 */
module IbbDuplex {
  import opened Bytes
  import opened IbbOutStream
  import opened IbbInStream

  /** Requests and their answers, as they travel. `k` pairs a <data/> request with its answer. */
  datatype Msg =
    | DataMsg(k: nat, seqNo: nat, bytes: seq<Byte>)
    | CloseMsg
    | DataReply(k: nat, reply: Reply)
    | CloseReply(reply: Reply)

  /**
   * One side: its sending half and its inbound half. Which pump holds which
   * session slot is the scheduler's business: here a pump that is not done is simply active, a writer's counted in
   * `readyWrites`, the closing one in phase PumpRunning. For the record, `got` counts the <data/> received and
   * `took` those that reached the reader's queue.
   */
  datatype Endpoint = Endpoint(out: OutStream, inb: InStream, got: nat, took: nat)

  datatype Action =
    | UserWrite(bytes: seq<Byte>)
    | UserClose
    | PumpSend
    | WriterLeaves
    | ClosePumpLeaves
    | Continue
    | Receive
    | Resume(h: nat)
    | ReadBytes(n: nat)

  predicate Internal(e: Action) { !e.UserWrite? && !e.UserClose? }

  /** The inbound half is retired but stays registered, to answer what the peer sent before it saw our <close/>. */
  function Retire(s: InStream, error: bool): InStream {
    if s.finished then s
    else WakeHandlers(s).(cancelled := true, finished := true,
                          reader := if s.reader != Reading then s.reader else if error then Errored else Ended)
  }

  predicate CloseSettled(o: OutStream) { o.phase == Resolved || o.phase == Rejected }

  /** close() is over: its finally clause removes the tombstone. */
  function DropTombstone(o: OutStream, s: InStream): InStream {
    if CloseSettled(o) then s.(registered := false) else s
  }

  predicate Active(o: OutStream) { o.readyWrites > 0 || o.phase == PumpRunning }

  predicate CanAct(x: Endpoint, d: seq<Msg>, e: Action) {
    match e
    case UserWrite(_) => true
    case UserClose => x.out.phase == NotClosing
    case PumpSend => Active(x.out) && x.out.HasBlock() && x.out.Usable() && x.out.inFlight < x.out.window
    case WriterLeaves => x.out.readyWrites > 0 && !(x.out.HasBlock() && x.out.Usable())
    case ClosePumpLeaves => x.out.phase == PumpRunning && !(x.out.HasBlock() && x.out.Usable())
    case Continue => x.out.phase == PumpThrew || x.out.phase == DrainReady
    case Receive => d != []
    case Resume(h) => h in x.inb.woken
    case ReadBytes(n) => 0 < n <= x.inb.unread
  }

  /** Side `x` acts; `c` is its outgoing channel, `d` its incoming one. */
  function Act(x: Endpoint, c: seq<Msg>, d: seq<Msg>, e: Action): (Endpoint, seq<Msg>, seq<Msg>)
    requires CanAct(x, d, e)
  {
    var o := x.out;
    match e
    case UserWrite(bytes) =>
      if !o.Usable() || o.closed then (x, c, d)
      else (x.(out := o.(buffered := o.buffered + bytes, written := o.written + bytes, readyWrites := o.readyWrites + 1)), c, d)
    case UserClose =>
      if o.failed.Some? then (x.(out := o.(phase := Rejected)), c, d)
      else if o.closedByPeer then (x.(out := o.(phase := Resolved), inb := x.inb.(registered := false)), c, d)
      else (x.(out := o.(closed := true, phase := PumpRunning)), c, d)
    case PumpSend =>
      var n := BlockLength(o);
      (x.(out := Dispatch(o)), c + [DataMsg(|o.blocks|, o.seqNo, o.buffered[..n])], d)
    case WriterLeaves => (x.(out := o.(readyWrites := o.readyWrites - 1)), c, d)
    case ClosePumpLeaves => (x.(out := o.(phase := if o.HasBlock() then PumpThrew else DrainReady)), c, d)
    case Continue =>
      var o' := ContinueClose(o);
      var sent := o'.closeSent && !o.closeSent;
      (x.(out := o', inb := DropTombstone(o', if sent then Retire(x.inb, false) else x.inb)),
       if sent then c + [CloseMsg] else c, d)
    case Receive => Received(x, c, d[0], d[1..])
    case Resume(h) =>
      var (s, reply) := ResumeHandler(x.inb, h);
      (x.(inb := s), Answered(c, h, reply), d)
    case ReadBytes(n) => (x.(inb := Read(x.inb, n)), c, d)
  }

  function Answered(c: seq<Msg>, k: nat, reply: Option<Reply>): seq<Msg> {
    if reply.Some? then c + [DataReply(k, reply.value)] else c
  }

  function Received(x: Endpoint, c: seq<Msg>, m: Msg, rest: seq<Msg>): (Endpoint, seq<Msg>, seq<Msg>) {
    var o := x.out;
    match m
    case DataMsg(k, seqNo, bytes) =>
      var (s, reply) := OnData(x.inb, k, Some(seqNo), Some(bytes));
      var taken := if x.inb.registered && !x.inb.finished && seqNo == x.inb.expectedSeq then 1 else 0;
      (x.(inb := s, got := x.got + 1, took := x.took + taken), Answered(c, k, reply), rest)
    case CloseMsg =>
      var (s, reply) := OnClose(x.inb);
      (x.(inb := s, out := if x.inb.registered then PeerClosed(o) else o), c + [CloseReply(reply)], rest)
    case DataReply(k, reply) =>
      if k < |o.outcomes| && o.outcomes[k] == Pending then
        var outcome := if reply == Result then Acked else Rejection(o, NotFound);
        (x.(out := WakeAfterSettle(RecordOutcome(o, k, outcome))), c, rest)
      else (x, c, rest)
    case CloseReply(reply) =>
      var o' := CloseAnswered(o, if reply == Result then None else Some(NotFound));
      (x.(out := o', inb := DropTombstone(o', x.inb)), c, rest)
  }

  // ------------------------------------------------------------ what one side keeps

  ghost predicate Local(x: Endpoint) {
    var o, s := x.out, x.inb;
    && StreamInv(o) && o.failed.None? && o.parkedWrites == 0
    && o.phase != PumpParked && o.phase != PumpReady && o.phase != Rejected
    && (o.phase == PumpThrew ==> o.closedByPeer)
    && (o.HasBlock() && o.Usable() ==> Active(o))
    && s.highWaterMark > 0 && s.parked !! s.woken
    && (s.parked != {} ==> !s.finished && s.Full())
    && (s.finished <==> o.closeSent || o.closedByPeer)
    && s.reader == (if s.finished then Ended else Reading)
    && (!s.registered ==> s.finished && (o.closedByPeer || o.phase == Resolved))
    && (s.registered && s.finished ==> s.cancelled && o.phase == AwaitingAnswer)
    && (s.finished && !s.cancelled ==> o.closedByPeer)
    && (o.phase == Resolved ==> o.closeSent || o.closedByPeer)
  }

  // ------------------------------------------------------------ what the direction x -> y keeps

  /** Nothing of `x`'s own follows its <close/> or its answer to the peer's. */
  ghost predicate Ordered(c: seq<Msg>) {
    forall i, j :: 0 <= i < j < |c| ==>
      && (c[i].DataMsg? && c[j].DataMsg? ==> c[i].k < c[j].k)
      && (c[i].DataReply? && c[j].DataReply? ==> c[i].k != c[j].k)
      && (c[i].CloseMsg? || c[i].CloseReply? ==> !c[j].DataMsg? && !c[j].CloseMsg?)
      && (c[i].CloseReply? ==> !c[j].CloseReply?)
  }

  /** The stanzas of `x` on their way to `y` are its blocks from number `got` on, and answers, all of them results. */
  ghost predicate InTransit(o: OutStream, got: nat, c: seq<Msg>) {
    && got <= |o.blocks|
    && (forall i :: 0 <= i < |c| && c[i].DataMsg? ==>
          got <= c[i].k < |o.blocks| && c[i].seqNo == c[i].k % SEQ_MODULUS && c[i].bytes == o.blocks[c[i].k])
    && (forall k :: got <= k < |o.blocks| ==> DataMsg(k, k % SEQ_MODULUS, o.blocks[k]) in c)
    && (forall i :: 0 <= i < |c| && c[i].DataReply? ==> c[i].reply == Result)
    && (forall i :: 0 <= i < |c| && c[i].CloseReply? ==> c[i].reply == Result)
  }

  /** Each unanswered block of `x` is on its way, or held by `y`, or its one answer is on its way back. */
  ghost predicate Unanswered(o: OutStream, s: InStream, got: nat, d: seq<Msg>) {
    && (forall k :: k in s.Held() ==> k < got && k < |o.outcomes| && o.outcomes[k] == Pending)
    && (forall i :: 0 <= i < |d| && d[i].DataReply? ==>
          d[i].k < got && d[i].k < |o.outcomes| && o.outcomes[d[i].k] == Pending && d[i].k !in s.Held())
    && (forall k :: 0 <= k < |o.outcomes| && k < got && o.outcomes[k] == Pending ==>
          k in s.Held() || DataReply(k, Result) in d)
    && (forall k :: got <= k < |o.outcomes| ==> o.outcomes[k] == Pending)
  }

  /** The <close/> of `x`, its answer, and what `y` has heard of it. */
  ghost predicate Closing(x: OutStream, y: Endpoint, c: seq<Msg>, d: seq<Msg>) {
    && (y.out.closedByPeer ==> x.closeSent)
    && (x.closeSent && !y.out.closedByPeer ==> CloseMsg in c)
    && (CloseMsg in c ==> x.closeSent && !y.out.closedByPeer && x.phase == AwaitingAnswer)
    && (x.phase == AwaitingAnswer ==> CloseMsg in c || CloseReply(Result) in d)
    && (CloseReply(Result) in d ==> y.out.closedByPeer && x.phase == AwaitingAnswer)
    && (y.out.closedByPeer || !y.inb.registered ==> forall i :: 0 <= i < |c| ==> !c[i].DataMsg? && !c[i].CloseMsg?)
  }

  ghost predicate Dir(x: Endpoint, y: Endpoint, c: seq<Msg>, d: seq<Msg>) {
    && Ordered(c) && InTransit(x.out, y.got, c)
    && Unanswered(x.out, y.inb, y.got, d)
    && Closing(x.out, y, c, d)
    && (!y.inb.finished ==> y.inb.expectedSeq == y.got % SEQ_MODULUS)
  }

  datatype System = System(a: Endpoint, b: Endpoint, ab: seq<Msg>, ba: seq<Msg>)

  ghost predicate Inv(s: System) {
    Local(s.a) && Local(s.b) && Dir(s.a, s.b, s.ab, s.ba) && Dir(s.b, s.a, s.ba, s.ab)
  }

  /** A fresh duplex: an open sid and nothing sent. */
  function Start(blockSize: nat, windowA: nat, windowB: nat, hwmA: nat, hwmB: nat): System {
    System(Endpoint(FreshStream(blockSize, windowA, true), FreshInStream(hwmA), 0, 0),
           Endpoint(FreshStream(blockSize, windowB, true), FreshInStream(hwmB), 0, 0), [], [])
  }

  lemma StartInv(blockSize: nat, windowA: nat, windowB: nat, hwmA: nat, hwmB: nat)
    requires blockSize > 0 && windowA > 0 && windowB > 0 && hwmA > 0 && hwmB > 0
    ensures Inv(Start(blockSize, windowA, windowB, hwmA, hwmB))
  {
    var s := Start(blockSize, windowA, windowB, hwmA, hwmB);
    FreshLocal(blockSize, windowA, hwmA);
    FreshLocal(blockSize, windowB, hwmB);
    hide Local, Dir;
    NothingUnderWay(s.a, s.b);
    NothingUnderWay(s.b, s.a);
  }

  /** Nothing sent, nothing on its way, nobody closing. */
  lemma NothingUnderWay(x: Endpoint, y: Endpoint)
    requires x.out.blocks == [] && x.out.outcomes == [] && !x.out.closeSent && x.out.phase == NotClosing
    requires !y.out.closedByPeer && y.got == 0 && y.inb.registered && y.inb.Held() == {} && y.inb.expectedSeq == 0
    ensures Dir(x, y, [], [])
  {
    assert Ordered([]);
    assert InTransit(x.out, 0, []);
    hide Ordered, InTransit;
    assert Unanswered(x.out, y.inb, 0, []);
    hide Unanswered;
    assert Closing(x.out, y, [], []);
    hide Closing;
  }

  lemma FreshLocal(blockSize: nat, window: nat, hwm: nat)
    requires blockSize > 0 && window > 0 && hwm > 0
    ensures Local(Endpoint(FreshStream(blockSize, window, true), FreshInStream(hwm), 0, 0))
  {
    FreshKeeps(blockSize, window, true);
    hide StreamInv;
  }

  // ------------------------------------------------------------ every action keeps it

  lemma ClosedOut(o: OutStream)
    requires StreamInv(o) && o.failed.None? && o.closeSent
    ensures !o.HasBlock() && o.inFlight == 0 && forall k :: 0 <= k < |o.outcomes| ==> o.outcomes[k] != Pending
  {
    NonePending(o.outcomes);
  }

  lemma SizesOf(o: OutStream)
    requires StreamInv(o)
    ensures |o.outcomes| == |o.blocks| && o.seqNo == |o.blocks| % SEQ_MODULUS && o.blockSize > 0 && o.window > 0
  {
  }

  /** What side `x` and both directions keep. */
  ghost predicate Both(x: Endpoint, y: Endpoint, c: seq<Msg>, d: seq<Msg>) {
    Local(x) && Local(y) && Dir(x, y, c, d) && Dir(y, x, d, c)
  }

  /** Actions that touch neither the blocks, nor the channels, nor what the peer knows. */
  lemma QuietActs(x: Endpoint, y: Endpoint, c: seq<Msg>, d: seq<Msg>, e: Action)
    requires Both(x, y, c, d) && CanAct(x, d, e) && (e.UserWrite? || e.UserClose? || e.WriterLeaves? || e.ClosePumpLeaves?)
    ensures var (x', c', d') := Act(x, c, d, e); Local(x') && c' == c && d' == d
    ensures Act(x, c, d, e).0.out.blocks == x.out.blocks && Act(x, c, d, e).0.out.outcomes == x.out.outcomes
    ensures Act(x, c, d, e).0.out.closeSent == x.out.closeSent && Act(x, c, d, e).0.out.closedByPeer == x.out.closedByPeer
    ensures (Act(x, c, d, e).0.out.phase == AwaitingAnswer <==> x.out.phase == AwaitingAnswer)
    ensures var x' := Act(x, c, d, e).0;
            x'.got == x.got && (x'.inb == x.inb || (x'.inb == x.inb.(registered := false) && x.out.closedByPeer))
  {
    hide Dir;
    var o := x.out;
    match e
    case UserWrite(bytes) => if o.Usable() && !o.closed { QuietWrite(o, bytes); }
    case UserClose => CloseCallKeeps(o);
    case WriterLeaves => ResumeKeeps(o);
    case ClosePumpLeaves => LeaveKeeps(o, if o.HasBlock() then PumpThrew else DrainReady);
  }

  lemma QuietWrite(o: OutStream, bytes: seq<Byte>)
    requires StreamInv(o) && o.Usable() && !o.closed
    ensures StreamInv(o.(buffered := o.buffered + bytes, written := o.written + bytes, readyWrites := o.readyWrites + 1))
  {
    WriteKeeps(o, bytes);
    var w := o.(buffered := o.buffered + bytes, written := o.written + bytes);
    SameTransferKeeps(w, w.(readyWrites := o.readyWrites + 1));
  }

  /** Both directions rest on these parts of a side only. */
  lemma DirFrame(x: Endpoint, x': Endpoint, y: Endpoint, c: seq<Msg>, d: seq<Msg>)
    requires Dir(x, y, c, d) && Dir(y, x, d, c)
    requires x'.out.blocks == x.out.blocks && x'.out.outcomes == x.out.outcomes && x'.out.closeSent == x.out.closeSent
    requires x'.out.closedByPeer == x.out.closedByPeer && (x'.out.phase == AwaitingAnswer <==> x.out.phase == AwaitingAnswer)
    requires x'.got == x.got && x'.inb.Held() == x.inb.Held() && x'.inb.expectedSeq == x.inb.expectedSeq
    requires x.inb.finished ==> x'.inb.finished
    requires x'.inb.registered == x.inb.registered || x.out.closedByPeer
    ensures Dir(x', y, c, d) && Dir(y, x', d, c)
  {
  }

  lemma PumpSendLocal(x: Endpoint, c: seq<Msg>, d: seq<Msg>)
    requires Local(x) && CanAct(x, d, PumpSend)
    ensures Local(Act(x, c, d, PumpSend).0) && !x.out.closeSent
  {
    var o := x.out;
    DispatchKeeps(o);
    if o.closeSent { ClosedOut(o); }
    hide StreamInv;
  }

  /** Nothing of the kinds that end the stream is in the channel of a side that still sends. */
  lemma NothingClosing(x: Endpoint, y: Endpoint, c: seq<Msg>, d: seq<Msg>)
    requires Dir(x, y, c, d) && Dir(y, x, d, c)
    ensures !x.out.closeSent ==> forall i :: 0 <= i < |c| ==> !c[i].CloseMsg?
    ensures !x.out.closedByPeer ==> forall i :: 0 <= i < |c| ==> !c[i].CloseReply?
  {
    forall i | 0 <= i < |c| ensures c[i].CloseMsg? ==> x.out.closeSent {
      assert c[i] in c;
    }
    forall i | 0 <= i < |c| ensures c[i].CloseReply? ==> x.out.closedByPeer {
      assert c[i] in c;
    }
  }

  lemma DataAppended(o: OutStream, o': OutStream, got: nat, c: seq<Msg>)
    requires InTransit(o, got, c) && |o'.blocks| == |o.blocks| + 1 && o'.blocks[..|o.blocks|] == o.blocks
    ensures InTransit(o', got, c + [DataMsg(|o.blocks|, |o.blocks| % SEQ_MODULUS, o'.blocks[|o.blocks|])])
  {
    var k0 := |o.blocks|;
    var m := DataMsg(k0, k0 % SEQ_MODULUS, o'.blocks[k0]);
    var c' := c + [m];
    assert forall k :: 0 <= k < k0 ==> o'.blocks[k] == o.blocks[k];
    forall k | got <= k < |o'.blocks| ensures DataMsg(k, k % SEQ_MODULUS, o'.blocks[k]) in c' {
      if k < k0 { assert DataMsg(k, k % SEQ_MODULUS, o.blocks[k]) in c; } else { assert c'[|c|] == m; }
    }
  }

  lemma OrderedAppend(c: seq<Msg>, m: Msg)
    requires Ordered(c)
    requires m.DataMsg? ==> forall i :: 0 <= i < |c| ==> (c[i].DataMsg? ==> c[i].k < m.k)
    requires m.DataReply? ==> forall i :: 0 <= i < |c| ==> (c[i].DataReply? ==> c[i].k != m.k)
    requires m.DataMsg? || m.CloseMsg? ==> forall i :: 0 <= i < |c| ==> !c[i].CloseMsg? && !c[i].CloseReply?
    requires m.CloseReply? ==> forall i :: 0 <= i < |c| ==> !c[i].CloseReply?
    ensures Ordered(c + [m])
  {
  }

  lemma PumpSendIs(x: Endpoint, c: seq<Msg>, d: seq<Msg>)
    requires Local(x) && CanAct(x, d, PumpSend)
    ensures var o, o' := x.out, Dispatch(x.out);
            && Act(x, c, d, PumpSend) == (x.(out := o'), c + [DataMsg(|o.blocks|, |o.blocks| % SEQ_MODULUS, o'.blocks[|o.blocks|])], d)
            && |o'.blocks| == |o.blocks| + 1 && o'.blocks[..|o.blocks|] == o.blocks && o'.outcomes == o.outcomes + [Pending]
            && |o.outcomes| == |o.blocks|
            && o'.closeSent == o.closeSent && o'.closedByPeer == o.closedByPeer && o'.phase == o.phase
  {
    SizesOf(x.out);
  }

  /** A side that still sends has a peer that still listens. */
  lemma PeerListens(x: Endpoint, y: Endpoint, c: seq<Msg>, d: seq<Msg>)
    requires Both(x, y, c, d) && !x.out.closeSent && !x.out.closedByPeer
    ensures !y.out.closedByPeer && y.inb.registered
  {
  }

  lemma ClosingData(o: OutStream, o': OutStream, y: Endpoint, c: seq<Msg>, d: seq<Msg>, m: Msg)
    requires Closing(o, y, c, d) && m.DataMsg? && !y.out.closedByPeer && y.inb.registered
    requires o'.closeSent == o.closeSent && o'.phase == o.phase
    ensures Closing(o', y, c + [m], d)
  {
    assert forall z :: z in c + [m] <==> z in c || z == m;
  }

  lemma PumpSendForth(x: Endpoint, y: Endpoint, c: seq<Msg>, d: seq<Msg>)
    requires Both(x, y, c, d) && CanAct(x, d, PumpSend)
    ensures var (x', c', d') := Act(x, c, d, PumpSend); Dir(x', y, c', d')
  {
    PumpSendLocal(x, c, d);
    NothingClosing(x, y, c, d);
    PeerListens(x, y, c, d);
    PumpSendIs(x, c, d);
    hide Local, Act, Dispatch;
    var o, o' := x.out, Dispatch(x.out);
    var m := DataMsg(|o.blocks|, |o.blocks| % SEQ_MODULUS, o'.blocks[|o.blocks|]);
    OrderedAppend(c, m);
    DataAppended(o, o', y.got, c);
    ClosingData(o, o', y, c, d, m);
    hide InTransit, Ordered, Closing;
    assert y.got <= |o.blocks| by { GotOf(x, y, c, d); }
    assert Unanswered(o', y.inb, y.got, d);
  }

  lemma GotOf(x: Endpoint, y: Endpoint, c: seq<Msg>, d: seq<Msg>)
    requires Dir(x, y, c, d)
    ensures y.got <= |x.out.blocks|
  {
  }

  lemma PumpSendBack(x: Endpoint, y: Endpoint, c: seq<Msg>, d: seq<Msg>)
    requires Both(x, y, c, d) && CanAct(x, d, PumpSend)
    ensures var (x', c', d') := Act(x, c, d, PumpSend); Dir(y, x', d', c')
  {
    PumpSendIs(x, c, d);
    hide Local, InTransit, Ordered, Act, Dispatch;
    var o, o' := x.out, Dispatch(x.out);
    var m := DataMsg(|o.blocks|, |o.blocks| % SEQ_MODULUS, o'.blocks[|o.blocks|]);
    AppendedToReplies(y.out, x.inb, x.got, c, m);
    hide Unanswered;
    assert forall z :: z in c + [m] <==> z in c || z == m;
  }

  /** A message that is not a data answer leaves the accounting of the other direction alone. */
  lemma AppendedToReplies(o: OutStream, s: InStream, got: nat, c: seq<Msg>, m: Msg)
    requires Unanswered(o, s, got, c) && !m.DataReply?
    ensures Unanswered(o, s, got, c + [m])
  {
    forall k | 0 <= k < |o.outcomes| && k < got && o.outcomes[k] == Pending
      ensures k in s.Held() || DataReply(k, Result) in c + [m]
    {
    }
  }

  /** Messages that are not data leave what is in transit alone. */
  lemma InTransitAppend(o: OutStream, got: nat, c: seq<Msg>, m: Msg)
    requires InTransit(o, got, c)
    requires m == CloseMsg || m == CloseReply(Result) || (m.DataReply? && m.reply == Result)
    ensures InTransit(o, got, c + [m])
  {
    forall k | got <= k < |o.blocks| ensures DataMsg(k, k % SEQ_MODULUS, o.blocks[k]) in c + [m] {
      assert DataMsg(k, k % SEQ_MODULUS, o.blocks[k]) in c;
    }
  }

  lemma InTransitSame(o: OutStream, o': OutStream, got: nat, c: seq<Msg>)
    requires InTransit(o, got, c) && o'.blocks == o.blocks
    ensures InTransit(o', got, c)
  {
  }

  lemma ContinueLocal(x: Endpoint, c: seq<Msg>, d: seq<Msg>)
    requires Local(x) && CanAct(x, d, Continue)
    ensures Local(Act(x, c, d, Continue).0)
  {
    ContinueCloseKeeps(x.out);
    hide StreamInv;
  }

  lemma ContinueIs(x: Endpoint, c: seq<Msg>, d: seq<Msg>)
    requires Local(x) && CanAct(x, d, Continue)
    ensures var (x', c', d') := Act(x, c, d, Continue);
            && d' == d && x'.got == x.got
            && x'.out.blocks == x.out.blocks && x'.out.outcomes == x.out.outcomes && x'.out.closedByPeer == x.out.closedByPeer
            && x'.inb.Held() == x.inb.Held() && x'.inb.expectedSeq == x.inb.expectedSeq && (x.inb.finished ==> x'.inb.finished)
            && (if x'.out.closeSent == x.out.closeSent
                then c' == c && x'.out.phase != AwaitingAnswer && x.out.phase != AwaitingAnswer
                     && (x'.inb.registered == x.inb.registered || x.out.closedByPeer)
                else c' == c + [CloseMsg] && !x.out.closeSent && x'.out.closeSent && !x.out.closedByPeer
                     && x'.out.phase == AwaitingAnswer && x'.inb.registered == x.inb.registered)
  {
    hide StreamInv;
    assert Retire(x.inb, false).Held() == x.inb.Held();
  }

  lemma ContinueDirs(x: Endpoint, y: Endpoint, c: seq<Msg>, d: seq<Msg>)
    requires Both(x, y, c, d) && CanAct(x, d, Continue)
    ensures var (x', c', d') := Act(x, c, d, Continue); Dir(x', y, c', d') && Dir(y, x', d', c')
  {
    ContinueIs(x, c, d);
    hide Act;
    var (x', c', d') := Act(x, c, d, Continue);
    if x'.out.closeSent == x.out.closeSent {
      DirFrame(x, x', y, c, d);
    } else {
      CloseSentDirs(x, x', y, c, d);
    }
  }

  lemma CloseSentDirs(x: Endpoint, x': Endpoint, y: Endpoint, c: seq<Msg>, d: seq<Msg>)
    requires Both(x, y, c, d) && !x.out.closeSent && !x.out.closedByPeer
    requires x'.out.closeSent && !x'.out.closedByPeer && x'.out.phase == AwaitingAnswer
    requires x'.out.blocks == x.out.blocks && x'.out.outcomes == x.out.outcomes && x'.got == x.got
    requires x'.inb.Held() == x.inb.Held() && x'.inb.expectedSeq == x.inb.expectedSeq && (x.inb.finished ==> x'.inb.finished)
    requires x'.inb.registered == x.inb.registered
    ensures Dir(x', y, c + [CloseMsg], d) && Dir(y, x', d, c + [CloseMsg])
  {
    NothingClosing(x, y, c, d);
    PeerListens(x, y, c, d);
    hide Local;
    OrderedAppend(c, CloseMsg);
    InTransitAppend(x.out, y.got, c, CloseMsg);
    InTransitSame(x.out, x'.out, y.got, c + [CloseMsg]);
    AppendedToReplies(y.out, x.inb, x.got, c, CloseMsg);
    hide InTransit, Ordered;
    assert Unanswered(x'.out, y.inb, y.got, d) && Unanswered(y.out, x'.inb, x'.got, c + [CloseMsg]) by { hide Closing; }
    hide Unanswered;
    CloseSentClosing(x, x', y, c, d);
  }

  lemma CloseSentClosing(x: Endpoint, x': Endpoint, y: Endpoint, c: seq<Msg>, d: seq<Msg>)
    requires Closing(x.out, y, c, d) && Closing(y.out, x, d, c) && !x.out.closeSent && !x.out.closedByPeer
    requires !y.out.closedByPeer && y.inb.registered
    requires x'.out.closeSent && !x'.out.closedByPeer && x'.out.phase == AwaitingAnswer && x'.inb.registered == x.inb.registered
    ensures Closing(x'.out, y, c + [CloseMsg], d) && Closing(y.out, x', d, c + [CloseMsg])
  {
    var c' := c + [CloseMsg];
    assert c'[|c|] == CloseMsg;
    assert forall z :: z in c' <==> z in c || z == CloseMsg;
  }

  // ------------------------------------------------------------ receiving

  lemma TailOrdered(c: seq<Msg>)
    requires c != [] && Ordered(c)
    ensures Ordered(c[1..])
    ensures c[0] in c && c[0] !in c[1..] && forall z :: z in c <==> z == c[0] || z in c[1..]
    ensures c[0].CloseMsg? || c[0].CloseReply? ==> forall i :: 0 <= i < |c[1..]| ==> !c[1..][i].DataMsg? && !c[1..][i].CloseMsg?
    ensures c[0].CloseReply? ==> forall i :: 0 <= i < |c[1..]| ==> !c[1..][i].CloseReply?
  {
    var t := c[1..];
    assert forall i :: 0 <= i < |t| ==> t[i] == c[i + 1];
    assert c == [c[0]] + t;
  }

  /** The blocks travel in order, so the first on its way is the one the receiver lacks. */
  lemma FirstInTransit(o: OutStream, got: nat, c: seq<Msg>)
    requires c != [] && Ordered(c) && InTransit(o, got, c) && c[0].DataMsg?
    ensures got < |o.blocks| && c[0] == DataMsg(got, got % SEQ_MODULUS, o.blocks[got])
  {
    var m := DataMsg(got, got % SEQ_MODULUS, o.blocks[got]);
    assert m in c;
    var i :| 0 <= i < |c| && c[i] == m;
    assert c[0].k <= c[i].k;
  }

  lemma InTransitTail(o: OutStream, got: nat, c: seq<Msg>)
    requires c != [] && Ordered(c) && InTransit(o, got, c)
    ensures !c[0].DataMsg? ==> InTransit(o, got, c[1..])
    ensures c[0].DataMsg? ==> c[0] == DataMsg(got, got % SEQ_MODULUS, o.blocks[got]) && InTransit(o, got + 1, c[1..])
  {
    TailOrdered(c);
    var t := c[1..];
    assert forall i :: 0 <= i < |t| ==> t[i] == c[i + 1];
    if c[0].DataMsg? {
      FirstInTransit(o, got, c);
      forall k | got + 1 <= k < |o.blocks| ensures DataMsg(k, k % SEQ_MODULUS, o.blocks[k]) in t {
        assert DataMsg(k, k % SEQ_MODULUS, o.blocks[k]) in c;
      }
      forall i | 0 <= i < |t| && t[i].DataMsg? ensures t[i].k > got { }
    } else {
      forall k | got <= k < |o.blocks| ensures DataMsg(k, k % SEQ_MODULUS, o.blocks[k]) in t {
        assert DataMsg(k, k % SEQ_MODULUS, o.blocks[k]) in c;
      }
    }
  }

  /** The answers on the way back, after one message has arrived that is not one of them. */
  lemma UnansweredTail(o: OutStream, s: InStream, got: nat, d: seq<Msg>)
    requires d != [] && Unanswered(o, s, got, d) && !d[0].DataReply?
    ensures Unanswered(o, s, got, d[1..])
  {
    var t := d[1..];
    assert forall i :: 0 <= i < |t| ==> t[i] == d[i + 1];
    assert d == [d[0]] + t;
  }

  lemma ClosingTail(o: OutStream, y: Endpoint, c: seq<Msg>, d: seq<Msg>)
    requires d != [] && Closing(o, y, c, d) && !d[0].CloseReply?
    ensures Closing(o, y, c, d[1..])
  {
    assert d == [d[0]] + d[1..];
  }

  lemma ClosingTailOut(o: OutStream, y: Endpoint, c: seq<Msg>, d: seq<Msg>)
    requires c != [] && Closing(o, y, c, d) && !c[0].CloseMsg?
    ensures Closing(o, y, c[1..], d)
  {
    assert c == [c[0]] + c[1..];
    assert forall i :: 0 <= i < |c[1..]| ==> c[1..][i] == c[i + 1];
  }

  /** The block expected reaches a registered inbound half: taken and perhaps held, or acked and discarded. */
  lemma NextData(s: InStream, k: nat, block: seq<Byte>)
    requires s.registered && (s.finished ==> s.cancelled) && (!s.finished ==> s.expectedSeq == k % SEQ_MODULUS)
    requires k !in s.Held() && s.parked !! s.woken && (s.parked != {} ==> !s.finished && s.Full())
    ensures var (s', reply) := OnData(s, k, Some(k % SEQ_MODULUS), Some(block));
            if s.finished then s' == s && reply == Some(Result)
            else s' == s.(expectedSeq := (k + 1) % SEQ_MODULUS, enqueued := s.enqueued + block, unread := s.unread + |block|,
                          parked := if reply.None? then s.parked + {k} else s.parked)
                 && (reply.None? ==> s'.Full()) && (reply.Some? ==> reply == Some(Result))
                 && s'.Held() == (if reply.None? then s.Held() + {k} else s.Held())
    ensures var s' := OnData(s, k, Some(k % SEQ_MODULUS), Some(block)).0;
            && s'.parked !! s'.woken && (s'.parked != {} ==> !s'.finished && s'.Full())
            && s' == s.(expectedSeq := s'.expectedSeq, enqueued := s'.enqueued, unread := s'.unread, parked := s'.parked)
  {
    RedeliveryDistance(k, k);
    NextSeq(k);
  }

  lemma InboundOf(x: Endpoint)
    requires Local(x)
    ensures x.inb.parked !! x.inb.woken && (x.inb.parked != {} ==> !x.inb.finished && x.inb.Full())
    ensures x.inb.registered && x.inb.finished ==> x.inb.cancelled
  {
    hide StreamInv;
  }

  /** The inbound half took something in, and neither began nor ended. */
  lemma InboundLocal(x: Endpoint, x': Endpoint)
    requires Local(x) && x'.out == x.out && x'.inb.parked !! x'.inb.woken && (x'.inb.parked != {} ==> !x'.inb.finished && x'.inb.Full())
    requires x'.inb == x.inb.(expectedSeq := x'.inb.expectedSeq, enqueued := x'.inb.enqueued, unread := x'.inb.unread,
                              parked := x'.inb.parked)
    ensures Local(x')
  {
    hide StreamInv;
  }

  /** The block of `y` that reaches `x` is the next one, to a half still registered, and nobody holds it yet. */
  lemma DataIsNext(x: Endpoint, y: Endpoint, c: seq<Msg>, d: seq<Msg>)
    requires Dir(y, x, d, c) && d != [] && d[0].DataMsg?
    ensures d[0].k == x.got && d[0].seqNo == x.got % SEQ_MODULUS && x.inb.registered && x.got !in x.inb.Held()
  {
    assert x.got !in x.inb.Held() by { hide Ordered, InTransit, Closing; }
    hide Unanswered;
    assert x.inb.registered by { hide Ordered, InTransit; assert d[0] in d; }
    hide Closing;
    InTransitTail(y.out, x.got, d);
  }

  /** A block of `y` reaches `x`: taken and perhaps held, or acked and discarded by a tombstone; never refused. */
  lemma RecvDataIs(x: Endpoint, y: Endpoint, c: seq<Msg>, d: seq<Msg>)
    requires Both(x, y, c, d) && d != [] && d[0].DataMsg?
    ensures var (x', c', d') := Act(x, c, d, Receive);
            && d' == d[1..] && x'.out == x.out && x'.got == x.got + 1 && d[0].k == x.got
            && x'.inb.registered == x.inb.registered && x'.inb.finished == x.inb.finished
            && (if c' == c then x'.inb.Held() == x.inb.Held() + {x.got}
                else c' == c + [DataReply(x.got, Result)] && x'.inb.Held() == x.inb.Held())
            && (if x.inb.finished then c' != c else x'.inb.expectedSeq == x'.got % SEQ_MODULUS)
            && Local(x')
  {
    DataIsNext(x, y, c, d);
    InboundOf(x);
    ActIsData(x, c, d);
    hide Act, Both, Local, Dir, OnData, Answered;
    NextData(x.inb, x.got, d[0].bytes);
    InboundLocal(x, Act(x, c, d, Receive).0);
    AnsweredIs(c, x.got, OnData(x.inb, x.got, Some(d[0].seqNo), Some(d[0].bytes)).1);
  }

  lemma ActIsData(x: Endpoint, c: seq<Msg>, d: seq<Msg>)
    requires d != [] && d[0].DataMsg?
    ensures var (s, reply) := OnData(x.inb, d[0].k, Some(d[0].seqNo), Some(d[0].bytes));
            var (x', c', d') := Act(x, c, d, Receive);
            && x'.out == x.out && x'.inb == s && x'.got == x.got + 1 && c' == Answered(c, d[0].k, reply) && d' == d[1..]
  {
    hide OnData, Answered;
  }

  lemma AnsweredIs(c: seq<Msg>, k: nat, reply: Option<Reply>)
    ensures reply.None? ==> Answered(c, k, reply) == c
    ensures reply.Some? ==> Answered(c, k, reply) == c + [DataReply(k, reply.value)] && Answered(c, k, reply) != c
  {
    if reply.Some? { assert |Answered(c, k, reply)| == |c| + 1; }
  }

  lemma RecvDataBack(x: Endpoint, y: Endpoint, c: seq<Msg>, d: seq<Msg>)
    requires Both(x, y, c, d) && d != [] && d[0].DataMsg?
    ensures var (x', c', d') := Act(x, c, d, Receive); Dir(y, x', d', c')
  {
    RecvDataIs(x, y, c, d);
    InTransitTail(y.out, x.got, d);
    TailOrdered(d);
    ClosingTailOut(y.out, x, d, c);
    PendingOf(y, x, d, c);
    hide Act, Local, Ordered, InTransit, Closing;
    var (x', c', d') := Act(x, c, d, Receive);
    RecvDataUnanswered(y.out, x.inb, x'.inb, x.got, c, c');
    hide Unanswered;
    RecvDataClosing(y.out, x, x', d', c, c');
  }

  lemma RecvDataClosing(o: OutStream, x: Endpoint, x': Endpoint, d: seq<Msg>, c: seq<Msg>, c': seq<Msg>)
    requires Closing(o, x, d, c) && x'.out == x.out && x'.inb.registered == x.inb.registered
    requires c' == c || c' == c + [DataReply(x.got, Result)]
    ensures Closing(o, x', d, c')
  {
    assert c' == c || forall z :: z in c' <==> z in c || z == DataReply(x.got, Result);
  }

  /** The block at position `got` of the peer is still unanswered: nothing about it is held or in the channel. */
  lemma PendingOf(x: Endpoint, y: Endpoint, c: seq<Msg>, d: seq<Msg>)
    requires Dir(x, y, c, d) && Local(x) && c != [] && c[0].DataMsg?
    ensures y.got < |x.out.outcomes| && |x.out.outcomes| == |x.out.blocks|
    ensures x.out.outcomes[y.got] == Pending
  {
    SizesOf(x.out);
    InTransitTail(x.out, y.got, c);
  }

  lemma RecvDataUnanswered(o: OutStream, s: InStream, s': InStream, got: nat, c: seq<Msg>, c': seq<Msg>)
    requires Unanswered(o, s, got, c) && got < |o.outcomes|
    requires if c' == c then s'.Held() == s.Held() + {got}
             else c' == c + [DataReply(got, Result)] && s'.Held() == s.Held()
    ensures Unanswered(o, s', got + 1, c')
  {
    if c' != c {
      var m := DataReply(got, Result);
      assert c'[|c|] == m;
      assert forall z :: z in c' <==> z in c || z == m;
    }
  }

  lemma RecvDataForth(x: Endpoint, y: Endpoint, c: seq<Msg>, d: seq<Msg>)
    requires Both(x, y, c, d) && d != [] && d[0].DataMsg?
    ensures var (x', c', d') := Act(x, c, d, Receive); Dir(x', y, c', d')
  {
    RecvDataIs(x, y, c, d);
    UnansweredTail(x.out, y.inb, y.got, d);
    ClosingTail(x.out, y, c, d);
    hide Act, Local;
    var (x', c', d') := Act(x, c, d, Receive);
    if c' != c {
      RepliesBelow(y, x, d, c);
      AnswerAppended(x.out, y, c, d', x.got);
    } else {
      hide InTransit, Ordered, Unanswered, Closing;
    }
  }

  /** Answers in the channel are of blocks received. */
  lemma RepliesBelow(y: Endpoint, x: Endpoint, d: seq<Msg>, c: seq<Msg>)
    requires Dir(y, x, d, c)
    ensures forall i :: 0 <= i < |c| && c[i].DataReply? ==> c[i].k < x.got && c[i].k !in x.inb.Held()
  {
  }

  /** Sending an answer changes nothing for the direction it travels in. */
  lemma AnswerAppended(o: OutStream, y: Endpoint, c: seq<Msg>, d: seq<Msg>, k: nat)
    requires Ordered(c) && InTransit(o, y.got, c) && Closing(o, y, c, d)
    requires forall i :: 0 <= i < |c| && c[i].DataReply? ==> c[i].k != k
    ensures var c' := c + [DataReply(k, Result)]; Ordered(c') && InTransit(o, y.got, c') && Closing(o, y, c', d)
  {
    var m := DataReply(k, Result);
    OrderedAppend(c, m);
    InTransitAppend(o, y.got, c, m);
    hide Ordered, InTransit;
    assert forall z :: z in c + [m] <==> z in c || z == m;
  }

  // a <close/> arrives

  lemma HeldIsPending(o: OutStream, s: InStream, got: nat, d: seq<Msg>, k: nat)
    requires Unanswered(o, s, got, d) && k in s.Held()
    ensures k < got && k < |o.outcomes| && o.outcomes[k] == Pending
  {
  }

  /** Once a side has sent its <close/>, the other holds no block of it. */
  lemma NothingHeld(x: Endpoint, y: Endpoint, c: seq<Msg>, d: seq<Msg>)
    requires Both(x, y, c, d) && y.out.closeSent
    ensures x.inb.Held() == {} && forall i :: 0 <= i < |c| ==> !c[i].DataReply?
  {
    if x.inb.Held() != {} {
      var k :| k in x.inb.Held();
      HeldIsPending(y.out, x.inb, x.got, c, k);
      PendingCounts(y.out.outcomes, k);
    }
    if i :| 0 <= i < |c| && c[i].DataReply? {
      PendingCounts(y.out.outcomes, c[i].k);
    }
  }

  lemma RecvCloseIs(x: Endpoint, y: Endpoint, c: seq<Msg>, d: seq<Msg>)
    requires Both(x, y, c, d) && d != [] && d[0].CloseMsg?
    ensures y.out.closeSent && y.out.phase == AwaitingAnswer && !x.out.closedByPeer
    ensures var (x', c', d') := Act(x, c, d, Receive);
            && d' == d[1..] && c' == c + [CloseReply(Result)]
            && x'.out.closedByPeer && x'.out.closeSent == x.out.closeSent && x'.out.blocks == x.out.blocks
            && x'.out.outcomes == x.out.outcomes && (x'.out.phase == AwaitingAnswer <==> x.out.phase == AwaitingAnswer)
            && x'.got == x.got && x'.inb.Held() == {} && x'.inb.finished
            && Local(x')
  {
    assert d[0] in d;
    NothingHeld(x, y, c, d);
    PeerClosedKeeps(x.out);
    hide StreamInv, Dir;
    var (x', c', d') := Act(x, c, d, Receive);
    assert x'.inb.Held() == x.inb.Held();
  }

  lemma RecvCloseBack(x: Endpoint, y: Endpoint, c: seq<Msg>, d: seq<Msg>)
    requires Both(x, y, c, d) && d != [] && d[0].CloseMsg?
    ensures var (x', c', d') := Act(x, c, d, Receive); Dir(y, x', d', c')
  {
    RecvCloseIs(x, y, c, d);
    NothingHeld(x, y, c, d);
    InTransitTail(y.out, x.got, d);
    TailOrdered(d);
    AppendedToReplies(y.out, x.inb, x.got, c, CloseReply(Result));
    hide Act, Local, InTransit, Ordered;
    var (x', c', d') := Act(x, c, d, Receive);
    assert Unanswered(y.out, x'.inb, x'.got, c');
    assert c'[|c|] == CloseReply(Result);
    assert Closing(y.out, x', d', c') by {
      hide Unanswered;
      assert forall i :: 0 <= i < |d'| ==> !d'[i].DataMsg? && !d'[i].CloseMsg?;
    }
  }

  lemma RecvCloseForth(x: Endpoint, y: Endpoint, c: seq<Msg>, d: seq<Msg>)
    requires Both(x, y, c, d) && d != [] && d[0].CloseMsg?
    ensures var (x', c', d') := Act(x, c, d, Receive); Dir(x', y, c', d')
  {
    RecvCloseIs(x, y, c, d);
    NothingClosing(x, y, c, d);
    hide Act, Local, Dir;
    ClosedForth(x.out, Act(x, c, d, Receive).0, y, c, d);
  }

  /** The answer to a <close/> goes out: what else is on its way, and what is unanswered, stays as it is. */
  lemma ClosedForth(o: OutStream, x': Endpoint, y: Endpoint, c: seq<Msg>, d: seq<Msg>)
    requires exists x: Endpoint :: x.out == o && Dir(x, y, c, d)
    requires d != [] && d[0].CloseMsg? && forall i :: 0 <= i < |c| ==> !c[i].CloseReply?
    requires x'.out.blocks == o.blocks && x'.out.outcomes == o.outcomes && x'.out.closeSent == o.closeSent
    requires x'.out.phase == AwaitingAnswer <==> o.phase == AwaitingAnswer
    ensures Dir(x', y, c + [CloseReply(Result)], d[1..])
  {
    OrderedAppend(c, CloseReply(Result));
    InTransitAppend(o, y.got, c, CloseReply(Result));
    InTransitSame(o, x'.out, y.got, c + [CloseReply(Result)]);
    UnansweredTail(o, y.inb, y.got, d);
    ClosingTail(o, y, c, d);
    hide Ordered, InTransit;
    assert Unanswered(x'.out, y.inb, y.got, d[1..]);
    hide Unanswered;
    assert forall z :: z in c + [CloseReply(Result)] <==> z in c || z == CloseReply(Result);
  }

  // an answer to a block arrives

  /** A data answer that arrives is a result, for a block that nobody holds and that is still unanswered. */
  lemma ReplyIs(x: Endpoint, y: Endpoint, c: seq<Msg>, d: seq<Msg>)
    requires Both(x, y, c, d) && d != [] && d[0].DataReply?
    ensures var o := x.out; var k := d[0].k;
            && d[0].reply == Result && k < y.got && k < |o.outcomes| && o.outcomes[k] == Pending && k !in y.inb.Held()
  {
    hide Local, Ordered, Closing;
  }

  lemma RecvReplyIs(x: Endpoint, y: Endpoint, c: seq<Msg>, d: seq<Msg>)
    requires Both(x, y, c, d) && d != [] && d[0].DataReply?
    ensures var o := x.out; var k := d[0].k;
            && d[0].reply == Result && k < y.got && k < |o.outcomes| && o.outcomes[k] == Pending && k !in y.inb.Held()
    ensures var (x', c', d') := Act(x, c, d, Receive);
            && d' == d[1..] && c' == c && x'.got == x.got && x'.inb == x.inb
            && x'.out.blocks == x.out.blocks && x'.out.outcomes == x.out.outcomes[d[0].k := Acked]
            && x'.out.closeSent == x.out.closeSent && x'.out.closedByPeer == x.out.closedByPeer
            && (x'.out.phase == AwaitingAnswer <==> x.out.phase == AwaitingAnswer)
            && Local(x')
  {
    ReplyIs(x, y, c, d);
    RecordKeeps(x.out, d[0].k, Acked);
    AckedIs(x.out, d[0].k);
    hide StreamInv, Dir, RecordOutcome, WakeAfterSettle;
  }

  /** With no pump parked, an ack leaves a stream as it was but for the block itself and the wait for acks. */
  lemma AckedIs(o: OutStream, k: nat)
    requires k < |o.outcomes| && o.parkedWrites == 0 && o.phase != PumpParked
    ensures WakeAfterSettle(RecordOutcome(o, k, Acked)) ==
              o.(outcomes := o.outcomes[k := Acked], inFlight := o.inFlight - 1,
                 phase := if o.inFlight == 1 && o.phase == DrainParked then DrainReady else o.phase)
  {
  }

  lemma ReplyRemoved(o: OutStream, o': OutStream, s: InStream, got: nat, d: seq<Msg>)
    requires d != [] && Ordered(d) && d[0].DataReply? && d[0].reply == Result && Unanswered(o, s, got, d)
    requires d[0].k < |o.outcomes| && o'.outcomes == o.outcomes[d[0].k := Acked]
    ensures Unanswered(o', s, got, d[1..])
  {
    var t := d[1..];
    assert forall i :: 0 <= i < |t| ==> t[i] == d[i + 1];
    assert d == [d[0]] + t;
  }

  lemma RecvReplyDirs(x: Endpoint, y: Endpoint, c: seq<Msg>, d: seq<Msg>)
    requires Both(x, y, c, d) && d != [] && d[0].DataReply?
    ensures var (x', c', d') := Act(x, c, d, Receive); Dir(x', y, c', d') && Dir(y, x', d', c')
  {
    RecvReplyIs(x, y, c, d);
    hide Act, Local, Ordered, InTransit;
    TailOrdered(d);
    InTransitTail(y.out, x.got, d);
    ClosingTail(x.out, y, c, d);
    ClosingTailOut(y.out, x, d, c);
    var x' := Act(x, c, d, Receive).0;
    ReplyRemoved(x.out, x'.out, y.inb, y.got, d);
    InTransitSame(x.out, x'.out, y.got, c);
    hide Unanswered;
  }

  // the answer to our <close/> arrives

  lemma RecvCloseReplyIs(x: Endpoint, y: Endpoint, c: seq<Msg>, d: seq<Msg>)
    requires Both(x, y, c, d) && d != [] && d[0].CloseReply?
    ensures x.out.phase == AwaitingAnswer && y.out.closedByPeer && (y.out.closeSent ==> x.out.closedByPeer)
    ensures var (x', c', d') := Act(x, c, d, Receive);
            && d' == d[1..] && c' == c && x'.got == x.got
            && x'.out == x.out.(phase := Resolved) && x'.inb == x.inb.(registered := false)
            && Local(x')
  {
    assert d[0] in d;
    TailOrdered(d);
    CloseAnsweredKeeps(x.out, None);
    hide StreamInv;
  }

  lemma RecvCloseReplyDirs(x: Endpoint, y: Endpoint, c: seq<Msg>, d: seq<Msg>)
    requires Both(x, y, c, d) && d != [] && d[0].CloseReply?
    ensures var (x', c', d') := Act(x, c, d, Receive); Dir(x', y, c', d') && Dir(y, x', d', c')
  {
    RecvCloseReplyIs(x, y, c, d);
    TailOrdered(d);
    InTransitTail(y.out, x.got, d);
    UnansweredTail(x.out, y.inb, y.got, d);
    var x' := Act(x, c, d, Receive).0;
    InTransitSame(x.out, x'.out, y.got, c);
    NothingAfterReply(d);
    hide Act, Local, Ordered, InTransit;
    assert Unanswered(x'.out, y.inb, y.got, d[1..]);
    assert Unanswered(y.out, x'.inb, x'.got, c) by { assert x'.inb.Held() == x.inb.Held(); }
    hide Unanswered;
  }

  /** Behind the answer to a <close/> there is at most an answer to data. */
  lemma NothingAfterReply(d: seq<Msg>)
    requires Ordered(d) && d != [] && d[0].CloseReply?
    ensures forall z :: z in d[1..] ==> z.DataReply?
  {
  }

  // a withheld ack goes out, or the reader reads

  /** A woken handler never answers item-not-found: a side that has seen the peer's <close/> holds nothing. */
  lemma ResumeIs(x: Endpoint, y: Endpoint, c: seq<Msg>, d: seq<Msg>, h: nat)
    requires Both(x, y, c, d) && h in x.inb.woken
    ensures var (x', c', d') := Act(x, c, d, Resume(h));
            && d' == d && x'.out == x.out && x'.got == x.got && x'.inb.expectedSeq == x.inb.expectedSeq
            && x'.inb.registered == x.inb.registered && x'.inb.finished == x.inb.finished
            && (if c' == c then x'.inb.Held() == x.inb.Held()
                else c' == c + [DataReply(h, Result)] && x'.inb.Held() == x.inb.Held() - {h})
            && Local(x')
  {
    if x.inb.finished && !x.inb.cancelled { NothingHeld(x, y, c, d); }
    hide StreamInv, Dir;
    var (x', c', d') := Act(x, c, d, Resume(h));
    if !x.inb.finished && x.inb.Full() {
      assert x'.inb.Held() == x.inb.Held();
    } else {
      assert x'.inb.Held() == x.inb.Held() - {h};
    }
  }

  lemma ResumeDirs(x: Endpoint, y: Endpoint, c: seq<Msg>, d: seq<Msg>, h: nat)
    requires Both(x, y, c, d) && h in x.inb.woken
    ensures var (x', c', d') := Act(x, c, d, Resume(h)); Dir(x', y, c', d') && Dir(y, x', d', c')
  {
    ResumeIs(x, y, c, d, h);
    assert h in x.inb.Held();
    hide Act, Local, Dir;
    var (x', c', d') := Act(x, c, d, Resume(h));
    if c' == c { DirFrame(x, x', y, c, d); } else { AnswerDirs(x, x', y, c, d, h); }
  }

  /** A withheld ack goes out. */
  lemma AnswerDirs(x: Endpoint, x': Endpoint, y: Endpoint, c: seq<Msg>, d: seq<Msg>, h: nat)
    requires Dir(x, y, c, d) && Dir(y, x, d, c) && h in x.inb.Held()
    requires x'.out == x.out && x'.got == x.got && x'.inb.expectedSeq == x.inb.expectedSeq
    requires x'.inb.registered == x.inb.registered && x'.inb.finished == x.inb.finished && x'.inb.Held() == x.inb.Held() - {h}
    ensures Dir(x', y, c + [DataReply(h, Result)], d) && Dir(y, x', d, c + [DataReply(h, Result)])
  {
    RepliesBelow(y, x, d, c);
    AnswerAppended(x.out, y, c, d, h);
    HandlerAnswered(y.out, x.inb, x'.inb, x.got, c, h);
    hide InTransit, Ordered, Unanswered;
    assert forall z :: z in c + [DataReply(h, Result)] <==> z in c || z == DataReply(h, Result);
  }

  lemma HandlerAnswered(o: OutStream, s: InStream, s': InStream, got: nat, c: seq<Msg>, h: nat)
    requires Unanswered(o, s, got, c) && h in s.Held() && s'.Held() == s.Held() - {h}
    ensures Unanswered(o, s', got, c + [DataReply(h, Result)])
  {
    var m := DataReply(h, Result);
    assert (c + [m])[|c|] == m;
    assert forall z :: z in c + [m] <==> z in c || z == m;
  }

  lemma ReadIs(x: Endpoint, c: seq<Msg>, d: seq<Msg>, n: nat)
    requires Local(x) && CanAct(x, d, ReadBytes(n))
    ensures var (x', c', d') := Act(x, c, d, ReadBytes(n));
            && d' == d && c' == c && x'.out == x.out && x'.got == x.got && x'.inb.Held() == x.inb.Held()
            && x'.inb.expectedSeq == x.inb.expectedSeq && x'.inb.finished == x.inb.finished
            && x'.inb.registered == x.inb.registered && Local(x')
  {
    hide StreamInv;
    assert Read(x.inb, n).Held() == x.inb.Held();
  }

  /** One action of either side keeps both sides and both directions. */
  lemma ActKeeps(x: Endpoint, y: Endpoint, c: seq<Msg>, d: seq<Msg>, e: Action)
    requires Both(x, y, c, d) && CanAct(x, d, e)
    ensures var (x', c', d') := Act(x, c, d, e); Both(x', y, c', d')
  {
    hide Act, Local, Dir;
    match e
    case UserWrite(_) => QuietDirs(x, y, c, d, e);
    case UserClose => QuietDirs(x, y, c, d, e);
    case WriterLeaves => QuietDirs(x, y, c, d, e);
    case ClosePumpLeaves => QuietDirs(x, y, c, d, e);
    case PumpSend => PumpSendLocal(x, c, d); PumpSendForth(x, y, c, d); PumpSendBack(x, y, c, d);
    case Continue => ContinueLocal(x, c, d); ContinueDirs(x, y, c, d);
    case Resume(h) => ResumeIs(x, y, c, d, h); ResumeDirs(x, y, c, d, h);
    case ReadBytes(n) =>
      ReadIs(x, c, d, n);
      DirFrame(x, Act(x, c, d, e).0, y, c, d);
    case Receive =>
      match d[0] {
        case DataMsg(_, _, _) => RecvDataIs(x, y, c, d); RecvDataForth(x, y, c, d); RecvDataBack(x, y, c, d);
        case CloseMsg => RecvCloseIs(x, y, c, d); RecvCloseForth(x, y, c, d); RecvCloseBack(x, y, c, d);
        case DataReply(_, _) => RecvReplyIs(x, y, c, d); RecvReplyDirs(x, y, c, d);
        case CloseReply(_) => RecvCloseReplyIs(x, y, c, d); RecvCloseReplyDirs(x, y, c, d);
      }
  }

  lemma QuietDirs(x: Endpoint, y: Endpoint, c: seq<Msg>, d: seq<Msg>, e: Action)
    requires Both(x, y, c, d) && CanAct(x, d, e) && (e.UserWrite? || e.UserClose? || e.WriterLeaves? || e.ClosePumpLeaves?)
    ensures var (x', c', d') := Act(x, c, d, e); Both(x', y, c', d')
  {
    QuietActs(x, y, c, d, e);
    hide Act, Local;
    DirFrame(x, Act(x, c, d, e).0, y, c, d);
  }
}
