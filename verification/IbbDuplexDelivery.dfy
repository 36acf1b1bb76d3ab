/** What a duplex delivers: a side whose own <close/> went out has had every byte it wrote taken by the peer's reader. */
module IbbDuplexDelivery {
  import opened Bytes
  import opened IbbOutStream
  import opened IbbInStream
  import opened IbbDuplex
  import L = IbbDuplexLiveness

  /**
   * Of the blocks of `o`, side `y` has enqueued exactly the first `took`. It discards blocks only behind its own
   * <close/>, so an ack of a discarded block reaches the sender after that <close/> does.
   */
  ghost predicate Took(o: OutStream, y: Endpoint, d: seq<Msg>) {
    && y.took <= y.got && y.took <= |o.blocks|
    && y.inb.enqueued == Flatten(o.blocks[..y.took])
    && (!y.inb.finished ==> y.took == y.got)
    && (forall k :: k in y.inb.Held() ==> k < y.took)
    && (forall k :: y.took <= k < |o.outcomes| && o.outcomes[k] == Acked ==> o.closedByPeer)
    && (forall i :: 0 <= i < |d| && d[i].DataReply? && d[i].k >= y.took ==> o.closedByPeer || CloseMsg in d[..i])
    && (o.closeSent ==> y.took == |o.blocks|)
  }

  /** The sender moves on without touching the channel of answers. */
  lemma SenderMoves(o: OutStream, o': OutStream, y: Endpoint, d: seq<Msg>)
    requires Took(o, y, d) && o.blocks <= o'.blocks
    requires o.closedByPeer ==> o'.closedByPeer
    requires forall k :: y.took <= k < |o'.outcomes| && o'.outcomes[k] == Acked ==> o'.closedByPeer
    requires o'.closeSent ==> y.took == |o'.blocks|
    ensures Took(o', y, d)
  {
    assert o'.blocks[..y.took] == o.blocks[..y.took];
  }

  /** A message reaches the sender. */
  lemma AnswersTail(o: OutStream, o': OutStream, y: Endpoint, d: seq<Msg>)
    requires d != [] && Took(o, y, d) && o'.blocks == o.blocks && o'.closeSent == o.closeSent
    requires o.closedByPeer || d[0].CloseMsg? ==> o'.closedByPeer
    requires forall k :: y.took <= k < |o'.outcomes| && o'.outcomes[k] == Acked ==> o'.closedByPeer
    ensures Took(o', y, d[1..])
  {
    var t := d[1..];
    forall i | 0 <= i < |t| && t[i].DataReply? && t[i].k >= y.took ensures o'.closedByPeer || CloseMsg in t[..i] {
      assert t[i] == d[i + 1];
      assert d[..i + 1] == [d[0]] + t[..i];
    }
  }

  /** The sender acts. */
  lemma SenderKeeps(x: Endpoint, y: Endpoint, c: seq<Msg>, d: seq<Msg>, e: Action)
    requires Both(x, y, c, d) && Took(x.out, y, d) && CanAct(x, d, e)
    ensures var (x', c', d') := Act(x, c, d, e); Took(x'.out, y, d')
  {
    var x' := Act(x, c, d, e).0;
    match e
    case UserWrite(_) => QuietSender(x, y, c, d, e);
    case UserClose => QuietSender(x, y, c, d, e);
    case WriterLeaves => QuietSender(x, y, c, d, e);
    case ClosePumpLeaves => QuietSender(x, y, c, d, e);
    case PumpSend =>
      PumpSendIs(x, c, d);
      PumpSendLocal(x, c, d);
      hide Act, Both, Local, Dispatch;
      SenderMoves(x.out, x'.out, y, d);
    case Continue => ContinueSender(x, y, c, d);
    case Resume(h) => ResumeIs(x, y, c, d, h);
    case ReadBytes(n) => ReadIs(x, c, d, n);
    case Receive => ReceiveSender(x, y, c, d);
  }

  lemma QuietSender(x: Endpoint, y: Endpoint, c: seq<Msg>, d: seq<Msg>, e: Action)
    requires Both(x, y, c, d) && Took(x.out, y, d) && CanAct(x, d, e)
    requires e.UserWrite? || e.UserClose? || e.WriterLeaves? || e.ClosePumpLeaves?
    ensures var (x', c', d') := Act(x, c, d, e); Took(x'.out, y, d')
  {
    QuietActs(x, y, c, d, e);
    hide Act, Both, Local;
    SenderMoves(x.out, Act(x, c, d, e).0.out, y, d);
  }

  /** The moment our <close/> leaves: every block is acked, the peer's <close/> has not come, so none was discarded. */
  lemma ContinueSender(x: Endpoint, y: Endpoint, c: seq<Msg>, d: seq<Msg>)
    requires Both(x, y, c, d) && Took(x.out, y, d) && CanAct(x, d, Continue)
    ensures var (x', c', d') := Act(x, c, d, Continue); Took(x'.out, y, d')
  {
    ContinueIs(x, c, d);
    ContinueLocal(x, c, d);
    GotOf(x, y, c, d);
    hide Act, Dir;
    var x' := Act(x, c, d, Continue).0;
    SizesOf(x.out);
    if x'.out.closeSent && !x.out.closeSent {
      assert AllAcked(x'.out);
      var n := |x.out.outcomes|;
      assert n > 0 ==> x'.out.outcomes[n - 1] == Acked;
    }
    hide Local;
    SenderMoves(x.out, x'.out, y, d);
  }

  lemma ReceiveSender(x: Endpoint, y: Endpoint, c: seq<Msg>, d: seq<Msg>)
    requires Both(x, y, c, d) && Took(x.out, y, d) && d != []
    ensures var (x', c', d') := Act(x, c, d, Receive); Took(x'.out, y, d')
  {
    hide Act, Both, Local, Dir, Flatten;
    match d[0] {
      case DataMsg(_, _, _) => RecvDataIs(x, y, c, d);
      case CloseMsg => RecvCloseIs(x, y, c, d);
      case DataReply(_, _) => RecvReplyIs(x, y, c, d);
      case CloseReply(_) => RecvCloseReplyIs(x, y, c, d);
    }
    AnswersTail(x.out, Act(x, c, d, Receive).0.out, y, d);
  }

  // ------------------------------------------------------------ the receiver acts

  /** Apart from arriving data, nothing the receiver does changes what it took; answers it appends are of taken blocks. */
  lemma ReceiverMoves(o: OutStream, y: Endpoint, y': Endpoint, d: seq<Msg>, m: Option<Msg>)
    requires Took(o, y, d)
    requires y'.took == y.took && y'.got == y.got && y'.inb.enqueued == y.inb.enqueued
    requires (y.inb.finished ==> y'.inb.finished) && y'.inb.Held() <= y.inb.Held()
    requires m.Some? && m.value.DataReply? ==> m.value.k < y.took
    ensures Took(o, y', if m.Some? then d + [m.value] else d)
  {
    if m.Some? {
      var d' := d + [m.value];
      assert forall i :: 0 <= i <= |d| ==> d'[..i] == d[..i];
    }
  }

  /** What no action but arriving data changes. */
  lemma OnlyDataIsTaken(y: Endpoint, d: seq<Msg>, c: seq<Msg>, e: Action)
    requires CanAct(y, c, e) && !(e.Receive? && c[0].DataMsg?)
    ensures var y' := Act(y, d, c, e).0;
            && y'.took == y.took && y'.got == y.got && y'.inb.enqueued == y.inb.enqueued
            && (y.inb.finished ==> y'.inb.finished) && y'.inb.Held() <= y.inb.Held()
  {
  }

  /** At most one message leaves, and an answer to data is of a block that was held. */
  lemma OneMessageOut(y: Endpoint, d: seq<Msg>, c: seq<Msg>, e: Action) returns (m: Option<Msg>)
    requires CanAct(y, c, e) && !(e.Receive? && c[0].DataMsg?)
    ensures Act(y, d, c, e).1 == if m.Some? then d + [m.value] else d
    ensures m.Some? && m.value.DataReply? ==> m.value.k in y.inb.Held()
  {
    var d' := Act(y, d, c, e).1;
    m := if d' == d then None else Some(d'[|d|]);
  }

  lemma ReceiverKeeps(x: Endpoint, y: Endpoint, c: seq<Msg>, d: seq<Msg>, e: Action)
    requires Both(x, y, c, d) && Took(x.out, y, d) && CanAct(y, c, e)
    ensures var (y', d', c') := Act(y, d, c, e); Took(x.out, y', d')
  {
    if e.Receive? && c[0].DataMsg? {
      DataTaken(x, y, c, d);
    } else {
      OnlyDataIsTaken(y, d, c, e);
      var m := OneMessageOut(y, d, c, e);
      hide Act, Both, CanAct;
      ReceiverMoves(x.out, y, Act(y, d, c, e).0, d, m);
    }
  }

  /** A live reader is handed the block that is expected. */
  lemma NextIsEnqueued(s: InStream, k: nat, block: seq<Byte>)
    requires s.registered && !s.finished && s.expectedSeq == k % SEQ_MODULUS
    ensures OnData(s, k, Some(k % SEQ_MODULUS), Some(block)).0.enqueued == s.enqueued + block
  {
    RedeliveryDistance(k, k);
  }

  /** Data arrives at a live reader: the block expected, enqueued. */
  lemma DataEnqueued(x: Endpoint, y: Endpoint, c: seq<Msg>, d: seq<Msg>)
    requires Both(x, y, c, d) && Took(x.out, y, d) && c != [] && c[0].DataMsg?
    ensures var y' := Act(y, d, c, Receive).0;
            && y.got < |x.out.blocks|
            && y'.took == (if y.inb.finished then y.took else y.took + 1)
            && y'.inb.enqueued == Flatten(x.out.blocks[..y'.took])
  {
    var o := x.out;
    InTransitTail(o, y.got, c);
    assert c[0] in c;
    assert y.inb.registered;
    hide StreamInv, Unanswered, InTransit, Ordered, Closing;
    if !y.inb.finished {
      NextIsEnqueued(y.inb, y.got, o.blocks[y.got]);
      assert o.blocks[..y.got + 1] == o.blocks[..y.got] + [o.blocks[y.got]];
      FlattenSnoc(o.blocks[..y.got], o.blocks[y.got]);
      hide Flatten, Respond, IsRedelivery, Finish, Both;
    }
  }

  /** A half that is over although data still comes has sent its <close/>, and it is on its way or has arrived. */
  lemma FinishedIsKnown(x: Endpoint, y: Endpoint, c: seq<Msg>, d: seq<Msg>)
    requires Both(x, y, c, d) && c != [] && c[0].DataMsg? && y.inb.finished
    ensures x.out.closedByPeer || CloseMsg in d
  {
    assert c[0] in c;
    hide StreamInv, Ordered, InTransit, Unanswered;
  }

  /** Data arrives: taken if the reader is live, else acked and discarded behind our <close/>. */
  lemma DataTaken(x: Endpoint, y: Endpoint, c: seq<Msg>, d: seq<Msg>)
    requires Both(x, y, c, d) && Took(x.out, y, d) && c != [] && c[0].DataMsg?
    ensures var (y', d', c') := Act(y, d, c, Receive); Took(x.out, y', d')
  {
    RecvDataIs(y, x, d, c);
    DataEnqueued(x, y, c, d);
    PendingOf(x, y, c, d);
    if y.inb.finished { FinishedIsKnown(x, y, c, d); }
    hide Act, Both, Local, Flatten, Took;
    var (y', d', c') := Act(y, d, c, Receive);
    TookData(x.out, y, y', d, d');
  }

  lemma TookData(o: OutStream, y: Endpoint, y': Endpoint, d: seq<Msg>, d': seq<Msg>)
    requires Took(o, y, d) && y.got < |o.outcomes| == |o.blocks| && o.outcomes[y.got] == Pending
    requires y'.got == y.got + 1 && y'.inb.finished == y.inb.finished
    requires y'.took == (if y.inb.finished then y.took else y.took + 1) && y'.inb.enqueued == Flatten(o.blocks[..y'.took])
    requires if d' == d then !y.inb.finished && y'.inb.Held() == y.inb.Held() + {y.got}
             else d' == d + [DataReply(y.got, Result)] && y'.inb.Held() == y.inb.Held()
    requires y.inb.finished ==> o.closedByPeer || CloseMsg in d
    ensures Took(o, y', d')
  {
    hide Flatten;
    if d' != d { assert forall i :: 0 <= i <= |d| ==> d'[..i] == d[..i]; }
  }

  // ------------------------------------------------------------ runs

  ghost predicate BothTook(s: System) {
    Took(s.a.out, s.b, s.ba) && Took(s.b.out, s.a, s.ab)
  }

  lemma StepKeepsTook(s: System, onA: bool, e: Action)
    requires Inv(s) && BothTook(s) && L.Enabled(s, onA, e)
    ensures BothTook(L.Step(s, onA, e))
  {
    hide Act, Local, Dir, Took, CanAct;
    if onA {
      SenderKeeps(s.a, s.b, s.ab, s.ba, e);
      ReceiverKeeps(s.b, s.a, s.ba, s.ab, e);
    } else {
      SenderKeeps(s.b, s.a, s.ba, s.ab, e);
      ReceiverKeeps(s.a, s.b, s.ab, s.ba, e);
    }
  }

  lemma {:induction false} EveryRunTakes(run: seq<System>, i: nat)
    requires L.IsRun(run) && i < |run|
    ensures BothTook(run[i])
  {
    if i > 0 {
      hide L.Step, L.Enabled, Inv, L.IsStart, BothTook;
      EveryRunTakes(run, i - 1);
      L.EveryRunKeeps(run, i - 1);
      assert L.IsStep(run[i - 1], run[i]);
      var onA: bool, e: Action :| L.Enabled(run[i - 1], onA, e) && run[i] == L.Step(run[i - 1], onA, e);
      StepKeepsTook(run[i - 1], onA, e);
    }
  }

  /** `y` has a prefix of what `x` wrote; once `x` has sent its <close/>, all of it. */
  ghost predicate Delivered(x: Endpoint, y: Endpoint) {
    && y.inb.enqueued <= x.out.written
    && (x.out.closeSent ==> y.inb.enqueued == x.out.written)
  }

  lemma DirectionDelivers(x: Endpoint, y: Endpoint, d: seq<Msg>)
    requires Local(x) && Took(x.out, y, d)
    ensures Delivered(x, y)
  {
    var o := x.out;
    FlattenPrefix(o.blocks, y.took);
    assert Flatten(o.blocks) + o.buffered == o.written;
    assert Flatten(o.blocks) <= o.written;
    if o.closeSent {
      assert o.buffered == [];
      assert o.blocks[..y.took] == o.blocks;
    }
  }

  /**
   * In every state of every run each reader's queue has received a prefix of what the other side wrote, in order and
   * once each; and a side whose own <close/> went out, crossing or not, has had every byte it wrote received.
   */
  lemma DuplexDelivers(run: seq<System>, i: nat)
    requires L.IsRun(run) && i < |run|
    ensures Delivered(run[i].a, run[i].b) && Delivered(run[i].b, run[i].a)
  {
    EveryRunTakes(run, i);
    L.EveryRunKeeps(run, i);
    DirectionDelivers(run[i].a, run[i].b, run[i].ba);
    DirectionDelivers(run[i].b, run[i].a, run[i].ab);
  }
}
