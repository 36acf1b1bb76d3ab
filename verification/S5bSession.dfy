/**
 * A Jingle session over SOCKS5 with its IBB fallback (src/jingle/jingle.ts): initiator and responder as message steps
 * over two FIFO channels.
 */
module S5bSession {
  import opened Bytes
  import opened S5bNegotiation

  datatype Msg =
    | SessionAccept(candidates: seq<Candidate>)
    | Candidates(candidates: seq<Candidate>)
    | CandidateUsed(cid: string)
    | CandidateError
    | Activated(cid: string)
    | Replace(sid: string)
    | TransportAccept(sid: string)
    | OpenIbb(sid: string)

  /** How far the coroutine of one side has got; each stage but the last two ends at an await. */
  datatype Stage = Idle | Accepted | Dialling | AwaitingOutcome | AwaitingActivation | Switching | Done | Dead

  /**
   * One side. `mine` is what its adapter would offer; `dialled` whether it holds a connection it may have to use;
   * `ibbSid` the replacement sid (chosen by the initiator, received by the responder); `armed` the sid the responder
   * expects an IBB open for.
   */
  datatype Party = Party(adapter: bool, mine: seq<Candidate>, begun: bool, neg: Negotiation, stage: Stage,
                         dialled: bool, ibbSid: Option<string>, armed: Option<string>)

  datatype Action =
    | Begin
    | Dial(choice: Option<nat>)
    | Proceed(freshSid: string)
    | Activation
    | Switch
    | Break

  function NewParty(isInitiator: bool, adapter: bool, mine: seq<Candidate>): Party {
    Party(adapter, mine, false, New(isInitiator), Idle, false, None, None)
  }

  /** The candidate reported is the first one known under the dialled JID. */
  predicate FirstOfJid(candidates: seq<Candidate>, i: nat) {
    i < |candidates| && forall j :: 0 <= j < i ==> candidates[j].jid != candidates[i].jid
  }

  predicate CanAct(p: Party, e: Action) {
    match e
    case Begin => p.stage == if p.neg.isInitiator then Accepted else Idle
    case Dial(choice) =>
      && p.stage == Dialling
      && (choice.Some? ==> p.adapter && FirstOfJid(p.neg.remote, choice.value))
      && (p.adapter ==> p.neg.ready.Settled?)
    case Proceed(_) => p.stage == AwaitingOutcome && p.neg.outcome.Settled?
    case Activation => p.stage == AwaitingActivation && p.neg.activated.Settled?
    case Switch => p.stage == Switching && p.neg.replaced.Settled? && p.ibbSid.Some?
    case Break => p.stage != Dead
  }

  /** The side acts; the messages it sends. */
  function Act(p: Party, e: Action): (Party, seq<Msg>)
    requires CanAct(p, e)
  {
    match e
    case Begin =>
      (p.(begun := true, neg := OfferLocal(p.neg, p.mine), stage := Dialling),
       if !p.neg.isInitiator then [SessionAccept(p.mine)] else if p.mine == [] then [] else [Candidates(p.mine)])
    case Dial(choice) =>
      var n := if p.adapter then p.neg else NoRemoteCandidates(p.neg);
      if choice.Some? then
        var c := n.remote[choice.value];
        (p.(neg := SetLocalReport(n, Used(c)), stage := AwaitingOutcome, dialled := true), [CandidateUsed(c.cid)])
      else (p.(neg := SetLocalReport(n, NoneUsable), stage := AwaitingOutcome), [CandidateError])
    case Proceed(freshSid) =>
      (match p.neg.outcome.value
       case Fallback =>
         if p.neg.isInitiator then (p.(stage := Switching, ibbSid := Some(freshSid)), [Replace(freshSid)])
         else (p.(stage := Switching), [])
       case Use(c, owner) =>
         if owner == Ours then (p.(stage := Done), if c.kind == Proxy then [Activated(c.cid)] else [])
         else (p.(stage := if c.kind == Proxy then AwaitingActivation else Done), []))
    case Activation => (p.(stage := Done), [])
    case Switch =>
      if p.neg.isInitiator then (p.(stage := Done), [OpenIbb(p.ibbSid.value)])
      else (p.(stage := Done, armed := p.ibbSid), [TransportAccept(p.ibbSid.value)])
    case Break => (p.(neg := Fail(p.neg), stage := Dead), [])
  }

  /** A message arrives; a side whose session is gone ignores it. */
  function Receive(p: Party, m: Msg): Party {
    if p.stage == Dead then p
    else
      match m
      case SessionAccept(cs) =>
        if p.stage != Idle || !p.neg.isInitiator then p
        else p.(stage := Accepted, neg := if cs != [] then ReceiveCandidates(p.neg, cs) else NoRemoteCandidates(p.neg))
      case Candidates(cs) => p.(neg := ReceiveCandidates(p.neg, cs))
      case CandidateUsed(cid) => p.(neg := SetRemoteUsed(p.neg, cid))
      case CandidateError => p.(neg := SetRemoteError(p.neg))
      case Activated(cid) => p.(neg := MarkActivated(p.neg, cid))
      case Replace(sid) => p.(ibbSid := Some(sid), neg := MarkSwitch(p.neg))
      case TransportAccept(_) => p.(neg := MarkSwitch(p.neg))
      case OpenIbb(_) => p
  }

  datatype System = System(i: Party, r: Party, ir: seq<Msg>, ri: seq<Msg>)

  datatype Event = InitiatorActs(e: Action) | ResponderActs(e: Action) | ToInitiator | ToResponder

  predicate Enabled(s: System, e: Event) {
    match e
    case InitiatorActs(a) => CanAct(s.i, a)
    case ResponderActs(a) => CanAct(s.r, a)
    case ToInitiator => s.ri != []
    case ToResponder => s.ir != []
  }

  function Step(s: System, e: Event): System
    requires Enabled(s, e)
  {
    match e
    case InitiatorActs(a) =>
      var (p, sent) := Act(s.i, a);
      s.(i := p, ir := s.ir + sent)
    case ResponderActs(a) =>
      var (p, sent) := Act(s.r, a);
      s.(r := p, ri := s.ri + sent)
    case ToInitiator => s.(i := Receive(s.i, s.ri[0]), ri := s.ri[1..])
    case ToResponder => s.(r := Receive(s.r, s.ir[0]), ir := s.ir[1..])
  }

  /** Any offers without duplicate cids; a responder without an adapter offers nothing. */
  ghost predicate IsStart(s: System) {
    exists mine: seq<Candidate>, theirs: seq<Candidate>, adapter: bool ::
      && UniqueCids(mine) && UniqueCids(theirs) && (!adapter ==> theirs == [])
      && s == System(NewParty(true, true, mine), NewParty(false, adapter, theirs), [], [])
  }

  ghost predicate IsStep(s: System, s': System) {
    exists e: Event :: Enabled(s, e) && s' == Step(s, e)
  }

  ghost predicate IsRun(run: seq<System>) {
    run != [] && IsStart(run[0]) && forall k :: 0 < k < |run| ==> IsStep(run[k - 1], run[k])
  }

  // ------------------------------------------------------------ what one side keeps

  predicate Reported(stage: Stage) {
    stage == AwaitingOutcome || stage == AwaitingActivation || stage == Switching || stage == Done
  }

  predicate Healthy(n: Negotiation) {
    !n.ready.Failed? && !n.outcome.Failed? && !n.activated.Failed? && !n.replaced.Failed?
  }

  /** The winner is the peer's candidate: then we hold the connection dialled to it. */
  ghost predicate Own(p: Party) {
    var n := p.neg;
    && UniqueCids(p.mine) && (!p.adapter ==> p.mine == [] && !n.isInitiator)
    && Decided(n)
    && n.local == (if p.begun then p.mine else [])
    && (n.localReport.Some? && n.localReport.value.Used? ==> n.localReport.value.candidate in n.remote && p.dialled)
    && (p.stage != Dead ==>
          && Healthy(n)
          && (n.localReport.Some? <==> Reported(p.stage))
          && (p.begun <==> p.stage != Idle && p.stage != Accepted)
          && (p.stage == AwaitingActivation || p.stage == Switching || p.stage == Done ==> n.outcome.Settled?)
          && (p.stage == Switching ==> n.outcome.value == Fallback)
          && (p.stage == AwaitingActivation ==>
                n.outcome.value.Use? && n.outcome.value.offeredBy == Theirs && n.outcome.value.candidate.kind == Proxy)
          && (n.isInitiator && p.stage != Idle ==> n.ready.Settled?)
          && (!n.isInitiator ==> p.stage != Accepted))
    && (p.stage == Accepted ==> n.isInitiator)
  }

  /** What `x` knows and says of `y`'s candidates, over its channel `c` to `y`, and `d` back. */
  ghost predicate Reports(x: Party, y: Party, c: seq<Msg>, d: seq<Msg>) {
    && (forall k :: k in x.neg.remote ==> k in y.mine && y.begun)
    && (forall m :: m in d && (m.SessionAccept? || m.Candidates?) ==> m.candidates == y.mine && y.begun)
    && (y.neg.remoteReport.Some? ==> x.neg.localReport == y.neg.remoteReport)
    && (forall m :: m in c && m.CandidateUsed? ==>
          && x.neg.localReport.Some? && x.neg.localReport.value.Used? && x.neg.localReport.value.candidate.cid == m.cid)
    && (CandidateError in c ==> x.neg.localReport == Some(NoneUsable))
  }

  /** The switch to IBB: what the responder has armed is what the initiator chose, before it is told so. */
  ghost predicate SwitchSafe(s: System) {
    && (forall m :: m in s.ir ==> !m.SessionAccept? && !m.TransportAccept?)
    && (forall m :: m in s.ri ==> !m.Candidates? && !m.Replace? && !m.OpenIbb?)
    && (forall m :: m in s.ir && m.Replace? ==> s.i.ibbSid == Some(m.sid))
    && (s.r.ibbSid.Some? ==> s.r.ibbSid == s.i.ibbSid)
    && (s.r.armed.Some? ==> s.r.armed == s.i.ibbSid && s.r.neg.outcome == Settled(Fallback))
    && (forall m :: m in s.ri && m.TransportAccept? ==> s.r.armed == Some(m.sid))
    && (s.i.neg.replaced.Settled? ==> s.r.armed.Some?)
    && (forall m :: m in s.ir && m.OpenIbb? ==> s.r.armed == Some(m.sid))
    && (s.i.ibbSid.Some? ==> s.i.stage == Switching || s.i.stage == Done || s.i.stage == Dead)
    && (s.i.stage == Switching ==> s.i.ibbSid.Some?)
    && s.i.neg.isInitiator && !s.r.neg.isInitiator && s.i.adapter
  }

  ghost predicate Inv(s: System) {
    Own(s.i) && Own(s.r) && Reports(s.i, s.r, s.ir, s.ri) && Reports(s.r, s.i, s.ri, s.ir) && SwitchSafe(s)
  }

  lemma StartInv(s: System)
    requires IsStart(s)
    ensures Inv(s)
  {
  }

  // ------------------------------------------------------------ a side acts

  lemma OpeningOwn(p: Party, e: Action)
    requires Own(p) && CanAct(p, e) && (e.Begin? || e.Dial?)
    ensures Own(Act(p, e).0)
  {
    hide UniqueCids;
  }

  lemma ClosingOwn(p: Party, e: Action)
    requires Own(p) && CanAct(p, e) && !e.Begin? && !e.Dial?
    ensures Own(Act(p, e).0)
  {
    hide UniqueCids, Resolve;
  }

  lemma ActOwn(p: Party, e: Action)
    requires Own(p) && CanAct(p, e)
    ensures Own(Act(p, e).0)
  {
    hide Own, Act, CanAct;
    if e.Begin? || e.Dial? { OpeningOwn(p, e); } else { ClosingOwn(p, e); }
  }

  /** What an action leaves alone, and what it may send. */
  lemma ActIs(p: Party, e: Action)
    requires Own(p) && CanAct(p, e)
    ensures var (p', sent) := Act(p, e);
            && p'.neg.remote == p.neg.remote && p'.mine == p.mine && p'.neg.remoteReport == p.neg.remoteReport
            && (p.begun ==> p'.begun) && p'.adapter == p.adapter && p'.neg.isInitiator == p.neg.isInitiator
            && (p.neg.localReport.Some? ==> p'.neg.localReport == p.neg.localReport)
            && (p.neg.outcome.Settled? ==> p'.neg.outcome == p.neg.outcome)
            && (p'.neg.replaced.Settled? <==> p.neg.replaced.Settled?)
            && |sent| <= 1
            && forall m :: m in sent ==>
                 && (m.SessionAccept? || m.Candidates? ==> m.candidates == p'.mine && p'.begun && (m.Candidates? <==> p.neg.isInitiator))
                 && (m.CandidateUsed? ==> p'.neg.localReport.Some? && p'.neg.localReport.value.Used?
                                          && p'.neg.localReport.value.candidate.cid == m.cid)
                 && (m.CandidateError? ==> p'.neg.localReport == Some(NoneUsable))
  {
    hide UniqueCids, Resolve;
    match e
    case Begin =>
    case Dial(_) =>
    case Proceed(_) =>
    case _ =>
  }

  lemma ActSwitches(p: Party, e: Action)
    requires Own(p) && CanAct(p, e)
    ensures var (p', sent) := Act(p, e);
            && (p'.ibbSid == p.ibbSid || (p.neg.isInitiator && p.stage == AwaitingOutcome && p'.ibbSid.Some?
                  && p'.stage == Switching && sent == [Replace(p'.ibbSid.value)]))
            && (p'.armed == p.armed || (!p.neg.isInitiator && p'.armed == p.ibbSid && p.ibbSid.Some?
                  && p.neg.outcome == Settled(Fallback)))
            && forall m :: m in sent ==>
                 && (m.Replace? ==> p.neg.isInitiator && p'.ibbSid == Some(m.sid))
                 && (m.TransportAccept? ==> !p.neg.isInitiator && p'.armed == Some(m.sid))
                 && (m.OpenIbb? ==> p.neg.isInitiator && p.neg.replaced.Settled? && p.ibbSid == Some(m.sid) && p'.ibbSid == p.ibbSid)
  {
    hide UniqueCids, Decided;
  }

  /** The sender of the reports acts. */
  lemma ActReports(x: Party, y: Party, c: seq<Msg>, d: seq<Msg>, e: Action)
    requires Own(x) && Own(y) && Reports(x, y, c, d) && Reports(y, x, d, c) && CanAct(x, e)
    ensures var (x', sent) := Act(x, e); Reports(x', y, c + sent, d) && Reports(y, x', d, c + sent)
  {
    ActIs(x, e);
    hide Act, Own, CanAct;
    var (x', sent) := Act(x, e);
    assert forall m :: m in c + sent <==> m in c || m in sent;
  }

  lemma InitiatorActsSwitch(s: System, e: Action)
    requires Inv(s) && CanAct(s.i, e)
    ensures SwitchSafe(Step(s, InitiatorActs(e)))
  {
    ActIs(s.i, e);
    ActSwitches(s.i, e);
    InitiatorStages(s.i, e);
    hide Act, Own, CanAct, Reports;
    var (p, sent) := Act(s.i, e);
    assert forall m :: m in s.ir + sent <==> m in s.ir || m in sent;
  }

  lemma InitiatorStages(p: Party, e: Action)
    requires Own(p) && CanAct(p, e) && p.neg.isInitiator
    ensures var p' := Act(p, e).0;
            && (p.stage == Switching || p.stage == Done || p.stage == Dead ==>
                  p'.stage == Switching || p'.stage == Done || p'.stage == Dead)
            && (p'.stage == Switching && p.stage != Switching ==> p'.ibbSid.Some?)
  {
    hide UniqueCids, Decided;
  }

  lemma ResponderActsSwitch(s: System, e: Action)
    requires Inv(s) && CanAct(s.r, e)
    ensures SwitchSafe(Step(s, ResponderActs(e)))
  {
    ActIs(s.r, e);
    ActSwitches(s.r, e);
    hide Act, Own, CanAct, Reports;
    var (p, sent) := Act(s.r, e);
    assert forall m :: m in s.ri + sent <==> m in s.ri || m in sent;
  }

  // ------------------------------------------------------------ a message arrives

  /** Message `m` is of `x`, for `y`: any cid in it names one of `y`'s own candidates, so nothing fails. */
  ghost predicate Plausible(x: Party, y: Party, m: Msg) {
    && (m.SessionAccept? || m.Candidates? ==> m.candidates == x.mine && x.begun)
    && (m.CandidateUsed? ==> exists k :: k in y.mine && k.cid == m.cid && y.begun && x.neg.localReport == Some(Used(k)))
    && (m.CandidateError? ==> x.neg.localReport == Some(NoneUsable))
  }

  lemma FromChannel(x: Party, y: Party, c: seq<Msg>, d: seq<Msg>, m: Msg)
    requires Own(x) && Reports(x, y, c, d) && Reports(y, x, d, c) && m in c
    ensures Plausible(x, y, m)
  {
    if m.CandidateUsed? { assert x.neg.localReport.value.candidate in y.mine; }
  }

  lemma ReceiveOwn(x: Party, y: Party, m: Msg)
    requires Own(x) && Own(y) && Plausible(x, y, m) && (m.Candidates? ==> !y.neg.isInitiator)
    ensures Own(Receive(y, m))
  {
    hide UniqueCids, Find, Accumulate, Resolve;
    match m
    case SessionAccept(cs) => AccumulateIs(y.neg.remote, cs);
    case Candidates(cs) => AccumulateIs(y.neg.remote, cs);
    case CandidateUsed(_) =>
      UsedIsReported(x, y, m);
      hide SetRemoteUsed;
    case _ =>
  }

  /** A plausible cid is found, so the report is the sender's own. */
  lemma UsedIsReported(x: Party, y: Party, m: Msg)
    requires Own(x) && Own(y) && Plausible(x, y, m) && m.CandidateUsed?
    ensures x.neg.localReport.Some? && SetRemoteUsed(y.neg, m.cid) == SetRemoteReport(y.neg, x.neg.localReport.value)
  {
    var k :| k in y.mine && k.cid == m.cid && x.neg.localReport == Some(Used(k));
    FindNames(y.mine, k);
  }

  /** A report that arrives is recorded, unless one was before. */
  lemma ReportIs(x: Party, y: Party, m: Msg)
    requires Own(x) && Own(y) && Plausible(x, y, m) && (m.CandidateUsed? || m.CandidateError?)
    ensures x.neg.localReport.Some?
    ensures Receive(y, m) == if y.stage == Dead then y else y.(neg := SetRemoteReport(y.neg, x.neg.localReport.value))
  {
    if m.CandidateUsed? { UsedIsReported(x, y, m); }
    hide Own, SetRemoteUsed, SetRemoteReport;
  }

  /** What a message of `x` may change at `y`. */
  ghost predicate Received(x: Party, y: Party, m: Msg, y': Party) {
    && (forall k :: k in y'.neg.remote ==> k in y.neg.remote || (k in x.mine && x.begun))
    && y'.mine == y.mine && y'.begun == y.begun && y'.adapter == y.adapter && y'.neg.isInitiator == y.neg.isInitiator
    && y'.neg.localReport == y.neg.localReport && y'.armed == y.armed
    && (y'.neg.remoteReport == y.neg.remoteReport || y'.neg.remoteReport == x.neg.localReport)
    && (y.neg.outcome.Settled? ==> y'.neg.outcome == y.neg.outcome)
    && (y'.stage == y.stage || y'.stage == Accepted)
    && (y'.ibbSid == y.ibbSid || (m.Replace? && y'.ibbSid == Some(m.sid)))
    && (y'.neg.replaced.Settled? && !y.neg.replaced.Settled? ==> m.Replace? || m.TransportAccept?)
  }

  lemma OffersReceived(x: Party, y: Party, m: Msg)
    requires Plausible(x, y, m) && (m.SessionAccept? || m.Candidates?)
    ensures Received(x, y, m, Receive(y, m))
  {
    AccumulateIs(y.neg.remote, m.candidates);
    hide UniqueCids, Accumulate;
  }

  lemma NoticeReceived(x: Party, y: Party, m: Msg)
    requires m.Activated? || m.Replace? || m.TransportAccept? || m.OpenIbb?
    ensures Received(x, y, m, Receive(y, m))
  {
  }

  lemma ReceiveIs(x: Party, y: Party, m: Msg)
    requires Own(x) && Own(y) && Plausible(x, y, m)
    ensures Received(x, y, m, Receive(y, m))
  {
    hide Own, Plausible, Receive;
    if m.SessionAccept? || m.Candidates? {
      OffersReceived(x, y, m);
    } else if m.CandidateUsed? || m.CandidateError? {
      ReportIs(x, y, m);
    } else {
      NoticeReceived(x, y, m);
    }
  }

  lemma ReceiveReports(x: Party, y: Party, c: seq<Msg>, d: seq<Msg>)
    requires Own(x) && Own(y) && Reports(x, y, c, d) && Reports(y, x, d, c) && c != []
    ensures var y' := Receive(y, c[0]); Reports(x, y', c[1..], d) && Reports(y', x, d, c[1..])
  {
    FromChannel(x, y, c, d, c[0]);
    ReceiveIs(x, y, c[0]);
    hide Receive, Own, Plausible;
    assert forall m :: m in c[1..] ==> m in c;
  }

  lemma DeliveredSwitch(s: System, e: Event)
    requires Inv(s) && Enabled(s, e) && (e.ToInitiator? || e.ToResponder?)
    ensures SwitchSafe(Step(s, e))
  {
    if e.ToInitiator? {
      FromChannel(s.r, s.i, s.ri, s.ir, s.ri[0]);
      ReceiveIs(s.r, s.i, s.ri[0]);
      hide Receive, Own, Plausible, Reports;
      assert s.ri[0] in s.ri && forall m :: m in s.ri[1..] ==> m in s.ri;
      InitiatorReceives(s.i, s.ri[0]);
    } else {
      FromChannel(s.i, s.r, s.ir, s.ri, s.ir[0]);
      ReceiveIs(s.i, s.r, s.ir[0]);
      hide Receive, Own, Plausible, Reports;
      assert s.ir[0] in s.ir && forall m :: m in s.ir[1..] ==> m in s.ir;
    }
  }

  lemma InitiatorReceives(p: Party, m: Msg)
    ensures Receive(p, m).stage == Accepted ==> p.stage == Idle || p.stage == Accepted
  {
  }

  lemma StepKeeps(s: System, e: Event)
    requires Inv(s) && Enabled(s, e)
    ensures Inv(Step(s, e))
  {
    hide Act, Receive, Own, Reports, SwitchSafe, CanAct;
    match e
    case InitiatorActs(a) =>
      ActOwn(s.i, a);
      ActReports(s.i, s.r, s.ir, s.ri, a);
      InitiatorActsSwitch(s, a);
    case ResponderActs(a) =>
      ActOwn(s.r, a);
      ActReports(s.r, s.i, s.ri, s.ir, a);
      ResponderActsSwitch(s, a);
    case ToInitiator =>
      FromChannel(s.r, s.i, s.ri, s.ir, s.ri[0]);
      NoCandidatesBack(s);
      ReceiveOwn(s.r, s.i, s.ri[0]);
      ReceiveReports(s.r, s.i, s.ri, s.ir);
      DeliveredSwitch(s, e);
    case ToResponder =>
      FromChannel(s.i, s.r, s.ir, s.ri, s.ir[0]);
      NoCandidatesBack(s);
      ReceiveOwn(s.i, s.r, s.ir[0]);
      ReceiveReports(s.i, s.r, s.ir, s.ri);
      DeliveredSwitch(s, e);
  }

  lemma NoCandidatesBack(s: System)
    requires SwitchSafe(s)
    ensures s.ri != [] ==> !s.ri[0].Candidates?
    ensures !s.r.neg.isInitiator
  {
  }

  lemma {:induction false} EveryRunKeeps(run: seq<System>, k: nat)
    requires IsRun(run) && k < |run|
    ensures Inv(run[k])
  {
    if k == 0 {
      StartInv(run[0]);
    } else {
      hide Step, Enabled, Inv, IsStart;
      EveryRunKeeps(run, k - 1);
      assert IsStep(run[k - 1], run[k]);
      var e: Event :| Enabled(run[k - 1], e) && run[k] == Step(run[k - 1], e);
      StepKeeps(run[k - 1], e);
    }
  }

  /**
   * In any interleaving: whenever both sides settle, they have chosen the same candidate, each seeing the other's
   * side of it, or both fall back; and the side that is to use the peer's candidate holds the connection to it.
   */
  lemma BothSidesAgree(run: seq<System>, k: nat)
    requires IsRun(run) && k < |run|
    requires run[k].i.neg.outcome.Settled? && run[k].r.neg.outcome.Settled?
    ensures var o, o' := run[k].i.neg.outcome.value, run[k].r.neg.outcome.value;
            && o == Mirror(o')
            && (o.Use? ==> if o.offeredBy == Ours then o.candidate in run[k].i.mine && run[k].r.dialled
                           else o.candidate in run[k].r.mine && run[k].i.dialled)
  {
    EveryRunKeeps(run, k);
  }

  /**
   * An IBB <open/> of the fallback is on its way only to a responder that has armed its receiver for that very sid,
   * having itself fallen back.
   */
  lemma OpenFindsItsReceiver(run: seq<System>, k: nat, m: Msg)
    requires IsRun(run) && k < |run| && m in run[k].ir && m.OpenIbb?
    ensures run[k].r.armed == Some(m.sid) && run[k].r.neg.outcome == Settled(Fallback)
    ensures run[k].i.neg.replaced.Settled? ==> run[k].r.armed == run[k].i.ibbSid
  {
    EveryRunKeeps(run, k);
  }

  /** No negotiation fails by itself: as long as neither side breaks off, no waiter is rejected. */
  lemma NothingFailsAlone(run: seq<System>, k: nat)
    requires IsRun(run) && k < |run|
    ensures run[k].i.stage != Dead ==> Healthy(run[k].i.neg)
    ensures run[k].r.stage != Dead ==> Healthy(run[k].r.neg)
  {
    EveryRunKeeps(run, k);
  }

  /** A side that breaks off keeps nobody waiting; and one without an adapter does not wait for candidates before it reports. */
  lemma NobodyIsLeftWaiting(p: Party)
    ensures CanAct(p, Break) ==>
              var (b, sent) := Act(p, Break);
              b.stage == Dead && sent == [] && !b.neg.ready.Waiting? && !b.neg.outcome.Waiting? && !b.neg.activated.Waiting? && !b.neg.replaced.Waiting?
    ensures !p.adapter && CanAct(p, Dial(None)) ==>
              var (d, sent) := Act(p, Dial(None));
              sent == [CandidateError] && !d.neg.ready.Waiting? && (p.neg.localReport.None? ==> d.neg.localReport == Some(NoneUsable))
    ensures p.adapter && CanAct(p, Dial(None)) ==> Act(p, Dial(None)).0.neg.ready == p.neg.ready
  {
    hide Resolve;
  }

  // ------------------------------------------------------------ what was offered becomes known

  predicate IsOffer(m: Msg) { m.SessionAccept? || m.Candidates? }

  /** What `x` knows of the offer of `y`, which reaches it over `d`: nothing until it arrives, and all of it from then on. */
  ghost predicate Knows(x: Party, y: Party, d: seq<Msg>) {
    && UniqueCids(y.mine)
    && (forall a, b :: 0 <= a < b < |d| && IsOffer(d[a]) ==> !IsOffer(d[b]))
    && (forall m :: m in d && IsOffer(m) ==> m.candidates == y.mine && y.begun && x.neg.remote == [])
    && (!y.begun ==> x.neg.remote == [])
    && (x.neg.remote == [] || x.neg.remote == y.mine)
    && (x.stage != Dead && y.begun && (forall m :: m in d ==> !IsOffer(m)) ==> x.neg.remote == y.mine)
    && (x.neg.isInitiator && x.stage != Dead && (!y.begun || exists m :: m in d && IsOffer(m)) ==> x.stage == Idle)
  }

  lemma {:induction false} AllNew(known: seq<Candidate>, more: seq<Candidate>)
    requires UniqueCids(known + more)
    ensures Accumulate(known, more) == known + more
    decreases |more|
  {
    if more == [] {
      assert known + more == known;
    } else {
      FindIs(known, more[0].cid);
      assert forall i :: 0 <= i < |known| ==> (known + more)[i] == known[i];
      assert (known + more)[|known|] == more[0];
      Regroup(known, more);
      AllNew(known + [more[0]], more[1..]);
    }
  }

  /** An action changes nothing the side knows, and offers what it has, once. */
  lemma ActOffers(p: Party, e: Action)
    requires Own(p) && CanAct(p, e)
    ensures var (p', sent) := Act(p, e);
            && p'.neg.remote == p.neg.remote && p'.mine == p.mine && p'.neg.isInitiator == p.neg.isInitiator && |sent| <= 1
            && (forall m :: m in sent && IsOffer(m) ==> m.candidates == p.mine && !p.begun && p'.begun)
            && (p.begun ==> p'.begun) && (p'.begun && !p.begun ==> p.mine == [] || exists m :: m in sent && IsOffer(m))
            && (p'.stage != Dead ==> p.stage != Dead) && (p.neg.isInitiator && p.stage == Idle ==> p'.stage == Dead)
  {
    hide UniqueCids, Resolve, Decided;
    var sent := Act(p, e).1;
    if sent != [] { assert sent[0] in sent; }
  }

  lemma ActKnows(x: Party, y: Party, c: seq<Msg>, d: seq<Msg>, e: Action)
    requires Own(x) && Knows(x, y, d) && Knows(y, x, c) && CanAct(x, e)
    ensures var (x', sent) := Act(x, e); Knows(x', y, d) && Knows(y, x', c + sent)
  {
    ActOffers(x, e);
    hide Act, Own, CanAct, UniqueCids;
    var (x', sent) := Act(x, e);
    SentKnows(x, x', y, c, sent);
  }

  lemma SentKnows(x: Party, x': Party, y: Party, c: seq<Msg>, sent: seq<Msg>)
    requires Knows(y, x, c) && x'.mine == x.mine && |sent| <= 1 && (x.begun ==> x'.begun)
    requires forall m :: m in sent && IsOffer(m) ==> m.candidates == x.mine && !x.begun && x'.begun
    requires x'.begun && !x.begun ==> x.mine == [] || exists m :: m in sent && IsOffer(m)
    ensures Knows(y, x', c + sent)
  {
    hide UniqueCids;
    assert forall m :: m in c + sent <==> m in c || m in sent;
    assert x.begun || forall m :: m in c ==> !IsOffer(m);
    assert forall a :: 0 <= a < |c + sent| ==> if a < |c| then (c + sent)[a] == c[a] && c[a] in c else a == |c| && (c + sent)[a] in sent;
  }

  lemma ReceiveKnows(x: Party, y: Party, c: seq<Msg>, d: seq<Msg>)
    requires Own(x) && Knows(x, y, d) && Knows(y, x, c) && d != []
    requires d[0].SessionAccept? ==> x.neg.isInitiator
    ensures var x' := Receive(x, d[0]); Knows(x', y, d[1..]) && Knows(y, x', c)
  {
    hide Receive, Own, UniqueCids, Accumulate;
    var x', t := Receive(x, d[0]), d[1..];
    assert d[0] in d && forall m :: m in d <==> m == d[0] || m in t;
    assert forall a :: 0 <= a < |t| ==> t[a] == d[a + 1];
    if IsOffer(d[0]) {
      assert [] + y.mine == y.mine;
      AllNew([], y.mine);
      OfferIs(x, d[0]);
    } else {
      NoticeIs(x, d[0]);
    }
  }

  lemma OfferIs(x: Party, m: Msg)
    requires IsOffer(m) && x.neg.remote == []
    ensures var x' := Receive(x, m);
            && x'.mine == x.mine && x'.begun == x.begun && x'.neg.isInitiator == x.neg.isInitiator
            && (x'.stage == Dead <==> x.stage == Dead)
            && x'.neg.remote == if x.stage == Dead || (m.SessionAccept? && !(x.stage == Idle && x.neg.isInitiator)) then []
                                else Accumulate([], m.candidates)
  {
    assert Accumulate([], []) == [];
    hide Accumulate;
  }

  lemma NoticeIs(x: Party, m: Msg)
    requires !IsOffer(m)
    ensures var x' := Receive(x, m);
            && x'.mine == x.mine && x'.begun == x.begun && x'.neg.isInitiator == x.neg.isInitiator
            && x'.stage == x.stage && x'.neg.remote == x.neg.remote
  {
  }

  ghost predicate BothKnow(s: System) { Knows(s.i, s.r, s.ri) && Knows(s.r, s.i, s.ir) }

  lemma StepKnows(s: System, e: Event)
    requires Inv(s) && BothKnow(s) && Enabled(s, e)
    ensures BothKnow(Step(s, e))
  {
    hide Act, Receive, Own, Reports, CanAct, Knows;
    match e
    case InitiatorActs(a) => ActKnows(s.i, s.r, s.ir, s.ri, a);
    case ResponderActs(a) => ActKnows(s.r, s.i, s.ri, s.ir, a);
    case ToInitiator => ReceiveKnows(s.i, s.r, s.ir, s.ri);
    case ToResponder =>
      assert s.ir[0] in s.ir;
      ReceiveKnows(s.r, s.i, s.ri, s.ir);
  }

  lemma {:induction false} EveryRunKnows(run: seq<System>, k: nat)
    requires IsRun(run) && k < |run|
    ensures BothKnow(run[k])
  {
    if k > 0 {
      hide Step, Enabled, Inv, IsStart, BothKnow;
      EveryRunKnows(run, k - 1);
      EveryRunKeeps(run, k - 1);
      assert IsStep(run[k - 1], run[k]);
      var e: Event :| Enabled(run[k - 1], e) && run[k] == Step(run[k - 1], e);
      StepKnows(run[k - 1], e);
    }
  }

  /**
   * Once a side's offer has been received, the other knows exactly its candidates, all of them and in its order; before,
   * it knows none.
   */
  lemma OffersBecomeKnown(run: seq<System>, k: nat)
    requires IsRun(run) && k < |run|
    ensures var s := run[k];
            && s.i.neg.remote in {[], s.r.mine} && s.r.neg.remote in {[], s.i.mine}
            && (s.i.stage != Dead ==>
                  s.i.neg.remote == if s.r.begun && (forall m :: m in s.ri ==> !IsOffer(m)) then s.r.mine else [])
            && (s.r.stage != Dead ==>
                  s.r.neg.remote == if s.i.begun && (forall m :: m in s.ir ==> !IsOffer(m)) then s.i.mine else [])
  {
    EveryRunKnows(run, k);
    hide UniqueCids;
  }
}
