/** The Jingle session of S5bSession gets stuck nowhere: unless a side breaks off, it runs to its end. */
module S5bProgress {
  import opened Bytes
  import opened S5bNegotiation
  import opened S5bSession

  predicate IsReport(m: Msg) { m.CandidateUsed? || m.CandidateError? }

  /** `x` has taken up its own proxy's connection. */
  predicate MustActivate(x: Party) {
    x.stage == Done && x.neg.outcome.Settled? && x.neg.outcome.value.Use?
    && x.neg.outcome.value.offeredBy == Ours && x.neg.outcome.value.candidate.kind == Proxy
  }

  /** What `y` still waits for from `x` is on its way. */
  ghost predicate Coming(x: Party, y: Party, c: seq<Msg>) {
    y.stage != Dead ==>
      && (x.neg.localReport.Some? && y.neg.remoteReport.None? ==> exists m :: m in c && IsReport(m))
      && (MustActivate(x) && y.neg.activated.Waiting? ==> exists m :: m in c && m.Activated?)
  }

  ghost predicate SwitchComing(s: System) {
    && (s.i.stage == Idle && s.r.begun ==> exists m :: m in s.ri && m.SessionAccept?)
    && (s.i.ibbSid.Some? && s.r.stage != Dead && s.r.neg.replaced.Waiting? ==> exists m :: m in s.ir && m.Replace?)
    && (s.r.armed.Some? && s.i.stage != Dead && s.i.neg.replaced.Waiting? ==> exists m :: m in s.ri && m.TransportAccept?)
    && (s.r.stage == Done && s.r.neg.outcome == Settled(Fallback) ==> s.r.armed.Some?)
    && (s.i.stage == Done && s.i.neg.outcome == Settled(Fallback) ==> s.i.ibbSid.Some? && s.i.neg.replaced.Settled?)
    && (s.r.neg.replaced.Settled? ==> s.r.ibbSid.Some?)
  }

  ghost predicate Live(s: System) {
    Coming(s.i, s.r, s.ir) && Coming(s.r, s.i, s.ri) && SwitchComing(s)
  }

  lemma Grown(c: seq<Msg>, sent: seq<Msg>)
    ensures forall m :: m in c + sent <==> m in c || m in sent
  {
  }

  /** The side that must be heard from acts: what it owes, it sends in the same step. */
  lemma ActComes(x: Party, y: Party, c: seq<Msg>, e: Action)
    requires Own(x) && CanAct(x, e) && Coming(x, y, c)
    ensures var (x', sent) := Act(x, e); Coming(x', y, c + sent)
  {
    var (x', sent) := Act(x, e);
    Grown(c, sent);
    hide UniqueCids, Decided;
    if x'.neg.localReport.Some? && !x.neg.localReport.Some? { assert IsReport(sent[0]); }
    if MustActivate(x') && !MustActivate(x) { assert sent[0].Activated?; }
  }

  /** The side that waits acts. */
  lemma WaiterActs(x: Party, y: Party, c: seq<Msg>, e: Action)
    requires CanAct(y, e) && Coming(x, y, c)
    ensures Coming(x, Act(y, e).0, c)
  {
  }

  /** What a message does to what is awaited. */
  lemma Awaited(x: Party, y: Party, m: Msg)
    requires Own(x) && Own(y) && Plausible(x, y, m)
    ensures var y' := Receive(y, m);
            y.stage != Dead ==>
              && y'.stage != Dead
              && (if IsReport(m) then y'.neg.remoteReport.Some? else y'.neg.remoteReport == y.neg.remoteReport)
              && (if m.Activated? then !y'.neg.activated.Waiting? else y'.neg.activated == y.neg.activated)
  {
    if m.CandidateUsed? { UsedIsReported(x, y, m); }
    hide UniqueCids, Own, Plausible, SetRemoteUsed, Accumulate;
  }

  /** A message reaches the side that waits: either it is what was awaited, or that is still on its way. */
  lemma WaiterReceives(x: Party, y: Party, c: seq<Msg>)
    requires Own(x) && Own(y) && Coming(x, y, c) && c != [] && Plausible(x, y, c[0])
    ensures Coming(x, Receive(y, c[0]), c[1..])
  {
    Awaited(x, y, c[0]);
    assert c == [c[0]] + c[1..];
    ReceiveDead(y, c[0]);
    hide Own, Plausible, Receive, MustActivate;
  }

  lemma ReceiveDead(y: Party, m: Msg)
    ensures y.stage == Dead ==> Receive(y, m) == y
  {
  }

  lemma OwerReceives(x: Party, y: Party, c: seq<Msg>, m: Msg)
    requires Own(x) && Own(y) && Coming(x, y, c) && Plausible(y, x, m)
    ensures Coming(Receive(x, m), y, c)
  {
    ReceiveIs(y, x, m);
    SettledOnReceipt(y, x, m);
    hide Receive, Own, Plausible;
  }

  /** A side that is done has settled already. */
  lemma SettledOnReceipt(x: Party, y: Party, m: Msg)
    requires Own(y)
    ensures Receive(y, m).stage == Done ==> y.stage == Done && y.neg.outcome.Settled?
  {
    hide UniqueCids, Decided;
  }

  lemma InitiatorActsLive(s: System, e: Action)
    requires Inv(s) && Live(s) && CanAct(s.i, e)
    ensures SwitchComing(Step(s, InitiatorActs(e)))
  {
    ActIs(s.i, e);
    ActSwitches(s.i, e);
    var (p, sent) := Act(s.i, e);
    Grown(s.ir, sent);
    hide UniqueCids, Decided, Reports, Coming;
    if p.ibbSid != s.i.ibbSid { assert sent[0].Replace?; }
  }

  lemma ResponderActsLive(s: System, e: Action)
    requires Inv(s) && Live(s) && CanAct(s.r, e)
    ensures SwitchComing(Step(s, ResponderActs(e)))
  {
    ActIs(s.r, e);
    ActSwitches(s.r, e);
    var (p, sent) := Act(s.r, e);
    Grown(s.ri, sent);
    hide UniqueCids, Decided, Reports, Coming;
    if e.Begin? { assert sent[0].SessionAccept?; }
    if p.armed != s.r.armed { assert sent[0].TransportAccept?; }
  }

  /** What a message does to the switch. */
  lemma SwitchHeard(y: Party, m: Msg)
    ensures var y' := Receive(y, m);
            && (y.stage == Dead ==> y' == y)
            && (y.stage != Dead ==>
                  && (if m.Replace? || m.TransportAccept? then !y'.neg.replaced.Waiting?
                      else y'.neg.replaced == y.neg.replaced || y'.neg.replaced.Failed?)
                  && (m.Replace? ==> y'.ibbSid.Some?) && (!m.Replace? ==> y'.ibbSid == y.ibbSid)
                  && (m.SessionAccept? && y.stage == Idle && y.neg.isInitiator ==> y'.stage == Accepted))
  {
  }

  lemma ToInitiatorLive(s: System)
    requires Inv(s) && Live(s) && s.ri != []
    ensures SwitchComing(Step(s, ToInitiator))
  {
    FromChannel(s.r, s.i, s.ri, s.ir, s.ri[0]);
    ReceiveIs(s.r, s.i, s.ri[0]);
    SettledOnReceipt(s.r, s.i, s.ri[0]);
    SwitchHeard(s.i, s.ri[0]);
    hide Receive, Reports, Coming, Plausible, Own;
    assert s.ri[0] in s.ri && s.ri == [s.ri[0]] + s.ri[1..];
  }

  lemma ToResponderLive(s: System)
    requires Inv(s) && Live(s) && s.ir != []
    ensures SwitchComing(Step(s, ToResponder))
  {
    FromChannel(s.i, s.r, s.ir, s.ri, s.ir[0]);
    ReceiveIs(s.i, s.r, s.ir[0]);
    SettledOnReceipt(s.i, s.r, s.ir[0]);
    SwitchHeard(s.r, s.ir[0]);
    hide Receive, Reports, Coming, Plausible, Own;
    assert s.ir[0] in s.ir && s.ir == [s.ir[0]] + s.ir[1..];
  }

  lemma StepKeepsLive(s: System, e: Event)
    requires Inv(s) && Live(s) && Enabled(s, e)
    ensures Live(Step(s, e))
  {
    hide Act, Receive, Own, Reports, SwitchSafe, SwitchComing, Coming, CanAct;
    match e
    case InitiatorActs(a) =>
      ActComes(s.i, s.r, s.ir, a);
      WaiterActs(s.r, s.i, s.ri, a);
      InitiatorActsLive(s, a);
    case ResponderActs(a) =>
      ActComes(s.r, s.i, s.ri, a);
      WaiterActs(s.i, s.r, s.ir, a);
      ResponderActsLive(s, a);
    case ToInitiator =>
      FromChannel(s.r, s.i, s.ri, s.ir, s.ri[0]);
      WaiterReceives(s.r, s.i, s.ri);
      OwerReceives(s.i, s.r, s.ir, s.ri[0]);
      ToInitiatorLive(s);
    case ToResponder =>
      FromChannel(s.i, s.r, s.ir, s.ri, s.ir[0]);
      WaiterReceives(s.i, s.r, s.ir);
      OwerReceives(s.r, s.i, s.ri, s.ir[0]);
      ToResponderLive(s);
  }

  lemma {:induction false} EveryRunIsLive(run: seq<System>, k: nat)
    requires IsRun(run) && k < |run|
    ensures Live(run[k])
  {
    if k > 0 {
      hide Step, Enabled, Inv, IsStart, Live;
      EveryRunIsLive(run, k - 1);
      EveryRunKeeps(run, k - 1);
      assert IsStep(run[k - 1], run[k]);
      var e: Event :| Enabled(run[k - 1], e) && run[k] == Step(run[k - 1], e);
      StepKeepsLive(run[k - 1], e);
    }
  }

  // ------------------------------------------------------------ no deadlock

  /** Nothing is left to happen but a side breaking off. */
  ghost predicate Stuck(s: System) {
    forall e: Event :: Enabled(s, e) ==> e == InitiatorActs(Break) || e == ResponderActs(Break)
  }

  lemma StuckMeans(s: System)
    requires Stuck(s)
    ensures s.ir == [] && s.ri == []
    ensures forall a: Action :: a != Break ==> !CanAct(s.i, a) && !CanAct(s.r, a)
  {
    assert !Enabled(s, ToInitiator) && !Enabled(s, ToResponder);
    forall a: Action | a != Break ensures !CanAct(s.i, a) && !CanAct(s.r, a) {
      assert !Enabled(s, InitiatorActs(a)) && !Enabled(s, ResponderActs(a));
    }
  }

  /** Both sides have reported, heard the other's report, and settled. */
  lemma StuckHasSettled(s: System)
    requires Inv(s) && Live(s) && Stuck(s) && s.i.stage != Dead && s.r.stage != Dead
    ensures s.i.neg.outcome.Settled? && s.r.neg.outcome.Settled?
    ensures s.i.stage != AwaitingOutcome && s.r.stage != AwaitingOutcome
    ensures Reported(s.i.stage) && Reported(s.r.stage)
  {
    StuckMeans(s);
    assert !CanAct(s.i, Begin) && !CanAct(s.r, Begin);
    assert !CanAct(s.i, Dial(None)) && !CanAct(s.r, Dial(None));
    assert !CanAct(s.i, Proceed("")) && !CanAct(s.r, Proceed(""));
    hide UniqueCids, Reports;
  }

  /**
   * No interleaving deadlocks: as long as neither side breaks off, when nothing more can happen both are done, agree,
   * and on a fallback the responder listens for the sid that was opened.
   */
  lemma RunsToItsEnd(run: seq<System>, k: nat)
    requires IsRun(run) && k < |run| && Stuck(run[k]) && run[k].i.stage != Dead && run[k].r.stage != Dead
    ensures var s := run[k];
            && s.i.stage == Done && s.r.stage == Done && s.ir == [] && s.ri == []
            && s.i.neg.outcome.Settled? && s.r.neg.outcome.Settled?
            && s.i.neg.outcome.value == Mirror(s.r.neg.outcome.value)
            && (s.i.neg.outcome.value == Fallback ==> s.r.armed.Some? && s.r.armed == s.i.ibbSid)
  {
    var s := run[k];
    EveryRunKeeps(run, k);
    EveryRunIsLive(run, k);
    StuckMeans(s);
    StuckHasSettled(s);
    BothSidesAgree(run, k);
    assert !CanAct(s.i, Switch) && !CanAct(s.r, Switch) && !CanAct(s.i, Activation) && !CanAct(s.r, Activation);
    hide UniqueCids, Reports, Stuck, IsRun, Decided;
  }

  // ------------------------------------------------------------ and it ends

  function StepsLeft(stage: Stage): nat {
    match stage
    case Idle => 6
    case Accepted => 5
    case Dialling => 4
    case AwaitingOutcome => 3
    case AwaitingActivation => 2
    case Switching => 2
    case Done => 1
    case Dead => 0
  }

  function Rank(s: System): nat { 2 * (StepsLeft(s.i.stage) + StepsLeft(s.r.stage)) + |s.ir| + |s.ri| }

  lemma ActAdvances(p: Party, e: Action)
    requires CanAct(p, e)
    ensures StepsLeft(Act(p, e).0.stage) < StepsLeft(p.stage) && |Act(p, e).1| <= 1
  {
  }

  lemma ReceiveAdvances(p: Party, m: Msg)
    ensures StepsLeft(Receive(p, m).stage) <= StepsLeft(p.stage)
  {
  }

  /** Every session is over within 24 steps, whatever the interleaving. */
  lemma {:induction false} EveryRunIsShort(run: seq<System>, k: nat)
    requires IsRun(run) && k < |run|
    ensures k + Rank(run[k]) <= 24
  {
    if k > 0 {
      EveryRunIsShort(run, k - 1);
      assert IsStep(run[k - 1], run[k]);
      var s := run[k - 1];
      var e: Event :| Enabled(s, e) && run[k] == Step(s, e);
      hide Act, Receive, CanAct, IsStart, StepsLeft;
      match e
      case InitiatorActs(a) => ActAdvances(s.i, a);
      case ResponderActs(a) => ActAdvances(s.r, a);
      case ToInitiator => ReceiveAdvances(s.i, s.ri[0]);
      case ToResponder => ReceiveAdvances(s.r, s.ir[0]);
    }
  }
}
