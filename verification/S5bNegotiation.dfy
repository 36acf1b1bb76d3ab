/**
 * One side of a SOCKS5 bytestream negotiation (XEP-0260): the candidates of src/socks5/jingle-s5b.ts and
 * src/jingle/jingle.ts, and the state of src/jingle/s5b-negotiation.ts.
 */
module S5bNegotiation {
  import opened Bytes

  datatype CandidateType = Direct | Assisted | Tunnel | Proxy

  datatype Candidate = Candidate(cid: string, jid: string, host: string, port: nat, priority: nat, kind: CandidateType)

  datatype Streamhost = Streamhost(jid: string, host: string, port: nat)

  // ------------------------------------------------------------ candidates

  function TypePreference(kind: CandidateType): nat {
    match kind
    case Direct => 126
    case Assisted => 120
    case Tunnel => 110
    case Proxy => 10
  }

  /** None is the RangeError for a negative local preference. */
  function CandidatePriority(kind: CandidateType, localPreference: int): Option<nat> {
    if localPreference < 0 then None else Some(0x10000 * TypePreference(kind) + localPreference)
  }

  /** 65536 times the preference of the type (section 2.1 of XEP-0260), plus the local preference, which is not negative. */
  lemma PrioritiesAre(localPreference: int)
    ensures forall kind :: CandidatePriority(kind, localPreference) == None <==> localPreference < 0
    ensures localPreference >= 0 ==>
              && CandidatePriority(Direct, localPreference) == Some(8_257_536 + localPreference)
              && CandidatePriority(Assisted, localPreference) == Some(7_864_320 + localPreference)
              && CandidatePriority(Tunnel, localPreference) == Some(7_208_960 + localPreference)
              && CandidatePriority(Proxy, localPreference) == Some(655_360 + localPreference)
  {
  }

  function Decimal(n: nat): (s: string)
    ensures |s| > 0 && (|s| == 1 <==> n < 10)
  {
    var digit := ['0' + (n % 10) as char];
    if n < 10 then digit else Decimal(n / 10) + digit
  }

  lemma {:induction false} DecimalInjective(m: nat, n: nat)
    requires Decimal(m) == Decimal(n)
    ensures m == n
  {
    var a, b := Decimal(m), Decimal(n);
    assert a[|a| - 1] == '0' + (m % 10) as char && b[|b| - 1] == '0' + (n % 10) as char;
    if m >= 10 && n >= 10 {
      assert a[..|a| - 1] == Decimal(m / 10) && b[..|b| - 1] == Decimal(n / 10);
      DecimalInjective(m / 10, n / 10);
    }
  }

  function ToCandidate(hosts: seq<Streamhost>, ourJid: string, index: nat): Candidate
    requires index < |hosts|
  {
    var kind := if hosts[index].jid == ourJid then Direct else Proxy;
    Candidate("c" + Decimal(index + 1), hosts[index].jid, hosts[index].host, hosts[index].port,
              CandidatePriority(kind, |hosts| - index - 1).value, kind)
  }

  function ToCandidates(hosts: seq<Streamhost>, ourJid: string): seq<Candidate> {
    seq(|hosts|, i requires 0 <= i < |hosts| => ToCandidate(hosts, ourJid, i))
  }

  predicate UniqueCids(candidates: seq<Candidate>) {
    forall i, j :: 0 <= i < j < |candidates| ==> candidates[i].cid != candidates[j].cid
  }

  /**
   * Our offers: no cid twice; within a type the adapter's order is kept, strictly; and a candidate we host outranks
   * every proxy, as long as the list is shorter than the gap between the two preferences.
   */
  lemma OffersAreOrdered(hosts: seq<Streamhost>, ourJid: string)
    ensures var offers := ToCandidates(hosts, ourJid);
            && UniqueCids(offers)
            && (forall i, j :: 0 <= i < j < |offers| && offers[i].kind == offers[j].kind ==> offers[i].priority > offers[j].priority)
            && (|hosts| <= 116 * 0x10000 ==>
                  forall i, j :: 0 <= i < |offers| && 0 <= j < |offers| && offers[i].kind == Direct && offers[j].kind == Proxy ==>
                    offers[i].priority > offers[j].priority)
  {
    var offers := ToCandidates(hosts, ourJid);
    forall i, j | 0 <= i < j < |offers| ensures offers[i].cid != offers[j].cid {
      if offers[i].cid == offers[j].cid {
        assert offers[i].cid[1..] == Decimal(i + 1) && offers[j].cid[1..] == Decimal(j + 1);
        DecimalInjective(i + 1, j + 1);
      }
    }
  }

  /**
   * What each host is offered as: a host of our own directly, any other as a proxy, with the preferences of section 2.1 of
   * XEP-0260 and, within a kind, one less for each place further down.
   */
  lemma OffersAre(hosts: seq<Streamhost>, ourJid: string, i: nat)
    requires i < |hosts|
    ensures var c, h := ToCandidates(hosts, ourJid)[i], hosts[i];
            && |ToCandidates(hosts, ourJid)| == |hosts|
            && c.jid == h.jid && c.host == h.host && c.port == h.port && c.cid == "c" + Decimal(i + 1)
            && (c.kind == Direct <==> h.jid == ourJid) && (c.kind == Proxy <==> h.jid != ourJid)
            && c.priority + i + 1 == |hosts| + 65536 * (if h.jid == ourJid then 126 else 10)
    ensures Decimal(0) == "0" && Decimal(7) == "7" && Decimal(10) == "10"
  {
    assert Decimal(1) == "1" && Decimal(10) == Decimal(1) + "0";
  }

  /** The duplicate check of a parsed transport: a growing set of the cids seen. */
  method CheckCids(candidates: seq<Candidate>) returns (ok: bool)
    ensures ok <==> UniqueCids(candidates)
  {
    var seen: set<string> := {};
    for i := 0 to |candidates|
      invariant forall j :: 0 <= j < i ==> candidates[j].cid in seen
      invariant forall cid :: cid in seen ==> exists j :: 0 <= j < i && candidates[j].cid == cid
      invariant UniqueCids(candidates[..i])
    {
      if candidates[i].cid in seen {
        return false;
      }
      seen := seen + {candidates[i].cid};
    }
    assert candidates[..|candidates|] == candidates;
    return true;
  }

  /** Strings in dictionary order. */
  predicate StringLess(a: string, b: string) {
    b != "" && (a == "" || a[0] < b[0] || (a[0] == b[0] && StringLess(a[1..], b[1..])))
  }

  lemma {:induction false} StringLessAsymmetric(a: string, b: string)
    requires StringLess(a, b)
    ensures !StringLess(b, a)
  {
    if a != "" && a[0] == b[0] { StringLessAsymmetric(a[1..], b[1..]); }
  }

  /** The order candidates are tried in: the highest priority first, then by cid. */
  predicate TriedBefore(a: Candidate, b: Candidate) {
    a.priority > b.priority || (a.priority == b.priority && StringLess(a.cid, b.cid))
  }

  predicate InTryOrder(list: seq<Candidate>) {
    forall i, j :: 0 <= i < j < |list| ==> TriedBefore(list[i], list[j])
  }

  lemma {:induction false} StringsCompare(a: string, b: string)
    ensures a != b ==> StringLess(a, b) || StringLess(b, a)
    ensures !StringLess(a, a)
  {
    if a != "" && b != "" && a[0] == b[0] {
      StringsCompare(a[1..], b[1..]);
      assert a == [a[0]] + a[1..] && b == [b[0]] + b[1..];
    }
    if a != "" { StringsCompare(a[1..], a[1..]); }
  }

  lemma {:induction false} StringLessTransitive(a: string, b: string, c: string)
    requires StringLess(a, b) && StringLess(b, c)
    ensures StringLess(a, c)
  {
    if a != "" && a[0] == b[0] == c[0] { StringLessTransitive(a[1..], b[1..], c[1..]); }
  }

  /** Of two candidates with different cids one is tried before the other: the one of higher priority, or else by cid. */
  lemma OneIsTriedBefore(a: Candidate, b: Candidate)
    requires a.cid != b.cid
    ensures TriedBefore(a, b) <==> !TriedBefore(b, a)
    ensures a.priority > b.priority ==> TriedBefore(a, b)
    ensures a.priority == b.priority ==> (TriedBefore(a, b) <==> StringLess(a.cid, b.cid))
  {
    StringsCompare(a.cid, b.cid);
    if StringLess(a.cid, b.cid) { StringLessAsymmetric(a.cid, b.cid); }
  }

  lemma TriedTransitive(a: Candidate, b: Candidate, c: Candidate)
    requires TriedBefore(a, b) && TriedBefore(b, c)
    ensures TriedBefore(a, c)
  {
    if StringLess(a.cid, b.cid) && StringLess(b.cid, c.cid) { StringLessTransitive(a.cid, b.cid, c.cid); }
  }

  /** Candidates without a repeated cid can be put in that order. */
  lemma {:induction false} TryOrderExists(list: seq<Candidate>) returns (sorted: seq<Candidate>)
    requires UniqueCids(list)
    ensures multiset(sorted) == multiset(list) && InTryOrder(sorted)
  {
    if list == [] {
      sorted := [];
    } else {
      var front, c := list[..|list| - 1], list[|list| - 1];
      assert list == front + [c];
      var rest := TryOrderExists(front);
      forall x | x in rest ensures x.cid != c.cid {
        assert x in multiset(rest);
        assert x in front;
      }
      sorted := Insert(rest, c);
    }
  }

  lemma {:induction false} Insert(sorted: seq<Candidate>, c: Candidate) returns (all: seq<Candidate>)
    requires InTryOrder(sorted) && forall x :: x in sorted ==> x.cid != c.cid
    ensures multiset(all) == multiset(sorted) + multiset{c} && InTryOrder(all)
  {
    if sorted == [] {
      all := [c];
    } else {
      var last := sorted[|sorted| - 1];
      var front := sorted[..|sorted| - 1];
      assert sorted == front + [last];
      OneIsTriedBefore(c, last);
      if TriedBefore(last, c) {
        all := sorted + [c];
        forall i | 0 <= i < |sorted| ensures TriedBefore(sorted[i], c) {
          if i < |sorted| - 1 { TriedTransitive(sorted[i], last, c); }
        }
      } else {
        var some := Insert(front, c);
        all := some + [last];
        forall i | 0 <= i < |some| ensures TriedBefore(some[i], last) {
          assert some[i] in multiset(some);
          if some[i] != c {
            assert some[i] in front;
            var j :| 0 <= j < |front| && front[j] == some[i];
            assert TriedBefore(sorted[j], sorted[|sorted| - 1]);
          }
        }
      }
    }
    hide TriedBefore;
  }

  /** The one tried first is the same in both. */
  lemma OneFirst(a: seq<Candidate>, b: seq<Candidate>)
    requires a != [] && b != [] && a[0] in b && b[0] in a && InTryOrder(a) && InTryOrder(b)
    ensures a[0] == b[0]
  {
    if a[0].priority == b[0].priority && StringLess(a[0].cid, b[0].cid) { StringLessAsymmetric(a[0].cid, b[0].cid); }
  }

  lemma WithoutFirst(a: seq<Candidate>)
    requires a != []
    ensures a[0] in multiset(a) && multiset(a[1..]) == multiset(a) - multiset{a[0]}
    ensures InTryOrder(a) ==> InTryOrder(a[1..])
  {
    assert a == [a[0]] + a[1..];
  }

  /** Whatever order candidates were offered in, sorting them has one result: both sides try them alike. */
  lemma {:induction false} OneTryOrder(a: seq<Candidate>, b: seq<Candidate>)
    requires multiset(a) == multiset(b) && InTryOrder(a) && InTryOrder(b)
    ensures a == b
  {
    assert |multiset(a)| == |multiset(b)|;
    if a != [] {
      WithoutFirst(a);
      WithoutFirst(b);
      assert a[0] in b && b[0] in a;
      OneFirst(a, b);
      hide InTryOrder;
      OneTryOrder(a[1..], b[1..]);
      assert a == [a[0]] + a[1..] && b == [b[0]] + b[1..];
    }
  }

  // ------------------------------------------------------------ the decision

  datatype Report = Used(candidate: Candidate) | NoneUsable

  datatype Owner = Ours | Theirs

  datatype Outcome = Use(candidate: Candidate, offeredBy: Owner) | Fallback

  function Resolve(local: Report, remote: Report, isInitiator: bool): Outcome {
    if local.Used? && remote.Used? then
      if local.candidate.priority > remote.candidate.priority then Use(local.candidate, Theirs)
      else if remote.candidate.priority > local.candidate.priority then Use(remote.candidate, Ours)
      else if isInitiator then Use(remote.candidate, Ours)
      else Use(local.candidate, Theirs)
    else if local.Used? then Use(local.candidate, Theirs)
    else if remote.Used? then Use(remote.candidate, Ours)
    else Fallback
  }

  /** The same outcome, seen from the other side. */
  function Mirror(o: Outcome): Outcome {
    match o
    case Fallback => Fallback
    case Use(c, owner) => Use(c, if owner == Ours then Theirs else Ours)
  }

  /**
   * Both sides decide alike; the winner is the higher priority of the candidates reported, the initiator's own on a
   * tie; and they fall back exactly when nobody could use anything.
   */
  lemma ResolveAgrees(initiator: Report, responder: Report)
    ensures var o := Resolve(initiator, responder, true);
            && o == Mirror(Resolve(responder, initiator, false))
            && (o == Fallback <==> initiator == NoneUsable && responder == NoneUsable)
            && (o.Use? ==> (o.offeredBy == Ours <==>
                  responder.Used? && (initiator.Used? ==> responder.candidate.priority >= initiator.candidate.priority)))
            && (o.Use? ==> Used(o.candidate) == if o.offeredBy == Ours then responder else initiator)
  {
  }

  // ------------------------------------------------------------ the state of one side

  /** A promise that settles once. */
  datatype Deferred<T> = Waiting | Settled(value: T) | Failed

  function Settle<T>(d: Deferred<T>, value: T): Deferred<T> { if d.Waiting? then Settled(value) else d }

  function Reject<T>(d: Deferred<T>): Deferred<T> { if d.Waiting? then Failed else d }

  datatype Negotiation = Negotiation(
    isInitiator: bool,
    local: seq<Candidate>, remote: seq<Candidate>,
    ready: Deferred<bool>,
    localReport: Option<Report>, remoteReport: Option<Report>,
    outcome: Deferred<Outcome>, activated: Deferred<string>, replaced: Deferred<bool>)

  function New(isInitiator: bool): Negotiation {
    Negotiation(isInitiator, [], [], Waiting, None, None, Waiting, Waiting, Waiting)
  }

  function Find(candidates: seq<Candidate>, cid: string): Option<Candidate> {
    if candidates == [] then None
    else if candidates[0].cid == cid then Some(candidates[0])
    else Find(candidates[1..], cid)
  }

  function Add(known: seq<Candidate>, c: Candidate): seq<Candidate> {
    if Find(known, c.cid).Some? then known else known + [c]
  }

  function Accumulate(known: seq<Candidate>, more: seq<Candidate>): seq<Candidate>
    decreases |more|
  {
    if more == [] then known
    else Accumulate(Add(known, more[0]), more[1..])
  }

  function SettleIfReady(n: Negotiation): Negotiation {
    if n.localReport.None? || n.remoteReport.None? then n
    else n.(outcome := Settle(n.outcome, Resolve(n.localReport.value, n.remoteReport.value, n.isInitiator)))
  }

  function OfferLocal(n: Negotiation, candidates: seq<Candidate>): Negotiation { n.(local := candidates) }

  function NoRemoteCandidates(n: Negotiation): Negotiation { n.(ready := Settle(n.ready, true)) }

  function ReceiveCandidates(n: Negotiation, candidates: seq<Candidate>): Negotiation {
    NoRemoteCandidates(n.(remote := Accumulate(n.remote, candidates)))
  }

  function SetLocalReport(n: Negotiation, report: Report): Negotiation {
    SettleIfReady(n.(localReport := if n.localReport.None? then Some(report) else n.localReport))
  }

  function SetRemoteReport(n: Negotiation, report: Report): Negotiation {
    SettleIfReady(NoRemoteCandidates(n.(remoteReport := if n.remoteReport.None? then Some(report) else n.remoteReport)))
  }

  function Fail(n: Negotiation): Negotiation {
    n.(ready := Reject(n.ready), outcome := Reject(n.outcome), activated := Reject(n.activated), replaced := Reject(n.replaced))
  }

  function SetRemoteUsed(n: Negotiation, cid: string): Negotiation {
    var found := Find(n.local, cid);
    if found.None? then Fail(n) else SetRemoteReport(n, Used(found.value))
  }

  function SetRemoteError(n: Negotiation): Negotiation { SetRemoteReport(n, NoneUsable) }

  function MarkActivated(n: Negotiation, cid: string): Negotiation { n.(activated := Settle(n.activated, cid)) }

  function MarkSwitch(n: Negotiation): Negotiation { n.(replaced := Settle(n.replaced, true)) }

  // ------------------------------------------------------------ what one side keeps

  lemma {:induction false} FindIs(candidates: seq<Candidate>, cid: string)
    ensures var f := Find(candidates, cid);
            && (f.Some? ==> f.value in candidates && f.value.cid == cid)
            && (f.None? ==> forall c :: c in candidates ==> c.cid != cid)
  {
    if candidates != [] { FindIs(candidates[1..], cid); }
  }

  /** In a list without duplicates a cid names its candidate. */
  lemma FindNames(candidates: seq<Candidate>, c: Candidate)
    requires UniqueCids(candidates) && c in candidates
    ensures Find(candidates, c.cid) == Some(c)
  {
    FindIs(candidates, c.cid);
  }

  lemma {:induction false} AccumulateIs(known: seq<Candidate>, more: seq<Candidate>)
    ensures var all := Accumulate(known, more);
            && known <= all
            && (forall c :: c in all ==> c in known || c in more)
            && (UniqueCids(known) ==> UniqueCids(all))
            && (more != [] ==> all != [])
    decreases |more|
  {
    if more != [] {
      FindIs(known, more[0].cid);
      AccumulateIs(Add(known, more[0]), more[1..]);
    }
  }

  /** A failure leaves nobody waiting; what had settled stays settled, and reports and candidates are as they were. */
  lemma FailureOutcome(n: Negotiation)
    ensures var f := Fail(n);
            && !f.ready.Waiting? && !f.outcome.Waiting? && !f.activated.Waiting? && !f.replaced.Waiting?
            && (n.ready.Waiting? ==> f.ready.Failed?) && (n.outcome.Waiting? ==> f.outcome.Failed?)
            && (n.activated.Waiting? ==> f.activated.Failed?) && (n.replaced.Waiting? ==> f.replaced.Failed?)
            && f.local == n.local && f.remote == n.remote && f.localReport == n.localReport && f.remoteReport == n.remoteReport
  {
  }

  /** The peer's report of a cid: of one we offered, it is recorded unless a report was before; of any other, all fails. */
  lemma UsedOutcome(n: Negotiation, cid: string)
    ensures var u := SetRemoteUsed(n, cid);
            && ((forall c :: c in n.local ==> c.cid != cid) ==> u == Fail(n))
            && (UniqueCids(n.local) ==> forall c :: c in n.local && c.cid == cid ==>
                  u.remoteReport == (if n.remoteReport.None? then Some(Used(c)) else n.remoteReport) && !u.ready.Waiting?)
  {
    FindIs(n.local, cid);
    forall c | UniqueCids(n.local) && c in n.local && c.cid == cid ensures Find(n.local, cid) == Some(c) { FindNames(n.local, c); }
    hide Resolve, Find;
  }

  /** Candidates, or word that there are none, end the wait for them; an activation and a switch are noted once. */
  lemma WaitsEnd(n: Negotiation, candidates: seq<Candidate>, cid: string)
    ensures !ReceiveCandidates(n, candidates).ready.Waiting? && !NoRemoteCandidates(n).ready.Waiting?
    ensures n.activated.Waiting? ==> MarkActivated(n, cid).activated == Settled(cid)
    ensures n.replaced.Waiting? ==> MarkSwitch(n).replaced.Settled?
    ensures !n.ready.Failed? ==> ReceiveCandidates(n, candidates).ready.Settled?
    ensures OfferLocal(n, candidates).local == candidates
  {
  }

  /** No candidate before the `i`-th has its cid. */
  predicate FirstOfCid(list: seq<Candidate>, i: int) {
    0 <= i < |list| && forall j :: 0 <= j < i ==> list[j].cid != list[i].cid
  }

  /** `kept` is `list` without every candidate whose cid came before: `at` says where each of `kept` stands in it. */
  ghost predicate KeepsFirsts(list: seq<Candidate>, kept: seq<Candidate>, at: seq<int>) {
    && |at| == |kept|
    && (forall k :: 0 <= k < |at| ==> FirstOfCid(list, at[k]) && kept[k] == list[at[k]])
    && (forall k, l :: 0 <= k < l < |at| ==> at[k] < at[l])
    && (forall i :: FirstOfCid(list, i) ==> i in at)
  }

  /**
   * What is known after a batch: what was known and the batch, in the order received, each cid once and as it came
   * first. So every cid offered is known, under the first candidate received with it.
   */
  lemma {:induction false} AccumulateKeepsFirsts(known: seq<Candidate>, more: seq<Candidate>)
    requires UniqueCids(known)
    ensures exists at :: KeepsFirsts(known + more, Accumulate(known, more), at)
    ensures forall c :: c in more ==> exists k :: k in Accumulate(known, more) && k.cid == c.cid
    decreases |more|
  {
    hide KeepsFirsts, Accumulate;
    AllAreFirst(known);
    var at := FirstsOf(known, known, more);
    forall c | c in more ensures exists k :: k in Accumulate(known, more) && k.cid == c.cid {
      var i :| 0 <= i < |more| && more[i] == c;
      FirstIsKept(known + more, Accumulate(known, more), at, |known| + i);
    }
  }

  lemma FirstIsKept(list: seq<Candidate>, kept: seq<Candidate>, at: seq<int>, i: nat)
    requires KeepsFirsts(list, kept, at) && i < |list|
    ensures exists k :: k in kept && k.cid == list[i].cid
  {
    var first := FirstWith(list, i);
    var k :| 0 <= k < |at| && at[k] == first;
    assert kept[k] in kept;
  }

  /** The first candidate with the cid of the `i`-th. */
  lemma {:induction false} FirstWith(list: seq<Candidate>, i: nat) returns (f: int)
    requires i < |list|
    ensures FirstOfCid(list, f) && list[f].cid == list[i].cid
  {
    if j :| 0 <= j < i && list[j].cid == list[i].cid { f := FirstWith(list, j); } else { f := i; }
  }

  lemma AllAreFirst(list: seq<Candidate>)
    requires UniqueCids(list)
    ensures exists p :: KeepsFirsts(list, list, p)
  {
    var p: seq<int> := seq(|list|, i => i);
    forall i | FirstOfCid(list, i) ensures i in p { assert p[i] == i; }
    assert KeepsFirsts(list, list, p);
  }

  /** The same with part of the batch taken in: `known` is the `list` received so far without its repetitions. */
  lemma {:induction false} FirstsOf(list: seq<Candidate>, known: seq<Candidate>, more: seq<Candidate>) returns (at: seq<int>)
    requires exists p :: KeepsFirsts(list, known, p)
    ensures KeepsFirsts(list + more, Accumulate(known, more), at)
    decreases |more|
  {
    var p :| KeepsFirsts(list, known, p);
    hide KeepsFirsts, Add;
    if more == [] {
      at := p;
      assert list + more == list;
    } else {
      OneMoreFirst(list, known, p, more[0]);
      Regroup(list, more);
      at := FirstsOf(list + [more[0]], Add(known, more[0]), more[1..]);
    }
  }

  lemma Regroup(list: seq<Candidate>, more: seq<Candidate>)
    requires more != []
    ensures list + [more[0]] + more[1..] == list + more
  {
  }

  lemma OneMoreFirst(list: seq<Candidate>, known: seq<Candidate>, p: seq<int>, c: Candidate)
    requires KeepsFirsts(list, known, p)
    ensures exists q :: KeepsFirsts(list + [c], Add(known, c), q)
  {
    FindIs(known, c.cid);
    if Find(known, c.cid).Some? {
      var k :| 0 <= k < |known| && known[k].cid == c.cid;
      OldCid(list, known, p, c, k);
      assert Add(known, c) == known;
      hide KeepsFirsts;
    } else {
      NewCid(list, known, p, c);
      assert Add(known, c) == known + [c];
      hide KeepsFirsts;
      assert KeepsFirsts(list + [c], Add(known, c), p + [|list|]);
    }
  }

  lemma OldCid(list: seq<Candidate>, known: seq<Candidate>, p: seq<int>, c: Candidate, k: nat)
    requires KeepsFirsts(list, known, p) && k < |known| && known[k].cid == c.cid
    ensures KeepsFirsts(list + [c], known, p)
  {
    var longer := list + [c];
    assert longer[p[k]].cid == c.cid && longer[|list|] == c;
    forall i | FirstOfCid(longer, i) ensures i in p { SameFirst(list, c, i); }
    forall j | 0 <= j < |p| ensures FirstOfCid(longer, p[j]) && known[j] == longer[p[j]] { SameFirst(list, c, p[j]); }
    hide FirstOfCid;
  }

  lemma NewCid(list: seq<Candidate>, known: seq<Candidate>, p: seq<int>, c: Candidate)
    requires KeepsFirsts(list, known, p) && forall k :: k in known ==> k.cid != c.cid
    ensures KeepsFirsts(list + [c], known + [c], p + [|list|])
  {
    var longer, q := list + [c], p + [|list|];
    forall j | 0 <= j < |list| ensures list[j].cid != c.cid {
      var f := FirstWith(list, j);
      var k :| 0 <= k < |p| && p[k] == f;
      assert known[k] in known;
    }
    assert FirstOfCid(longer, |list|);
    assert q[|p|] == |list|;
    forall i | FirstOfCid(longer, i) ensures i in q {
      if i != |list| {
        SameFirst(list, c, i);
        var k :| 0 <= k < |p| && p[k] == i;
        assert q[k] == i;
      }
    }
    forall j | 0 <= j < |p| ensures FirstOfCid(longer, p[j]) && known[j] == longer[p[j]] { SameFirst(list, c, p[j]); }
    hide FirstOfCid;
  }

  lemma SameFirst(list: seq<Candidate>, c: Candidate, i: int)
    requires i != |list|
    ensures FirstOfCid(list + [c], i) <==> FirstOfCid(list, i)
  {
    if 0 <= i < |list| { assert forall j :: 0 <= j <= i ==> (list + [c])[j] == list[j]; }
  }

  datatype Call =
    | CallOffer(candidates: seq<Candidate>)
    | CallReceive(candidates: seq<Candidate>)
    | CallNoCandidates
    | CallLocalReport(report: Report)
    | CallRemoteUsed(cid: string)
    | CallRemoteError
    | CallActivated(cid: string)
    | CallSwitch
    | CallFail

  function Apply(n: Negotiation, call: Call): Negotiation {
    match call
    case CallOffer(cs) => OfferLocal(n, cs)
    case CallReceive(cs) => ReceiveCandidates(n, cs)
    case CallNoCandidates => NoRemoteCandidates(n)
    case CallLocalReport(r) => SetLocalReport(n, r)
    case CallRemoteUsed(cid) => SetRemoteUsed(n, cid)
    case CallRemoteError => SetRemoteError(n)
    case CallActivated(cid) => MarkActivated(n, cid)
    case CallSwitch => MarkSwitch(n)
    case CallFail => Fail(n)
  }

  function ApplyAll(n: Negotiation, calls: seq<Call>): Negotiation {
    if calls == [] then n else Apply(ApplyAll(n, calls[..|calls| - 1]), calls[|calls| - 1])
  }

  /** What was settled stays as it is, and so do the reports. */
  ghost predicate Later(n: Negotiation, n': Negotiation) {
    && n'.isInitiator == n.isInitiator
    && (!n.ready.Waiting? ==> n'.ready == n.ready) && (!n.outcome.Waiting? ==> n'.outcome == n.outcome)
    && (!n.activated.Waiting? ==> n'.activated == n.activated) && (!n.replaced.Waiting? ==> n'.replaced == n.replaced)
    && (n.localReport.Some? ==> n'.localReport == n.localReport)
    && (n.remoteReport.Some? ==> n'.remoteReport == n.remoteReport)
    && n.remote <= n'.remote
  }

  /** An outcome is the resolution of the two reports, and a side with both reports has settled. */
  ghost predicate Decided(n: Negotiation) {
    && (n.outcome.Settled? ==>
          && n.localReport.Some? && n.remoteReport.Some?
          && n.outcome.value == Resolve(n.localReport.value, n.remoteReport.value, n.isInitiator))
    && (n.localReport.Some? && n.remoteReport.Some? ==> !n.outcome.Waiting?)
    && (n.remoteReport.Some? ==> !n.ready.Waiting?)
    && UniqueCids(n.remote)
  }

  lemma ApplyIsLater(n: Negotiation, call: Call)
    requires Decided(n)
    ensures Later(n, Apply(n, call)) && Decided(Apply(n, call))
  {
    hide Resolve, UniqueCids, Accumulate, Find;
    match call
    case CallReceive(cs) => AccumulateIs(n.remote, cs);
    case CallLocalReport(_) =>
    case CallRemoteUsed(_) =>
    case CallRemoteError =>
    case _ =>
  }

  /**
   * Whatever calls arrive, in whatever order: each promise settles at most once, the first report of each side stands,
   * and the outcome, once there, is the resolution of exactly those two.
   */
  lemma {:induction false} SettlesOnce(isInitiator: bool, calls: seq<Call>, k: nat)
    requires k <= |calls|
    ensures var n, n' := ApplyAll(New(isInitiator), calls[..k]), ApplyAll(New(isInitiator), calls);
            Decided(n') && Later(n, n')
    decreases |calls|
  {
    if k == |calls| {
      assert calls[..k] == calls;
      if calls != [] {
        SettlesOnce(isInitiator, calls[..|calls| - 1], 0);
        ApplyIsLater(ApplyAll(New(isInitiator), calls[..|calls| - 1]), calls[|calls| - 1]);
      }
    } else {
      assert calls[..|calls| - 1][..k] == calls[..k];
      SettlesOnce(isInitiator, calls[..|calls| - 1], k);
      ApplyIsLater(ApplyAll(New(isInitiator), calls[..|calls| - 1]), calls[|calls| - 1]);
    }
  }

  // ------------------------------------------------------------ as the source writes it

  class Session {
    const isInitiator: bool
    var local: seq<Candidate>
    var remote: seq<Candidate>
    var ready: Deferred<bool>
    var localReport: Option<Report>
    var remoteReport: Option<Report>
    var outcome: Deferred<Outcome>
    var activated: Deferred<string>
    var replaced: Deferred<bool>

    function View(): Negotiation
      reads this
    {
      Negotiation(isInitiator, local, remote, ready, localReport, remoteReport, outcome, activated, replaced)
    }

    constructor (isInitiator: bool)
      ensures View() == New(isInitiator)
    {
      this.isInitiator := isInitiator;
      local, remote, ready := [], [], Waiting;
      localReport, remoteReport := None, None;
      outcome, activated, replaced := Waiting, Waiting, Waiting;
    }

    method Receive(candidates: seq<Candidate>)
      modifies this
      ensures View() == ReceiveCandidates(old(View()), candidates)
    {
      ghost var known := remote;
      for i := 0 to |candidates|
        invariant Accumulate(remote, candidates[i..]) == Accumulate(known, candidates)
        invariant View() == old(View()).(remote := remote)
      {
        assert candidates[i..][1..] == candidates[i + 1..];
        if Find(remote, candidates[i].cid).None? { remote := remote + [candidates[i]]; }
      }
      if ready.Waiting? { ready := Settled(true); }
    }

    method SettleOutcome()
      modifies this
      ensures View() == SettleIfReady(old(View()))
    {
      if localReport.None? || remoteReport.None? { return; }
      if outcome.Waiting? { outcome := Settled(Resolve(localReport.value, remoteReport.value, isInitiator)); }
    }

    method ReportLocal(report: Report)
      modifies this
      ensures View() == SetLocalReport(old(View()), report)
    {
      if localReport.None? { localReport := Some(report); }
      SettleOutcome();
    }

    method FailAll()
      modifies this
      ensures View() == Fail(old(View()))
    {
      ready, outcome, activated, replaced := Reject(ready), Reject(outcome), Reject(activated), Reject(replaced);
    }

    method RemoteUsed(cid: string)
      modifies this
      ensures View() == SetRemoteUsed(old(View()), cid)
    {
      var found := Find(local, cid);
      if found.None? {
        FailAll();
        return;
      }
      if remoteReport.None? { remoteReport := Some(Used(found.value)); }
      ready := Settle(ready, true);
      SettleOutcome();
    }

    method RemoteError()
      modifies this
      ensures View() == SetRemoteError(old(View()))
    {
      if remoteReport.None? { remoteReport := Some(NoneUsable); }
      ready := Settle(ready, true);
      SettleOutcome();
    }
  }
}
