/**
 * The SOCKS5 handshake of src/node/socks5.ts and src/socks5/protocol.ts (sections 3, 4 and 6 of RFC 1928), over two
 * TCP byte streams cut into segments at will. A domain is its bytes.
 */
module Socks5 {
  import opened Bytes

  const VERSION: Byte := 5
  const NO_AUTH: Byte := 0
  const CONNECT: Byte := 1
  const DOMAIN: Byte := 3

  datatype Problem = TooShort | BadVersion | BadCommand | BadAddressType | Truncated | TooLong

  datatype Result<T> = Ok(value: T) | Error(problem: Problem)

  // ------------------------------------------------------------ the wire

  function Greeting(): seq<Byte> { [VERSION, 1, NO_AUTH] }

  function MethodSelection(): seq<Byte> { [VERSION, NO_AUTH] }

  function ConnectRequest(domain: seq<Byte>): seq<Byte>
    requires |domain| <= 255
  {
    [VERSION, CONNECT, 0, DOMAIN, |domain|] + domain + [0, 0]
  }

  /** The address is echoed; the length byte wraps where the array element does. */
  function ConnectReply(domain: seq<Byte>, success: bool): seq<Byte> {
    [VERSION, if success then 0 else 1, 0, DOMAIN, |domain| % 256] + domain + [0, 0]
  }

  method BuildConnectRequest(domain: seq<Byte>) returns (r: Result<seq<Byte>>)
    ensures r == if |domain| > 255 then Error(TooLong) else Ok(ConnectRequest(domain))
  {
    if |domain| > 255 { return Error(TooLong); }
    var out := new Byte[4 + 1 + |domain| + 2](_ => 0);
    out[0], out[1], out[2], out[3], out[4] := VERSION, CONNECT, 0, DOMAIN, |domain|;
    forall k | 0 <= k < |domain| { out[5 + k] := domain[k]; }
    out[5 + |domain|] := 0;
    out[6 + |domain|] := 0;
    assert out[..] == ConnectRequest(domain);
    return Ok(out[..]);
  }

  datatype Connect = Connect(domain: seq<Byte>, port: nat)

  function ParseConnectRequest(bytes: seq<Byte>): Result<Connect> {
    if |bytes| < 5 then Error(TooShort)
    else if bytes[0] != VERSION then Error(BadVersion)
    else if bytes[1] != CONNECT then Error(BadCommand)
    else if bytes[3] != DOMAIN then Error(BadAddressType)
    else
      var len := bytes[4] as nat;
      if |bytes| < 5 + len + 2 then Error(Truncated)
      else
        var hi: int, lo: int := bytes[5 + len], bytes[6 + len];
        Ok(Connect(bytes[5..5 + len], hi * 256 + lo))
  }

  function ParseConnectReply(bytes: seq<Byte>): Result<bool> {
    if |bytes| < 2 then Error(TooShort)
    else if bytes[0] != VERSION then Error(BadVersion)
    else Ok(bytes[1] == 0)
  }

  lemma RequestRoundTrip(domain: seq<Byte>)
    requires |domain| <= 255
    ensures ParseConnectRequest(ConnectRequest(domain)) == Ok(Connect(domain, 0))
  {
    var r := ConnectRequest(domain);
    assert r[5..5 + |domain|] == domain;
  }

  /** The four messages, byte for byte (sections 3, 4 and 6 of RFC 1928). */
  lemma WireBytes(domain: seq<Byte>, success: bool)
    ensures Greeting() == [5, 1, 0] && MethodSelection() == [5, 0]
    ensures |domain| <= 255 ==>
              var r := ConnectRequest(domain);
              && |r| == |domain| + 7 && r[0] == 5 && r[1] == 1 && r[2] == 0 && r[3] == 3 && r[4] as int == |domain|
              && (forall k :: 0 <= k < |domain| ==> r[5 + k] == domain[k]) && r[|domain| + 5] == 0 && r[|domain| + 6] == 0
    ensures |domain| <= 255 ==>
              var r := ConnectReply(domain, success);
              && |r| == |domain| + 7 && r[0] == 5 && r[1] as int == (if success then 0 else 1) && r[2] == 0 && r[3] == 3 && r[4] as int == |domain|
              && (forall k :: 0 <= k < |domain| ==> r[5 + k] == domain[k]) && r[|domain| + 5] == 0 && r[|domain| + 6] == 0
  {
  }

  /** A request to connect to a domain and port, with whatever follows it. */
  ghost predicate IsRequest(bytes: seq<Byte>, domain: seq<Byte>, port: nat) {
    exists reserved: Byte, rest: seq<Byte> ::
      |domain| < 256 && port < 65536 && bytes == [5, 1, reserved, 3, |domain|] + domain + [port / 256, port % 256] + rest
  }

  /** The parser accepts exactly the requests of section 4 of RFC 1928 for a domain, with their domain and port. */
  lemma RequestParsesIff(bytes: seq<Byte>, domain: seq<Byte>, port: nat)
    ensures ParseConnectRequest(bytes) == Ok(Connect(domain, port)) <==> IsRequest(bytes, domain, port)
  {
    if ParseConnectRequest(bytes) == Ok(Connect(domain, port)) {
      var n := |domain|;
      assert bytes == [5, 1, bytes[2], 3, n] + domain + [bytes[n + 5], bytes[n + 6]] + bytes[n + 7..];
      assert IsRequest(bytes, domain, port);
    }
    if IsRequest(bytes, domain, port) {
      var reserved: Byte, rest: seq<Byte> :|
        |domain| < 256 && port < 65536 && bytes == [5, 1, reserved, 3, |domain|] + domain + [port / 256, port % 256] + rest;
      assert bytes[5..5 + |domain|] == domain && bytes[5 + |domain|] as int == port / 256 && bytes[6 + |domain|] as int == port % 256;
    }
  }

  /** A reply is a success exactly if its first bytes are the version and 0; of a shorter or another one nothing is read. */
  lemma ReplyParsesIff(bytes: seq<Byte>)
    ensures ParseConnectReply(bytes) == Ok(true) <==> [5, 0] <= bytes
    ensures ParseConnectReply(bytes) == Ok(false) <==> |bytes| >= 2 && bytes[0] == 5 && bytes[1] != 0
    ensures ParseConnectReply(bytes) == Error(TooShort) <==> |bytes| < 2
  {
  }

  /** What is wrong with anything else: the first of these that fails. */
  lemma RequestProblems(bytes: seq<Byte>)
    ensures ParseConnectRequest(bytes) == Error(TooShort) <==> |bytes| < 5
    ensures |bytes| >= 5 ==> (ParseConnectRequest(bytes) == Error(BadVersion) <==> bytes[0] != 5)
    ensures |bytes| >= 5 && bytes[0] == 5 ==> (ParseConnectRequest(bytes) == Error(BadCommand) <==> bytes[1] != 1)
    ensures |bytes| >= 5 && bytes[0] == 5 && bytes[1] == 1 ==> (ParseConnectRequest(bytes) == Error(BadAddressType) <==> bytes[3] != 3)
    ensures |bytes| >= 5 && bytes[0] == 5 && bytes[1] == 1 && bytes[3] == 3 ==>
              (ParseConnectRequest(bytes) == Error(Truncated) <==> |bytes| < bytes[4] as int + 7)
  {
  }

  // ------------------------------------------------------------ the socket reader

  /** Bytes buffered, exact-count reads still waiting in order, and what earlier reads got. */
  datatype Reader = Reader(buffer: seq<Byte>, waiters: seq<nat>, results: seq<seq<Byte>>)

  function Flush(r: Reader): Reader
    decreases |r.waiters|
  {
    if r.waiters == [] || |r.buffer| < r.waiters[0] then r
    else
      var n := r.waiters[0];
      Flush(Reader(r.buffer[n..], r.waiters[1..], r.results + [r.buffer[..n]]))
  }

  function OnData(r: Reader, segment: seq<Byte>): Reader { Flush(r.(buffer := r.buffer + segment)) }

  function ReadExact(r: Reader, n: nat): Reader { Flush(r.(waiters := r.waiters + [n])) }

  datatype Op = Segment(bytes: seq<Byte>) | Read(n: nat)

  function Apply(r: Reader, op: Op): Reader {
    match op
    case Segment(bytes) => OnData(r, bytes)
    case Read(n) => ReadExact(r, n)
  }

  function ApplyAll(ops: seq<Op>): Reader {
    if ops == [] then Reader([], [], []) else Apply(ApplyAll(ops[..|ops| - 1]), ops[|ops| - 1])
  }

  function Received(ops: seq<Op>): seq<Byte> {
    if ops == [] then []
    else Received(ops[..|ops| - 1]) + (if ops[|ops| - 1].Segment? then ops[|ops| - 1].bytes else [])
  }

  function Asked(ops: seq<Op>): seq<nat> {
    if ops == [] then []
    else Asked(ops[..|ops| - 1]) + (if ops[|ops| - 1].Read? then [ops[|ops| - 1].n] else [])
  }

  /** More bytes, or one more read, after a flush or before it: the same. */
  lemma {:induction false} FlushAbsorbs(r: Reader, bytes: seq<Byte>, more: seq<nat>)
    ensures var f := Flush(r);
            Flush(r.(buffer := r.buffer + bytes, waiters := r.waiters + more))
              == Flush(f.(buffer := f.buffer + bytes, waiters := f.waiters + more))
    decreases |r.waiters|
  {
    if r.waiters != [] && |r.buffer| >= r.waiters[0] {
      var n := r.waiters[0];
      var s := Reader(r.buffer[n..], r.waiters[1..], r.results + [r.buffer[..n]]);
      FlushAbsorbs(s, bytes, more);
      var wide := r.(buffer := r.buffer + bytes, waiters := r.waiters + more);
      assert wide.buffer[..n] == r.buffer[..n] && wide.buffer[n..] == r.buffer[n..] + bytes;
      assert wide.waiters[1..] == r.waiters[1..] + more;
    }
  }

  /**
   * What reads get depends only on the bytes received and the counts asked for, not on how TCP cut the bytes or when
   * each read was issued: it is one flush of the whole.
   */
  lemma {:induction false} SegmentationIsInvisible(ops: seq<Op>)
    ensures ApplyAll(ops) == Flush(Reader(Received(ops), Asked(ops), []))
  {
    if ops != [] {
      var front, op := ops[..|ops| - 1], ops[|ops| - 1];
      SegmentationIsInvisible(front);
      var r := Reader(Received(front), Asked(front), []);
      assert r.waiters + [] == r.waiters && r.buffer + [] == r.buffer;
      var f := Flush(r);
      assert f.waiters + [] == f.waiters && f.buffer + [] == f.buffer;
      match op
      case Segment(bytes) => FlushAbsorbs(r, bytes, []);
      case Read(n) => FlushAbsorbs(r, [], [n]);
    }
  }

  lemma {:induction false} FlushConserves(r: Reader)
    ensures var f := Flush(r);
            && Flatten(f.results) + f.buffer == Flatten(r.results) + r.buffer
            && (f.waiters != [] ==> |f.buffer| < f.waiters[0])
    decreases |r.waiters|
  {
    if r.waiters != [] && |r.buffer| >= r.waiters[0] {
      var n := r.waiters[0];
      FlattenSnoc(r.results, r.buffer[..n]);
      assert r.buffer == r.buffer[..n] + r.buffer[n..];
      FlushConserves(Reader(r.buffer[n..], r.waiters[1..], r.results + [r.buffer[..n]]));
    }
  }

  /** The bytes returned, then what release() hands over, are exactly the bytes received; nobody waits who could be served. */
  lemma NothingIsLost(ops: seq<Op>)
    ensures var r := ApplyAll(ops);
            && Flatten(r.results) + r.buffer == Received(ops)
            && (r.waiters != [] ==> |r.buffer| < r.waiters[0])
  {
    SegmentationIsInvisible(ops);
    FlushConserves(Reader(Received(ops), Asked(ops), []));
    assert Flatten<Byte>([]) + Received(ops) == Received(ops);
  }

  class SocketReader {
    var buffer: seq<Byte>
    var waiters: seq<nat>
    var results: seq<seq<Byte>>

    function View(): Reader
      reads this
    {
      Reader(buffer, waiters, results)
    }

    constructor ()
      ensures View() == Reader([], [], [])
    {
      buffer, waiters, results := [], [], [];
    }

    method FlushWaiters()
      modifies this
      ensures View() == Flush(old(View()))
    {
      while |waiters| > 0 && |buffer| >= waiters[0]
        invariant Flush(View()) == Flush(old(View()))
        decreases |waiters|
      {
        var n := waiters[0];
        waiters := waiters[1..];
        results := results + [buffer[..n]];
        buffer := buffer[n..];
      }
    }

    method TakeIn(segment: seq<Byte>)
      modifies this
      ensures View() == OnData(old(View()), segment)
    {
      buffer := buffer + segment;
      FlushWaiters();
    }

    method Ask(n: nat)
      modifies this
      ensures View() == ReadExact(old(View()), n)
    {
      waiters := waiters + [n];
      FlushWaiters();
    }

    method Release() returns (leftover: seq<Byte>)
      modifies this
      ensures leftover == old(buffer) && View() == old(View()).(buffer := [])
    {
      leftover := buffer;
      buffer := [];
    }
  }

  // ------------------------------------------------------------ the two handshakes

  /** Each stage but the last two is a pending exact-count read. */
  datatype Client = ClientMethod | ClientHead | ClientRest(head: seq<Byte>) | ClientDone | ClientFailed

  datatype Server =
    | ServerGreeting | ServerMethods(count: nat) | ServerHead | ServerRest(head: seq<Byte>)
    | ServerDone(domain: seq<Byte>) | ServerFailed

  /** The address and port that follow a five-byte head. */
  function RestLength(head: seq<Byte>): nat {
    if |head| == 5 then head[4] as nat + 2 else 0
  }

  function ClientNeeds(c: Client): nat {
    match c
    case ClientMethod => 2
    case ClientHead => 5
    case ClientRest(head) => RestLength(head)
    case _ => 0
  }

  function ServerNeeds(s: Server): nat {
    match s
    case ServerGreeting => 2
    case ServerMethods(count) => count
    case ServerHead => 5
    case ServerRest(head) => RestLength(head)
    case _ => 0
  }

  /** The read is answered with `got`; the next stage, and what is written. */
  function ClientReads(c: Client, got: seq<Byte>, domain: seq<Byte>): (Client, seq<Byte>)
    requires |got| == ClientNeeds(c) && |domain| <= 255
  {
    match c
    case ClientMethod => if got[1] != NO_AUTH then (ClientFailed, []) else (ClientHead, ConnectRequest(domain))
    case ClientHead => (if got[3] != DOMAIN then ClientFailed else ClientRest(got), [])
    case ClientRest(head) => (if ParseConnectReply(head + got) == Ok(true) then ClientDone else ClientFailed, [])
    case _ => (c, [])
  }

  /** `known` says whether the domain named is one the listener is waiting for. */
  function ServerReads(s: Server, got: seq<Byte>, known: bool): (Server, seq<Byte>)
    requires |got| == ServerNeeds(s)
  {
    match s
    case ServerGreeting => (ServerMethods(got[1]), [])
    case ServerMethods(_) => (ServerHead, MethodSelection())
    case ServerHead => (ServerRest(got), [])
    case ServerRest(head) =>
      (match ParseConnectRequest(head + got)
       case Ok(connect) => (ServerDone(connect.domain), ConnectReply(connect.domain, known))
       case Error(_) => (ServerFailed, []))
    case _ => (s, [])
  }

  predicate ClientReading(c: Client) { c.ClientMethod? || c.ClientHead? || c.ClientRest? }

  predicate ServerReading(s: Server) { !s.ServerDone? && !s.ServerFailed? }

  /**
   * Both ends: each side's stage, its reader's buffer (once done: the body received so far), everything it ever wrote,
   * and how much of that has reached the other.
   */
  datatype Link = Link(domain: seq<Byte>, known: bool,
                       client: Client, clientBuffer: seq<Byte>, clientSent: seq<Byte>, toServer: nat,
                       server: Server, serverBuffer: seq<Byte>, serverSent: seq<Byte>, toClient: nat,
                       clientBody: seq<Byte>, serverBody: seq<Byte>)

  function StartLink(domain: seq<Byte>, known: bool): Link {
    Link(domain, known, ClientMethod, [], Greeting(), 0, ServerGreeting, [], [], 0, [], [])
  }

  datatype Event =
    | SegmentToServer(n: nat)
    | SegmentToClient(n: nat)
    | ClientAdvances
    | ServerAdvances
    | ClientWrites(bytes: seq<Byte>)
    | ServerWrites(bytes: seq<Byte>)

  predicate Enabled(l: Link, e: Event) {
    match e
    case SegmentToServer(n) => 0 < n && l.toServer + n <= |l.clientSent|
    case SegmentToClient(n) => 0 < n && l.toClient + n <= |l.serverSent|
    case ClientAdvances => ClientReading(l.client) && |l.clientBuffer| >= ClientNeeds(l.client) && |l.domain| <= 255
    case ServerAdvances => ServerReading(l.server) && |l.serverBuffer| >= ServerNeeds(l.server)
    case ClientWrites(_) => l.client.ClientDone?
    case ServerWrites(_) => l.server.ServerDone? && l.known
  }

  function Step(l: Link, e: Event): Link
    requires Enabled(l, e)
  {
    match e
    case SegmentToServer(n) =>
      l.(serverBuffer := l.serverBuffer + l.clientSent[l.toServer..l.toServer + n], toServer := l.toServer + n)
    case SegmentToClient(n) =>
      l.(clientBuffer := l.clientBuffer + l.serverSent[l.toClient..l.toClient + n], toClient := l.toClient + n)
    case ClientAdvances =>
      var n := ClientNeeds(l.client);
      var (c, out) := ClientReads(l.client, l.clientBuffer[..n], l.domain);
      l.(client := c, clientBuffer := l.clientBuffer[n..], clientSent := l.clientSent + out)
    case ServerAdvances =>
      var n := ServerNeeds(l.server);
      var (s, out) := ServerReads(l.server, l.serverBuffer[..n], l.known);
      l.(server := s, serverBuffer := l.serverBuffer[n..], serverSent := l.serverSent + out)
    case ClientWrites(bytes) => l.(clientSent := l.clientSent + bytes, clientBody := l.clientBody + bytes)
    case ServerWrites(bytes) => l.(serverSent := l.serverSent + bytes, serverBody := l.serverBody + bytes)
  }

  ghost predicate IsStep(l: Link, l': Link) {
    exists e: Event :: Enabled(l, e) && l' == Step(l, e)
  }

  ghost predicate IsRun(run: seq<Link>) {
    && run != [] && |run[0].domain| <= 255 && run[0] == StartLink(run[0].domain, run[0].known)
    && forall i :: 0 < i < |run| ==> IsStep(run[i - 1], run[i])
  }

  // ------------------------------------------------------------ what holds

  /** All the client writes before its body, and how much of the server's side it has consumed, by stage. */
  function ClientWrote(c: Client, domain: seq<Byte>): seq<Byte>
    requires |domain| <= 255
  {
    if c.ClientMethod? then Greeting() else Greeting() + ConnectRequest(domain)
  }

  function ServerWrote(s: Server, domain: seq<Byte>, known: bool): seq<Byte> {
    match s
    case ServerGreeting => []
    case ServerMethods(_) => []
    case ServerDone(_) => MethodSelection() + ConnectReply(domain, known)
    case _ => MethodSelection()
  }

  function ClientTook(c: Client, domain: seq<Byte>): nat {
    match c
    case ClientMethod => 0
    case ClientHead => 2
    case ClientRest(_) => 7
    case _ => 9 + |domain|
  }

  function ServerTook(s: Server, domain: seq<Byte>): nat {
    match s
    case ServerGreeting => 0
    case ServerMethods(_) => 2
    case ServerHead => 3
    case ServerRest(_) => 8
    case _ => 10 + |domain|
  }

  ghost predicate LinkInv(l: Link) {
    && |l.domain| <= 255
    && l.clientSent == ClientWrote(l.client, l.domain) + l.clientBody
    && l.serverSent == ServerWrote(l.server, l.domain, l.known) + l.serverBody
    && (l.clientBody != [] ==> l.client.ClientDone?) && (l.serverBody != [] ==> l.server.ServerDone?)
    && ClientTook(l.client, l.domain) <= l.toClient <= |l.serverSent|
    && ServerTook(l.server, l.domain) <= l.toServer <= |l.clientSent|
    && l.clientBuffer == l.serverSent[ClientTook(l.client, l.domain)..l.toClient]
    && l.serverBuffer == l.clientSent[ServerTook(l.server, l.domain)..l.toServer]
    && (l.client.ClientRest? ==> l.client.head == ConnectReply(l.domain, l.known)[..5])
    && (l.server.ServerMethods? ==> l.server.count == 1)
    && (l.server.ServerRest? ==> l.server.head == ConnectRequest(l.domain)[..5])
    && (l.server.ServerDone? ==> l.server.domain == l.domain)
    && l.server != ServerFailed && (l.client.ClientDone? ==> l.known) && (l.client == ClientFailed ==> !l.known)
  }

  lemma ToServerKeeps(l: Link, n: nat)
    requires LinkInv(l) && Enabled(l, SegmentToServer(n))
    ensures LinkInv(Step(l, SegmentToServer(n)))
  {
    hide ConnectRequest, ConnectReply, ClientWrote, ServerWrote, ClientTook, ServerTook;
    var t := ServerTook(l.server, l.domain);
    assert l.clientSent[t..l.toServer] + l.clientSent[l.toServer..l.toServer + n] == l.clientSent[t..l.toServer + n];
  }

  lemma ToClientKeeps(l: Link, n: nat)
    requires LinkInv(l) && Enabled(l, SegmentToClient(n))
    ensures LinkInv(Step(l, SegmentToClient(n)))
  {
    hide ConnectRequest, ConnectReply, ClientWrote, ServerWrote, ClientTook, ServerTook;
    var u := ClientTook(l.client, l.domain);
    assert l.serverSent[u..l.toClient] + l.serverSent[l.toClient..l.toClient + n] == l.serverSent[u..l.toClient + n];
  }

  lemma ClientWritesKeeps(l: Link, bytes: seq<Byte>)
    requires LinkInv(l) && Enabled(l, ClientWrites(bytes))
    ensures LinkInv(Step(l, ClientWrites(bytes)))
  {
    hide ConnectRequest, ConnectReply, ClientWrote, ServerWrote, ClientTook, ServerTook;
    assert l.clientSent + bytes == ClientWrote(l.client, l.domain) + (l.clientBody + bytes);
    Slice(l.clientSent, bytes, ServerTook(l.server, l.domain), l.toServer);
  }

  lemma ServerWritesKeeps(l: Link, bytes: seq<Byte>)
    requires LinkInv(l) && Enabled(l, ServerWrites(bytes))
    ensures LinkInv(Step(l, ServerWrites(bytes)))
  {
    hide ConnectRequest, ConnectReply, ClientWrote, ServerWrote, ClientTook, ServerTook;
    assert l.serverSent + bytes == ServerWrote(l.server, l.domain, l.known) + (l.serverBody + bytes);
    Slice(l.serverSent, bytes, ClientTook(l.client, l.domain), l.toClient);
  }

  lemma Slice(s: seq<Byte>, more: seq<Byte>, i: nat, j: nat)
    requires i <= j <= |s|
    ensures (s + more)[i..j] == s[i..j]
  {
  }

  /** The next `n` bytes of a reader are the next `n` bytes of the stream. */
  lemma NextBytes(s: seq<Byte>, took: nat, upTo: nat, n: nat)
    requires took + n <= upTo <= |s|
    ensures s[took..upTo][..n] == s[took..took + n] && s[took..upTo][n..] == s[took + n..upTo]
  {
  }

  /** Anything past the method selection is the reply of a server that is done. */
  lemma PastSelection(l: Link)
    requires LinkInv(l) && l.toClient > 2
    ensures l.serverSent == MethodSelection() + (ConnectReply(l.domain, l.known) + l.serverBody)
  {
    hide ConnectReply, ConnectRequest;
    assert l.server.ServerDone?;
  }

  lemma Middle(all: seq<Byte>, head: seq<Byte>, mid: seq<Byte>, tail: seq<Byte>, i: nat, j: nat)
    requires all == head + (mid + tail) && i <= j <= |mid|
    ensures |all| >= |head| + j && all[|head| + i..|head| + j] == mid[i..j]
  {
  }

  /** What each read of the client returns. */
  lemma ClientGets(l: Link)
    requires LinkInv(l) && Enabled(l, ClientAdvances)
    ensures var n, took := ClientNeeds(l.client), ClientTook(l.client, l.domain);
            var got, reply := l.clientBuffer[..n], ConnectReply(l.domain, l.known);
            && took + n <= l.toClient
            && got == l.serverSent[took..took + n] && l.clientBuffer[n..] == l.serverSent[took + n..l.toClient]
            && (l.client.ClientMethod? ==> got == MethodSelection())
            && (l.client.ClientHead? ==> got == reply[..5])
            && (l.client.ClientRest? ==> l.client.head + got == reply)
  {
    var n, took := ClientNeeds(l.client), ClientTook(l.client, l.domain);
    NextBytes(l.serverSent, took, l.toClient, n);
    RestLengths(l);
    var reply := ConnectReply(l.domain, l.known);
    if l.client.ClientMethod? {
      assert l.serverSent[0..2] == MethodSelection();
    } else {
      PastSelection(l);
      hide LinkInv, ConnectReply, ServerWrote;
      Middle(l.serverSent, MethodSelection(), reply, l.serverBody, took - 2, took + n - 2);
      assert reply[..5] + reply[5..] == reply;
    }
  }

  /** What the client makes of it. */
  lemma ClientStepIs(l: Link, c': Client, out: seq<Byte>)
    requires LinkInv(l) && Enabled(l, ClientAdvances)
    requires (c', out) == ClientReads(l.client, l.clientBuffer[..ClientNeeds(l.client)], l.domain)
    ensures match l.client
            case ClientMethod => c' == ClientHead && out == ConnectRequest(l.domain)
            case ClientHead => c' == ClientRest(ConnectReply(l.domain, l.known)[..5]) && out == []
            case _ => c' == (if l.known then ClientDone else ClientFailed) && out == []
  {
    ClientGets(l);
    hide ConnectRequest, ClientWrote, ServerWrote, ClientTook, ServerTook, ClientNeeds;
  }

  /** Its bookkeeping moves with it. */
  lemma ClientBooks(l: Link, c': Client, out: seq<Byte>)
    requires LinkInv(l) && Enabled(l, ClientAdvances)
    requires (c', out) == ClientReads(l.client, l.clientBuffer[..ClientNeeds(l.client)], l.domain)
    ensures ClientTook(c', l.domain) == ClientTook(l.client, l.domain) + ClientNeeds(l.client)
    ensures l.clientSent + out == ClientWrote(c', l.domain) + l.clientBody
  {
    ClientStepIs(l, c', out);
    RestLengths(l);
    hide ClientReads, ConnectReply, ConnectRequest;
    assert l.clientBody == [] && l.clientSent == ClientWrote(l.client, l.domain);
  }

  lemma ClientAdvanceKeeps(l: Link)
    requires LinkInv(l) && Enabled(l, ClientAdvances)
    ensures LinkInv(Step(l, ClientAdvances))
  {
    var (c', out) := ClientReads(l.client, l.clientBuffer[..ClientNeeds(l.client)], l.domain);
    ClientGets(l);
    ClientStepIs(l, c', out);
    ClientBooks(l, c', out);
    hide ConnectRequest, ConnectReply, ClientWrote, ServerWrote, ClientTook, ServerTook, ClientNeeds, ClientReads;
    Slice(l.clientSent, out, ServerTook(l.server, l.domain), l.toServer);
  }

  /** What each read of the server returns. */
  lemma ServerGets(l: Link)
    requires LinkInv(l) && Enabled(l, ServerAdvances)
    ensures var n, took := ServerNeeds(l.server), ServerTook(l.server, l.domain);
            var got, request := l.serverBuffer[..n], ConnectRequest(l.domain);
            && took + n <= l.toServer
            && got == l.clientSent[took..took + n] && l.serverBuffer[n..] == l.clientSent[took + n..l.toServer]
            && (l.server.ServerGreeting? ==> got == Greeting()[..2])
            && (l.server.ServerHead? ==> got == request[..5])
            && (l.server.ServerRest? ==> l.server.head + got == request)
  {
    var n, took := ServerNeeds(l.server), ServerTook(l.server, l.domain);
    NextBytes(l.clientSent, took, l.toServer, n);
    var request := ConnectRequest(l.domain);
    match l.server
    case ServerGreeting => assert l.serverBuffer[..n] == Greeting()[..2];
    case ServerHead => assert l.serverBuffer[..n] == request[..5];
    case ServerRest(head) =>
      assert request == request[..5] + request[5..];
      assert l.clientSent[8..8 + n] == request[5..];
    case _ =>
  }

  /** What the server makes of it. */
  lemma ServerStepIs(l: Link, s': Server, out: seq<Byte>)
    requires LinkInv(l) && Enabled(l, ServerAdvances)
    requires (s', out) == ServerReads(l.server, l.serverBuffer[..ServerNeeds(l.server)], l.known)
    ensures match l.server
            case ServerGreeting => s' == ServerMethods(1) && out == []
            case ServerMethods(_) => s' == ServerHead && out == MethodSelection()
            case ServerHead => s' == ServerRest(ConnectRequest(l.domain)[..5]) && out == []
            case _ => s' == ServerDone(l.domain) && out == ConnectReply(l.domain, l.known)
  {
    ServerGets(l);
    RequestRoundTrip(l.domain);
    hide ConnectReply, ConnectRequest, ParseConnectRequest, ClientWrote, ServerWrote, ClientTook, ServerTook;
  }

  /** Its bookkeeping moves with it. */
  lemma ServerBooks(l: Link, s': Server, out: seq<Byte>)
    requires LinkInv(l) && Enabled(l, ServerAdvances)
    requires (s', out) == ServerReads(l.server, l.serverBuffer[..ServerNeeds(l.server)], l.known)
    ensures ServerTook(s', l.domain) == ServerTook(l.server, l.domain) + ServerNeeds(l.server)
    ensures l.serverSent + out == ServerWrote(s', l.domain, l.known) + l.serverBody
  {
    ServerStepIs(l, s', out);
    RestLengths(l);
    hide ServerReads, LinkInv, ConnectReply, ConnectRequest;
    assert l.serverSent == ServerWrote(l.server, l.domain, l.known) && l.serverBody == [] by { Unfinished(l); }
  }

  lemma Unfinished(l: Link)
    requires LinkInv(l) && !l.server.ServerDone?
    ensures l.serverSent == ServerWrote(l.server, l.domain, l.known) && l.serverBody == []
  {
  }

  lemma ServerAdvanceKeeps(l: Link)
    requires LinkInv(l) && Enabled(l, ServerAdvances)
    ensures LinkInv(Step(l, ServerAdvances))
  {
    var (s', out) := ServerReads(l.server, l.serverBuffer[..ServerNeeds(l.server)], l.known);
    ServerGets(l);
    ServerStepIs(l, s', out);
    ServerBooks(l, s', out);
    hide ConnectRequest, ConnectReply, ClientWrote, ServerWrote, ClientTook, ServerTook, ServerNeeds, ServerReads;
    Slice(l.serverSent, out, ClientTook(l.client, l.domain), l.toClient);
  }

  lemma {:induction false} EveryRunKeeps(run: seq<Link>, i: nat)
    requires IsRun(run) && i < |run|
    ensures LinkInv(run[i])
  {
    if i > 0 {
      hide Step, Enabled, LinkInv;
      EveryRunKeeps(run, i - 1);
      assert IsStep(run[i - 1], run[i]);
      var e: Event :| Enabled(run[i - 1], e) && run[i] == Step(run[i - 1], e);
      match e
      case SegmentToServer(n) => ToServerKeeps(run[i - 1], n);
      case SegmentToClient(n) => ToClientKeeps(run[i - 1], n);
      case ClientAdvances => ClientAdvanceKeeps(run[i - 1]);
      case ServerAdvances => ServerAdvanceKeeps(run[i - 1]);
      case ClientWrites(bytes) => ClientWritesKeeps(run[i - 1], bytes);
      case ServerWrites(bytes) => ServerWritesKeeps(run[i - 1], bytes);
    }
  }

  /** Nothing is left in flight and neither handshake can go on. */
  ghost predicate Quiet(l: Link) {
    l.toServer == |l.clientSent| && l.toClient == |l.serverSent| && !Enabled(l, ClientAdvances) && !Enabled(l, ServerAdvances)
  }

  /**
   * However TCP cuts the two streams: the server learns the client's domain, the client succeeds if and only if the
   * server knows that domain, and neither ever waits for bytes that are not coming.
   */
  lemma HandshakeCompletes(run: seq<Link>, i: nat)
    requires IsRun(run) && i < |run|
    ensures var l := run[i];
            && l.server != ServerFailed && (l.server.ServerDone? ==> l.server.domain == l.domain)
            && (l.client.ClientDone? ==> l.known) && (l.client == ClientFailed ==> !l.known)
            && (Quiet(l) ==> l.server.ServerDone? && l.client == if l.known then ClientDone else ClientFailed)
  {
    EveryRunKeeps(run, i);
    var l := run[i];
    if Quiet(l) {
      WaitsForNothing(l);
    }
  }

  lemma WaitsForNothing(l: Link)
    requires LinkInv(l) && Quiet(l)
    ensures l.server.ServerDone? && !ClientReading(l.client)
  {
    RestLengths(l);
  }

  /** The length byte of a head announces exactly what follows it. */
  lemma RestLengths(l: Link)
    requires LinkInv(l)
    ensures |ConnectRequest(l.domain)| == 7 + |l.domain| && |ConnectReply(l.domain, l.known)| == 7 + |l.domain|
    ensures l.server.ServerRest? ==> ServerNeeds(l.server) == |l.domain| + 2
    ensures l.client.ClientRest? ==> ClientNeeds(l.client) == |l.domain| + 2
  {
  }

  /**
   * Once a handshake is over, its leftover and every later byte are the other side's body: a prefix of it in every
   * state, and all of it once everything has arrived. No body byte is lost to the handshake that shared its segment.
   */
  lemma BodyIsExact(run: seq<Link>, i: nat)
    requires IsRun(run) && i < |run|
    ensures var l := run[i];
            && (l.client.ClientDone? ==> l.clientBuffer <= l.serverBody && (Quiet(l) ==> l.clientBuffer == l.serverBody))
            && (l.server.ServerDone? ==> l.serverBuffer <= l.clientBody && (Quiet(l) ==> l.serverBuffer == l.clientBody))
  {
    EveryRunKeeps(run, i);
    hide LinkInv, IsRun, Quiet;
    if run[i].client.ClientDone? { ClientBodyIsExact(run[i]); }
    if run[i].server.ServerDone? { ServerBodyIsExact(run[i]); }
  }

  lemma ClientBodyIsExact(l: Link)
    requires LinkInv(l) && l.client.ClientDone?
    ensures l.clientBuffer <= l.serverBody && (Quiet(l) ==> l.clientBuffer == l.serverBody)
  {
    RestLengths(l);
    hide ConnectReply, ConnectRequest;
    Beyond(l.serverSent, ServerWrote(l.server, l.domain, l.known), l.serverBody, ClientTook(l.client, l.domain), l.toClient);
  }

  lemma ServerBodyIsExact(l: Link)
    requires LinkInv(l) && l.server.ServerDone?
    ensures l.serverBuffer <= l.clientBody && (Quiet(l) ==> l.serverBuffer == l.clientBody)
  {
    RestLengths(l);
    hide ConnectReply, ConnectRequest;
    Beyond(l.clientSent, ClientWrote(l.client, l.domain), l.clientBody, ServerTook(l.server, l.domain), l.toServer);
  }

  lemma Beyond(all: seq<Byte>, head: seq<Byte>, body: seq<Byte>, from: nat, to: nat)
    requires all == head + body && |head| <= from <= to <= |all|
    ensures |head| == from ==> all[from..to] == body[..to - from] && (to == |all| ==> all[from..to] == body)
  {
  }
}
