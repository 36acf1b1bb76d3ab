/**
 * The shared router of src/transport/chunked.ts: chunks that arrive before anyone expects their stream are kept for a
 * while, and replayed to the reassembler when it registers.
 */
module ChunkRouter {
  import opened Bytes
  import opened Base64
  import opened Chunked
  import opened ChunkedRoundTrip

  const ORPHAN_MAX_TOTAL_PAYLOAD := 512 * 1024
  const ORPHAN_TTL_MS := 10_000

  /** The peer's bare address and the stream id. */
  type Key = string

  datatype Orphan = Orphan(chunk: Chunk, arrivedAt: int)

  /**
   * `streams` holds every reassembler ever registered, `expected` the keys still registered. For the record: the
   * chunks handled for each key, and the keys that lost an orphan or whose stream was interrupted.
   */
  datatype Router = Router(streams: map<Key, Reassembly>, expected: set<Key>, orphans: map<Key, seq<Orphan>>,
                           history: map<Key, seq<Chunk>>, disturbed: set<Key>)

  function Payload(list: seq<Orphan>): nat {
    if list == [] then 0 else Payload(list[..|list| - 1]) + |list[|list| - 1].chunk.payload|
  }

  ghost function TotalPayload(m: map<Key, seq<Orphan>>): nat
    decreases |m|
  {
    if m == map[] then 0
    else
      var k :| k in m;
      Fewer(m, k);
      Payload(m[k]) + TotalPayload(m - {k})
  }

  lemma Fewer(m: map<Key, seq<Orphan>>, k: Key)
    requires k in m
    ensures |m - {k}| < |m|
  {
    assert (m - {k}).Keys == m.Keys - {k};
    assert |m.Keys - {k}| == |m.Keys| - 1;
  }

  lemma {:induction false} TotalWithout(m: map<Key, seq<Orphan>>, k: Key)
    requires k in m
    ensures TotalPayload(m) == Payload(m[k]) + TotalPayload(m - {k})
    decreases |m|
  {
    var j :| j in m && TotalPayload(m) == Payload(m[j]) + TotalPayload(m - {j});
    if j != k {
      Fewer(m, j);
      Fewer(m, k);
      TotalWithout(m - {j}, k);
      TotalWithout(m - {k}, j);
      assert m - {j} - {k} == m - {k} - {j};
    }
  }

  /** Replacing one list, present or not. */
  lemma TotalWith(m: map<Key, seq<Orphan>>, k: Key, list: seq<Orphan>)
    ensures TotalPayload(m[k := list]) == TotalPayload(m - {k}) + Payload(list)
  {
    TotalWithout(m[k := list], k);
    assert m[k := list] - {k} == m - {k};
  }

  lemma TotalAbsent(m: map<Key, seq<Orphan>>, k: Key)
    requires k !in m
    ensures m - {k} == m
  {
  }

  // ------------------------------------------------------------ steps

  function Kept(list: seq<Orphan>, cutoff: int): seq<Orphan> {
    if list == [] then []
    else
      var last := list[|list| - 1];
      Kept(list[..|list| - 1], cutoff) + (if last.arrivedAt >= cutoff then [last] else [])
  }

  function Sweep(m: map<Key, seq<Orphan>>, cutoff: int): map<Key, seq<Orphan>> {
    map k | k in m && (Kept(m[k], cutoff) != [] || m[k] == []) :: Kept(m[k], cutoff)
  }

  function PushAll(r: Reassembly, chunks: seq<Chunk>): Reassembly {
    if chunks == [] then r else Push(PushAll(r, chunks[..|chunks| - 1]), chunks[|chunks| - 1])
  }

  function Chunks(list: seq<Orphan>): seq<Chunk> {
    seq(|list|, i requires 0 <= i < |list| => list[i].chunk)
  }

  function ListOf<T>(m: map<Key, seq<T>>, k: Key): seq<T> {
    if k in m then m[k] else []
  }

  ghost function BufferOrphan(m: Router, key: Key, chunk: Chunk, at: int): Router {
    var swept := Sweep(m.orphans, at - ORPHAN_TTL_MS);
    var expired := set k | k in m.orphans && k !in m.streams && Kept(m.orphans[k], at - ORPHAN_TTL_MS) != m.orphans[k];
    if TotalPayload(swept) + |chunk.payload| > ORPHAN_MAX_TOTAL_PAYLOAD
    then m.(orphans := swept, disturbed := m.disturbed + expired + (if key in m.streams then {} else {key}))
    else m.(orphans := swept[key := ListOf(swept, key) + [Orphan(chunk, at)]], disturbed := m.disturbed + expired)
  }

  /** Stores a reassembler's new state; onFinished unregisters it. */
  function Update(m: Router, key: Key, r: Reassembly): Router {
    m.(streams := m.streams[key := r], expected := if r.finished then m.expected - {key} else m.expected)
  }

  function Record(m: Router, key: Key, chunk: Chunk): Router {
    m.(history := m.history[key := ListOf(m.history, key) + [chunk]])
  }

  /** A stanza with a usable key; `nr` None if it is not an integer. */
  ghost function HandleStanza(m: Router, key: Key, nr: Option<int>, last: bool, payload: string, at: int): Router {
    if nr.None? || nr.value < 0 then m
    else
      var chunk := Chunk(nr.value, last, payload);
      if key in m.expected && key in m.streams
      then Update(Record(m, key, chunk), key, Push(m.streams[key], chunk))
      else BufferOrphan(Record(m, key, chunk), key, chunk, at)
  }

  function Expect(m: Router, key: Key, cap: nat): Router {
    var n := m.(expected := m.expected + {key}, orphans := m.orphans - {key});
    Update(n, key, PushAll(Fresh(cap), Chunks(ListOf(m.orphans, key))))
  }

  datatype Event =
    | Stanza(key: Key, nr: Option<int>, last: bool, payload: string, at: int)
    | Expected(key: Key, cap: nat)
    | Interrupt(key: Key, op: Op)

  /** A key is expected once; a stream may be aborted or cancelled at any time. */
  predicate Enabled(m: Router, e: Event) {
    match e
    case Stanza(_, _, _, _, _) => true
    case Expected(key, _) => key !in m.streams
    case Interrupt(key, op) => key in m.streams && !op.PushOp?
  }

  ghost function Step(m: Router, e: Event): Router
    requires Enabled(m, e)
  {
    match e
    case Stanza(key, nr, last, payload, at) => HandleStanza(m, key, nr, last, payload, at)
    case Expected(key, cap) => Expect(m, key, cap)
    case Interrupt(key, op) =>
      Update(m, key, Apply(m.streams[key], op)).(disturbed := m.disturbed + {key})
  }

  ghost predicate IsStep(m: Router, m': Router) {
    exists e: Event :: Enabled(m, e) && m' == Step(m, e)
  }

  ghost predicate IsRun(run: seq<Router>) {
    run != [] && run[0] == Router(map[], {}, map[], map[], {}) && forall i :: 0 < i < |run| ==> IsStep(run[i - 1], run[i])
  }

  // ------------------------------------------------------------ what holds

  /** Each undisturbed stream is where feeding it directly would have put it; each waiting list is complete. */
  ghost predicate Faithful(m: Router, k: Key) {
    k !in m.disturbed ==>
      if k in m.streams then m.streams[k] == PushAll(Fresh(m.streams[k].cap), ListOf(m.history, k))
      else Chunks(ListOf(m.orphans, k)) == ListOf(m.history, k)
  }

  ghost predicate RouterInv(m: Router) {
    && (forall k :: k in m.expected <==> k in m.streams && !m.streams[k].finished)
    && (forall k :: k in m.orphans ==> m.orphans[k] != [])
    && TotalPayload(m.orphans) <= ORPHAN_MAX_TOTAL_PAYLOAD
    && forall k: Key :: Faithful(m, k)
  }

  lemma {:induction false} PushAllSnoc(r: Reassembly, chunks: seq<Chunk>, c: Chunk)
    ensures PushAll(r, chunks + [c]) == Push(PushAll(r, chunks), c)
  {
    assert (chunks + [c])[..|chunks|] == chunks;
  }

  lemma {:induction false} PushAllCap(r: Reassembly, chunks: seq<Chunk>)
    ensures PushAll(r, chunks).cap == r.cap
  {
    if chunks != [] {
      PushAllCap(r, chunks[..|chunks| - 1]);
      PushCap(PushAll(r, chunks[..|chunks| - 1]), chunks[|chunks| - 1]);
    }
  }

  lemma PushCap(r: Reassembly, c: Chunk)
    ensures Push(r, c).cap == r.cap
  {
    hide Decode;
    if Decode(c.payload).Decoded? { DrainCap(Store(r, c.nr, c.last, Decode(c.payload).bytes)); }
  }

  lemma {:induction false} DrainCap(r: Reassembly)
    ensures Drain(r).cap == r.cap
    decreases |r.pending|
  {
    if r.nextNr in r.pending && !r.pending[r.nextNr].last {
      Shrinks(r.pending, r.nextNr);
      var e := r.pending[r.nextNr];
      DrainCap(r.(pending := r.pending - {r.nextNr}, pendingBytes := r.pendingBytes - |e.bytes|,
                  nextNr := r.nextNr + 1, output := r.output + e.bytes));
    }
  }

  lemma PayloadSnoc(list: seq<Orphan>, o: Orphan)
    ensures Payload(list + [o]) == Payload(list) + |o.chunk.payload|
  {
    assert (list + [o])[..|list|] == list;
  }

  lemma {:induction false} KeptSize(list: seq<Orphan>, cutoff: int)
    ensures Payload(Kept(list, cutoff)) <= Payload(list)
  {
    if list != [] {
      var front, last := list[..|list| - 1], list[|list| - 1];
      KeptSize(front, cutoff);
      PayloadSnoc(front, last);
      PayloadSnoc(Kept(front, cutoff), last);
      assert list == front + [last] && Kept(front, cutoff) + [] == Kept(front, cutoff);
    }
  }

  lemma {:induction false} SweepSize(m: map<Key, seq<Orphan>>, cutoff: int)
    ensures TotalPayload(Sweep(m, cutoff)) <= TotalPayload(m)
    decreases |m|
  {
    if m == map[] {
      assert Sweep(m, cutoff) == map[];
    } else {
      var k :| k in m;
      Fewer(m, k);
      SweepSize(m - {k}, cutoff);
      TotalWithout(m, k);
      KeptSize(m[k], cutoff);
      SweepOne(m, cutoff, k);
    }
  }

  lemma SweepOne(m: map<Key, seq<Orphan>>, cutoff: int, k: Key)
    requires k in m
    ensures TotalPayload(Sweep(m, cutoff)) <= TotalPayload(Sweep(m - {k}, cutoff)) + Payload(Kept(m[k], cutoff))
  {
    var s := Sweep(m, cutoff);
    assert s - {k} == Sweep(m - {k}, cutoff);
    if k in s { TotalWithout(s, k); } else { TotalAbsent(s, k); }
  }

  lemma BufferKeeps(m: Router, key: Key, chunk: Chunk, at: int)
    requires RouterInv(m) && key !in m.expected
    ensures RouterInv(BufferOrphan(Record(m, key, chunk), key, chunk, at))
  {
    hide Push, PushAll, TotalPayload, Payload;
    var n := BufferOrphan(Record(m, key, chunk), key, chunk, at);
    var swept := Sweep(m.orphans, at - ORPHAN_TTL_MS);
    SweepSize(m.orphans, at - ORPHAN_TTL_MS);
    OneMore(swept, key, Orphan(chunk, at));
    forall k: Key ensures Faithful(n, k) { BufferFaithful(m, key, chunk, at, k); }
  }

  lemma OneMore(m: map<Key, seq<Orphan>>, key: Key, o: Orphan)
    ensures TotalPayload(m[key := ListOf(m, key) + [o]]) == TotalPayload(m) + |o.chunk.payload|
  {
    var list := ListOf(m, key) + [o];
    TotalWith(m, key, list);
    assert list[..|list| - 1] == ListOf(m, key);
    if key in m { TotalWithout(m, key); } else { TotalAbsent(m, key); }
  }

  lemma BufferFaithful(m: Router, key: Key, chunk: Chunk, at: int, k: Key)
    requires RouterInv(m) && key !in m.expected
    ensures Faithful(BufferOrphan(Record(m, key, chunk), key, chunk, at), k)
  {
    hide Push, PushAll, TotalPayload, Payload;
    assert Faithful(m, k);
    if k in m.streams {
      if k == key && k !in m.disturbed {
        PushAllSnoc(Fresh(m.streams[k].cap), ListOf(m.history, k), chunk);
        FinishedStays(m.streams[k], chunk);
      }
    } else {
      WaitingFaithful(m, key, chunk, at, k);
    }
  }

  /** The list of a stream nobody expects yet: complete, unless it lost a chunk and is counted as disturbed. */
  lemma WaitingFaithful(m: Router, key: Key, chunk: Chunk, at: int, k: Key)
    requires RouterInv(m) && key !in m.expected && k !in m.streams
    ensures Faithful(BufferOrphan(Record(m, key, chunk), key, chunk, at), k)
  {
    hide Push, PushAll, TotalPayload, Payload, Kept;
    assert Faithful(m, k);
    assert k in m.orphans ==> m.orphans[k] != [];
  }

  lemma StreamStepKeeps(m: Router, key: Key, chunk: Chunk)
    requires RouterInv(m) && key in m.expected
    ensures RouterInv(Update(Record(m, key, chunk), key, Push(m.streams[key], chunk)))
  {
    hide Push, PushAll, TotalPayload, Payload;
    PushCap(m.streams[key], chunk);
    var n := Update(Record(m, key, chunk), key, Push(m.streams[key], chunk));
    forall k: Key ensures Faithful(n, k) {
      assert Faithful(m, k);
      if k == key { PushAllSnoc(Fresh(m.streams[k].cap), ListOf(m.history, k), chunk); }
    }
  }

  lemma ExpectKeeps(m: Router, key: Key, cap: nat)
    requires RouterInv(m) && key !in m.streams
    ensures RouterInv(Expect(m, key, cap))
  {
    hide Push, PushAll, TotalPayload, Payload;
    var n := Expect(m, key, cap);
    PushAllCap(Fresh(cap), Chunks(ListOf(m.orphans, key)));
    if key in m.orphans { TotalWithout(m.orphans, key); } else { TotalAbsent(m.orphans, key); }
    forall k: Key ensures Faithful(n, k) { assert Faithful(m, k); }
  }

  lemma StepKeeps(m: Router, e: Event)
    requires RouterInv(m) && Enabled(m, e)
    ensures RouterInv(Step(m, e))
  {
    hide BufferOrphan, Expect, Push;
    match e
    case Stanza(key, nr, last, payload, at) =>
      if nr.Some? && nr.value >= 0 {
        if key in m.expected { StreamStepKeeps(m, key, Chunk(nr.value, last, payload)); }
        else { BufferKeeps(m, key, Chunk(nr.value, last, payload), at); }
      }
    case Expected(key, cap) => ExpectKeeps(m, key, cap);
    case Interrupt(key, op) =>
      var n := Step(m, e);
      forall k: Key ensures Faithful(n, k) { assert Faithful(m, k); }
  }

  lemma {:induction false} EveryRunRoutes(run: seq<Router>, i: nat)
    requires IsRun(run) && i < |run|
    ensures RouterInv(run[i])
  {
    if i > 0 {
      hide Step, RouterInv;
      EveryRunRoutes(run, i - 1);
      assert IsStep(run[i - 1], run[i]);
      var e: Event :| Enabled(run[i - 1], e) && run[i] == Step(run[i - 1], e);
      StepKeeps(run[i - 1], e);
    } else {
      assert forall k: Key :: Faithful(run[0], k);
    }
  }

  // ------------------------------------------------------------ end to end

  /** What the sender of `body` emits, in the order it arrives. */
  function Arrivals(blocks: seq<seq<Byte>>, order: seq<nat>): seq<Chunk>
    requires InRange(order, |blocks|)
  {
    seq(|order|, i requires 0 <= i < |order| => Stanzas(blocks, 0)[order[i]])
  }

  lemma {:induction false} FedIsPushAll(cap: nat, blocks: seq<seq<Byte>>, order: seq<nat>, i: nat)
    requires InRange(order, |blocks|) && i <= |order|
    ensures Fed(cap, blocks, order, i) == PushAll(Fresh(cap), Arrivals(blocks, order)[..i])
  {
    var a := Arrivals(blocks, order);
    if i > 0 {
      FedIsPushAll(cap, blocks, order, i - 1);
      assert a[..i][..i - 1] == a[..i - 1];
    }
  }

  /** `n` is the first chunk number that has not arrived. */
  predicate FirstMissing(arrived: set<nat>, n: nat) {
    n !in arrived && forall k: nat :: k < n ==> k in arrived
  }

  /**
   * Whenever expect() is called, before, between or after the arrivals, and whatever else the router handles: once
   * the first `n` chunks of a stream have arrived in any order, none dropped or expired, it has failed as too large
   * exactly if one of them found too much waiting. If none did, the reader has every block before the first missing
   * one and nothing else while something is missing, and the closed body when nothing is.
   */
  lemma RoutedRoundTrip(run: seq<Router>, i: nat, key: Key, body: seq<Byte>, size: nat, order: seq<nat>, n: nat)
    requires IsRun(run) && i < |run| && size > 0 && IsOrder(order, |Blocks(body, size)|) && n <= |order|
    requires key in run[i].streams && key !in run[i].disturbed
    requires ListOf(run[i].history, key) == Arrivals(Blocks(body, size), order)[..n]
    ensures var r, blocks := run[i].streams[key], Blocks(body, size);
            && (r.reader == Reading <==> key in run[i].expected)
            && if !(forall j :: 0 <= j < n ==> FitsAt(r.cap, blocks, order, j)) then r.reader == Errored(TooLarge)
               else if n == |order| then r.reader == Closed && r.output == body
               else r.reader == Reading && r.output <= body
                    && exists f: nat :: FirstMissing(Arrived(order, n), f) && f < |blocks| && r.output == Flatten(blocks[..f])
  {
    EveryRunRoutes(run, i);
    assert Faithful(run[i], key);
    var r, blocks := run[i].streams[key], Blocks(body, size);
    FedIsPushAll(r.cap, blocks, order, n);
    BlocksFlatten(body, size);
    hide PushAll, Push, FitsAt, Blocks, Faithful;
    FedState(r.cap, blocks, order, n);
  }

  lemma FedState(cap: nat, blocks: seq<seq<Byte>>, order: seq<nat>, n: nat)
    requires blocks != [] && IsOrder(order, |blocks|) && n <= |order|
    ensures var r := Fed(cap, blocks, order, n);
            && (r.reader == Reading <==> !r.finished)
            && if !(forall j :: 0 <= j < n ==> FitsAt(cap, blocks, order, j)) then r.reader == Errored(TooLarge)
               else if n == |order| then r.reader == Closed && r.output == Flatten(blocks)
               else r.reader == Reading && r.output <= Flatten(blocks)
                    && exists f: nat :: FirstMissing(Arrived(order, n), f) && f < |blocks| && r.output == Flatten(blocks[..f])
  {
    hide FitsAt, Push;
    FitsOrFails(cap, blocks, order, n);
    if forall j :: 0 <= j < n ==> FitsAt(cap, blocks, order, j) {
      AfterArrivals(cap, blocks, order, n);
      if n < |order| {
        var r := Fed(cap, blocks, order, n);
        assert FirstMissing(Arrived(order, n), r.nextNr);
        FlattenPrefix(blocks, r.nextNr);
      }
    }
  }

  // ------------------------------------------------------------ as the source writes it

  lemma {:induction false} KeptAll(list: seq<Orphan>, cutoff: int)
    ensures |Kept(list, cutoff)| <= |list|
    ensures |Kept(list, cutoff)| == |list| ==> Kept(list, cutoff) == list
  {
    if list != [] {
      KeptAll(list[..|list| - 1], cutoff);
      assert list == list[..|list| - 1] + [list[|list| - 1]];
    }
  }

  /** The router's fields; its reassemblers are values here (Chunked.ChunkReassembler is the object). */
  class SharedRouter {
    var streams: map<Key, Reassembly>
    var expected: set<Key>
    var orphans: map<Key, seq<Orphan>>
    var orphanBytes: int
    ghost var history: map<Key, seq<Chunk>>
    ghost var disturbed: set<Key>

    ghost function View(): Router
      reads this
    {
      Router(streams, expected, orphans, history, disturbed)
    }

    /** The running byte count is the sum of the payloads kept. */
    ghost predicate Valid()
      reads this
    {
      orphanBytes == TotalPayload(orphans)
    }

    constructor ()
      ensures Valid() && View() == Router(map[], {}, map[], map[], {})
    {
      streams, expected, orphans, orphanBytes := map[], {}, map[], 0;
      history, disturbed := map[], {};
    }

    /** Takes the expired payloads of one list off the count. */
    method Discount(list: seq<Orphan>, cutoff: int)
      modifies this`orphanBytes
      ensures orphanBytes == old(orphanBytes) - Payload(list) + Payload(Kept(list, cutoff))
    {
      for i := 0 to |list|
        invariant orphanBytes == old(orphanBytes) - Payload(list[..i]) + Payload(Kept(list[..i], cutoff))
      {
        assert list[..i + 1][..i] == list[..i];
        PayloadSnoc(Kept(list[..i], cutoff), list[i]);
        assert Kept(list[..i], cutoff) + [] == Kept(list[..i], cutoff);
        if list[i].arrivedAt < cutoff { orphanBytes := orphanBytes - |list[i].chunk.payload|; }
      }
      assert list[..|list|] == list;
    }

    method SweepOrphans(cutoff: int)
      requires Valid()
      modifies this`orphans, this`orphanBytes
      ensures Valid() && orphans == Sweep(old(orphans), cutoff)
    {
      hide TotalPayload, Kept;
      ghost var was := orphans;
      var keys := orphans.Keys;
      while keys != {}
        invariant Valid() && keys <= was.Keys && orphans.Keys <= was.Keys
        invariant forall k :: k in keys ==> k in orphans && orphans[k] == was[k]
        invariant forall k :: k in was && k !in keys ==>
          (k in orphans <==> k in Sweep(was, cutoff)) && (k in orphans ==> orphans[k] == Kept(was[k], cutoff))
        decreases |keys|
      {
        var k :| k in keys;
        keys := keys - {k};
        var list := orphans[k];
        var kept := Kept(list, cutoff);
        KeptAll(list, cutoff);
        TotalWithout(orphans, k);
        if |kept| != |list| {
          Discount(list, cutoff);
          if |kept| == 0 {
            orphans := orphans - {k};
          } else {
            TotalWith(orphans, k, kept);
            orphans := orphans[k := kept];
          }
        }
      }
      assert orphans == Sweep(was, cutoff);
    }

    method Buffer(key: Key, chunk: Chunk, at: int)
      requires Valid()
      modifies this
      ensures Valid() && View() == BufferOrphan(old(View()), key, chunk, at)
    {
      ghost var swept := Sweep(orphans, at - ORPHAN_TTL_MS);
      ghost var expired := set k | k in orphans && k !in streams && Kept(orphans[k], at - ORPHAN_TTL_MS) != orphans[k];
      SweepOrphans(at - ORPHAN_TTL_MS);
      disturbed := disturbed + expired;
      if orphanBytes + |chunk.payload| > ORPHAN_MAX_TOTAL_PAYLOAD {
        disturbed := disturbed + (if key in streams then {} else {key});
        return;
      }
      OneMore(orphans, key, Orphan(chunk, at));
      var list := if key in orphans then orphans[key] else [];
      orphans := orphans[key := list + [Orphan(chunk, at)]];
      orphanBytes := orphanBytes + |chunk.payload|;
    }

    method Handle(key: Key, nr: Option<int>, last: bool, payload: string, at: int)
      requires Valid()
      modifies this
      ensures Valid() && View() == HandleStanza(old(View()), key, nr, last, payload, at)
    {
      if nr.None? || nr.value < 0 { return; }
      var chunk := Chunk(nr.value, last, payload);
      history := history[key := ListOf(history, key) + [chunk]];
      if key in expected && key in streams {
        var r := Push(streams[key], chunk);
        streams := streams[key := r];
        if r.finished { expected := expected - {key}; }
        return;
      }
      Buffer(key, chunk, at);
    }

    /** Registers a reassembler and replays what arrived before it did. */
    method ExpectStream(key: Key, cap: nat)
      requires Valid()
      modifies this
      ensures Valid() && View() == Expect(old(View()), key, cap)
    {
      expected := expected + {key};
      var r := Fresh(cap);
      if key in orphans {
        var buffered := orphans[key];
        ghost var total := orphanBytes - Payload(buffered);
        TotalWithout(orphans, key);
        orphans := orphans - {key};
        for i := 0 to |buffered|
          invariant r == PushAll(Fresh(cap), Chunks(buffered)[..i])
          invariant orphanBytes == total + Payload(buffered) - Payload(buffered[..i])
          invariant orphans == old(orphans) - {key} && streams == old(streams) && expected == old(expected) + {key}
          invariant history == old(history) && disturbed == old(disturbed)
        {
          assert Chunks(buffered)[..i + 1][..i] == Chunks(buffered)[..i];
          assert buffered[..i + 1][..i] == buffered[..i];
          orphanBytes := orphanBytes - |buffered[i].chunk.payload|;
          r := Push(r, buffered[i].chunk);
        }
        assert buffered[..|buffered|] == buffered && Chunks(buffered)[..|buffered|] == Chunks(buffered);
      } else {
        TotalAbsent(orphans, key);
        assert Chunks(ListOf(orphans, key)) == [];
      }
      streams := streams[key := r];
      if r.finished { expected := expected - {key}; }
    }
  }
}
