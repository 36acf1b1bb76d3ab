/** The chunks of one body, delivered in any order: what the reassembler makes of them. */
module ChunkedRoundTrip {
  import opened Bytes
  import opened Base64
  import opened Chunked

  predicate InRange(order: seq<nat>, n: nat) { forall j :: 0 <= j < |order| ==> order[j] < n }

  /** `order` visits each of 0 .. n - 1 exactly once. */
  ghost predicate IsOrder(order: seq<nat>, n: nat) {
    && InRange(order, n)
    && (forall k: nat :: k < n ==> k in order)
    && (forall i, j :: 0 <= i < j < |order| ==> order[i] != order[j])
  }

  /** The reassembler after the first `i` arrivals. */
  function Fed(cap: nat, blocks: seq<seq<Byte>>, order: seq<nat>, i: nat): Reassembly
    requires i <= |order| && InRange(order, |blocks|)
  {
    if i == 0 then Fresh(cap)
    else Push(Fed(cap, blocks, order, i - 1), Stanzas(blocks, 0)[order[i - 1]])
  }

  /** Chunk `k` has arrived, but some chunk before it has not. */
  predicate Waits(arrived: set<nat>, k: nat) {
    k in arrived && exists m | 0 <= m < k :: m !in arrived
  }

  /** The bytes of the first `n` chunks that wait behind a hole. */
  function Backlog(blocks: seq<seq<Byte>>, arrived: set<nat>, n: nat): nat
    requires n <= |blocks|
  {
    if n == 0 then 0
    else Backlog(blocks, arrived, n - 1) + (if Waits(arrived, n - 1) then |blocks[n - 1]| else 0)
  }

  function Arrived(order: seq<nat>, i: nat): set<nat>
    requires i <= |order|
  {
    set k | k in order[..i]
  }

  /** At arrival `i`, what waits and the chunk arriving fit the cap together. */
  predicate FitsAt(cap: nat, blocks: seq<seq<Byte>>, order: seq<nat>, i: nat)
    requires i < |order| && InRange(order, |blocks|)
  {
    Backlog(blocks, Arrived(order, i), |blocks|) + |blocks[order[i]]| <= cap
  }

  // ------------------------------------------------------------ the state after some arrivals

  /** What a live reassembler holds when exactly `arrived` have come; `next` is at most the first hole. */
  ghost predicate Holding(r: Reassembly, cap: nat, blocks: seq<seq<Byte>>, arrived: set<nat>) {
    var n := |blocks|;
    && !r.finished && r.reader == Reading && r.cap == cap
    && r.nextNr <= n && (forall k: nat :: k < r.nextNr ==> k in arrived)
    && (forall k: nat :: k in arrived ==> k < n)
    && (forall k: nat :: k in r.pending <==> k in arrived && r.nextNr <= k)
    && (forall k: nat :: k in r.pending ==> r.pending[k] == Entry(blocks[k], k == n - 1))
    && r.output == Flatten(blocks[..r.nextNr])
    && r.lastNr == (if n - 1 in arrived then Some((n - 1) as nat) else None)
    && r.pendingBytes == Total(r.pending)
  }

  /** Between two arrivals: the next chunk is still missing. */
  ghost predicate Live(r: Reassembly, cap: nat, blocks: seq<seq<Byte>>, arrived: set<nat>) {
    Holding(r, cap, blocks, arrived) && r.nextNr < |blocks| && r.nextNr !in arrived
  }

  /** One round of the drain. */
  lemma DrainStep(r: Reassembly, s: Reassembly, cap: nat, blocks: seq<seq<Byte>>, arrived: set<nat>)
    requires Holding(r, cap, blocks, arrived) && r.nextNr in r.pending
    requires s == r.(pending := r.pending - {r.nextNr}, pendingBytes := r.pendingBytes - |r.pending[r.nextNr].bytes|,
                     nextNr := r.nextNr + 1, output := r.output + r.pending[r.nextNr].bytes)
    ensures Holding(s, cap, blocks, arrived) && s.nextNr <= |blocks|
    ensures r.pending[r.nextNr].last <==> s.nextNr == |blocks|
  {
    var f := r.nextNr;
    TotalRemove(r.pending, f);
    hide Total;
    assert blocks[..f + 1] == blocks[..f] + [blocks[f]];
    FlattenSnoc(blocks[..f], blocks[f]);
  }

  /** Draining stops at the first hole, and closes the stream exactly if there is none. */
  lemma {:induction false} DrainRuns(r: Reassembly, cap: nat, blocks: seq<seq<Byte>>, arrived: set<nat>)
    requires Holding(r, cap, blocks, arrived) && r.nextNr < |blocks|
    ensures var d := Drain(r);
            if forall k: nat :: k < |blocks| ==> k in arrived
            then d.finished && d.reader == Closed && d.output == Flatten(blocks)
            else Live(d, cap, blocks, arrived)
    decreases |r.pending|
  {
    hide Total, Flatten, Holding, Live;
    var f := r.nextNr;
    if f in r.pending {
      var e := r.pending[f];
      var s := r.(pending := r.pending - {f}, pendingBytes := r.pendingBytes - |e.bytes|,
                  nextNr := f + 1, output := r.output + e.bytes);
      Shrinks(r.pending, f);
      DrainStep(r, s, cap, blocks, arrived);
      if e.last { AllHeld(s, cap, blocks, arrived); } else { DrainRuns(s, cap, blocks, arrived); }
    } else {
      HoleStops(r, cap, blocks, arrived);
    }
  }

  lemma HoleStops(r: Reassembly, cap: nat, blocks: seq<seq<Byte>>, arrived: set<nat>)
    requires Holding(r, cap, blocks, arrived) && r.nextNr < |blocks| && r.nextNr !in r.pending
    ensures Live(r, cap, blocks, arrived) && r.nextNr !in arrived
  {
    hide Flatten, Total;
  }

  /** Once the last chunk is drained, all have come. */
  lemma AllHeld(r: Reassembly, cap: nat, blocks: seq<seq<Byte>>, arrived: set<nat>)
    requires Holding(r, cap, blocks, arrived) && r.nextNr == |blocks|
    ensures r.output == Flatten(blocks) && forall k: nat :: k < |blocks| ==> k in arrived
  {
    hide Flatten, Total;
    assert blocks[..r.nextNr] == blocks;
  }

  /** The pending bytes are the backlog. */
  lemma PendingIsBacklog(r: Reassembly, cap: nat, blocks: seq<seq<Byte>>, arrived: set<nat>)
    requires Live(r, cap, blocks, arrived)
    ensures r.pendingBytes == Backlog(blocks, arrived, |blocks|)
  {
    TotalIsBacklog(r, cap, blocks, arrived, r.pending, |blocks|);
  }

  /** The same for the part of the pending map below `n`. */
  lemma {:induction false} TotalIsBacklog(r: Reassembly, cap: nat, blocks: seq<seq<Byte>>, arrived: set<nat>, m: map<nat, Entry>, n: nat)
    requires Live(r, cap, blocks, arrived) && n <= |blocks|
    requires forall k :: k in m <==> k in r.pending && k < n
    requires forall k :: k in m ==> m[k] == r.pending[k]
    ensures Total(m) == Backlog(blocks, arrived, n)
    decreases n
  {
    if n == 0 {
      assert m == map[];
    } else {
      var k := n - 1;
      WaitsIsPending(r, cap, blocks, arrived, k);
      if k in m {
        TotalRemove(m, k);
        TotalIsBacklog(r, cap, blocks, arrived, m - {k}, k);
      } else {
        TotalIsBacklog(r, cap, blocks, arrived, m, k);
      }
    }
  }

  lemma WaitsIsPending(r: Reassembly, cap: nat, blocks: seq<seq<Byte>>, arrived: set<nat>, k: nat)
    requires Live(r, cap, blocks, arrived)
    ensures Waits(arrived, k) <==> k in r.pending
  {
    if k in r.pending { assert r.nextNr !in arrived; }
  }

  /** One more chunk arrives. */
  lemma Arrives(r: Reassembly, cap: nat, blocks: seq<seq<Byte>>, arrived: set<nat>, k: nat)
    requires Live(r, cap, blocks, arrived) && k < |blocks| && k !in arrived
    ensures var s, arrived' := Push(r, Stanzas(blocks, 0)[k]), arrived + {k};
            if Backlog(blocks, arrived, |blocks|) + |blocks[k]| > cap
            then s.finished && s.reader == Errored(TooLarge)
            else if forall j: nat :: j < |blocks| ==> j in arrived'
            then s.finished && s.reader == Closed && s.output == Flatten(blocks)
            else Live(s, cap, blocks, arrived')
  {
    PendingIsBacklog(r, cap, blocks, arrived);
    PushStores(r, cap, blocks, arrived, k);
    hide Push, Drain, Backlog, Holding, Live, Flatten;
    var s := Store(r, k, k == |blocks| - 1, blocks[k]);
    if s.pendingBytes <= cap { DrainRuns(s, cap, blocks, arrived + {k}); }
  }

  /** A chunk that has not come before is stored, and drained if it fits. */
  lemma PushStores(r: Reassembly, cap: nat, blocks: seq<seq<Byte>>, arrived: set<nat>, k: nat)
    requires Live(r, cap, blocks, arrived) && k < |blocks| && k !in arrived
    ensures var s := Store(r, k, k == |blocks| - 1, blocks[k]);
            && Push(r, Stanzas(blocks, 0)[k]) == (if s.pendingBytes > cap then Abort(s, TooLarge) else Drain(s))
            && Holding(s, cap, blocks, arrived + {k}) && s.nextNr < |blocks| && !s.finished
            && s.pendingBytes == r.pendingBytes + |blocks[k]|
  {
    RoundTrip(blocks[k]);
    StoredHolds(r, cap, blocks, arrived, k);
    NotBeyondLast(r, cap, blocks, arrived, k);
    hide Decode, Encode, Drain, Live, Holding;
  }

  lemma NotBeyondLast(r: Reassembly, cap: nat, blocks: seq<seq<Byte>>, arrived: set<nat>, k: nat)
    requires Live(r, cap, blocks, arrived) && k < |blocks| && k !in arrived
    ensures !r.finished && r.cap == cap && r.nextNr <= k && k !in r.pending && !(r.lastNr.Some? && k > r.lastNr.value)
  {
    hide Flatten, Total;
  }

  lemma StoredHolds(r: Reassembly, cap: nat, blocks: seq<seq<Byte>>, arrived: set<nat>, k: nat)
    requires Live(r, cap, blocks, arrived) && k < |blocks| && k !in arrived
    ensures var s := Store(r, k, k == |blocks| - 1, blocks[k]);
            Holding(s, cap, blocks, arrived + {k}) && s.nextNr < |blocks| && s.pendingBytes == r.pendingBytes + |blocks[k]|
  {
    hide Flatten, Total;
    TotalAdd(r.pending, k, Entry(blocks[k], k == |blocks| - 1));
  }

  /** After `i` arrivals that all fitted: live while something is missing, complete when nothing is. */
  lemma {:induction false} AfterArrivals(cap: nat, blocks: seq<seq<Byte>>, order: seq<nat>, i: nat)
    requires blocks != [] && IsOrder(order, |blocks|) && i <= |order|
    requires forall j :: 0 <= j < i ==> FitsAt(cap, blocks, order, j)
    ensures var r := Fed(cap, blocks, order, i);
            if i < |order| then Live(r, cap, blocks, Arrived(order, i))
            else r.finished && r.reader == Closed && r.output == Flatten(blocks)
  {
    hide Push, FitsAt, Live;
    if i == 0 {
      FreshIsLive(cap, blocks, order);
    } else {
      AfterArrivals(cap, blocks, order, i - 1);
      NotYetArrived(order, |blocks|, i - 1);
      assert Arrived(order, i) == Arrived(order, i - 1) + {order[i - 1]};
      Arrives(Fed(cap, blocks, order, i - 1), cap, blocks, Arrived(order, i - 1), order[i - 1]);
      assert FitsAt(cap, blocks, order, i - 1);
      Fitted(cap, blocks, order, i - 1);
      AllArrivedIff(order, |blocks|, i);
    }
  }

  lemma FreshIsLive(cap: nat, blocks: seq<seq<Byte>>, order: seq<nat>)
    requires blocks != [] && IsOrder(order, |blocks|)
    ensures |order| > 0 && Live(Fed(cap, blocks, order, 0), cap, blocks, Arrived(order, 0))
  {
    assert 0 in order;
    assert Arrived(order, 0) == {};
    assert blocks[..0] == [];
  }

  lemma Fitted(cap: nat, blocks: seq<seq<Byte>>, order: seq<nat>, i: nat)
    requires i < |order| && InRange(order, |blocks|)
    ensures FitsAt(cap, blocks, order, i) <==> Backlog(blocks, Arrived(order, i), |blocks|) + |blocks[order[i]]| <= cap
  {
  }

  lemma NotYetArrived(order: seq<nat>, n: nat, i: nat)
    requires IsOrder(order, n) && i < |order|
    ensures order[i] < n && order[i] !in Arrived(order, i)
  {
    assert order[i] in order;
  }

  lemma AllArrivedIff(order: seq<nat>, n: nat, i: nat)
    requires IsOrder(order, n) && i <= |order|
    ensures (forall k: nat :: k < n ==> k in Arrived(order, i)) <==> i == |order|
  {
    if i < |order| {
      NotYetArrived(order, n, i);
    } else {
      assert order[..i] == order;
    }
  }

  /**
   * The round trip. The chunks of any body, cut at any size and delivered in any order, give the reader exactly the
   * body if and only if at each arrival the chunks still waiting behind a hole fit the cap together with the new
   * one; otherwise the stream fails as too large. It closes at the arrival of the last missing chunk, not before.
   */
  lemma AnyOrderRoundTrip(body: seq<Byte>, size: nat, order: seq<nat>, cap: nat)
    requires size > 0 && IsOrder(order, |Blocks(body, size)|)
    ensures var blocks := Blocks(body, size);
            var r := Fed(cap, blocks, order, |order|);
            && ((forall j :: 0 <= j < |order| ==> FitsAt(cap, blocks, order, j)) <==> r.reader == Closed)
            && (r.reader == Closed ==> r.output == body)
            && (r.reader != Closed ==> r.reader == Errored(TooLarge))
            && forall i :: 0 <= i < |order| ==> Fed(cap, blocks, order, i).reader != Closed
  {
    var blocks := Blocks(body, size);
    BlocksFlatten(body, size);
    hide Blocks, Push, FitsAt, Live;
    forall i | 0 <= i < |order| ensures Fed(cap, blocks, order, i).reader != Closed {
      FitsOrFails(cap, blocks, order, i);
    }
    FitsOrFails(cap, blocks, order, |order|);
  }

  /** Either everything fitted so far, or the stream has failed for good. */
  lemma {:induction false} FitsOrFails(cap: nat, blocks: seq<seq<Byte>>, order: seq<nat>, i: nat)
    requires blocks != [] && IsOrder(order, |blocks|) && i <= |order|
    ensures var r := Fed(cap, blocks, order, i);
            if forall j :: 0 <= j < i ==> FitsAt(cap, blocks, order, j)
            then if i < |order| then r.reader == Reading else r.reader == Closed && r.output == Flatten(blocks)
            else r.finished && r.reader == Errored(TooLarge)
  {
    hide FitsAt, Push, Backlog, Stanzas, Holding;
    if forall j :: 0 <= j < i ==> FitsAt(cap, blocks, order, j) {
      AfterArrivals(cap, blocks, order, i);
      if i < |order| { LiveIsReading(Fed(cap, blocks, order, i), cap, blocks, Arrived(order, i)); }
    } else if forall j :: 0 <= j < i - 1 ==> FitsAt(cap, blocks, order, j) {
      AfterArrivals(cap, blocks, order, i - 1);
      NotYetArrived(order, |blocks|, i - 1);
      Fitted(cap, blocks, order, i - 1);
      Arrives(Fed(cap, blocks, order, i - 1), cap, blocks, Arrived(order, i - 1), order[i - 1]);
    } else {
      FitsOrFails(cap, blocks, order, i - 1);
      FinishedStays(Fed(cap, blocks, order, i - 1), Stanzas(blocks, 0)[order[i - 1]]);
    }
  }

  lemma LiveIsReading(r: Reassembly, cap: nat, blocks: seq<seq<Byte>>, arrived: set<nat>)
    requires Live(r, cap, blocks, arrived)
    ensures r.reader == Reading
  {
  }

  lemma FinishedStays(r: Reassembly, c: Chunk)
    requires r.finished
    ensures Push(r, c) == r
  {
  }
}
