/**
 * What becomes of chunks that wait for their stream to be expected (#bufferOrphan and #sweepOrphans of
 * src/transport/chunked.ts): which of them an arrival drops, and when a stream loses none.
 */
module ChunkExpiry {
  import opened Bytes
  import opened Base64
  import opened Chunked
  import opened ChunkedRoundTrip
  import opened ChunkRouter

  /** `kept` is what of `list` arrived at `since` or later, in order: `at` says where each of it stands. */
  ghost predicate Since(list: seq<Orphan>, kept: seq<Orphan>, since: int, at: seq<nat>) {
    && |at| == |kept|
    && (forall k :: 0 <= k < |at| ==> at[k] < |list| && kept[k] == list[at[k]] && kept[k].arrivedAt >= since)
    && (forall k, l :: 0 <= k < l < |at| ==> at[k] < at[l])
    && (forall i: nat :: i < |list| && list[i].arrivedAt >= since ==> i in at)
  }

  ghost predicate RecentOf(list: seq<Orphan>, kept: seq<Orphan>, since: int) {
    exists at: seq<nat> :: Since(list, kept, since, at)
  }

  lemma {:induction false} KeptSince(list: seq<Orphan>, since: int)
    ensures RecentOf(list, Kept(list, since), since)
  {
    if list == [] {
      assert Since(list, [], since, []);
    } else {
      var front, last := list[..|list| - 1], list[|list| - 1];
      KeptSince(front, since);
      var at: seq<nat> :| Since(front, Kept(front, since), since, at);
      assert list == front + [last];
      if last.arrivedAt >= since {
        OneMoreRecent(front, Kept(front, since), since, at, last);
        assert Since(list, Kept(list, since), since, at + [|front|]);
      } else {
        OneMoreOld(front, Kept(front, since), since, at, last);
        assert Kept(list, since) == Kept(front, since);
      }
    }
  }

  lemma OneMoreRecent(list: seq<Orphan>, kept: seq<Orphan>, since: int, at: seq<nat>, o: Orphan)
    requires Since(list, kept, since, at) && o.arrivedAt >= since
    ensures Since(list + [o], kept + [o], since, at + [|list|])
  {
    var longer, at' := list + [o], at + [|list|];
    forall i: nat | i < |longer| && longer[i].arrivedAt >= since ensures i in at' {
      if i < |list| {
        assert list[i].arrivedAt >= since;
        var k :| 0 <= k < |at| && at[k] == i;
        assert at'[k] == i;
      } else {
        assert at'[|at|] == i;
      }
    }
  }

  lemma OneMoreOld(list: seq<Orphan>, kept: seq<Orphan>, since: int, at: seq<nat>, o: Orphan)
    requires Since(list, kept, since, at) && o.arrivedAt < since
    ensures Since(list + [o], kept, since, at)
  {
    forall i: nat | i < |list + [o]| && (list + [o])[i].arrivedAt >= since ensures i in at {
      assert i < |list| && list[i].arrivedAt >= since;
    }
  }

  /**
   * After an arrival, each key's waiting chunks are those that arrived in the last 10 seconds, in order; with the new
   * one behind them under its own key, unless it does not fit 512 KiB together with all that is kept.
   */
  lemma AfterArrival(m: Router, key: Key, chunk: Chunk, at: int, k: Key)
    requires forall j :: j in m.orphans ==> m.orphans[j] != []
    ensures var n := BufferOrphan(m, key, chunk, at);
            exists kept: seq<Orphan> ::
              && RecentOf(ListOf(m.orphans, k), kept, at - 10_000)
              && (ListOf(n.orphans, k) == kept
                  || (k == key && ListOf(n.orphans, k) == kept + [Orphan(chunk, at)] && TotalPayload(n.orphans) <= 512 * 1024))
              && (k == key && ListOf(n.orphans, k) == kept ==> TotalPayload(n.orphans) + |chunk.payload| > 512 * 1024)
  {
    var since := at - ORPHAN_TTL_MS;
    var swept, kept := Sweep(m.orphans, since), Kept(ListOf(m.orphans, k), since);
    KeptSince(ListOf(m.orphans, k), since);
    SweptList(m.orphans, since, k);
    OneMore(swept, key, Orphan(chunk, at));
    hide Kept, TotalPayload, Sweep, RecentOf, Payload;
    assert |kept + [Orphan(chunk, at)]| == |kept| + 1;
    assert RecentOf(ListOf(m.orphans, k), kept, at - 10_000);
  }

  lemma SweptList(m: map<Key, seq<Orphan>>, since: int, k: Key)
    requires forall j :: j in m ==> m[j] != []
    ensures ListOf(Sweep(m, since), k) == Kept(ListOf(m, k), since)
  {
  }

  // ------------------------------------------------------------ over runs

  /** The run that `events` drive from the empty router. */
  ghost predicate IsDriven(run: seq<Router>, events: seq<Event>) {
    && |run| == |events| + 1 && run[0] == Router(map[], {}, map[], map[], {})
    && forall i :: 0 <= i < |events| ==> Enabled(run[i], events[i]) && run[i + 1] == Step(run[i], events[i])
  }

  lemma DrivenIsRun(run: seq<Router>, events: seq<Event>)
    requires IsDriven(run, events)
    ensures IsRun(run)
  {
    forall i | 0 < i < |run| ensures IsStep(run[i - 1], run[i]) { assert Enabled(run[i - 1], events[i - 1]); }
  }

  /** A stanza of the key with a usable number. */
  predicate IsChunkOf(e: Event, key: Key) { e.Stanza? && e.key == key && e.nr.Some? && e.nr.value >= 0 }

  predicate IsChunk(e: Event) { e.Stanza? && e.nr.Some? && e.nr.value >= 0 }

  /** The payload of all the chunks among the first `i` events. */
  function Sent(events: seq<Event>, i: nat): nat
    requires i <= |events|
  {
    if i == 0 then 0 else Sent(events, i - 1) + (if IsChunk(events[i - 1]) then |events[i - 1].payload| else 0)
  }

  /** Whatever waits under `key` arrived in some event before. */
  ghost predicate Dated(m: Router, events: seq<Event>, i: nat, key: Key)
    requires i <= |events|
  {
    forall o :: o in ListOf(m.orphans, key) ==> exists a :: 0 <= a < i && IsChunkOf(events[a], key) && events[a].at == o.arrivedAt
  }

  /** A chunk of the key was over ten seconds old when another orphan, of any key, arrived and the key was not expected yet. */
  ghost predicate Outlived(run: seq<Router>, events: seq<Event>, i: nat, key: Key)
    requires i <= |events| < |run|
  {
    exists a, b :: 0 <= a < b < i && IsChunkOf(events[a], key) && IsChunk(events[b])
      && events[b].at > events[a].at + 10_000 && key !in run[b].streams
  }

  /** A chunk of the key, not expected yet, did not fit. */
  ghost predicate Crowded(run: seq<Router>, events: seq<Event>, i: nat, key: Key)
    requires i <= |events| < |run|
  {
    exists b :: 0 <= b < i && IsChunkOf(events[b], key) && key !in run[b].streams
      && TotalPayload(Sweep(run[b].orphans, events[b].at - 10_000)) + |events[b].payload| > 512 * 1024
  }

  ghost predicate Interrupted(events: seq<Event>, i: nat, key: Key)
    requires i <= |events|
  {
    exists b :: 0 <= b < i && events[b].Interrupt? && events[b].key == key
  }

  lemma {:induction false} KeptAreOld(list: seq<Orphan>, since: int, o: Orphan)
    requires o in Kept(list, since)
    ensures o in list
  {
    if list != [] {
      var front := list[..|list| - 1];
      assert list == front + [list[|list| - 1]];
      if o in Kept(front, since) { KeptAreOld(front, since, o); }
    }
  }

  lemma {:induction false} SomeExpired(list: seq<Orphan>, since: int)
    requires Kept(list, since) != list
    ensures exists o :: o in list && o.arrivedAt < since
  {
    if list != [] {
      var front, last := list[..|list| - 1], list[|list| - 1];
      assert list == front + [last];
      if last.arrivedAt >= since {
        assert Kept(list, since) == Kept(front, since) + [last];
        SomeExpired(front, since);
        var o :| o in front && o.arrivedAt < since;
        assert o in list;
      } else {
        assert last in list;
      }
    }
  }

  /** The orphans of a step are the old ones, or the chunk it brings; and they do not outgrow what was sent. */
  lemma StepOrphans(m: Router, e: Event, k: Key, o: Orphan)
    requires RouterInv(m) && Enabled(m, e) && o in ListOf(Step(m, e).orphans, k)
    ensures o in ListOf(m.orphans, k) || (IsChunkOf(e, k) && e.at == o.arrivedAt)
  {
    hide Push, PushAll, TotalPayload, Kept;
    if e.Stanza? && e.nr.Some? && e.nr.value >= 0 && !(e.key in m.expected && e.key in m.streams) {
      var swept := Sweep(m.orphans, e.at - ORPHAN_TTL_MS);
      SweptList(m.orphans, e.at - ORPHAN_TTL_MS, k);
      hide Sweep;
      if o in ListOf(swept, k) { KeptAreOld(ListOf(m.orphans, k), e.at - ORPHAN_TTL_MS, o); }
    }
  }

  lemma StepPayload(m: Router, e: Event)
    requires Enabled(m, e)
    ensures TotalPayload(Step(m, e).orphans) <= TotalPayload(m.orphans) + if IsChunk(e) then |e.payload| else 0
  {
    hide Push, PushAll, TotalPayload, BufferOrphan;
    match e
    case Stanza(key, nr, last, payload, at) =>
      if IsChunk(e) { BufferPayload(Record(m, key, Chunk(nr.value, last, payload)), key, Chunk(nr.value, last, payload), at); }
    case Expected(key, cap) => WithoutPayload(m.orphans, key);
    case Interrupt(_, _) =>
  }

  lemma BufferPayload(m: Router, key: Key, chunk: Chunk, at: int)
    ensures TotalPayload(BufferOrphan(m, key, chunk, at).orphans) <= TotalPayload(m.orphans) + |chunk.payload|
  {
    SweepSize(m.orphans, at - ORPHAN_TTL_MS);
    OneMore(Sweep(m.orphans, at - ORPHAN_TTL_MS), key, Orphan(chunk, at));
    hide Sweep, TotalPayload, Kept, Payload;
  }

  lemma WithoutPayload(m: map<Key, seq<Orphan>>, key: Key)
    ensures TotalPayload(m - {key}) <= TotalPayload(m)
  {
    if key in m { TotalWithout(m, key); } else { TotalAbsent(m, key); }
    hide TotalPayload, Payload;
  }

  /** Who is disturbed by a step: a stream interrupted, one whose chunk is dropped as too old, or one whose chunk finds no room. */
  lemma StepDisturbs(m: Router, e: Event, key: Key)
    requires RouterInv(m) && Enabled(m, e) && key in Step(m, e).disturbed && key !in m.disturbed
    ensures || (e.Interrupt? && e.key == key)
            || (IsChunk(e) && key !in m.streams && exists o :: o in ListOf(m.orphans, key) && o.arrivedAt < e.at - 10_000)
            || (IsChunkOf(e, key) && key !in m.streams && TotalPayload(Sweep(m.orphans, e.at - 10_000)) + |e.payload| > 512 * 1024)
  {
    hide Push, PushAll, TotalPayload, Sweep;
    if IsChunk(e) && key in m.orphans && Kept(m.orphans[key], e.at - ORPHAN_TTL_MS) != m.orphans[key] {
      SomeExpired(m.orphans[key], e.at - ORPHAN_TTL_MS);
    }
    hide Kept;
  }

  lemma {:induction false} EveryRunIsDated(run: seq<Router>, events: seq<Event>, i: nat, key: Key)
    requires IsDriven(run, events) && i <= |events|
    ensures Dated(run[i], events, i, key) && TotalPayload(run[i].orphans) <= Sent(events, i)
  {
    if i > 0 {
      hide Step, RouterInv, TotalPayload;
      EveryRunIsDated(run, events, i - 1, key);
      DrivenIsRun(run, events);
      EveryRunRoutes(run, i - 1);
      var m, e := run[i - 1], events[i - 1];
      StepPayload(m, e);
      forall o | o in ListOf(run[i].orphans, key)
        ensures exists a :: 0 <= a < i && IsChunkOf(events[a], key) && events[a].at == o.arrivedAt
      {
        StepOrphans(m, e, key, o);
      }
    }
  }

  /**
   * A stream is disturbed only if it was interrupted, or if, before it was expected, one of its chunks was more than ten
   * seconds old when another orphan arrived, or found no room within 512 KiB.
   */
  lemma {:induction false} DisturbedOnlyIf(run: seq<Router>, events: seq<Event>, i: nat, key: Key)
    requires IsDriven(run, events) && i <= |events|
    ensures key in run[i].disturbed ==> Interrupted(events, i, key) || Outlived(run, events, i, key) || Crowded(run, events, i, key)
  {
    if i > 0 {
      hide Step, RouterInv, Interrupted, Outlived, Crowded;
      DisturbedOnlyIf(run, events, i - 1, key);
      if key in run[i - 1].disturbed {
        CausesStay(run, events, i - 1, key);
      } else if key in run[i].disturbed {
        CauseOf(run, events, i - 1, key);
      }
    }
  }

  lemma CausesStay(run: seq<Router>, events: seq<Event>, i: nat, key: Key)
    requires i < |events| < |run|
    ensures Interrupted(events, i, key) ==> Interrupted(events, i + 1, key)
    ensures Outlived(run, events, i, key) ==> Outlived(run, events, i + 1, key)
    ensures Crowded(run, events, i, key) ==> Crowded(run, events, i + 1, key)
  {
    hide TotalPayload, Sweep;
  }

  lemma CauseOf(run: seq<Router>, events: seq<Event>, i: nat, key: Key)
    requires IsDriven(run, events) && i < |events| && key !in run[i].disturbed && key in run[i + 1].disturbed
    ensures Interrupted(events, i + 1, key) || Outlived(run, events, i + 1, key) || Crowded(run, events, i + 1, key)
  {
    hide Step, RouterInv, TotalPayload, Sweep;
    DrivenIsRun(run, events);
    EveryRunRoutes(run, i);
    EveryRunIsDated(run, events, i, key);
    var m, e := run[i], events[i];
    StepDisturbs(m, e, key);
    if IsChunk(e) && key !in m.streams && exists o :: o in ListOf(m.orphans, key) && o.arrivedAt < e.at - 10_000 {
      var o :| o in ListOf(m.orphans, key) && o.arrivedAt < e.at - 10_000;
      var a :| 0 <= a < i && IsChunkOf(events[a], key) && events[a].at == o.arrivedAt;
      assert events[i].at > events[a].at + 10_000;
    }
  }

  /** Until the key is expected, no orphan arrives more than ten seconds after a chunk of it, and 512 KiB hold all that came. */
  ghost predicate InTime(run: seq<Router>, events: seq<Event>, i: nat, key: Key)
    requires i <= |events| < |run|
  {
    forall b :: 0 <= b < i && key !in run[b].streams && IsChunk(events[b]) ==>
      && (forall a :: 0 <= a < b && IsChunkOf(events[a], key) ==> events[b].at <= events[a].at + 10_000)
      && Sent(events, b + 1) <= 512 * 1024
  }

  lemma InTimeIsUndisturbed(run: seq<Router>, events: seq<Event>, i: nat, key: Key)
    requires IsDriven(run, events) && i <= |events| && !Interrupted(events, i, key) && InTime(run, events, i, key)
    ensures key !in run[i].disturbed
  {
    DisturbedOnlyIf(run, events, i, key);
    hide Step, TotalPayload, Interrupted;
    if Crowded(run, events, i, key) {
      var b :| 0 <= b < i && IsChunkOf(events[b], key) && key !in run[b].streams
        && TotalPayload(Sweep(run[b].orphans, events[b].at - 10_000)) + |events[b].payload| > 512 * 1024;
      SweepSize(run[b].orphans, events[b].at - 10_000);
      EveryRunIsDated(run, events, b, key);
      assert false;
    }
  }

  /**
   * The round trip without a word about lost chunks: a stream that nobody interrupts, and whose chunks come in time, is
   * received as its sender cut it, whenever it is expected and whatever else is routed.
   */
  lemma RoutedInTime(run: seq<Router>, events: seq<Event>, i: nat, key: Key, body: seq<Byte>, size: nat, order: seq<nat>, n: nat)
    requires IsDriven(run, events) && i <= |events| && size > 0 && IsOrder(order, |Blocks(body, size)|) && n <= |order|
    requires !Interrupted(events, i, key) && InTime(run, events, i, key) && key in run[i].streams
    requires ListOf(run[i].history, key) == Arrivals(Blocks(body, size), order)[..n]
    ensures var r, blocks := run[i].streams[key], Blocks(body, size);
            && (r.reader == Reading <==> key in run[i].expected)
            && if !(forall j :: 0 <= j < n ==> FitsAt(r.cap, blocks, order, j)) then r.reader == Errored(TooLarge)
               else if n == |order| then r.reader == Closed && r.output == body
               else r.reader == Reading && r.output <= body
                    && exists f: nat :: FirstMissing(Arrived(order, n), f) && f < |blocks| && r.output == Flatten(blocks[..f])
  {
    InTimeIsUndisturbed(run, events, i, key);
    DrivenIsRun(run, events);
    hide Step;
    RoutedRoundTrip(run, i, key, body, size, order, n);
  }
}
