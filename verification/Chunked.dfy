/**
 * The chunkedBase64 mechanism of src/transport/chunked.ts: a sender that re-blocks a body however it arrives, and a
 * reassembler that takes numbered chunks in any order.
 */
module Chunked {
  import opened Bytes
  import opened Base64

  /** One <chunk/> stanza. */
  datatype Chunk = Chunk(nr: nat, last: bool, payload: string)

  // ------------------------------------------------------------ the sender

  /** A body cut into blocks of `size`; the last is never empty unless the body is. */
  function Blocks(body: seq<Byte>, size: nat): (blocks: seq<seq<Byte>>)
    requires size > 0
    ensures |blocks| > 0
    decreases |body|
  {
    if |body| <= size then [body] else [body[..size]] + Blocks(body[size..], size)
  }

  /** The stanzas that carry `blocks`, numbered from `nr`, the final one marked last. */
  function Stanzas(blocks: seq<seq<Byte>>, nr: nat): (chunks: seq<Chunk>)
    ensures |chunks| == |blocks|
    ensures forall k :: 0 <= k < |chunks| ==> chunks[k] == Chunk(nr + k, k == |blocks| - 1, Encode(blocks[k]))
  {
    seq(|blocks|, k requires 0 <= k < |blocks| => Chunk(nr + k, k == |blocks| - 1, Encode(blocks[k])))
  }

  /** The blocks lay the body out again. */
  lemma {:induction false} BlocksFlatten(body: seq<Byte>, size: nat)
    requires size > 0
    ensures Flatten(Blocks(body, size)) == body
    ensures var blocks := Blocks(body, size);
            forall k :: 0 <= k < |blocks| ==> |blocks[k]| <= size && (k < |blocks| - 1 ==> |blocks[k]| == size)
    ensures if body == [] then Blocks(body, size) == [[]] else Blocks(body, size)[|Blocks(body, size)| - 1] != []
    decreases |body|
  {
    if |body| <= size {
      assert Flatten([body]) == body + Flatten<Byte>([]);
    } else {
      BlocksFlatten(body[size..], size);
      assert body == body[..size] + body[size..];
      assert Blocks(body, size)[1..] == Blocks(body[size..], size);
    }
  }

  /** One part pushed: every full block but a last one leaves. `rest` is what is still to come. */
  method PushPart(pending: BlockBuffer, part: seq<Byte>, chunkSize: nat, nr: nat, ghost rest: seq<Byte>)
    returns (sent: seq<Chunk>, ghost blocks: seq<seq<Byte>>)
    requires pending.Valid() && chunkSize > 0
    modifies pending
    ensures pending.Valid() && |pending.Contents()| <= chunkSize
    ensures SentSoFar(sent, nr, blocks)
    ensures Blocks(old(pending.Contents()) + part + rest, chunkSize) == blocks + Blocks(pending.Contents() + rest, chunkSize)
  {
    sent, blocks := [], [];
    ghost var body := pending.Contents() + part + rest;
    pending.Push(part);
    assert blocks + Blocks(body, chunkSize) == Blocks(body, chunkSize);
    while pending.bytes > chunkSize
      invariant pending.Valid() && SentSoFar(sent, nr, blocks)
      invariant Blocks(body, chunkSize) == blocks + Blocks(pending.Contents() + rest, chunkSize)
      decreases |pending.Contents()|
    {
      ghost var held := pending.Contents();
      var r := pending.Take(chunkSize);
      assert (held + rest)[..chunkSize] == r.block;
      assert (held + rest)[chunkSize..] == pending.Contents() + rest;
      assert blocks + ([r.block] + Blocks(pending.Contents() + rest, chunkSize))
          == blocks + [r.block] + Blocks(pending.Contents() + rest, chunkSize);
      sent := sent + [Chunk(nr + |sent|, false, Encode(r.block))];
      blocks := blocks + [r.block];
    }
  }

  /**
   * Sends a body that arrives in `parts`: a full buffer is held back in case it turns out last. What is sent depends
   * on the bytes alone, not on how they were partitioned.
   */
  method Send(parts: seq<seq<Byte>>, chunkSize: nat) returns (sent: seq<Chunk>)
    requires chunkSize > 0
    ensures sent == Stanzas(Blocks(Flatten(parts), chunkSize), 0)
  {
    hide Encode, Blocks, Flatten, Stanzas;
    sent := [];
    ghost var blocks: seq<seq<Byte>> := [];
    var pending := new BlockBuffer();
    ghost var body := Flatten(parts);
    assert blocks + Blocks(body, chunkSize) == Blocks(body, chunkSize);
    assert parts[0..] == parts && pending.Contents() + body == body;
    for i := 0 to |parts|
      invariant fresh(pending) && pending.Valid() && |pending.Contents()| <= chunkSize
      invariant SentSoFar(sent, 0, blocks)
      invariant Blocks(body, chunkSize) == blocks + Blocks(pending.Contents() + Flatten(parts[i..]), chunkSize)
    {
      ghost var held, rest, before := pending.Contents(), Flatten(parts[i + 1..]), blocks;
      NextPart(parts, i, held);
      var more;
      ghost var cut;
      more, cut := PushPart(pending, parts[i], chunkSize, |sent|, rest);
      sent := sent + more;
      blocks := blocks + cut;
      assert before + (cut + Blocks(pending.Contents() + rest, chunkSize)) == blocks + Blocks(pending.Contents() + rest, chunkSize);
    }
    var all := pending.Drain();
    NoPartLeft(parts, all);
    LastBlock(all, chunkSize);
    AllSent(sent, blocks, all);
    sent := sent + [Chunk(|sent|, true, Encode(all))];
  }

  lemma NextPart(parts: seq<seq<Byte>>, i: nat, held: seq<Byte>)
    requires i < |parts|
    ensures held + Flatten(parts[i..]) == held + parts[i] + Flatten(parts[i + 1..])
  {
    assert parts[i..][1..] == parts[i + 1..];
  }

  lemma NoPartLeft(parts: seq<seq<Byte>>, all: seq<Byte>)
    ensures all + Flatten(parts[|parts|..]) == all
  {
  }

  lemma AllSent(sent: seq<Chunk>, blocks: seq<seq<Byte>>, all: seq<Byte>)
    requires SentSoFar(sent, 0, blocks)
    ensures sent + [Chunk(|sent|, true, Encode(all))] == Stanzas(blocks + [all], 0)
  {
    hide Encode;
  }

  lemma LastBlock(all: seq<Byte>, size: nat)
    requires size > 0 && |all| <= size
    ensures Blocks(all, size) == [all]
  {
  }

  /** The stanzas of `blocks`, numbered from `nr`, none of them the last. */
  ghost predicate SentSoFar(sent: seq<Chunk>, nr: nat, blocks: seq<seq<Byte>>) {
    && |sent| == |blocks|
    && forall k :: 0 <= k < |sent| ==> sent[k] == Chunk(nr + k, false, Encode(blocks[k]))
  }

  // ------------------------------------------------------------ the reassembler

  datatype Entry = Entry(bytes: seq<Byte>, last: bool)

  datatype Reason = Duplicate | AfterLast | BadPayload | TooLarge | Interrupted

  datatype Reader = Reading | Closed | Errored(why: Reason) | Cancelled

  /** The fields of ChunkReassembler; for the record, how often onFinished ran, and every chunk ever stored. */
  datatype Reassembly = Reassembly(
    pending: map<nat, Entry>, pendingBytes: int, nextNr: nat, lastNr: Option<nat>,
    finished: bool, cap: nat, reader: Reader, output: seq<Byte>,
    finishes: nat, stored: map<nat, seq<Byte>>)

  function Fresh(cap: nat): Reassembly {
    Reassembly(map[], 0, 0, None, false, cap, Reading, [], 0, map[])
  }

  function Finish(r: Reassembly): Reassembly {
    if r.finished then r else r.(finished := true, pending := map[], pendingBytes := 0, finishes := r.finishes + 1)
  }

  function Abort(r: Reassembly, why: Reason): Reassembly {
    if r.finished then r else Finish(r.(reader := Errored(why)))
  }

  function Cancel(r: Reassembly): Reassembly {
    if r.finished then r else Finish(r.(reader := Cancelled))
  }

  /** Hands over every chunk that is next in line. */
  function Drain(r: Reassembly): Reassembly
    decreases |r.pending|
  {
    if r.nextNr !in r.pending then r
    else
      var e := r.pending[r.nextNr];
      assert |r.pending - {r.nextNr}| < |r.pending| by { Shrinks(r.pending, r.nextNr); }
      var s := r.(pending := r.pending - {r.nextNr}, pendingBytes := r.pendingBytes - |e.bytes|,
                  nextNr := r.nextNr + 1, output := r.output + e.bytes);
      if e.last then Finish(s.(reader := Closed)) else Drain(s)
  }

  lemma Shrinks(m: map<nat, Entry>, k: nat)
    requires k in m
    ensures |m - {k}| < |m|
  {
    assert (m - {k}).Keys == m.Keys - {k};
    assert |m.Keys - {k}| == |m.Keys| - 1;
  }

  function Store(r: Reassembly, nr: nat, last: bool, bytes: seq<Byte>): Reassembly {
    r.(lastNr := if last then Some(nr) else r.lastNr, pending := r.pending[nr := Entry(bytes, last)],
       pendingBytes := r.pendingBytes + |bytes|, stored := r.stored[nr := bytes])
  }

  function Push(r: Reassembly, c: Chunk): Reassembly {
    if r.finished then r
    else if c.nr < r.nextNr || c.nr in r.pending then Abort(r, Duplicate)
    else if r.lastNr.Some? && c.nr > r.lastNr.value then Abort(r, AfterLast)
    else
      match Decode(c.payload)
      case Decoded(bytes) =>
        var s := Store(r, c.nr, c.last, bytes);
        if s.pendingBytes > s.cap then Abort(s, TooLarge) else Drain(s)
      case _ => Abort(r, BadPayload)
  }

  // ------------------------------------------------------------ safety on arbitrary input

  ghost function Total(m: map<nat, Entry>): nat
    decreases |m|
  {
    if m == map[] then 0
    else
      var k :| k in m;
      Shrinks(m, k);
      |m[k].bytes| + Total(m - {k})
  }

  lemma {:induction false} TotalRemove(m: map<nat, Entry>, k: nat)
    requires k in m
    ensures Total(m) == |m[k].bytes| + Total(m - {k})
    decreases |m|
  {
    var j :| j in m && Total(m) == |m[j].bytes| + Total(m - {j});
    if j != k {
      Shrinks(m, j);
      Shrinks(m, k);
      TotalRemove(m - {j}, k);
      TotalRemove(m - {k}, j);
      assert m - {j} - {k} == m - {k} - {j};
    }
  }

  lemma TotalAdd(m: map<nat, Entry>, k: nat, e: Entry)
    requires k !in m
    ensures Total(m[k := e]) == Total(m) + |e.bytes|
  {
    assert m[k := e] - {k} == m;
    TotalRemove(m[k := e], k);
  }

  /** The first `n` stored chunks, laid end to end. */
  function Assembled(stored: map<nat, seq<Byte>>, n: nat): seq<Byte>
    requires forall k :: 0 <= k < n ==> k in stored
  {
    if n == 0 then [] else Assembled(stored, n - 1) + stored[n - 1]
  }

  lemma {:induction false} AssembledFrame(stored: map<nat, seq<Byte>>, n: nat, k: nat, bytes: seq<Byte>)
    requires n <= k && forall j :: 0 <= j < n ==> j in stored
    ensures Assembled(stored[k := bytes], n) == Assembled(stored, n)
  {
    if n > 0 { AssembledFrame(stored, n - 1, k, bytes); }
  }

  /** What holds also in the middle of a drain. */
  ghost predicate Consistent(r: Reassembly) {
    && (forall k :: 0 <= k < r.nextNr ==> k in r.stored)
    && r.output == Assembled(r.stored, r.nextNr)
    && (forall k :: k in r.pending ==> r.nextNr <= k && k in r.stored && r.stored[k] == r.pending[k].bytes)
    && r.pendingBytes == Total(r.pending)
    && r.finishes == (if r.finished then 1 else 0)
    && (r.reader == Reading <==> !r.finished)
    && (r.finished ==> r.pending == map[])
    && (!r.finished ==> forall k :: k in r.stored ==> k < r.nextNr || k in r.pending)
  }

  ghost predicate Safe(r: Reassembly) {
    Consistent(r) && r.nextNr !in r.pending && r.pendingBytes <= r.cap
  }

  lemma {:induction false} DrainKeeps(r: Reassembly)
    requires Consistent(r) && !r.finished && r.pendingBytes <= r.cap
    ensures Safe(Drain(r))
    decreases |r.pending|
  {
    hide Consistent;
    if r.nextNr in r.pending {
      var e := r.pending[r.nextNr];
      Shrinks(r.pending, r.nextNr);
      DrainStepKeeps(r);
      var s := r.(pending := r.pending - {r.nextNr}, pendingBytes := r.pendingBytes - |e.bytes|,
                  nextNr := r.nextNr + 1, output := r.output + e.bytes);
      if e.last { ClosedKeeps(s); } else { DrainKeeps(s); }
    }
  }

  lemma DrainStepKeeps(r: Reassembly)
    requires Consistent(r) && !r.finished && r.nextNr in r.pending
    ensures var e := r.pending[r.nextNr];
            Consistent(r.(pending := r.pending - {r.nextNr}, pendingBytes := r.pendingBytes - |e.bytes|,
                          nextNr := r.nextNr + 1, output := r.output + e.bytes))
  {
    TotalRemove(r.pending, r.nextNr);
    hide Total;
  }

  lemma ClosedKeeps(s: Reassembly)
    requires Consistent(s) && !s.finished
    ensures Safe(Finish(s.(reader := Closed)))
  {
    assert Total(map[]) == 0;
    hide Total, Assembled;
  }

  lemma StoreKeeps(r: Reassembly, nr: nat, last: bool, bytes: seq<Byte>)
    requires Safe(r) && !r.finished && r.nextNr <= nr && nr !in r.pending
    ensures Consistent(Store(r, nr, last, bytes))
  {
    TotalAdd(r.pending, nr, Entry(bytes, last));
    AssembledFrame(r.stored, r.nextNr, nr, bytes);
    hide Total, Assembled;
  }

  lemma PushKeeps(r: Reassembly, c: Chunk)
    requires Safe(r)
    ensures Safe(Push(r, c))
  {
    hide Decode, Drain;
    if !r.finished && Decode(c.payload).Decoded? && r.nextNr <= c.nr && c.nr !in r.pending {
      var s := Store(r, c.nr, c.last, Decode(c.payload).bytes);
      StoreKeeps(r, c.nr, c.last, Decode(c.payload).bytes);
      if s.pendingBytes <= s.cap { DrainKeeps(s); }
    }
  }

  datatype Op = PushOp(c: Chunk) | AbortOp(why: Reason) | CancelOp

  function Apply(r: Reassembly, op: Op): Reassembly {
    match op
    case PushOp(c) => Push(r, c)
    case AbortOp(why) => Abort(r, why)
    case CancelOp => Cancel(r)
  }

  function ApplyAll(r: Reassembly, ops: seq<Op>): Reassembly {
    if ops == [] then r else Apply(ApplyAll(r, ops[..|ops| - 1]), ops[|ops| - 1])
  }

  /**
   * Whatever chunks arrive, however malformed, repeated or reordered: the output is the stored chunks 0 .. nextNr - 1
   * in order, every pending number lies beyond them, the byte count is exact and within the cap, and onFinished runs
   * at most once.
   */
  lemma {:induction false} ArbitraryInputIsSafe(cap: nat, ops: seq<Op>)
    ensures Safe(ApplyAll(Fresh(cap), ops))
  {
    if ops != [] {
      var prev := ops[..|ops| - 1];
      ArbitraryInputIsSafe(cap, prev);
      var r, op := ApplyAll(Fresh(cap), prev), ops[|ops| - 1];
      if op.PushOp? { PushKeeps(r, op.c); }
    }
  }

  // ------------------------------------------------------------ what ends a stream

  /** Chunk `k` is marked last, and nothing before it is missing. */
  predicate LastInLine(pending: map<nat, Entry>, next: nat, k: nat) {
    next <= k && k in pending && pending[k].last && forall j: nat :: next <= j <= k ==> j in pending
  }

  ghost predicate Complete(pending: map<nat, Entry>, next: nat) { exists k: nat :: LastInLine(pending, next, k) }

  lemma {:induction false} DrainCloses(r: Reassembly)
    requires !r.finished && r.reader == Reading
    ensures Drain(r).reader == if Complete(r.pending, r.nextNr) then Closed else Reading
    decreases |r.pending|
  {
    var f := r.nextNr;
    if f in r.pending {
      var e := r.pending[f];
      Shrinks(r.pending, f);
      var s := r.(pending := r.pending - {f}, pendingBytes := r.pendingBytes - |e.bytes|, nextNr := f + 1, output := r.output + e.bytes);
      if e.last {
        assert LastInLine(r.pending, f, f);
      } else {
        DrainCloses(s);
        if Complete(r.pending, f) {
          var k: nat :| LastInLine(r.pending, f, k);
          assert LastInLine(s.pending, s.nextNr, k);
        }
        if Complete(s.pending, s.nextNr) {
          var k: nat :| LastInLine(s.pending, s.nextNr, k);
          forall j: nat | f <= j <= k ensures j in r.pending { assert j == f || j in s.pending; }
          assert LastInLine(r.pending, f, k);
        }
      }
    }
  }

  /**
   * What an arrival does to a live stream: it fails if the number has come before, lies beyond a chunk marked last, does
   * not decode, or does not fit; it closes with a chunk marked last that nothing before is missing of; else it goes on.
   * A stream that fails hands over nothing more.
   */
  lemma PushOutcome(r: Reassembly, c: Chunk)
    requires Safe(r) && !r.finished
    ensures var s, d := Push(r, c), Decode(c.payload);
            && s.reader ==
                 (if c.nr in r.stored then Errored(Duplicate)
                  else if r.lastNr.Some? && c.nr > r.lastNr.value then Errored(AfterLast)
                  else if !d.Decoded? then Errored(BadPayload)
                  else if r.pendingBytes + |d.bytes| > r.cap then Errored(TooLarge)
                  else if Complete(r.pending[c.nr := Entry(d.bytes, c.last)], r.nextNr) then Closed
                  else Reading)
            && (s.reader.Errored? ==> s.output == r.output)
            && (s.reader == Reading ==> s.lastNr == if c.last then Some(c.nr) else r.lastNr)
  {
    hide Decode, Drain;
    var d := Decode(c.payload);
    if d.Decoded? && c.nr !in r.stored {
      var s := Store(r, c.nr, c.last, d.bytes);
      DrainCloses(s);
      DrainKeepsLast(s);
    }
  }

  lemma {:induction false} DrainKeepsLast(r: Reassembly)
    ensures Drain(r).lastNr == r.lastNr
    decreases |r.pending|
  {
    if r.nextNr in r.pending && !r.pending[r.nextNr].last {
      var e := r.pending[r.nextNr];
      Shrinks(r.pending, r.nextNr);
      DrainKeepsLast(r.(pending := r.pending - {r.nextNr}, pendingBytes := r.pendingBytes - |e.bytes|,
                        nextNr := r.nextNr + 1, output := r.output + e.bytes));
    }
  }

  /** An abort or a cancelled reader ends a live stream as it is; after its end nothing changes it. */
  lemma EndsOnce(r: Reassembly, op: Op)
    ensures r.finished ==> Apply(r, op) == r
    ensures !r.finished && !op.PushOp? ==>
              var s := Apply(r, op);
              s.finished && s.reader == (if op.AbortOp? then Errored(op.why) else Cancelled) && s.output == r.output && s.finishes == r.finishes + 1
  {
  }

  // ------------------------------------------------------------ as the source writes it

  class ChunkReassembler {
    var pending: map<nat, Entry>
    var pendingBytes: int
    var nextNr: nat
    var lastNr: Option<nat>
    var finished: bool
    const maxBufferedBytes: nat
    var reader: Reader
    var output: seq<Byte>
    var finishes: nat
    var stored: map<nat, seq<Byte>>

    function View(): Reassembly
      reads this
    {
      Reassembly(pending, pendingBytes, nextNr, lastNr, finished, maxBufferedBytes, reader, output, finishes, stored)
    }

    constructor (maxBufferedBytes: nat)
      ensures View() == Fresh(maxBufferedBytes)
    {
      this.maxBufferedBytes := maxBufferedBytes;
      pending, pendingBytes, nextNr, lastNr := map[], 0, 0, None;
      finished, reader, output, finishes, stored := false, Reading, [], 0, map[];
    }

    method FinishOnce()
      modifies this
      ensures View() == Finish(old(View()))
    {
      if finished { return; }
      finished := true;
      pending := map[];
      pendingBytes := 0;
      finishes := finishes + 1;
    }

    method AbortWith(why: Reason)
      modifies this
      ensures View() == Abort(old(View()), why)
    {
      if finished { return; }
      reader := Errored(why);
      FinishOnce();
    }

    method CancelReader()
      modifies this
      ensures View() == Cancel(old(View()))
    {
      if finished { return; }
      reader := Cancelled;
      FinishOnce();
    }

    method DrainPending()
      modifies this
      ensures View() == Drain(old(View()))
    {
      ghost var start := View();
      while nextNr in pending
        invariant Drain(View()) == Drain(start)
        decreases |pending|
      {
        var entry := pending[nextNr];
        Shrinks(pending, nextNr);
        pending := pending - {nextNr};
        pendingBytes := pendingBytes - |entry.bytes|;
        nextNr := nextNr + 1;
        output := output + entry.bytes;
        if entry.last {
          reader := Closed;
          FinishOnce();
          return;
        }
      }
    }

    method PushChunk(c: Chunk)
      modifies this
      ensures View() == Push(old(View()), c)
    {
      hide Decode, Drain;
      if finished { return; }
      if c.nr < nextNr || c.nr in pending {
        AbortWith(Duplicate);
        return;
      }
      if lastNr.Some? && c.nr > lastNr.value {
        AbortWith(AfterLast);
        return;
      }
      var decoding := DecodeBase64(c.payload);
      if !decoding.Decoded? {
        AbortWith(BadPayload);
        return;
      }
      var bytes := decoding.bytes;
      if c.last { lastNr := Some(c.nr); }
      pending := pending[c.nr := Entry(bytes, c.last)];
      pendingBytes := pendingBytes + |bytes|;
      stored := stored[c.nr := bytes];
      if pendingBytes > maxBufferedBytes {
        AbortWith(TooLarge);
        return;
      }
      DrainPending();
    }
  }
}
