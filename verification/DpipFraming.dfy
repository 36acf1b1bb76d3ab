/** Tags out of a byte stream, however it is cut (TagBuffer of examples/dillo/src/dpip.ts). */
module DpipFraming {
  import opened Bytes
  import opened Dpip

  /** A space, a quote and '>' stand at position `j`. */
  predicate EndsAt(s: string, j: int) {
    0 <= j && j + 3 <= |s| && s[j] == ' ' && s[j + 1] == '\'' && s[j + 2] == '>'
  }

  /** Where the first terminator starts, or None. */
  function IndexOfTagEnd(s: string): (r: Option<nat>)
    ensures r.Some? ==> EndsAt(s, r.value)
    ensures forall j: nat :: EndsAt(s, j) ==> r.Some? && r.value <= j
  {
    if |s| < 3 then None
    else if EndsAt(s, 0) then Some(0)
    else
      var rest := IndexOfTagEnd(s[1..]);
      assert forall j: nat :: EndsAt(s, j) ==> j > 0 && EndsAt(s[1..], j - 1);
      if rest.None? then None else Some(rest.value + 1)
  }

  // ------------------------------------------------------------ the terminator ends a tag, and only that

  /** How much of a terminator the text so far ends with; 3 once a whole one has been seen. */
  function Delta(state: nat, c: char): nat {
    if state == 3 then 3
    else if c == ' ' then 1
    else if c == '\'' then (if state == 1 then 2 else 0)
    else if c == '>' && state == 2 then 3
    else 0
  }

  function Scan(s: string, state: nat): nat {
    if s == "" then state else Scan(s[1..], Delta(state, s[0]))
  }

  lemma {:induction false} ScanConcat(a: string, b: string, state: nat)
    ensures Scan(a + b, state) == Scan(b, Scan(a, state))
    decreases |a|
  {
    if a == "" {
      assert a + b == b;
    } else {
      assert (a + b)[1..] == a[1..] + b;
      ScanConcat(a[1..], b, Delta(state, a[0]));
    }
  }

  lemma ScanOne(c: char, state: nat)
    ensures Scan([c], state) == Delta(state, c)
  {
    assert [c][1..] == "";
  }

  /** What the state says about the text read. */
  ghost predicate StateOf(s: string, state: nat) {
    && state <= 3
    && (state == 3 <==> exists j: nat :: EndsAt(s, j))
    && (state != 3 ==>
          && (state == 1 <==> |s| > 0 && s[|s| - 1] == ' ')
          && (state == 2 <==> |s| > 1 && s[|s| - 2] == ' ' && s[|s| - 1] == '\''))
  }

  lemma StateSnoc(s: string, c: char, state: nat)
    requires StateOf(s, state)
    ensures StateOf(s + [c], Delta(state, c))
  {
    var t := s + [c];
    forall j: nat | EndsAt(t, j) && j + 3 <= |s| ensures EndsAt(s, j) { }
    if state == 3 {
      var j: nat :| EndsAt(s, j);
      assert EndsAt(t, j);
    } else if state == 2 && c == '>' {
      assert EndsAt(t, |s| - 2);
    }
  }

  lemma {:induction false} ScanMeans(s: string)
    ensures StateOf(s, Scan(s, 0))
  {
    if s != "" {
      var front, c := s[..|s| - 1], s[|s| - 1];
      ScanMeans(front);
      assert s == front + [c];
      ScanConcat(front, [c], 0);
      ScanOne(c, Scan(front, 0));
      StateSnoc(front, c, Scan(front, 0));
    }
  }

  lemma {:induction false} ScanQuoted(value: string, state: nat)
    requires state == 0 || state == 1
    ensures Scan(Quoted(value), state) == 0 || Scan(Quoted(value), state) == 1
    decreases |value|
  {
    if value != "" {
      var head := if value[0] == '\'' then "''" else [value[0]];
      ScanConcat(head, Quoted(value[1..]), state);
      if value[0] == '\'' {
        assert "''" == "'" + "'";
        ScanConcat("'", "'", state);
        ScanOne('\'', state);
        ScanOne('\'', Delta(state, '\''));
      } else {
        ScanOne(value[0], state);
      }
      ScanQuoted(value[1..], Scan(head, state));
    }
  }

  lemma {:induction false} ScanName(name: string, state: nat)
    requires ValidName(name) && (state == 0 || state == 1)
    ensures Scan(name, state) == 0
    decreases |name|
  {
    assert forall i :: 0 <= i < |name| ==> name[i] in name;
    assert Delta(state, name[0]) == 0 by { assert name[0] in name && !IsSpace(name[0]); }
    if |name| > 1 {
      assert ValidName(name[1..]) by { assert forall c :: c in name[1..] ==> c in name; }
      ScanName(name[1..], 0);
    } else {
      assert name[1..] == "";
    }
  }

  /** One attribute: no terminator in it, and a space behind it. */
  lemma ScanPrinted(a: Attr, state: nat)
    requires ValidName(a.name) && (state == 0 || state == 1)
    ensures Scan(Printed(a), state) == 1
  {
    ScanName(a.name, state);
    ScanConcat(a.name + "='" + Quoted(a.value), "' ", state);
    ScanConcat(a.name + "='", Quoted(a.value), state);
    ScanConcat(a.name, "='", state);
    assert "='" == "=" + "'" && "' " == "'" + " ";
    ScanConcat("=", "'", 0);
    ScanOne('=', 0);
    ScanOne('\'', 0);
    ScanQuoted(a.value, 0);
    var after := Scan(Quoted(a.value), 0);
    ScanConcat("'", " ", after);
    ScanOne('\'', after);
    ScanOne(' ', Delta(after, '\''));
  }

  lemma {:induction false} ScanBody(attrs: seq<Attr>, state: nat)
    requires ValidNames(attrs) && (state == 0 || state == 1)
    ensures Scan(Body(attrs), state) == if attrs == [] then state else 1
    decreases |attrs|
  {
    if attrs != [] {
      ScanPrinted(attrs[0], state);
      ScanConcat(Printed(attrs[0]), Body(attrs[1..]), state);
      ScanBody(attrs[1..], 1);
    }
  }

  /** Before its last character a printed tag holds no terminator; a space and a quote are all that is there of one. */
  lemma ScanTag(attrs: seq<Attr>, front: string)
    requires ValidNames(attrs) && attrs != [] && |Tag(attrs)| > 0 && front == Tag(attrs)[..|Tag(attrs)| - 1]
    ensures Scan(front, 0) == 2
  {
    var open := "<" + Body(attrs);
    assert Tag(attrs) == (open + "'") + ">";
    assert front == open + "'";
    ScanConcat("<", Body(attrs), 0);
    ScanOne('<', 0);
    ScanBody(attrs, 0);
    ScanConcat(open, "'", 0);
    ScanOne('\'', 1);
  }

  /** In a printed tag with an attribute the terminator occurs at the end and nowhere else; without one, nowhere. */
  lemma TerminatorOnlyAtEnd(attrs: seq<Attr>)
    requires ValidNames(attrs)
    ensures attrs != [] ==> IndexOfTagEnd(Tag(attrs)) == Some(|Tag(attrs)| - 3)
    ensures attrs == [] ==> Tag(attrs) == "<'>" && IndexOfTagEnd(Tag(attrs)) == None
  {
    var tag := Tag(attrs);
    if attrs == [] {
      assert tag == "<'>";
    } else {
      var front := tag[..|tag| - 1];
      assert tag == front + ">";
      ScanTag(attrs, front);
      ScanMeans(front);
      hide Tag, Scan;
      assert EndsAt(tag, |tag| - 3);
      assert forall j: nat :: EndsAt(tag, j) ==> j + 3 == |tag| || EndsAt(front, j);
    }
  }

  // ------------------------------------------------------------ the reader

  datatype Next = NoTag | GotTag(attrs: map<string, string>) | BadTag(problem: Problem)

  /** The next complete tag, and what stays buffered; a malformed tag is gone from the buffer all the same. */
  function NextOf(buffer: string): (Next, string) {
    var end := IndexOfTagEnd(buffer);
    if end.None? then (NoTag, buffer)
    else
      var rest := buffer[end.value + 3..];
      match Parse(buffer[..end.value + 3])
      case Parsed(attrs) => (GotTag(attrs), rest)
      case Malformed(p) => (BadTag(p), rest)
  }

  class TagBuffer {
    var buffer: string
    const limit: nat

    constructor (limit: nat)
      ensures buffer == "" && this.limit == limit
    {
      buffer, this.limit := "", limit;
    }

    /** False is the RangeError, thrown after the bytes have been taken in. */
    method Push(chunk: string) returns (ok: bool)
      modifies this
      ensures buffer == old(buffer) + chunk && ok == (|buffer| <= limit)
    {
      buffer := buffer + chunk;
      ok := |buffer| <= limit;
    }

    method FindEnd() returns (end: Option<nat>)
      ensures end == IndexOfTagEnd(buffer)
    {
      var i := 0;
      while i + 2 < |buffer|
        invariant i <= |buffer|
        invariant forall j :: 0 <= j < i ==> !EndsAt(buffer, j)
      {
        assert EndsAt(buffer, i) <==> buffer[i] == ' ' && buffer[i + 1] == '\'' && buffer[i + 2] == '>';
        if buffer[i] == ' ' && buffer[i + 1] == '\'' && buffer[i + 2] == '>' { return Some(i); }
        i := i + 1;
      }
      return None;
    }

    method NextTag() returns (r: Next)
      modifies this
      ensures (r, buffer) == NextOf(old(buffer))
    {
      var end := FindEnd();
      if end.None? { return NoTag; }
      var tag := buffer[..end.value + 3];
      buffer := buffer[end.value + 3..];
      var parsed := ParseTag(tag);
      r := match parsed case Parsed(attrs) => GotTag(attrs) case Malformed(p) => BadTag(p);
    }

    method Rest() returns (rest: string)
      modifies this
      ensures rest == old(buffer) && buffer == ""
    {
      rest := buffer;
      buffer := "";
    }
  }

  // ------------------------------------------------------------ any chunking

  function Stream(tags: seq<seq<Attr>>): string {
    if tags == [] then "" else Stream(tags[..|tags| - 1]) + Tag(tags[|tags| - 1])
  }

  /** Bytes pushed so far, and the tags taken out. */
  datatype Reading = Reading(buffer: string, pushed: string, taken: seq<map<string, string>>)

  datatype Op = PushOp(chunk: string) | NextOp

  /** `tags` are still expected while fewer have been taken: after the last, the rest is payload. */
  predicate Enabled(r: Reading, tags: nat, op: Op) { op.NextOp? ==> |r.taken| < tags }

  function Apply(r: Reading, op: Op): Reading {
    match op
    case PushOp(chunk) => r.(buffer := r.buffer + chunk, pushed := r.pushed + chunk)
    case NextOp =>
      var (next, rest) := NextOf(r.buffer);
      if next.GotTag? then r.(buffer := rest, taken := r.taken + [next.attrs]) else r.(buffer := rest)
  }

  /** The reading after `ops`; NextOp is only asked while tags are expected. */
  function ReadAll(tags: nat, ops: seq<Op>): Reading {
    if ops == [] then Reading("", "", [])
    else
      var r, op := ReadAll(tags, ops[..|ops| - 1]), ops[|ops| - 1];
      if Enabled(r, tags, op) then Apply(r, op) else r
  }

  function Pushed(ops: seq<Op>): string {
    if ops == [] then ""
    else Pushed(ops[..|ops| - 1]) + (if ops[|ops| - 1].PushOp? then ops[|ops| - 1].chunk else "")
  }

  ghost predicate Sendable(tags: seq<seq<Attr>>) {
    forall i :: 0 <= i < |tags| ==> tags[i] != [] && ValidNames(tags[i])
  }

  function Meaning(attrs: seq<Attr>): map<string, string> { AssignAll(map[], attrs) }

  /** The tags taken are the first ones sent, and the buffer is what was pushed after them. */
  ghost predicate InStep(r: Reading, tags: seq<seq<Attr>>) {
    && |r.taken| <= |tags|
    && (forall i :: 0 <= i < |r.taken| ==> r.taken[i] == Meaning(tags[i]))
    && r.pushed == Stream(tags[..|r.taken|]) + r.buffer
  }

  lemma {:induction false} StreamPrefix(tags: seq<seq<Attr>>, k: nat)
    requires k < |tags|
    ensures Stream(tags[..k + 1]) == Stream(tags[..k]) + Tag(tags[k])
    ensures Stream(tags[..k + 1]) <= Stream(tags)
    decreases |tags|
  {
    assert tags[..k + 1][..k] == tags[..k];
    if k + 1 == |tags| {
      assert tags[..k + 1] == tags;
    } else {
      var front := tags[..|tags| - 1];
      StreamPrefix(front, k);
      assert front[..k + 1] == tags[..k + 1];
    }
  }

  /** What follows a tag cannot move its terminator, and a part of the tag has none. */
  lemma EndsFirst(buffer: string, tag: string, more: string)
    requires |tag| >= 3 && buffer <= tag + more && IndexOfTagEnd(tag) == Some(|tag| - 3)
    ensures IndexOfTagEnd(buffer) == if |buffer| >= |tag| then Some(|tag| - 3) else None
    ensures |buffer| >= |tag| ==> buffer[..|tag|] == tag
  {
    assert forall i :: 0 <= i < |buffer| && i < |tag| ==> buffer[i] == (tag + more)[i] == tag[i];
    forall j: nat | EndsAt(buffer, j) && j + 3 <= |tag| ensures EndsAt(tag, j) { }
    if |buffer| >= |tag| { assert EndsAt(buffer, |tag| - 3); }
  }

  /** A buffer that starts a tag: either the tag is complete and comes out, or there is none yet. */
  lemma NextOfPrefix(buffer: string, attrs: seq<Attr>, more: string)
    requires attrs != [] && ValidNames(attrs) && buffer <= Tag(attrs) + more
    ensures var (next, rest) := NextOf(buffer);
            if |buffer| >= |Tag(attrs)| then next == GotTag(Meaning(attrs)) && buffer == Tag(attrs) + rest
            else next == NoTag && rest == buffer
  {
    TerminatorOnlyAtEnd(attrs);
    ParseOfTag(attrs);
    hide Parse, Tag, ValidNames, AssignAll, IndexOfTagEnd;
    EndsFirst(buffer, Tag(attrs), more);
    if |buffer| >= |Tag(attrs)| { assert buffer == buffer[..|Tag(attrs)|] + buffer[|Tag(attrs)|..]; }
  }

  lemma NextInStep(r: Reading, tags: seq<seq<Attr>>, payload: string)
    requires Sendable(tags) && InStep(r, tags) && |r.taken| < |tags| && r.pushed <= Stream(tags) + payload
    ensures var (next, rest) := NextOf(r.buffer);
            var k := |r.taken|;
            if |r.pushed| >= |Stream(tags[..k + 1])|
            then next == GotTag(Meaning(tags[k])) && r.pushed == Stream(tags[..k + 1]) + rest
            else next == NoTag && rest == r.buffer
  {
    hide NextOf, Tag, Stream, Meaning, ValidNames;
    var k := |r.taken|;
    StreamPrefix(tags, k);
    assert tags[k] != [] && ValidNames(tags[k]);
    var done, next, all := Stream(tags[..k]), Stream(tags[..k + 1]), Stream(tags);
    var more := all[|next|..] + payload;
    hide Sendable, InStep;
    assert all + payload == done + Tag(tags[k]) + more by { assert all == next + all[|next|..]; }
    BufferStarts(r.buffer, done, Tag(tags[k]), more, r.pushed, all + payload);
    NextOfPrefix(r.buffer, tags[k], more);
    if |r.pushed| >= |next| { Regroup(r.pushed, done, Tag(tags[k]), NextOf(r.buffer).1, r.buffer, next); }
  }

  lemma Regroup(pushed: string, done: string, tag: string, rest: string, buffer: string, next: string)
    requires pushed == done + buffer && buffer == tag + rest && next == done + tag
    ensures pushed == next + rest
  {
  }

  lemma StepInStep(r: Reading, tags: seq<seq<Attr>>, payload: string, op: Op)
    requires Sendable(tags) && InStep(r, tags) && Enabled(r, |tags|, op)
    requires Apply(r, op).pushed <= Stream(tags) + payload
    ensures InStep(Apply(r, op), tags)
  {
    hide NextOf, Stream, Meaning, Sendable;
    match op
    case PushOp(chunk) =>
      var done := Stream(tags[..|r.taken|]);
      assert done + (r.buffer + chunk) == (done + r.buffer) + chunk;
    case NextOp =>
      NextInStep(r, tags, payload);
      NextTaken(r, op);
      NextKeeps(r, Apply(r, op), tags, NextOf(r.buffer).0, NextOf(r.buffer).1);
  }

  lemma NextKeeps(r: Reading, r': Reading, tags: seq<seq<Attr>>, next: Next, rest: string)
    requires InStep(r, tags) && |r.taken| < |tags|
    requires r' == r.(buffer := rest, taken := if next.GotTag? then r.taken + [next.attrs] else r.taken)
    requires if next.GotTag? then next.attrs == Meaning(tags[|r.taken|]) && r.pushed == Stream(tags[..|r.taken| + 1]) + rest
             else rest == r.buffer
    ensures InStep(r', tags)
  {
    hide Stream, Meaning;
  }

  lemma NextTaken(r: Reading, op: Op)
    requires op.NextOp?
    ensures var (next, rest) := NextOf(r.buffer);
            Apply(r, op) == r.(buffer := rest, taken := if next.GotTag? then r.taken + [next.attrs] else r.taken)
  {
  }

  lemma BufferStarts(buffer: string, done: string, tag: string, more: string, pushed: string, all: string)
    requires pushed == done + buffer && pushed <= all && all == done + tag + more
    ensures buffer <= tag + more
  {
    assert all[|done|..] == tag + more;
    assert pushed[|done|..] == buffer;
    assert forall i :: 0 <= i < |buffer| ==> buffer[i] == pushed[|done| + i] == all[|done| + i] == (tag + more)[i];
  }

  /**
   * However the bytes of some tags and a payload are cut into chunks, and however often the reader looks in between:
   * the tags come out one for one, each meaning what was printed, and the buffer is exactly what was pushed beyond
   * them. Once all have been taken, what is left is the payload, byte for byte.
   */
  lemma {:induction false} AnyChunking(tags: seq<seq<Attr>>, payload: string, ops: seq<Op>)
    requires Sendable(tags) && Pushed(ops) <= Stream(tags) + payload
    ensures var r := ReadAll(|tags|, ops);
            && InStep(r, tags) && r.pushed == Pushed(ops)
            && (|r.taken| == |tags| && Pushed(ops) == Stream(tags) + payload ==> r.buffer == payload)
  {
    if ops != [] {
      var front := ops[..|ops| - 1];
      AnyChunking(tags, payload, front);
      var r := ReadAll(|tags|, front);
      if Enabled(r, |tags|, ops[|ops| - 1]) { StepInStep(r, tags, payload, ops[|ops| - 1]); }
      hide NextOf, Meaning, Sendable;
    }
    var r := ReadAll(|tags|, ops);
    if |r.taken| == |tags| { assert tags[..|r.taken|] == tags; }
    if Pushed(ops) == Stream(tags) + payload && |r.taken| == |tags| {
      assert r.buffer == r.pushed[|Stream(tags)|..] == payload;
    }
  }

  /** A tag that has fully arrived is there to be taken. */
  lemma CompleteTagComesOut(tags: seq<seq<Attr>>, payload: string, ops: seq<Op>)
    requires Sendable(tags) && Pushed(ops) <= Stream(tags) + payload
    ensures var r := ReadAll(|tags|, ops);
            var k := |r.taken|;
            k < |tags| ==>
              (NextOf(r.buffer).0 == (if |Pushed(ops)| >= |Stream(tags[..k + 1])| then GotTag(Meaning(tags[k])) else NoTag))
  {
    AnyChunking(tags, payload, ops);
    var r := ReadAll(|tags|, ops);
    if |r.taken| < |tags| { NextInStep(r, tags, payload); }
    hide NextOf, Stream, Meaning, Sendable, ReadAll;
  }

  // ------------------------------------------------------------ the limit

  /** Push `i` of the run is the RangeError. */
  ghost predicate Throws(tags: nat, ops: seq<Op>, i: nat, limit: nat)
    requires i < |ops|
  {
    ops[i].PushOp? && |ReadAll(tags, ops[..i + 1]).buffer| > limit
  }

  lemma {:induction false} PushedPrefix(ops: seq<Op>, i: nat)
    requires i <= |ops|
    ensures Pushed(ops[..i]) <= Pushed(ops)
    decreases |ops|
  {
    if i < |ops| {
      PushedPrefix(ops[..|ops| - 1], i);
      assert ops[..|ops| - 1][..i] == ops[..i];
    } else {
      assert ops[..i] == ops;
    }
  }

  /**
   * When a push throws, for any cutting and any polling: exactly if the bytes pushed by then are more than the limit
   * beyond the tags taken out.
   */
  lemma PushThrowsIff(tags: seq<seq<Attr>>, payload: string, ops: seq<Op>, i: nat, limit: nat)
    requires Sendable(tags) && Pushed(ops) <= Stream(tags) + payload && i < |ops| && ops[i].PushOp?
    ensures var k := |ReadAll(|tags|, ops[..i]).taken|;
            && k <= |tags| && Pushed(ops[..i + 1]) == Pushed(ops[..i]) + ops[i].chunk
            && (Throws(|tags|, ops, i, limit) <==> |Pushed(ops[..i + 1])| > |Stream(tags[..k])| + limit)
  {
    var before, after := ops[..i], ops[..i + 1];
    PushedPrefix(ops, i + 1);
    PushedPrefix(ops, i);
    AnyChunking(tags, payload, before);
    AnyChunking(tags, payload, after);
    assert after[..|after| - 1] == before;
    hide NextOf, Stream, Meaning, Sendable;
    assert ReadAll(|tags|, after) == Apply(ReadAll(|tags|, before), ops[i]);
  }

  /**
   * A reader that has taken every complete tag before it pushes the next piece, and pushes no more once the last tag
   * expected has been taken.
   */
  ghost predicate Diligent(tags: nat, ops: seq<Op>) {
    forall i :: 0 <= i < |ops| && ops[i].PushOp? ==> Wanting(tags, ops[..i])
  }

  ghost predicate Wanting(tags: nat, ops: seq<Op>) {
    var r := ReadAll(tags, ops);
    |r.taken| < tags && NextOf(r.buffer).0.NoTag?
  }

  /**
   * For such a reader the pieces alone decide: with tags of at most `longest` bytes and pieces of at most `piece`, a
   * limit of `longest` - 1 + `piece` is never exceeded.
   */
  lemma NoPushThrows(tags: seq<seq<Attr>>, payload: string, ops: seq<Op>, i: nat, limit: nat, longest: nat, piece: nat)
    requires Sendable(tags) && Pushed(ops) <= Stream(tags) + payload && Diligent(|tags|, ops) && i < |ops|
    requires forall j :: 0 <= j < |tags| ==> |Tag(tags[j])| <= longest
    requires forall j :: 0 <= j < |ops| && ops[j].PushOp? ==> |ops[j].chunk| <= piece
    requires longest + piece <= limit + 1
    ensures !Throws(|tags|, ops, i, limit)
  {
    hide Stream, Tag, Sendable, Throws, NextOf;
    if ops[i].PushOp? {
      var k := |ReadAll(|tags|, ops[..i]).taken|;
      assert Wanting(|tags|, ops[..i]);
      PushedPrefix(ops, i);
      PushThrowsIff(tags, payload, ops, i, limit);
      CompleteTagComesOut(tags, payload, ops[..i]);
      StreamPrefix(tags, k);
    } else {
      PlainOp(|tags|, ops, i, limit);
    }
  }

  lemma PlainOp(tags: nat, ops: seq<Op>, i: nat, limit: nat)
    requires i < |ops| && !ops[i].PushOp?
    ensures !Throws(tags, ops, i, limit)
  {
  }
}
