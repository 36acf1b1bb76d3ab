/** How a body travels, and how large its pieces may be (src/transport/select.ts). */
module Select {
  import opened Bytes
  import opened Base64
  import opened Chunked

  const MIN_CHUNK_SIZE := 256
  const MAX_CHUNK_SIZE := 65536
  const DEFAULT_CHUNK_SIZE := 4096
  const SAFE_CHUNK_SIZE_CAP := 8192
  const ENVELOPE_HEADROOM := 2048
  const CHUNK_ENVELOPE := 512

  function Min(a: int, b: int): int { if a < b then a else b }

  function Max(a: int, b: int): int { if a < b then b else a }

  // ------------------------------------------------------------ stanza budgets

  function ResolveChunkSize(requesterMax: Option<int>): (size: nat)
    ensures MIN_CHUNK_SIZE <= size <= MAX_CHUNK_SIZE
  {
    var wanted := if requesterMax.Some? then requesterMax.value else Min(DEFAULT_CHUNK_SIZE, SAFE_CHUNK_SIZE_CAP);
    Min(MAX_CHUNK_SIZE, Max(MIN_CHUNK_SIZE, wanted))
  }

  datatype Budgets = Budgets(inlineBudgetBytes: int, maxChunkSize: int)

  function StanzaBudgets(maxStanzaBytes: int): Budgets {
    Budgets(Max(1024, maxStanzaBytes - ENVELOPE_HEADROOM),
            Min(MAX_CHUNK_SIZE, Max(MIN_CHUNK_SIZE, (maxStanzaBytes - CHUNK_ENVELOPE) * 3 / 4)))
  }

  /** The chunk size a sender uses towards a peer that advertises the budget of its limit. */
  function ChunkSizeFor(maxStanzaBytes: int): (size: nat)
    ensures MIN_CHUNK_SIZE <= size <= MAX_CHUNK_SIZE
  {
    ResolveChunkSize(Some(StanzaBudgets(maxStanzaBytes).maxChunkSize))
  }

  /** The sizes themselves: the peer's wish within 256 and 65536, else 4096; what is left of a stanza limit, in whole bytes. */
  lemma SizesAre(requesterMax: Option<int>, maxStanzaBytes: int)
    ensures var size := ResolveChunkSize(requesterMax);
            && 256 <= size <= 65536 && (requesterMax.None? ==> size == 4096)
            && (requesterMax.Some? ==>
                  var wish := requesterMax.value;
                  if wish < 256 then size == 256 else if wish > 65536 then size == 65536 else size == wish)
    ensures var b := StanzaBudgets(maxStanzaBytes);
            && b.inlineBudgetBytes == (if maxStanzaBytes < 3072 then 1024 else maxStanzaBytes - 2048)
            && 256 <= b.maxChunkSize <= 65536
            && (256 < b.maxChunkSize ==> 4 * b.maxChunkSize <= 3 * (maxStanzaBytes - 512))
            && (b.maxChunkSize < 65536 ==> 3 * (maxStanzaBytes - 512) < 4 * (b.maxChunkSize + 1))
  {
  }

  lemma LengthGrows(m: nat, n: nat)
    requires m <= n
    ensures Base64Length(m) <= Base64Length(n)
  {
  }

  /** The rounding of the budget and of the encoding together cost at most two characters, and only for some limits. */
  lemma SizeFits(maxStanzaBytes: int)
    requires maxStanzaBytes >= 854
    ensures Base64Length(ChunkSizeFor(maxStanzaBytes)) <= maxStanzaBytes - 510
    ensures 854 <= maxStanzaBytes <= 87893 ==>
              (Base64Length(ChunkSizeFor(maxStanzaBytes)) == maxStanzaBytes - 510 <==> maxStanzaBytes % 4 == 2)
  {
    var n := maxStanzaBytes - CHUNK_ENVELOPE;
    var q, r := n / 4, n % 4;
    assert n == 4 * q + r && n * 3 / 4 == 3 * q + 3 * r / 4;
  }

  /** Every chunk the sender emits for `body` keeps its payload within `limit`. */
  ghost predicate PayloadsWithin(body: seq<Byte>, size: nat, limit: int)
    requires size > 0
  {
    var chunks := Stanzas(Blocks(body, size), 0);
    forall k :: 0 <= k < |chunks| ==> |chunks[k].payload| <= limit
  }

  lemma BodyWithin(body: seq<Byte>, size: nat)
    requires size > 0
    ensures PayloadsWithin(body, size, Base64Length(size))
  {
    BlocksFlatten(body, size);
    var blocks := Blocks(body, size);
    forall k | 0 <= k < |blocks| ensures |Encode(blocks[k])| <= Base64Length(size) {
      EncodedLength(blocks[k]);
      LengthGrows(|blocks[k]|, size);
    }
  }

  /** A body of one full chunk. */
  lemma FullChunk(size: nat) returns (body: seq<Byte>)
    requires size > 0
    ensures |Stanzas(Blocks(body, size), 0)[0].payload| == Base64Length(size)
  {
    body := seq(size, _ => 0);
    EncodedLength(body);
  }

  /** What remains of a limit after a chunk's payload is enough for the rest of its stanza. */
  ghost predicate ChunksFit(maxStanzaBytes: int, body: seq<Byte>) {
    PayloadsWithin(body, ChunkSizeFor(maxStanzaBytes), maxStanzaBytes - 510)
  }

  /**
   * The budget chain: with the chunk size derived from a server's stanza limit, every chunk of every body leaves 510
   * bytes for its envelope, exactly when the limit is at least 854; below that the minimum chunk size wins.
   */
  lemma ChunksFitIff(maxStanzaBytes: int)
    ensures (forall body: seq<Byte> :: ChunksFit(maxStanzaBytes, body)) <==> maxStanzaBytes >= 854
  {
    var size := ChunkSizeFor(maxStanzaBytes);
    if maxStanzaBytes >= 854 {
      SizeFits(maxStanzaBytes);
      forall body: seq<Byte> ensures ChunksFit(maxStanzaBytes, body) { BodyWithin(body, size); }
    } else {
      assert size == MIN_CHUNK_SIZE;
      var body := FullChunk(size);
      assert !ChunksFit(maxStanzaBytes, body);
    }
  }

  // ------------------------------------------------------------ which mechanism

  datatype Mechanism = Ibb | ChunkedBase64 | Sipub | Jingle

  datatype Accept = Accept(ibb: bool, chunked: bool, sipub: bool, jingle: bool, maxChunkSize: Option<int>)

  /** A body as the decision sees it: a byte body with the text it decodes to, if it does. */
  datatype Body = Empty | Element(serialized: string) | ByteBody(bytes: seq<Byte>, text: Option<string>) | StreamBody

  datatype Decision =
    | NoBody | AsText(text: string) | AsXml(serialized: string) | AsBase64(bytes: seq<Byte>)
    | ByIbb(blockSize: nat) | ByChunks(chunkSize: nat) | BySipub | ByJingle(blockSize: nat)
    | BodyTooLarge

  predicate Accepts(accept: Accept, mechanism: Mechanism) {
    match mechanism
    case Ibb => accept.ibb
    case ChunkedBase64 => accept.chunked
    case Sipub => accept.sipub
    case Jingle => accept.jingle
  }

  predicate CanStream(accept: Accept, preferred: seq<Mechanism>) {
    exists i :: 0 <= i < |preferred| && Accepts(accept, preferred[i])
  }

  function By(accept: Accept, mechanism: Mechanism): Decision {
    match mechanism
    case Ibb => ByIbb(ResolveChunkSize(accept.maxChunkSize))
    case ChunkedBase64 => ByChunks(ResolveChunkSize(accept.maxChunkSize))
    case Sipub => BySipub
    case Jingle => ByJingle(ResolveChunkSize(accept.maxChunkSize))
  }

  /** The first preferred mechanism the peer accepts; too large exactly when there is none. */
  method SelectStream(accept: Accept, preferred: seq<Mechanism>) returns (d: Decision)
    ensures d == BodyTooLarge <==> !CanStream(accept, preferred)
    ensures d != BodyTooLarge ==>
              exists i :: 0 <= i < |preferred| && Accepts(accept, preferred[i]) && d == By(accept, preferred[i])
                && forall j :: 0 <= j < i ==> !Accepts(accept, preferred[j])
  {
    for i := 0 to |preferred|
      invariant forall j :: 0 <= j < i ==> !Accepts(accept, preferred[j])
    {
      var mechanism := preferred[i];
      var size := ResolveChunkSize(accept.maxChunkSize);
      assert Accepts(accept, mechanism) ==> CanStream(accept, preferred);
      if mechanism == Ibb && accept.ibb { return ByIbb(size); }
      if mechanism == ChunkedBase64 && accept.chunked { return ByChunks(size); }
      if mechanism == Sipub && accept.sipub { return BySipub; }
      if mechanism == Jingle && accept.jingle { return ByJingle(size); }
    }
    return BodyTooLarge;
  }

  // ------------------------------------------------------------ what goes inline

  /** XML text with its five special characters written as entities. */
  function Escaped(text: string): string {
    if text == "" then ""
    else
      Escaped(text[..|text| - 1]) +
      (match text[|text| - 1]
       case '&' => "&amp;"
       case '<' => "&lt;"
       case '>' => "&gt;"
       case '"' => "&quot;"
       case '\'' => "&apos;"
       case c => [c])
  }

  method EscapedLength(text: string) returns (n: nat)
    ensures n == |Escaped(text)|
  {
    var extra := 0;
    for i := 0 to |text|
      invariant i + extra == |Escaped(text[..i])|
    {
      assert text[..i + 1][..i] == text[..i];
      var c := text[i];
      if c == '&' { extra := extra + 4; }
      else if c == '<' || c == '>' { extra := extra + 3; }
      else if c == '"' || c == '\'' { extra := extra + 5; }
    }
    assert text[..|text|] == text;
    n := |text| + extra;
  }

  /** What escaping costs: four characters for an ampersand, three for a bracket, five for a quote. */
  lemma {:induction false} EscapedCosts(text: string)
    ensures var m := multiset(text);
            |Escaped(text)| == |text| + 4 * m['&'] + 3 * (m['<'] + m['>']) + 5 * (m['"'] + m['\''])
  {
    if text != "" {
      var front, last := text[..|text| - 1], text[|text| - 1];
      EscapedCosts(front);
      assert text == front + [last];
      assert multiset(text) == multiset(front) + multiset{last};
    }
  }

  /** Control characters no XML 1.0 document can hold. */
  predicate IllegalIn(text: string) {
    exists c :: c in text && (c as int <= 8 || c as int == 11 || c as int == 12 || 14 <= c as int <= 31)
  }

  /** What a decision puts into the stanza itself. */
  function InlineBytes(d: Decision): nat {
    match d
    case AsText(text) => |Escaped(text)|
    case AsXml(serialized) => |serialized|
    case AsBase64(bytes) => |Encode(bytes)|
    case _ => 0
  }

  /** Whether some inline form of the body is within the budget. */
  ghost predicate FitsInline(body: Body, textual: bool, budget: int) {
    match body
    case Empty => true
    case Element(serialized) => |serialized| <= budget
    case ByteBody(bytes, text) =>
      || (textual && text.Some? && !IllegalIn(text.value) && |Escaped(text.value)| <= budget)
      || |Encode(bytes)| <= budget
    case StreamBody => false
  }

  /**
   * The whole decision. Whatever goes inline is within the budget as escaped or encoded; a body is refused exactly
   * when no inline form fits and no mechanism is open; bytes are never sent as anything but themselves.
   */
  method SelectEncoding(body: Body, textual: bool, accept: Accept, preferred: seq<Mechanism>, budget: int) returns (d: Decision)
    ensures d == NoBody <==> body == Empty
    ensures d.AsText? || d.AsXml? || d.AsBase64? ==> InlineBytes(d) <= budget
    ensures d == BodyTooLarge <==> !FitsInline(body, textual, budget) && !CanStream(accept, preferred)
    ensures FitsInline(body, textual, budget) <==> d.NoBody? || d.AsText? || d.AsXml? || d.AsBase64?
    ensures d.AsBase64? ==> body.ByteBody? && d.bytes == body.bytes
    ensures d.AsText? ==> body.ByteBody? && textual && body.text == Some(d.text) && !IllegalIn(d.text)
    ensures d.AsBase64? && textual && body.text.Some? && !IllegalIn(body.text.value) ==> |Escaped(body.text.value)| > budget
    ensures !FitsInline(body, textual, budget) && CanStream(accept, preferred) ==>
              exists i :: 0 <= i < |preferred| && Accepts(accept, preferred[i]) && d == By(accept, preferred[i])
                && forall j :: 0 <= j < i ==> !Accepts(accept, preferred[j])
    ensures d.AsXml? ==> body == Element(d.serialized)
  {
    if body == Empty { return NoBody; }
    if body.Element? {
      if |body.serialized| <= budget { return AsXml(body.serialized); }
      d := SelectStream(accept, preferred);
      return;
    }
    if body.ByteBody? {
      EncodedLength(body.bytes);
      if textual && body.text.Some? && !IllegalIn(body.text.value) {
        var n := EscapedLength(body.text.value);
        if n <= budget { return AsText(body.text.value); }
      }
      if Base64Length(|body.bytes|) <= budget { return AsBase64(body.bytes); }
    }
    d := SelectStream(accept, preferred);
  }
}
