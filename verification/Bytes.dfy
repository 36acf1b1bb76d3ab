/** Byte strings, and the block buffer every sender cuts its blocks from (src/util/bytes.ts). */
module Bytes {

  type Byte = b: int | 0 <= b < 256

  datatype Option<+T> = None | Some(value: T)

  /** The parts of a body, laid end to end. */
  function Flatten<T>(parts: seq<seq<T>>): seq<T> {
    if parts == [] then [] else parts[0] + Flatten(parts[1..])
  }

  lemma {:induction false} FlattenConcat<T>(a: seq<seq<T>>, b: seq<seq<T>>)
    ensures Flatten(a + b) == Flatten(a) + Flatten(b)
  {
    if a == [] {
      assert a + b == b;
    } else {
      assert (a + b)[1..] == a[1..] + b;
      FlattenConcat(a[1..], b);
    }
  }

  lemma FlattenSnoc<T>(a: seq<seq<T>>, part: seq<T>)
    ensures Flatten(a + [part]) == Flatten(a) + part
  {
    FlattenConcat(a, [part]);
    assert Flatten([part]) == part + Flatten<T>([]);
  }

  /** A prefix of the parts flattens to a prefix of the bytes. */
  lemma FlattenPrefix<T>(parts: seq<seq<T>>, k: nat)
    requires k <= |parts|
    ensures Flatten(parts[..k]) <= Flatten(parts)
    ensures Flatten(parts) == Flatten(parts[..k]) + Flatten(parts[k..])
  {
    assert parts == parts[..k] + parts[k..];
    FlattenConcat(parts[..k], parts[k..]);
  }

  /** Copies every part into one array at a running offset. */
  method ConcatBytes(parts: seq<seq<Byte>>) returns (bytes: seq<Byte>)
    ensures bytes == Flatten(parts)
  {
    var total := 0;
    for i := 0 to |parts|
      invariant total == |Flatten(parts[..i])|
    {
      assert parts[..i + 1] == parts[..i] + [parts[i]];
      FlattenSnoc(parts[..i], parts[i]);
      total := total + |parts[i]|;
    }
    assert parts[..|parts|] == parts;
    var out := new Byte[total](_ => 0);
    var offset := 0;
    for i := 0 to |parts|
      invariant offset == |Flatten(parts[..i])| <= total == out.Length
      invariant out[..offset] == Flatten(parts[..i])
    {
      assert parts[..i + 1] == parts[..i] + [parts[i]];
      FlattenSnoc(parts[..i], parts[i]);
      FlattenPrefix(parts, i + 1);
      ghost var done := out[..offset];
      forall k | 0 <= k < |parts[i]| { out[offset + k] := parts[i][k]; }
      assert out[..offset] == done;
      offset := offset + |parts[i]|;
    }
    bytes := out[..];
  }

  datatype TakeResult = Taken(block: seq<Byte>) | RangeError

  /**
   * Pushed parts, cut into contiguous blocks from the front. `copied` counts the
   * bytes that coalescing has ever copied; `pushed` and `removed` count the bytes
   * that went in and came out.
   */
  class BlockBuffer {
    var parts: seq<seq<Byte>>
    var bytes: nat
    ghost var pushed: nat
    ghost var removed: nat
    ghost var copied: nat

    ghost function Contents(): seq<Byte>
      reads this
    {
      Flatten(parts)
    }

    /** Includes the amortised bound: only bytes outside the front part may still be copied for free. */
    ghost predicate Valid()
      reads this
    {
      && bytes == |Contents()|
      && (forall i :: 0 <= i < |parts| ==> parts[i] != [])
      && pushed == removed + bytes
      && copied + (if parts == [] then 0 else |Flatten(parts[1..])|) <= pushed + removed
    }

    constructor ()
      ensures Valid() && Contents() == []
      ensures pushed == removed == copied == 0
    {
      parts, bytes := [], 0;
      pushed, removed, copied := 0, 0, 0;
    }

    /** The whole copying cost of every run so far, whatever the interleaving was. */
    lemma CopyingIsAmortised()
      requires Valid()
      ensures copied <= pushed + removed <= 2 * pushed
    {
    }

    method Push(part: seq<Byte>)
      requires Valid()
      modifies this
      ensures Valid() && Contents() == old(Contents()) + part
      ensures pushed == old(pushed) + |part| && removed == old(removed) && copied == old(copied)
    {
      if part == [] { return; }
      FlattenSnoc(parts, part);
      if parts != [] {
        assert (parts + [part])[1..] == parts[1..] + [part];
        FlattenSnoc(parts[1..], part);
      }
      parts := parts + [part];
      bytes := bytes + |part|;
      pushed := pushed + |part|;
    }

    /** Exactly `n` bytes off the front; anything but `0 < n <= size` is a RangeError and changes nothing. */
    method Take(n: int) returns (r: TakeResult)
      requires Valid()
      modifies this
      ensures Valid()
      ensures r.Taken? <==> 0 < n <= |old(Contents())|
      ensures r.Taken? ==> r.block == old(Contents())[..n] && Contents() == old(Contents())[n..]
      ensures r.Taken? ==> removed == old(removed) + n
      ensures r.RangeError? ==> Contents() == old(Contents()) && removed == old(removed) && copied == old(copied)
      ensures pushed == old(pushed)
    {
      if n <= 0 || bytes < n { return RangeError; }
      if |parts[0]| < n {
        var all := ConcatBytes(parts);
        assert Flatten([all]) == all + Flatten<Byte>([]);
        copied := copied + bytes;
        parts := [all];
      }
      var head := parts[0];
      var block := head[..n];
      if |head| > n {
        assert ([head[n..]] + parts[1..])[1..] == parts[1..];
        parts := [head[n..]] + parts[1..];
      } else {
        parts := parts[1..];
        if parts != [] { assert Flatten(parts) == parts[0] + Flatten(parts[1..]); }
      }
      bytes := bytes - n;
      removed := removed + n;
      assert Contents() == old(Contents())[n..];
      r := Taken(block);
    }

    /** Everything buffered, leaving the buffer empty; a single part is handed over uncopied. */
    method Drain() returns (all: seq<Byte>)
      requires Valid()
      modifies this
      ensures Valid() && all == old(Contents()) && Contents() == []
      ensures pushed == old(pushed) && removed == pushed
    {
      if |parts| == 1 {
        all := parts[0];
        assert Flatten(parts) == parts[0] + Flatten(parts[1..]);
      } else {
        all := ConcatBytes(parts);
        copied := copied + bytes;
      }
      removed := removed + bytes;
      parts, bytes := [], 0;
    }
  }
}
