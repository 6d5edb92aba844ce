/** The bounded reader under the archive scanner: it counts, hashes and remembers the last blocks of a
    stream that arrives in pieces of any size. */
module Reader {
  import opened Values
  import Encoding

  const BLOCK: nat := 512
  const TERMINATOR: nat := 1024

  datatype ReadError = EndOfStream | LimitExceeded | SourceFailed | Cancelled

  /** A stream that is handed out front to back, in pieces as the source likes. A dependable source
      does not fail, hands out something while there is something left, and then reports the end. */
  class Source {
    const stream: Encoding.Bytes
    const dependable: bool
    var position: nat

    constructor (stream: Encoding.Bytes, dependable: bool)
      ensures this.stream == stream && this.dependable == dependable && position == 0
    {
      this.stream, this.dependable := stream, dependable;
      position := 0;
    }

    ghost predicate Valid()
      reads this
    {
      position <= |stream|
    }

    /** At most `request` bytes; the end is reported only when nothing is left. */
    method Read(request: nat) returns (bytes: Encoding.Bytes, error: Option<ReadError>)
      requires Valid()
      modifies this
      ensures Valid() && position == old(position) + |bytes| && |bytes| <= request
      ensures bytes == stream[old(position)..position]
      ensures error == Some(EndOfStream) ==> position == |stream|
      ensures error.Some? ==> error.value.EndOfStream? || error.value.SourceFailed?
      ensures dependable && request > 0 ==>
        error == (if old(position) == |stream| then Some(EndOfStream) else None) &&
        (old(position) < |stream| ==> bytes != [])
    {
      var most := Min(request, |stream| - position);
      var size: int := *;
      if size < 0 || size > most {
        size := 0;
      }
      if dependable && size == 0 {
        size := most;
      }
      bytes := stream[position..position + size];
      var ended := position == |stream|;
      position := position + size;
      var failed: bool := *;
      var last: bool := *;
      if dependable {
        return bytes, if ended then Some(EndOfStream) else None;
      }
      error := if failed then Some(SourceFailed)
               else if last && position == |stream| then Some(EndOfStream) else None;
    }
  }

  function Min(a: int, b: int): int {
    if a < b then a else b
  }

  /** Slot i of the ring holds byte i modulo its size of the last bytes seen. */
  predicate Remembers(ring: seq<Byte>, seen: Encoding.Bytes) {
    |ring| == TERMINATOR &&
    forall i | 0 <= i < |seen| && i >= |seen| - TERMINATOR :: ring[i % TERMINATOR] == seen[i]
  }

  /** A stream that ends in two zero blocks on a block boundary. */
  predicate TarComplete(stream: Encoding.Bytes) {
    |stream| >= TERMINATOR && |stream| % BLOCK == 0 &&
    forall i | |stream| - TERMINATOR <= i < |stream| :: stream[i] == 0
  }

  lemma {:induction false} RememberedZeros(ring: seq<Byte>, seen: Encoding.Bytes)
    requires Remembers(ring, seen) && |seen| >= TERMINATOR
    ensures (forall k | 0 <= k < TERMINATOR :: ring[k] == 0) <==>
            (forall i | |seen| - TERMINATOR <= i < |seen| :: seen[i] == 0)
  {
    if forall i | |seen| - TERMINATOR <= i < |seen| :: seen[i] == 0 {
      forall k | 0 <= k < TERMINATOR
        ensures ring[k] == 0
      {
        var i := SlotIndex(|seen|, k);
        assert seen[i] == 0 && i % TERMINATOR == k;
      }
    }
  }

  /** Each slot is filled by exactly one of the last bytes. */
  lemma {:induction false} SlotIndex(length: nat, k: nat) returns (i: nat)
    requires length >= TERMINATOR && k < TERMINATOR
    ensures length - TERMINATOR <= i < length && i % TERMINATOR == k
  {
    var offset := (length - TERMINATOR) % TERMINATOR;
    i := length - TERMINATOR + (if k >= offset then k - offset else k + TERMINATOR - offset);
    var q := (length - TERMINATOR) / TERMINATOR;
    assert length - TERMINATOR == q * TERMINATOR + offset;
    assert i == q * TERMINATOR + (if k >= offset then k else k + TERMINATOR);
  }

  lemma {:induction false} RememberOne(ring: seq<Byte>, seen: Encoding.Bytes, current: Byte)
    requires Remembers(ring, seen)
    ensures Remembers(ring[|seen| % TERMINATOR := current], seen + [current])
  {
    var n := |seen|;
    forall i | 0 <= i < n && i >= n + 1 - TERMINATOR
      ensures i % TERMINATOR != n % TERMINATOR
    {
      NeverMeet(i, n);
    }
  }

  lemma {:induction false} NeverMeet(i: nat, n: nat)
    requires i < n < i + TERMINATOR
    ensures i % TERMINATOR != n % TERMINATOR
  {
    assert i == (i / TERMINATOR) * TERMINATOR + i % TERMINATOR;
    assert n == (n / TERMINATOR) * TERMINATOR + n % TERMINATOR;
  }

  lemma {:induction false} NextSlot(n: nat)
    ensures (n % TERMINATOR + 1) % TERMINATOR == (n + 1) % TERMINATOR
  {
  }

  class BoundedArchiveReader {
    const source: Source
    const limit: int
    var hashed: Encoding.Bytes
    var count: int
    var exceeded: bool
    const tail: array<Byte>
    var tailSize: nat
    var tailNext: nat

    constructor (source: Source, limit: int)
      requires limit > 0 && source.Valid() && source.position == 0
      ensures this.source == source && this.limit == limit && Valid() && hashed == [] && !exceeded && fresh(tail)
    {
      this.source, this.limit := source, limit;
      hashed, count, exceeded, tailSize, tailNext := [], 0, false, 0, 0;
      tail := new Byte[TERMINATOR](_ => 0);
    }

    /** Everything delivered was hashed and is remembered; the count stops short of the excess. */
    ghost predicate Valid()
      reads this, source, tail
    {
      source.Valid() && limit > 0 && hashed == source.stream[..source.position] &&
      tail.Length == TERMINATOR && Remembers(tail[..], hashed) &&
      tailNext == |hashed| % TERMINATOR && tailSize == Min(|hashed|, TERMINATOR) &&
      0 <= count <= limit && (!exceeded ==> count == |hashed|) && (exceeded ==> |hashed| > limit)
    }

    /** A dependable source moves on, up to one byte beyond the limit, or reports the end. */
    ghost predicate Delivers(before: nat, error: Option<ReadError>)
      reads this, source
    {
      if before == |source.stream| then error == Some(EndOfStream)
      else |hashed| > before && (error.None? <==> !exceeded) && (error.Some? ==> !error.value.EndOfStream?)
    }

    /** Hands on what the source delivers, at most one byte beyond the limit. */
    method Read(length: nat) returns (bytes: Encoding.Bytes, error: Option<ReadError>)
      requires Valid()
      modifies this, source, tail
      ensures Valid() && |bytes| <= length && hashed == old(hashed) + bytes
      ensures |hashed| <= limit + 1 || hashed == old(hashed)
      ensures exceeded ==> error.Some? && error.value in [LimitExceeded, Cancelled]
      ensures error == Some(EndOfStream) ==> !exceeded && |hashed| == |source.stream|
      ensures source.dependable && length > 0 ==> if old(exceeded) then error.Some? else Delivers(old(|hashed|), error)
    {
      var cancelled: bool := *;
      if cancelled && !source.dependable {
        return [], Some(Cancelled);
      }
      if exceeded {
        return [], Some(LimitExceeded);
      }
      var remaining := limit - count;
      var request := length;
      if remaining < request {
        request := remaining + 1;
      }
      bytes, error := source.Read(request);
      assert hashed + bytes == source.stream[..source.position];
      if |bytes| > 0 {
        RecordTail(bytes);
        if |bytes| > remaining {
          exceeded := true;
          return bytes, Some(LimitExceeded);
        }
        count := count + |bytes|;
      }
      return bytes, error;
    }

    method RecordTail(value: Encoding.Bytes)
      requires tail.Length == TERMINATOR && Remembers(tail[..], hashed)
      requires tailNext == |hashed| % TERMINATOR && tailSize == Min(|hashed|, TERMINATOR)
      modifies this`hashed, this`tailNext, this`tailSize, tail
      ensures hashed == old(hashed) + value && Remembers(tail[..], hashed)
      ensures tailNext == |hashed| % TERMINATOR && tailSize == Min(|hashed|, TERMINATOR)
    {
      for i := 0 to |value|
        invariant hashed == old(hashed) + value[..i] && Remembers(tail[..], hashed)
        invariant tailNext == |hashed| % TERMINATOR && tailSize == Min(|hashed|, TERMINATOR)
      {
        RememberOne(tail[..], hashed, value[i]);
        NextSlot(|hashed|);
        ghost var before := tail[..];
        tail[tailNext] := value[i];
        assert tail[..] == before[tailNext := value[i]];
        tailNext := (tailNext + 1) % tail.Length;
        if tailSize < tail.Length {
          tailSize := tailSize + 1;
        }
        hashed := hashed + [value[i]];
        assert value[..i + 1] == value[..i] + [value[i]];
      }
      assert value[..|value|] == value;
    }

    /** Decides from the counters and the ring alone whether what was read is a whole archive. */
    method CompleteTar() returns (complete: bool)
      requires Valid()
      ensures complete <==> |hashed| <= limit && TarComplete(hashed)
    {
      if exceeded || count < TERMINATOR || count % BLOCK != 0 || tailSize != tail.Length {
        return false;
      }
      RememberedZeros(tail[..], hashed);
      for k := 0 to tail.Length
        invariant forall j | 0 <= j < k :: tail[j] == 0
      {
        if tail[k] != 0 {
          assert tail[..][k] != 0;
          return false;
        }
      }
      assert forall k | 0 <= k < TERMINATOR :: tail[..][k] == 0;
      return true;
    }
  }

  /** The size of the library's copy buffer. */
  const BUFFER: nat := 32768

  predicate Zeros(stream: Encoding.Bytes, from: nat) {
    forall i | from <= i < |stream| :: stream[i] == 0
  }

  /** Reads on until the end of the stream, as long as there is nothing but zeros. */
  method ConsumeZeroPadding(reader: BoundedArchiveReader, attempts: nat) returns (ended: bool)
    requires reader.Valid()
    modifies reader, reader.source, reader.tail
    ensures reader.Valid() && old(reader.hashed) <= reader.hashed
    ensures ended ==>
      !reader.exceeded && |reader.hashed| == |reader.source.stream| && Zeros(reader.source.stream, old(|reader.hashed|))
    ensures reader.source.dependable && attempts > |reader.source.stream| - old(|reader.hashed|) ==>
      (ended <==> |reader.source.stream| <= reader.limit && Zeros(reader.source.stream, old(|reader.hashed|)))
  {
    ended := false;
    for i := 0 to attempts
      invariant reader.Valid() && old(reader.hashed) <= reader.hashed
      invariant forall k | old(|reader.hashed|) <= k < |reader.hashed| :: reader.hashed[k] == 0
      invariant reader.source.dependable && !reader.exceeded ==> |reader.hashed| >= old(|reader.hashed|) + i
      invariant reader.exceeded ==> reader.exceeded == old(reader.exceeded)
    {
      ghost var before := reader.hashed;
      var bytes, error := reader.Read(BUFFER);
      assert forall k | 0 <= k < |bytes| :: reader.hashed[|before| + k] == bytes[k];
      if exists k | 0 <= k < |bytes| :: bytes[k] != 0 {
        return false;
      }
      if error.Some? {
        return error.value.EndOfStream?;
      }
    }
  }

  /** Reads the bytes that the member scan takes, in pieces as small as it likes. An end or an error
      that comes with the last of them is not noticed here. */
  method Take(reader: BoundedArchiveReader, taken: nat, attempts: nat) returns (ok: bool)
    requires reader.Valid() && |reader.hashed| <= taken
    modifies reader, reader.source, reader.tail
    ensures reader.Valid() && (ok ==> |reader.hashed| == taken)
    ensures
      reader.source.dependable && !old(reader.exceeded) && taken <= |reader.source.stream| <= reader.limit &&
      attempts >= taken - old(|reader.hashed|)
      ==> ok
  {
    for i := 0 to attempts
      invariant reader.Valid() && |reader.hashed| <= taken
      invariant
        reader.source.dependable && !old(reader.exceeded) && taken <= |reader.source.stream| <= reader.limit
        ==> !reader.exceeded && |reader.hashed| >= Min(old(|reader.hashed|) + i, taken)
    {
      if |reader.hashed| == taken {
        return true;
      }
      var length: int := *;
      if length <= 0 || length > taken - |reader.hashed| {
        length := taken - |reader.hashed|;
      }
      var bytes, error := reader.Read(length);
      if error.Some? && |reader.hashed| < taken {
        return false;
      }
    }
    return |reader.hashed| == taken;
  }
}
