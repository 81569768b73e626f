/** Reading a payload of declared length from a reader that may deliver it in pieces, be interrupted, or fail.
    Every attempt is charged, and exactly the declared bytes are hashed. */
module PayloadReader {
  import opened Base

  const FILE_CHUNK_BYTES: nat := 8192

  /** What one call of the inner reader does: nothing yet, an error, or up to `extra` + 1 of the bytes asked
      for (none only at the end of the stream). */
  datatype Attempt = Interrupted | Failed | Deliver(extra: nat)

  datatype ReadError = TooManyReads | ReadFailed | Truncated | TrailingBytes

  /** Errors that depend on how the reader behaves, not on the bytes. */
  predicate Transport(e: ReadError) { e == TooManyReads || e == ReadFailed }

  class ExactPayloadReader {
    const stream: Bytes
    const attempts: nat -> Attempt
    const expected: nat
    const maxOperations: nat
    var position: nat
    var consumed: nat
    var operations: nat
    var hashed: Bytes

    constructor (stream: Bytes, attempts: nat -> Attempt, expected: nat, maxOperations: nat)
      ensures this.stream == stream && this.attempts == attempts && this.expected == expected && this.maxOperations == maxOperations
      ensures Valid() && consumed == 0 && operations == 0
    {
      this.stream, this.attempts, this.expected, this.maxOperations := stream, attempts, expected, maxOperations;
      position, consumed, operations, hashed := 0, 0, 0, [];
    }

    /** What has been consumed is the beginning of the stream, and that is what has been hashed. */
    ghost predicate Valid()
      reads this
    {
      && position == consumed <= |stream| && consumed <= expected && operations <= maxOperations
      && hashed == stream[..consumed]
    }

    /** The evidence behind a transport error. */
    ghost predicate Excused(e: ReadError)
      reads this
    {
      && (e == TooManyReads ==> operations == maxOperations)
      && (e == ReadFailed ==> exists i :: 0 <= i < operations && attempts(i) == Failed)
    }

    function Remaining(): nat
      requires Valid()
      reads this
    {
      expected - consumed
    }

    /** One charged read; interrupted attempts are charged and repeated. */
    method ChargedRead(length: nat) returns (r: Result<Bytes, ReadError>)
      requires position <= |stream| && operations <= maxOperations && length > 0
      modifies this`position, this`operations
      ensures old(operations) <= operations <= maxOperations && position <= |stream|
      ensures r.Failure? ==> Transport(r.error) && Excused(r.error) && position == old(position)
      ensures r.Success? ==> |r.value| <= length && position == old(position) + |r.value| && r.value == stream[old(position)..position]
      ensures r.Success? ==> (r.value == [] <==> old(position) == |stream|)
    {
      while true
        invariant old(operations) <= operations <= maxOperations && position == old(position)
        decreases maxOperations - operations
      {
        if operations == maxOperations {
          return Failure(TooManyReads);
        }
        var attempt := attempts(operations);
        operations := operations + 1;
        match attempt {
          case Interrupted =>
          case Failed =>
            assert attempts(operations - 1) == Failed;
            return Failure(ReadFailed);
          case Deliver(extra) =>
            var count := if extra + 1 < length then extra + 1 else length;
            if count > |stream| - position {
              count := |stream| - position;
            }
            var bytes := stream[position..position + count];
            position := position + count;
            return Success(bytes);
        }
      }
    }

    /** Exactly `length` bytes of the payload, however many operations that takes. */
    method ReadExact(length: nat) returns (r: Result<Bytes, ReadError>)
      requires Valid()
      modifies this
      ensures Valid() && old(consumed) <= consumed <= old(consumed) + length && old(operations) <= operations
      ensures r.Success? ==> consumed == old(consumed) + length && r.value == stream[old(consumed)..consumed]
      ensures r.Failure? && Transport(r.error) ==> Excused(r.error)
      ensures r == Failure(Truncated) ==> consumed < old(consumed) + length && (consumed == expected || consumed == |stream|)
      ensures r != Failure(TrailingBytes)
    {
      var out: Bytes := [];
      while |out| < length
        invariant Valid() && old(operations) <= operations
        invariant |out| <= length && consumed == old(consumed) + |out| && out == stream[old(consumed)..consumed]
        decreases length - |out|
      {
        if Remaining() == 0 {
          return Failure(Truncated);
        }
        var requested := length - |out|;
        if Remaining() < requested {
          requested := Remaining();
        }
        var part := ChargedRead(requested);
        if part.Failure? {
          return Failure(part.error);
        }
        if part.value == [] {
          return Failure(Truncated);
        }
        hashed := hashed + part.value;
        consumed := consumed + |part.value|;
        out := out + part.value;
      }
      r := Success(out);
    }

    /** Reads the rest of the payload and makes sure that nothing follows.  On success the whole stream, and
        nothing else, has been hashed. */
    method DrainVerifyEnd() returns (r: Result<Bytes, ReadError>)
      requires Valid()
      modifies this
      ensures old(operations) <= operations <= maxOperations
      ensures r.Success? ==> |stream| == expected && r.value == stream
      ensures r.Failure? && Transport(r.error) ==> Excused(r.error)
      ensures r == Failure(Truncated) ==> |stream| < expected
      ensures r == Failure(TrailingBytes) ==> |stream| > expected
    {
      while Remaining() != 0
        invariant Valid() && old(operations) <= operations
        decreases expected - consumed
      {
        var count := if Remaining() < FILE_CHUNK_BYTES then Remaining() else FILE_CHUNK_BYTES;
        var chunk := ReadExact(count);
        if chunk.Failure? {
          return Failure(chunk.error);
        }
      }
      var trailing := ChargedRead(1);
      if trailing.Failure? {
        return Failure(trailing.error);
      }
      if trailing.value != [] {
        return Failure(TrailingBytes);
      }
      r := Success(hashed);
    }
  }
}
