/** The buffering of MP3 data around a decoder that takes as much of its input as it likes. */
module Mp3Buffer {
  import opened Numbers
  import opened WideText

  type Byte = bv8

  /** How many bytes of its input the n-th conversion consumes; None when it fails. */
  type Decode = (nat, seq<Byte>) -> Option<nat>

  class Decoder {
    const buf: array<Byte>
    var leftover: nat
    var calls: nat
    ghost var consumed: seq<Byte>

    ghost predicate Valid()
      reads this
    {
      leftover < buf.Length
    }

    /** Everything received so far and not lost: what the decoder has consumed, then what waits in the buffer. */
    ghost function Received(): seq<Byte>
      reads this, buf
      requires Valid()
    {
      consumed + buf[..leftover]
    }

    constructor (capacity: nat)
      requires capacity > 0
      ensures Valid() && fresh(buf) && buf.Length == capacity && Received() == []
    {
      buf := new Byte[capacity];
      leftover, calls, consumed := 0, 0, [];
    }

    /**
     Feeds a chunk to the decoder, which must consume something whenever the buffer is full.
     All input is consumed or kept, in order; if a conversion fails, what was kept before it is still there.
     */
    method Convert(chunk: seq<Byte>, decode: Decode) returns (ok: bool)
      requires Valid()
      requires forall n, input :: decode(n, input).Some? ==>
                 decode(n, input).value <= |input| && (|input| == buf.Length ==> decode(n, input).value > 0)
      modifies this, buf
      ensures Valid() && old(consumed) <= consumed
      ensures ok ==> Received() == old(Received()) + chunk
      ensures !ok ==> old(Received()) <= Received() <= old(Received()) + chunk
    {
      var pos := 0;
      while pos < |chunk|
        invariant 0 <= pos <= |chunk| && Valid() && old(consumed) <= consumed
        invariant Received() == old(Received()) + chunk[..pos]
        decreases |chunk| - pos
      {
        ghost var before := pos;
        ok, pos := ConvertOnce(chunk, pos, decode);
        if !ok {
          Prefixes(old(Received()), chunk, before);
          return false;
        }
        Extended(old(Received()), chunk, before, pos);
      }
      assert chunk[..pos] == chunk;
      return true;
    }

    /** Fills the buffer as far as it goes and converts once: the decoder sees what was left over, then what fits. */
    method ConvertOnce(chunk: seq<Byte>, pos: nat, decode: Decode) returns (ok: bool, next: nat)
      requires Valid() && pos < |chunk|
      requires forall n, input :: decode(n, input).Some? ==>
                 decode(n, input).value <= |input| && (|input| == buf.Length ==> decode(n, input).value > 0)
      modifies this, buf
      ensures Valid() && old(consumed) <= consumed && pos < next <= |chunk|
      ensures Received() == if ok then old(Received()) + chunk[pos..next] else old(Received())
      ensures next == pos + Min(buf.Length - old(leftover), |chunk| - pos) && calls == old(calls) + 1
      ensures var input := old(buf[..leftover]) + chunk[pos..next];
        var used := decode(old(calls), input);
        && ok == used.Some? && (ok ==> consumed == old(consumed) + input[..used.value] && buf[..leftover] == input[used.value..])
    {
      var space := buf.Length - leftover;
      var copied := Min(space, |chunk| - pos);
      AppendAt(chunk, pos, copied);
      var length := leftover + copied;
      ghost var input := buf[..length];
      assert input == old(buf[..leftover]) + chunk[pos..pos + copied];
      next := pos + copied;
      var used := decode(calls, buf[..length]);
      calls := calls + 1;
      if used.None? {
        return false, next;
      }
      DropFirst(used.value, length);
      assert buf[..length - used.value] == input[used.value..];
      consumed := consumed + input[..used.value];
      leftover := length - used.value;
      ok := true;
      Regroup(old(consumed), input, used.value, old(buf[..leftover]), chunk[pos..next]);
    }

    /** Copies part of a chunk behind what is in the buffer. */
    method AppendAt(chunk: seq<Byte>, pos: nat, n: nat)
      requires leftover + n <= buf.Length && pos + n <= |chunk|
      modifies buf
      ensures buf[..leftover] == old(buf[..leftover])
      ensures buf[leftover..leftover + n] == chunk[pos..pos + n]
    {
      forall i | 0 <= i < n {
        buf[leftover + i] := chunk[pos + i];
      }
    }

    /** Moves the bytes behind the first `used` to the start of the buffer. */
    method DropFirst(used: nat, length: nat)
      requires used <= length <= buf.Length
      modifies buf
      ensures buf[..length - used] == old(buf[used..length])
    {
      forall i | 0 <= i < length - used {
        buf[i] := buf[used + i];
      }
    }
  }

  lemma Prefixes(received: seq<Byte>, chunk: seq<Byte>, n: nat)
    requires n <= |chunk|
    ensures received <= received + chunk[..n] <= received + chunk
  {
  }

  lemma Extended(received: seq<Byte>, chunk: seq<Byte>, i: nat, j: nat)
    requires i <= j <= |chunk|
    ensures (received + chunk[..i]) + chunk[i..j] == received + chunk[..j]
  {
  }

  lemma Regroup(consumed: seq<Byte>, input: seq<Byte>, n: nat, kept: seq<Byte>, copied: seq<Byte>)
    requires n <= |input| && input == kept + copied
    ensures (consumed + input[..n]) + input[n..] == (consumed + kept) + copied
  {
  }
}
