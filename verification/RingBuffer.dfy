/** The ring buffer between splitpipe's input and its output. */
module RingBuffers {
  import opened Bytes

  /** The queue held by a vector between read and write position. */
  function Between(v: seq<byte>, rpos: nat, wpos: nat): (q: seq<byte>)
    requires rpos <= |v| && wpos <= |v|
    ensures |q| == if rpos <= wpos then wpos - rpos else |v| - rpos + wpos
  {
    if rpos <= wpos then v[rpos..wpos] else v[rpos..] + v[..wpos]
  }

  /** What get does to the read position before reading. */
  function Wrapped(length: nat, rpos: nat): (r: nat)
    requires rpos <= length
    ensures r <= length
  {
    if rpos == length then 0 else rpos
  }

  /** What advance does to the read position. */
  function Advanced(length: nat, rpos: nat, bytes: nat): (r: nat)
    requires rpos <= length && bytes <= length
    ensures r <= length
  {
    if rpos + bytes > length then rpos + bytes - length else rpos + bytes
  }

  lemma WrappedMoves(length: nat, rpos: nat, bytes: nat)
    requires rpos <= length && bytes < length
    ensures Wrapped(length, Advanced(length, rpos, bytes)) == (Wrapped(length, rpos) + bytes) % length
  {
    if Wrapped(length, rpos) + bytes >= length {
      assert (Wrapped(length, rpos) + bytes) % length == Wrapped(length, rpos) + bytes - length;
    }
  }

  /** A bounded FIFO of bytes. Both positions may stand one past the end of the vector. */
  class RingBuffer {
    const vector: array<byte>
    const publicSize: nat
    var rpos: nat
    var wpos: nat

    ghost predicate Valid()
      reads this, vector
    {
      && vector.Length == publicSize + 1
      && rpos <= vector.Length && wpos <= vector.Length
      && |Between(vector[..], rpos, wpos)| <= publicSize
    }

    /** The bytes stored and not yet taken, oldest first. */
    ghost function Queue(): (q: seq<byte>)
      requires Valid()
      reads this, vector
    {
      Between(vector[..], rpos, wpos)
    }

    /** Where the queue starts, once a position one past the end has been taken back to 0. */
    ghost function Front(): (n: nat)
      requires Valid()
      reads this, vector
    {
      Wrapped(vector.Length, rpos)
    }

    constructor (size: nat)
      ensures Valid() && fresh(vector) && publicSize == size && Queue() == [] && Front() == 0
    {
      vector := new byte[size + 1];
      publicSize := size;
      rpos, wpos := 0, 0;
    }

    function Room(): (n: nat)
      requires Valid()
      reads this, vector
      ensures n == publicSize - |Queue()|
    {
      if rpos == wpos then publicSize
      else if rpos < wpos then rpos + publicSize - wpos
      else rpos - wpos - 1
    }

    function Available(): (n: nat)
      requires Valid()
      reads this, vector
      ensures n == |Queue()|
    {
      if rpos == wpos then 0
      else if rpos < wpos then wpos - rpos
      else wpos + vector.Length - rpos
    }

    function ContiguousRoom(): (n: nat)
      requires Valid()
      reads this, vector
    {
      vector.Length - wpos
    }

    function ContiguousAvailable(): (n: nat)
      requires Valid()
      reads this, vector
    {
      if wpos > rpos then wpos - rpos else vector.Length - rpos
    }

    /** The bytes get would report, once a position one past the end has been taken back to 0: the queue,
        or its part before the end of the vector. */
    function Contiguous(): (n: nat)
      requires Valid()
      reads this, vector
      ensures |Queue()| > 0 ==>
        n == if |Queue()| <= vector.Length - Front() then |Queue()| else vector.Length - Front()
    {
      if rpos == vector.Length then wpos
      else if wpos > rpos then wpos - rpos else vector.Length - rpos
    }

    /** Copies a block to the queue's end, in one or two pieces; too large a block is refused. */
    method Store(block: seq<byte>) returns (ok: bool)
      requires Valid()
      modifies this`wpos, vector
      ensures Valid() && ok == (|block| <= old(Room()))
      ensures Queue() == if ok then old(Queue()) + block else old(Queue())
      ensures old(Queue()) != [] ==> Contiguous() >= old(Contiguous())
      ensures Front() == old(Front())
    {
      hide Between;
      if block == [] {
        return true;
      }
      if |block| > Room() {
        return false;
      }
      ghost var before, w := vector[..], wpos;
      var len := if |block| <= ContiguousRoom() then |block| else ContiguousRoom();
      CopyIn(vector, wpos, block[..len]);
      wpos := wpos + len;
      if len == |block| {
        StoredOnce(before, vector[..], rpos, w, block);
        return true;
      }
      ghost var middle := vector[..];
      wpos := 0;
      CopyIn(vector, 0, block[len..]);
      wpos := wpos + |block| - len;
      StoredTwice(before, middle, vector[..], rpos, w, block, len);
      return true;
    }

    /** The first contiguous piece of a non-empty queue. */
    method Get() returns (buf: seq<byte>)
      requires Valid() && Queue() != []
      modifies this`rpos
      ensures Valid() && Queue() == old(Queue()) && Front() == old(Front())
      ensures buf != [] && buf <= Queue() && |buf| == old(Contiguous()) == Contiguous()
    {
      if rpos == vector.Length {
        rpos := 0;
      }
      buf := vector[rpos..rpos + ContiguousAvailable()];
    }

    /** Drops bytes from the front. */
    method Advance(bytes: nat)
      requires Valid() && bytes <= Available()
      modifies this`rpos
      ensures Valid() && Queue() == old(Queue())[bytes..]
      ensures bytes < old(Contiguous()) ==> Contiguous() == old(Contiguous()) - bytes
      ensures Front() == (old(Front()) + bytes) % vector.Length
    {
      Dropped(vector[..], rpos, wpos, bytes);
      WrappedMoves(vector.Length, rpos, bytes);
      hide Between;
      rpos := rpos + bytes;
      if rpos > vector.Length {
        rpos := rpos - vector.Length;
      }
    }
  }

  lemma Dropped(v: seq<byte>, rpos: nat, wpos: nat, bytes: nat)
    requires rpos <= |v| && wpos <= |v| && bytes <= |Between(v, rpos, wpos)| <= |v|
    ensures Between(v, Advanced(|v|, rpos, bytes), wpos) == Between(v, rpos, wpos)[bytes..]
  {
  }

  lemma StoredOnce(before: seq<byte>, after: seq<byte>, rpos: nat, wpos: nat, block: seq<byte>)
    requires rpos <= |before| == |after| && wpos + |block| <= |before|
    requires after == before[..wpos] + block + before[wpos + |block|..]
    requires wpos < rpos ==> wpos + |block| < rpos
    ensures Between(after, rpos, wpos + |block|) == Between(before, rpos, wpos) + block
  {
    if rpos <= wpos {
      assert after[rpos..wpos + |block|] == before[rpos..wpos] + block;
    } else {
      assert after[..wpos + |block|] == before[..wpos] + block;
      assert after[rpos..] == before[rpos..];
      assert before[rpos..] + (before[..wpos] + block) == before[rpos..] + before[..wpos] + block;
    }
  }

  lemma StoredTwice(before: seq<byte>, middle: seq<byte>, after: seq<byte>, rpos: nat, wpos: nat, block: seq<byte>,
                    len: nat)
    requires rpos <= wpos && wpos + len == |before| == |middle| == |after|
    requires len < |block| && |block| - len < rpos
    requires middle == before[..wpos] + block[..len]
    requires after == block[len..] + middle[|block| - len..]
    ensures Between(after, rpos, |block| - len) == Between(before, rpos, wpos) + block
  {
    assert after[rpos..] == middle[rpos..] == before[rpos..wpos] + block[..len];
    assert block == block[..len] + block[len..];
  }

  /** get leaves the queue alone except when both positions stand one past the end: then an empty
      queue turns into a full vector. This is why get may only be called on a non-empty queue. */
  lemma GetKeepsQueueIff(v: seq<byte>, rpos: nat, wpos: nat)
    requires v != [] && rpos <= |v| && wpos <= |v|
    ensures Between(v, Wrapped(|v|, rpos), wpos) == Between(v, rpos, wpos) <==> !(rpos == wpos == |v|)
  {
    if rpos == |v| && wpos < |v| {
      assert v[rpos..] + v[..wpos] == v[0..wpos];
    }
  }
}
