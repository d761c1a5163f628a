/** The byte ring between the modem's notifications and the reader: a fixed array, two marks and a
    flag that tells a full ring from an empty one. */
module CircularBuffers {
  import opened Common

  lemma {:induction false} ModWrap(x: nat, n: nat)
    requires 0 < n && x < 2 * n
    ensures x % n == if x < n then x else x - n
  {
    if x < n {
    } else {
      assert x == n * 1 + (x - n);
      assert x / n == 1;
    }
  }

  /** Position `k` places behind `from` in a ring of `n` places. */
  function Wrap(from: nat, k: nat, n: nat): (r: nat)
    requires from < n && k <= n
    ensures r < n
  {
    if from + k < n then from + k else from + k - n
  }

  /** The `size` bytes of ring `a` from position `tail` on. */
  ghost function Ring(a: seq<byte>, tail: nat, size: nat): (s: seq<byte>)
    requires tail < |a| && size <= |a|
    ensures |s| == size
  {
    seq(size, i requires 0 <= i < size => a[Wrap(tail, i, |a|)])
  }

  class CircularBuffer {
    const buffer: array<byte>
    var head: nat
    var tail: nat
    var isFull: bool

    ghost predicate Valid()
      reads this
    {
      && 0 < buffer.Length
      && head < buffer.Length && tail < buffer.Length
      && (isFull ==> head == tail)
    }

    function Size(): (size: nat)
      requires Valid()
      reads this
      ensures size <= buffer.Length
    {
      if isFull then buffer.Length
      else if head >= tail then head - tail
      else buffer.Length + head - tail
    }

    function Capacity(): nat
      requires Valid()
      reads this
    {
      buffer.Length - Size()
    }

    predicate Empty()
      reads this
    {
      !isFull && head == tail
    }

    predicate Full()
      reads this
    {
      isFull
    }

    /** The bytes in the ring, oldest first. */
    ghost function Contents(): (s: seq<byte>)
      requires Valid()
      reads this, buffer
      ensures |s| == Size()
    {
      Ring(buffer[..], tail, Size())
    }

    /** The flags and counts agree with the contents. */
    lemma {:induction false} CountsAgree()
      requires Valid()
      ensures Size() == |Contents()| && Capacity() == buffer.Length - |Contents()|
      ensures Empty() <==> Contents() == []
      ensures Full() <==> |Contents()| == buffer.Length
    {
    }

    constructor (size: nat)
      requires 0 < size
      ensures Valid() && buffer.Length == size && Contents() == [] && fresh(buffer)
    {
      buffer := new byte[size](_ => 0);
      head, tail, isFull := 0, 0, false;
    }

    method Reset()
      requires Valid()
      modifies this
      ensures Valid() && Contents() == []
    {
      head, tail, isFull := 0, 0, false;
    }

    method Advance(count: nat)
      requires Valid() && count <= buffer.Length
      modifies this
      ensures Valid()
      ensures tail == if old(isFull) then Wrap(old(tail), count, buffer.Length) else old(tail)
      ensures head == Wrap(old(head), count, buffer.Length) && isFull == (head == tail)
    {
      ModWrap(tail + count, buffer.Length);
      ModWrap(head + count, buffer.Length);
      if isFull {
        tail := (tail + count) % buffer.Length;
      }
      head := (head + count) % buffer.Length;
      isFull := head == tail;
    }

    method Retreat(count: nat)
      requires Valid() && count <= buffer.Length
      modifies this
      ensures Valid() && !isFull && head == old(head)
      ensures tail == Wrap(old(tail), count, buffer.Length)
    {
      ModWrap(tail + count, buffer.Length);
      isFull := false;
      tail := (tail + count) % buffer.Length;
    }

    method Put(data: byte) returns (r: bool)
      requires Valid()
      modifies this, buffer
      ensures Valid() && r == (|old(Contents())| < buffer.Length)
      ensures Contents() == PutOne(old(Contents()), buffer.Length, data)
    {
      r := false;
      if !Full() {
        buffer[head] := data;
        Advance(1);
        r := true;
      }
    }

    method Get() returns (r: bool, data: byte)
      requires Valid()
      modifies this
      ensures Valid() && r == (old(Contents()) != [])
      ensures r ==> [data] + Contents() == old(Contents())
      ensures !r ==> Contents() == old(Contents())
    {
      r, data := false, 0;
      if !Empty() {
        data := buffer[tail];
        Retreat(1);
        r := true;
      }
    }

    /** The copy of a stretch of bytes to position `at`, which it does not overrun. */
    method CopyIn(at: nat, data: seq<byte>)
      requires at + |data| <= buffer.Length
      modifies buffer
      ensures buffer[..] == old(buffer[..at]) + data + old(buffer[at + |data|..])
    {
      for i := 0 to |data|
        invariant buffer[..] == old(buffer[..at]) + data[..i] + old(buffer[at + i..])
      {
        buffer[at + i] := data[i];
      }
    }

    /** A stretch that does not wrap. Of zero length it turns an empty ring into a full one. */
    method PutStretch(data: seq<byte>)
      requires Valid() && |data| <= Capacity() && head + |data| <= buffer.Length
      modifies this, buffer
      ensures Valid() && head == Wrap(old(head), |data|, buffer.Length)
      ensures data != [] || !old(Empty()) ==> Contents() == old(Contents()) + data
      ensures data == [] && old(Empty()) ==> Full()
    {
      CopyIn(head, data);
      Advance(|data|);
    }

    /** Bytes of zero length corrupt the flag of an empty ring: it is taken for a full one. In every other
        case the bytes are queued as a whole, or, when they do not fit, nothing changes. */
    method PutBulk(data: seq<byte>) returns (r: bool)
      requires Valid()
      modifies this, buffer
      ensures Valid() && r == (|old(Contents())| + |data| <= buffer.Length)
      ensures !r ==> Contents() == old(Contents())
      ensures r ==> (Contents() == old(Contents()) + data <==> data != [] || old(Contents()) != [])
      ensures r && data == [] && old(Contents()) == [] ==> Full()
    {
      r := false;
      if Capacity() >= |data| {
        if buffer.Length - head > |data| {
          PutStretch(data);
        } else {
          var l1 := buffer.Length - head;
          PutStretch(data[..l1]);
          PutStretch(data[l1..]);
          assert data[..l1] + data[l1..] == data;
        }
        r := true;
      }
    }

    /** A stretch that does not wrap. Of zero length it turns a full ring into an empty one. */
    method GetStretch(len: nat) returns (data: seq<byte>)
      requires Valid() && len <= Size() && tail + len <= buffer.Length
      modifies this
      ensures Valid() && tail == Wrap(old(tail), len, buffer.Length)
      ensures data == old(Contents())[..len]
      ensures len != 0 || !old(Full()) ==> Contents() == old(Contents())[len..]
      ensures len == 0 && old(Full()) ==> Empty()
    {
      data := buffer[tail..tail + len];
      Retreat(len);
    }

    /** Likewise a zero length request on a full ring empties it. */
    method GetBulk(len: nat) returns (r: bool, data: seq<byte>)
      requires Valid()
      modifies this
      ensures Valid() && r == (len <= |old(Contents())|)
      ensures !r ==> Contents() == old(Contents())
      ensures r ==> data == old(Contents())[..len]
      ensures r ==> (Contents() == old(Contents())[len..] <==> len != 0 || |old(Contents())| < buffer.Length)
      ensures r && len == 0 && |old(Contents())| == buffer.Length ==> Empty()
    {
      r, data := false, [];
      if Size() >= len {
        if buffer.Length - tail > len {
          data := GetStretch(len);
        } else {
          var l1 := buffer.Length - tail;
          var d1 := GetStretch(l1);
          var d2 := GetStretch(len - l1);
          data := d1 + d2;
        }
        r := true;
      }
    }

    /** Single puts of all bytes, one after the other. */
    method PutSingly(data: seq<byte>)
      requires Valid()
      modifies this, buffer
      ensures Valid() && Contents() == PutEach(old(Contents()), buffer.Length, data)
      ensures |old(Contents())| + |data| <= buffer.Length ==> Contents() == old(Contents()) + data
    {
      ghost var queue := Contents();
      for i := 0 to |data|
        invariant Valid() && PutEach(Contents(), buffer.Length, data[i..]) == PutEach(queue, buffer.Length, data)
      {
        var r := Put(data[i]);
        assert data[i..][0] == data[i] && data[i..][1..] == data[i + 1..];
      }
      if |queue| + |data| <= buffer.Length {
        BulkPutIsEachPut(queue, buffer.Length, data);
      }
    }

    /** `n` single gets, one after the other. */
    method GetSingly(n: nat) returns (data: seq<byte>)
      requires Valid()
      modifies this
      ensures Valid() && (data, Contents()) == GetEach(old(Contents()), n)
      ensures n <= |old(Contents())| ==> data == old(Contents())[..n] && Contents() == old(Contents())[n..]
    {
      ghost var queue := Contents();
      data := [];
      for i := 0 to n
        invariant Valid()
        invariant GetEach(queue, n).0 == data + GetEach(Contents(), n - i).0
        invariant GetEach(queue, n).1 == GetEach(Contents(), n - i).1
      {
        ghost var before, taken := Contents(), data;
        var r, c := Get();
        if r {
          assert before[0] == c && before[1..] == Contents();
          data := data + [c];
          assert taken + ([c] + GetEach(Contents(), n - i - 1).0) == data + GetEach(Contents(), n - i - 1).0;
        }
      }
      assert data + [] == data;
      if n <= |queue| {
        BulkGetIsEachGet(queue, n);
      }
    }

    /** Bulk and single puts of the same bytes leave two rings of the same contents the same, whenever the bulk put
        is accepted and not of zero length. */
    static method BulkPutLikeSingle(a: CircularBuffer, b: CircularBuffer, data: seq<byte>) returns (r: bool)
      requires a.Valid() && b.Valid() && a != b && a.buffer != b.buffer
      requires a.Contents() == b.Contents() && a.buffer.Length == b.buffer.Length && data != []
      modifies a, b, a.buffer, b.buffer
      ensures a.Valid() && b.Valid() && (r ==> a.Contents() == b.Contents())
      ensures r <==> |old(a.Contents())| + |data| <= a.buffer.Length
      ensures !r ==> a.Contents() == old(a.Contents())
    {
      r := a.PutBulk(data);
      if r {
        b.PutSingly(data);
      }
    }

    /** Likewise bulk and single gets, which also return the same bytes. */
    static method BulkGetLikeSingle(a: CircularBuffer, b: CircularBuffer, n: nat)
      returns (r: bool, bulk: seq<byte>, single: seq<byte>)
      requires a.Valid() && b.Valid() && a != b && a.buffer != b.buffer
      requires a.Contents() == b.Contents() && a.buffer.Length == b.buffer.Length && n != 0
      modifies a, b
      ensures a.Valid() && b.Valid() && (r ==> bulk == single && a.Contents() == b.Contents())
      ensures r <==> n <= |old(a.Contents())|
      ensures !r ==> a.Contents() == old(a.Contents())
    {
      single := [];
      r, bulk := a.GetBulk(n);
      if r {
        single := b.GetSingly(n);
      }
    }
  }

  // ----- the ring as a bounded queue -----

  /** One byte into a queue of at most `bound`. */
  function PutOne(queue: seq<byte>, bound: nat, b: byte): seq<byte> {
    if |queue| < bound then queue + [b] else queue
  }

  function PutEach(queue: seq<byte>, bound: nat, data: seq<byte>): seq<byte>
    decreases |data|
  {
    if data == [] then queue else PutEach(PutOne(queue, bound, data[0]), bound, data[1..])
  }

  /** Single puts keep the longest prefix that fits. */
  lemma {:induction false} EachPutKeepsPrefix(queue: seq<byte>, bound: nat, data: seq<byte>)
    requires |queue| <= bound
    ensures
      var n := if |queue| + |data| <= bound then |data| else bound - |queue|;
      PutEach(queue, bound, data) == queue + data[..n]
    decreases |data|
  {
    if data == [] {
      assert queue + [] == queue;
    } else {
      EachPutKeepsPrefix(PutOne(queue, bound, data[0]), bound, data[1..]);
      if |queue| < bound {
        var n := if |queue| + |data| <= bound then |data| else bound - |queue|;
        assert queue + [data[0]] + data[1..][..n - 1] == queue + data[..n];
      } else {
        assert queue + data[..0] == queue + data[1..][..0];
      }
    }
  }

  /** Bulk and single operations agree on bytes that fit. */
  lemma {:induction false} BulkPutIsEachPut(queue: seq<byte>, bound: nat, data: seq<byte>)
    requires |queue| + |data| <= bound
    ensures PutEach(queue, bound, data) == queue + data
  {
    EachPutKeepsPrefix(queue, bound, data);
    assert data[..|data|] == data;
  }

  /** The bytes of `n` single gets, and what they leave; a get on an empty queue yields nothing. */
  function GetEach(queue: seq<byte>, n: nat): (seq<byte>, seq<byte>) {
    if n == 0 || queue == [] then ([], queue)
    else
      var (taken, left) := GetEach(queue[1..], n - 1);
      ([queue[0]] + taken, left)
  }

  lemma {:induction false} BulkGetIsEachGet(queue: seq<byte>, n: nat)
    requires n <= |queue|
    ensures GetEach(queue, n) == (queue[..n], queue[n..])
  {
    if n > 0 {
      BulkGetIsEachGet(queue[1..], n - 1);
      assert [queue[0]] + queue[1..][..n - 1] == queue[..n];
    }
  }
}
