/** The BC95 network layer: notifications fill the ring, `Read` drains it, and a counter of announced
    bytes stands between them. */
module Networks {
  import opened CircularBuffers
  import opened Common

  const RING_SIZE := 512
  const READ_INTERVAL := 250
  const SIZE_LIMIT := 0x1_0000_0000
  const BYTE_COUNT_MASK := 0x1_0000

  /** A received-datagram notification, split at its commas: the socket, the announced byte count, the decoded
      payload and what lies in memory behind it. */
  datatype Urc = Urc(parts: nat, socket: int, announced: int, payload: seq<byte>, beyond: seq<byte>) {
    /** What the ring is given if it has room for `room` bytes: as many as are announced, wherever they come from. */
    function Given(room: nat): (n: nat)
      ensures n <= room
      ensures 0 <= announced <= room < SIZE_LIMIT ==> n == announced
      ensures room <= announced < SIZE_LIMIT ==> n == room
    {
      var count := announced % SIZE_LIMIT;
      if room < count then room else count
    }
  }

  /** The bytes a notification announces are in memory, if not in its payload. */
  predicate Readable(u: Urc) {
    u.Given(RING_SIZE) <= |u.payload + u.beyond|
  }

  predicate AllReadable(urcs: seq<Urc>) {
    forall i :: 0 <= i < |urcs| ==> Readable(urcs[i])
  }

  /** A notification that carries the bytes it announces. */
  predicate WellFormed(u: Urc) {
    0 <= u.announced <= |u.payload| && u.announced < SIZE_LIMIT
  }

  /** One look at the read timer, and the notifications that come in while the read waits after it. */
  datatype Tick = Tick(remaining: nat, urcs: seq<Urc>)

  /** A counter of type size_t wraps below zero. */
  function Decrement(n: nat, step: nat): nat {
    (n - step) % SIZE_LIMIT
  }

  lemma {:induction false} DecrementOnce(n: nat, i: nat)
    ensures Decrement(Decrement(n, i), 1) == Decrement(n, i + 1)
  {
  }

  lemma {:induction false} DecrementWithin(n: nat, step: nat)
    requires step <= n <= RING_SIZE
    ensures Decrement(n, step) == n - step && n % BYTE_COUNT_MASK == n
  {
  }

  lemma {:induction false} Underflow(n: nat, step: nat)
    requires n < step < 0x8000_0000
    ensures Decrement(n, step) > RING_SIZE
  {
  }

  // ----- how many bytes a read returns -----

  /** The counter of announced bytes, and how many are in the ring. */
  datatype Stock = Stock(avail: nat, size: nat)

  function Notified(s: Stock, connection: int, u: Urc): (r: Stock)
    requires s.size <= RING_SIZE
    ensures r.size <= RING_SIZE && (s.avail <= s.size ==> r.avail <= r.size)
  {
    if u.parts == 3 && u.socket == connection then
      var n := u.Given(RING_SIZE - s.size);
      Stock(n, s.size + n)
    else s
  }

  function NotifiedByAll(s: Stock, connection: int, urcs: seq<Urc>): (r: Stock)
    requires s.size <= RING_SIZE
    ensures r.size <= RING_SIZE && (s.avail <= s.size ==> r.avail <= r.size)
    decreases |urcs|
  {
    if urcs == [] then s
    else Notified(NotifiedByAll(s, connection, urcs[..|urcs| - 1]), connection, urcs[|urcs| - 1])
  }

  /** A read that wants `len` bytes and has `got` some: takes what is announced, look by look, until that is enough
      or the time is over. `announced` is what the last look found. */
  function ReadFrom(s: Stock, connection: int, len: nat, got: nat, announced: nat, ticks: seq<Tick>): (rc: nat)
    requires s.avail <= s.size <= RING_SIZE && got <= len
    ensures got <= rc <= len
    decreases |ticks|
  {
    if ticks == [] || ticks[0].remaining <= READ_INTERVAL || got == len then (if 0 < announced then len else got)
    else
      var s1 := NotifiedByAll(s, connection, ticks[0].urcs);
      if s1.avail == 0 then ReadFrom(s1, connection, len, got, 0, ticks[1..])
      else if len <= s1.avail + got then len
      else ReadFrom(Stock(0, s1.size - s1.avail), connection, len, got + s1.avail, 0, ticks[1..])
  }

  /** What one look finds: whether that is enough, and what is left in stock if it is not. */
  predicate Looks(s: Stock, connection: int, len: nat, got: nat, urcs: seq<Urc>, enough: bool, left: Stock, taken: nat)
    requires s.size <= RING_SIZE
  {
    var s1 := NotifiedByAll(s, connection, urcs);
    && enough == (s1.avail != 0 && len <= s1.avail + got)
    && (if enough then left == s1 && taken == 0
        else taken == s1.avail && left.avail == 0 && left.size == s1.size - s1.avail)
  }

  /** What one more look does to the rest of a read. */
  lemma {:induction false} OneLook(s: Stock, connection: int, len: nat, got: nat, announced: nat, ticks: seq<Tick>,
                                   k: nat, enough: bool, left: Stock, taken: nat)
    requires s.avail <= s.size <= RING_SIZE && got < len && k < |ticks| && READ_INTERVAL < ticks[k].remaining
    requires Looks(s, connection, len, got, ticks[k].urcs, enough, left, taken)
    ensures ReadFrom(s, connection, len, got, announced, ticks[k..]) ==
            if enough then len else ReadFrom(left, connection, len, got + taken, 0, ticks[k + 1..])
  {
    assert ticks[k..][0] == ticks[k] && ticks[k..][1..] == ticks[k + 1..];
  }

  lemma {:induction false} LastLook(s: Stock, connection: int, len: nat, got: nat, announced: nat, ticks: seq<Tick>, k: nat)
    requires s.avail <= s.size <= RING_SIZE && got <= len && k <= |ticks|
    requires k == |ticks| || ticks[k].remaining <= READ_INTERVAL || got == len
    ensures ReadFrom(s, connection, len, got, announced, ticks[k..]) == if 0 < announced then len else got
  {
  }

  /** Where a read is before look `k`: what it has got, what was announced at the look before, whether that was
      enough, what is in stock; and `goal`, what it will return. */
  predicate Reading(connection: int, len: nat, ticks: seq<Tick>, k: nat, got: nat, enough: bool, s: Stock,
                    avail0: nat, goal: nat)
  {
    && k <= |ticks| && got <= len && s.avail <= s.size <= RING_SIZE
    && (k == 0 ==> got == 0 && s.avail == avail0 && !enough)
    && (0 < k ==> 0 < len && READ_INTERVAL < ticks[0].remaining && (!enough ==> s.avail == 0))
    && (enough ==> got < len <= s.avail + got && goal == len)
    && (!enough ==> goal == ReadFrom(s, connection, len, got, s.avail, ticks[k..]))
  }

  lemma {:induction false} ReadingStarts(connection: int, len: nat, ticks: seq<Tick>, s: Stock) returns (goal: nat)
    requires s.avail <= s.size <= RING_SIZE
    ensures goal == ReadFrom(s, connection, len, 0, s.avail, ticks)
    ensures Reading(connection, len, ticks, 0, 0, false, s, s.avail, goal)
  {
    goal := ReadFrom(s, connection, len, 0, s.avail, ticks);
    assert ticks[0..] == ticks;
  }

  lemma {:induction false} ReadingGoesOn(connection: int, len: nat, ticks: seq<Tick>, k: nat, got: nat, s: Stock,
                                         avail0: nat, goal: nat, enough: bool, left: Stock, taken: nat)
    requires Reading(connection, len, ticks, k, got, false, s, avail0, goal)
    requires got < len && k < |ticks| && READ_INTERVAL < ticks[k].remaining
    requires Looks(s, connection, len, got, ticks[k].urcs, enough, left, taken)
    ensures Reading(connection, len, ticks, k + 1, got + taken, enough, left, avail0, goal)
  {
    OneLook(s, connection, len, got, s.avail, ticks, k, enough, left, taken);
  }

  lemma {:induction false} ReadingEnds(connection: int, len: nat, ticks: seq<Tick>, k: nat, got: nat, enough: bool,
                                       s: Stock, avail0: nat, goal: nat)
    requires Reading(connection, len, ticks, k, got, enough, s, avail0, goal)
    requires enough || got == len || k == |ticks| || ticks[k].remaining <= READ_INTERVAL
    ensures goal == if 0 < s.avail && got < len then len else got
    ensures if 0 < len && ticks != [] && READ_INTERVAL < ticks[0].remaining
            then 0 < s.avail && got < len ==> len <= s.avail + got
            else got == 0 && s.avail == avail0
  {
    if !enough {
      LastLook(s, connection, len, got, s.avail, ticks, k);
    }
  }

  /** A read returns all it was asked for as soon as that many bytes are announced at one look. */
  lemma {:induction false} EnoughIsRead(s: Stock, connection: int, len: nat, got: nat, announced: nat, ticks: seq<Tick>)
    requires s.avail <= s.size <= RING_SIZE && got <= len
    requires ticks != [] && READ_INTERVAL < ticks[0].remaining
    requires len <= got + NotifiedByAll(s, connection, ticks[0].urcs).avail
    ensures ReadFrom(s, connection, len, got, announced, ticks) == len
  {
  }

  /** A read with two looks, each of which finds some but too little, returns both. */
  lemma {:induction false} LooksAddUp(s: Stock, connection: int, len: nat, first: Tick, second: Tick)
    requires s.avail <= s.size <= RING_SIZE
    requires READ_INTERVAL < first.remaining && READ_INTERVAL < second.remaining
    ensures
      var s1 := NotifiedByAll(s, connection, first.urcs);
      var s2 := NotifiedByAll(Stock(0, s1.size - s1.avail), connection, second.urcs);
      s1.avail + s2.avail < len ==>
        ReadFrom(s, connection, len, 0, s.avail, [first, second]) == s1.avail + s2.avail
  {
    var s1 := NotifiedByAll(s, connection, first.urcs);
    var rest := Stock(0, s1.size - s1.avail);
    var s2 := NotifiedByAll(rest, connection, second.urcs);
    if s1.avail + s2.avail < len {
      assert [first, second][1..] == [second] && [second][1..] == [];
      assert ReadFrom(rest, connection, len, s1.avail, 0, [second]) == s1.avail + s2.avail;
    }
  }

  lemma {:induction false} DatagramIsPrefix(before: seq<byte>, data: seq<byte>, payload: seq<byte>, left: seq<byte>)
    requires before + payload == (before + data) + left && |data| == |payload|
    ensures data == payload
  {
    assert (before + payload)[|before|..] == payload;
    assert ((before + data) + left)[|before|..][..|data|] == data;
  }

  class Network {
    const buffer: CircularBuffer
    var connectionNumber: int
    var bytesAvail: nat
    ghost var accepted: seq<byte>  // all bytes that notifications put into the ring
    ghost var returned: seq<byte>  // all bytes that reads returned

    ghost predicate Valid()
      reads this, buffer, buffer.buffer
    {
      buffer.Valid() && buffer.buffer.Length == RING_SIZE
    }

    /** The counter does not exceed the ring, and no byte is lost, repeated or reordered. */
    ghost predicate Accounted()
      requires Valid()
      reads this, buffer, buffer.buffer
    {
      bytesAvail <= buffer.Size() && accepted == returned + buffer.Contents()
    }

    constructor ()
      ensures Valid() && Accounted() && accepted == [] && connectionNumber == -1
      ensures fresh(buffer) && fresh(buffer.buffer)
    {
      buffer := new CircularBuffer(RING_SIZE);
      connectionNumber, bytesAvail := -1, 0;
      accepted, returned := [], [];
    }

    ghost function Stocked(): Stock
      requires Valid()
      reads this, buffer, buffer.buffer
    {
      Stock(bytesAvail, |buffer.Contents()|)
    }

    method ParseFilterResult(u: Urc)
      requires Valid() && Accounted() && Readable(u)
      modifies this`bytesAvail, this`accepted, buffer, buffer.buffer
      ensures Valid() && Accounted() && Stocked() == Notified(old(Stocked()), connectionNumber, u)
      ensures
        var mine := u.parts == 3 && u.socket == connectionNumber;
        var n := u.Given(RING_SIZE - |old(buffer.Contents())|);
        && bytesAvail == (if mine then n else old(bytesAvail))
        && accepted == old(accepted) + (if mine then (u.payload + u.beyond)[..n] else [])
        && (mine && WellFormed(u) ==> accepted == old(accepted) + u.payload[..n])
    {
      if u.parts == 3 && u.socket == connectionNumber {
        bytesAvail := u.announced % SIZE_LIMIT;
        if 0 < bytesAvail {
          if buffer.Capacity() < bytesAvail {
            bytesAvail := buffer.Capacity();
          }
          StoreBytes(u.payload + u.beyond);
        }
        assert WellFormed(u) ==> (u.payload + u.beyond)[..bytesAvail] == u.payload[..bytesAvail];
      }
    }

    /** The announced bytes, from memory into the ring. */
    method StoreBytes(memory: seq<byte>)
      requires Valid() && bytesAvail <= |memory| && bytesAvail + |buffer.Contents()| <= RING_SIZE
      requires accepted == returned + buffer.Contents() && (bytesAvail > 0 || buffer.Contents() != [])
      modifies this`accepted, buffer, buffer.buffer
      ensures Valid() && Accounted() && accepted == old(accepted) + memory[..bytesAvail]
      ensures |buffer.Contents()| == |old(buffer.Contents())| + bytesAvail
    {
      var stored := buffer.PutBulk(memory[..bytesAvail]);
      accepted := accepted + memory[..bytesAvail];
      assert old(accepted) + memory[..bytesAvail] == returned + (old(buffer.Contents()) + memory[..bytesAvail]);
    }

    /** Notifications that arrive while a response is waited for. */
    method ReadResponse(urcs: seq<Urc>)
      requires Valid() && Accounted() && AllReadable(urcs)
      modifies this`bytesAvail, this`accepted, buffer, buffer.buffer
      ensures Valid() && Accounted() && old(accepted) <= accepted
      ensures Stocked() == NotifiedByAll(old(Stocked()), connectionNumber, urcs)
    {
      assert urcs[..0] == [] && urcs[..|urcs|] == urcs;
      for i := 0 to |urcs|
        invariant Valid() && Accounted() && old(accepted) <= accepted
        invariant Stocked() == NotifiedByAll(old(Stocked()), connectionNumber, urcs[..i])
      {
        ParseFilterResult(urcs[i]);
        assert urcs[..i + 1][..i] == urcs[..i];
      }
    }

    static lemma {:induction false} DrainStep(ring: seq<byte>, data: seq<byte>, rest: seq<byte>, i: nat)
      requires i < |ring| ==> data == ring[..i] && rest == ring[i..]
      ensures i < |ring| ==> rest != [] && data + [rest[0]] == ring[..i + 1] && rest[1..] == ring[i + 1..]
    {
    }

    /** `n` single bytes out of the ring, counting down for each of them. */
    method Drain(n: nat) returns (data: seq<byte>)
      requires Valid() && Accounted()
      modifies this`bytesAvail, this`returned, buffer
      ensures Valid() && |data| == n && bytesAvail == Decrement(old(bytesAvail), n)
      ensures accepted == old(accepted)
      ensures n <= old(bytesAvail) ==> Accounted() && returned == old(returned) + data
      ensures n <= old(bytesAvail) ==> Stocked() == Stock(old(bytesAvail) - n, |old(buffer.Contents())| - n)
    {
      data := [];
      ghost var ring := buffer.Contents();
      DecrementWithin(bytesAvail, 0);
      for i := 0 to n
        invariant Valid() && |data| == i && bytesAvail == Decrement(old(bytesAvail), i)
        invariant i <= |ring| ==> data == ring[..i] && buffer.Contents() == ring[i..]
        invariant accepted == old(accepted) && returned == old(returned)
      {
        DecrementOnce(old(bytesAvail), i);
        DrainStep(ring, data, buffer.Contents(), i);
        var r, c := buffer.Get();
        data := data + [c];
        bytesAvail := Decrement(bytesAvail, 1);
      }
      if n <= old(bytesAvail) {
        DecrementWithin(old(bytesAvail), n);
        assert returned + ring == (returned + data) + ring[n..];
        returned := returned + data;
      }
    }

    /** Whether a read keeps the account: its loop runs at least once, or nothing is announced, or enough
        is. */
    ghost predicate ReadKeepsAccount(len: int, ticks: seq<Tick>)
      reads this
    {
      || len <= 0
      || (ticks != [] && READ_INTERVAL < ticks[0].remaining)
      || bytesAvail == 0
      || len <= bytesAvail
    }

    /** One look at what has arrived: nothing, enough, or too little, which is then taken out of the ring. */
    method Look(urcs: seq<Urc>, len: nat, bytes: nat) returns (chunk: seq<byte>, dgmLen: nat, enough: bool)
      requires Valid() && Accounted() && AllReadable(urcs)
      modifies this`bytesAvail, this`accepted, this`returned, buffer, buffer.buffer
      ensures Valid() && Accounted() && old(accepted) <= accepted && returned == old(returned) + chunk
      ensures Looks(old(Stocked()), connectionNumber, len, bytes, urcs, enough, Stocked(), |chunk|)
      ensures dgmLen == if enough then bytesAvail else 0
    {
      chunk, enough := [], false;
      ReadResponse(urcs);
      DecrementWithin(bytesAvail, 0);
      dgmLen := bytesAvail % BYTE_COUNT_MASK;
      if dgmLen != 0 {
        if len <= dgmLen + bytes {
          enough := true;
        } else {
          chunk := Drain(dgmLen);
          dgmLen := 0;
        }
      }
    }

    /** The account is kept, and since it was last looked at `data` has been read. */
    ghost predicate Since(accepted0: seq<byte>, returned0: seq<byte>, data: seq<byte>)
      reads this, buffer, buffer.buffer
    {
      Valid() && Accounted() && accepted0 <= accepted && returned == returned0 + data
    }

    /** A look in the middle of a read. */
    method LookOnce(ticks: seq<Tick>, k: nat, len: nat, data: seq<byte>, ghost goal: nat, ghost avail0: nat,
                    ghost accepted0: seq<byte>, ghost returned0: seq<byte>)
      returns (longer: seq<byte>, dgmLen: nat, enough: bool)
      requires k < |ticks| && READ_INTERVAL < ticks[k].remaining && |data| < len && AllReadable(ticks[k].urcs)
      requires Since(accepted0, returned0, data)
      requires Reading(connectionNumber, len, ticks, k, |data|, false, Stocked(), avail0, goal)
      modifies this`bytesAvail, this`accepted, this`returned, buffer, buffer.buffer
      ensures Since(accepted0, returned0, longer) && dgmLen == bytesAvail
      ensures Reading(connectionNumber, len, ticks, k + 1, |longer|, enough, Stocked(), avail0, goal)
    {
      ghost var stock := Stocked();
      var chunk;
      chunk, dgmLen, enough := Look(ticks[k].urcs, len, |data|);
      ReadingGoesOn(connectionNumber, len, ticks, k, |data|, stock, avail0, goal, enough, Stocked(), |chunk|);
      longer := data + chunk;
      assert returned0 + data + chunk == returned0 + longer;
      assert accepted0 <= old(accepted) <= accepted;
    }

    /** The looks of a read: until enough is announced, or the time is over. */
    method LookOut(len: nat, ticks: seq<Tick>) returns (data: seq<byte>, dgmLen: nat)
      requires Valid() && Accounted() && forall i :: 0 <= i < |ticks| ==> AllReadable(ticks[i].urcs)
      modifies this`bytesAvail, this`accepted, this`returned, buffer, buffer.buffer
      ensures Valid() && Accounted() && old(accepted) <= accepted && returned == old(returned) + data
      ensures dgmLen == bytesAvail && |data| <= len && (ticks == [] ==> accepted == old(accepted))
      ensures ReadFrom(old(Stocked()), connectionNumber, len, 0, old(bytesAvail), ticks) ==
              if 0 < dgmLen && |data| < len then len else |data|
      ensures if 0 < len && ticks != [] && READ_INTERVAL < ticks[0].remaining
              then 0 < dgmLen && |data| < len ==> len <= dgmLen + |data|
              else data == [] && dgmLen == old(bytesAvail)
    {
      data := [];
      DecrementWithin(bytesAvail, 0);
      dgmLen := bytesAvail % BYTE_COUNT_MASK;
      var enough := false;
      var k := 0;
      ghost var goal := ReadingStarts(connectionNumber, len, ticks, Stocked());
      while k < |ticks| && READ_INTERVAL < ticks[k].remaining && |data| < len && !enough
        invariant 0 <= k <= |ticks| && dgmLen == bytesAvail && (k == 0 ==> accepted == old(accepted))
        invariant Since(old(accepted), old(returned), data)
        invariant Reading(connectionNumber, len, ticks, k, |data|, enough, Stocked(), old(bytesAvail), goal)
      {
        data, dgmLen, enough := LookOnce(ticks, k, len, data, goal, old(bytesAvail), old(accepted), old(returned));
        k := k + 1;
      }
      ReadingEnds(connectionNumber, len, ticks, k, |data|, enough, Stocked(), old(bytesAvail), goal);
    }

    method Read(len: int, ticks: seq<Tick>) returns (rc: int, data: seq<byte>)
      requires Valid() && Accounted() && len < 0x8000_0000
      requires forall i :: 0 <= i < |ticks| ==> AllReadable(ticks[i].urcs)
      modifies this, buffer, buffer.buffer
      ensures Valid() && connectionNumber == old(connectionNumber)
      ensures old(accepted) <= accepted && (ticks == [] ==> accepted == old(accepted))
      ensures len < 0 ==> rc == -1 && data == []
      ensures 0 <= len ==> rc == |data| == ReadFrom(old(Stocked()), connectionNumber, len, 0, old(bytesAvail), ticks)
      ensures Accounted() <==> old(ReadKeepsAccount(len, ticks))
      ensures Accounted() ==> returned == old(returned) + data
    {
      rc, data := -1, [];
      if len < 0 {
        return;
      }
      var dgmLen;
      data, dgmLen := LookOut(len, ticks);
      rc := |data|;
      if 0 < dgmLen && |data| < len {
        var rest := DrainRest(len - |data|);
        data := data + rest;
        rc := len;
      }
    }

    /** A datagram that fits into the empty ring is read back whole. */
    method DatagramThrough(u: Urc) returns (data: seq<byte>)
      requires Valid() && Accounted() && buffer.Contents() == []
      requires u.parts == 3 && u.socket == connectionNumber && 0 < u.announced == |u.payload| <= 512
      modifies this, buffer, buffer.buffer
      ensures Valid() && Accounted() && data == u.payload
    {
      ParseFilterResult(u);
      assert accepted == old(returned) + u.payload;
      var rc;
      rc, data := Read(u.announced, []);
      DatagramIsPrefix(old(returned), data, u.payload, buffer.Contents());
    }

    /** As many single bytes as are still wanted, announced or not. */
    method DrainRest(n: nat) returns (data: seq<byte>)
      requires Valid() && Accounted() && 0 < n < 0x8000_0000
      modifies this`bytesAvail, this`returned, buffer
      ensures Valid() && |data| == n && accepted == old(accepted)
      ensures Accounted() <==> n <= old(bytesAvail)
      ensures Accounted() ==> returned == old(returned) + data
    {
      ghost var announced := bytesAvail;
      data := Drain(n);
      if announced < n {
        Underflow(announced, n);
      }
    }
  }
}
