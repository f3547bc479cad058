/** The 64-slot ring buffer that the participant pool uses as its free list. */
module CircularBuffers {
  import opened Common

  const SIZE: nat := 64

  /** The cells from the read cursor to the write cursor, around the end if need be. */
  ghost function Queued(cells: seq<byte>, head: nat, tail: nat, isFull: bool): seq<byte>
    requires |cells| == SIZE && head < SIZE && tail < SIZE
  {
    if isFull || head < tail then cells[tail..] + cells[..head] else cells[tail..head]
  }

  /** The cursor one further. */
  function Next(cursor: nat): (r: nat)
    requires cursor < SIZE
    ensures r == if cursor == SIZE - 1 then 0 else cursor + 1
  {
    (cursor + 1) % SIZE
  }

  lemma QueuedWritten(cells: seq<byte>, head: nat, tail: nat, isFull: bool, x: byte)
    requires |cells| == SIZE && head < SIZE && tail < SIZE && (isFull ==> head == tail)
    ensures var before := Queued(cells, head, tail, isFull);
            Queued(cells[head := x], Next(head), tail, Next(head) == tail) == if |before| == SIZE then [x] else before + [x]
  {
    var after := cells[head := x];
    if head < tail {
      assert after[tail..] + after[..head + 1] == cells[tail..] + cells[..head] + [x];
    } else if head == SIZE - 1 {
      assert isFull ==> after[tail..] + after[..0] == [x];
      assert after[tail..] + after[..0] == cells[tail..head] + [x];
    } else {
      assert isFull ==> after[tail..head + 1] == [x];
      assert after[tail..head + 1] == cells[tail..head] + [x];
    }
  }

  lemma QueuedRead(cells: seq<byte>, head: nat, tail: nat, isFull: bool)
    requires |cells| == SIZE && head < SIZE && tail < SIZE && (isFull ==> head == tail)
    ensures var before, after := Queued(cells, head, tail, isFull), Queued(cells, head, Next(tail), false);
            if before != [] then cells[tail] == before[0] && after == before[1..] else |after| == SIZE - 1
  {
    if isFull || head < tail {
      WrappedRead(cells, head, tail);
    } else if head > tail {
      assert cells[tail..head] == [cells[tail]] + cells[tail + 1..head];
    }
  }

  /** The queued cells run around the end, or fill the whole ring. */
  lemma WrappedRead(cells: seq<byte>, head: nat, tail: nat)
    requires |cells| == SIZE && head <= tail < SIZE
    ensures cells[tail..] + cells[..head] == [cells[tail]] + Queued(cells, head, Next(tail), false)
  {
    if tail == SIZE - 1 {
      assert cells[tail..] == [cells[tail]];
    } else {
      assert cells[tail..] == [cells[tail]] + cells[tail + 1..];
    }
  }

  class CircularBuffer {
    const data: array<byte>
    var head: nat
    var tail: nat
    var isFull: bool

    ghost predicate Valid()
      reads this
    {
      && data.Length == SIZE
      && head < SIZE
      && tail < SIZE
      && (isFull ==> head == tail)
    }

    /** The queued octets, oldest first. */
    ghost function Contents(): (s: seq<byte>)
      requires Valid()
      reads this, data
    {
      Queued(data[..], head, tail, isFull)
    }

    constructor ()
      ensures Valid() && Contents() == [] && fresh(data)
    {
      data := new byte[SIZE](_ => 0);
      head, tail, isFull := 0, 0, false;
    }

    method Init()
      requires Valid()
      modifies this
      ensures Valid() && Contents() == []
    {
      head, tail, isFull := 0, 0, false;
    }

    /**
     * Appends x. On a full buffer the source reports an error and carries on:
     * the write cursor overtakes the read cursor and everything but x is lost.
     */
    method Write(x: byte)
      requires Valid()
      modifies this, data
      ensures Valid()
      ensures Contents() == if |old(Contents())| == SIZE then [x] else old(Contents()) + [x]
    {
      QueuedWritten(data[..], head, tail, isFull, x);
      data[head] := x;
      head := Next(head);
      isFull := head == tail;
    }

    /**
     * Takes the oldest octet. On an empty buffer the source reports an error and carries on:
     * a stale cell is returned and the buffer then claims the 63 other cells.
     */
    method Read() returns (x: byte)
      requires Valid()
      modifies this
      ensures Valid()
      ensures old(Contents()) != [] ==> x == old(Contents())[0] && Contents() == old(Contents())[1..]
      ensures old(Contents()) == [] ==> x == data[old(tail)] && |Contents()| == SIZE - 1
    {
      QueuedRead(data[..], head, tail, isFull);
      x := data[tail];
      tail := Next(tail);
      isFull := false;
    }

    predicate IsEmpty()
      requires Valid()
      reads this, data
      ensures IsEmpty() <==> Contents() == []
    {
      head == tail && !isFull
    }

    predicate IsFull()
      requires Valid()
      reads this, data
      ensures IsFull() <==> |Contents()| == SIZE
    {
      isFull
    }

    function Count(): (n: nat)
      requires Valid()
      reads this, data
      ensures n == |Contents()|
    {
      if isFull then SIZE
      else if head >= tail then head - tail
      else SIZE + head - tail
    }
  }
}
