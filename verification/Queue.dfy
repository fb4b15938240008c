/** The byte-level ring buffer of kernel/lib/Queue.c, shown to be a FIFO that holds len - 1 elements. */
module Queues {
  import opened Words

  /** Byte offset of slot `j`; slots do not overlap. */
  function Offset(size: nat, j: nat): nat { size * j }

  lemma {:induction false} SlotsApart(size: nat, i: nat, j: nat)
    requires i < j
    ensures Offset(size, i) + size <= Offset(size, j)
  {
    assert Offset(size, j) == Offset(size, j - 1) + size;
    if i < j - 1 {
      SlotsApart(size, i, j - 1);
    }
  }

  /** The cursors wrap at the end of the buffer. */
  lemma NextSlot(i: nat, len: nat)
    requires i < len
    ensures (i + 1) % len == if i + 1 < len then i + 1 else 0
  {
    if i + 1 == len {
      assert (i + 1) % len == 0;
    }
  }

  /** Slot `j` of the buffer holds the bytes `e`. */
  ghost predicate Holds(bytes: seq<Byte>, size: nat, j: nat, e: seq<Byte>) {
    |e| == size && Offset(size, j) + size <= |bytes| && bytes[Offset(size, j)..Offset(size, j) + size] == e
  }

  /** Writing slot `r` leaves what the other slots hold. */
  lemma KeepsOther(before: seq<Byte>, after: seq<Byte>, size: nat, r: nat, j: nat, e: seq<Byte>)
    requires |before| == |after| && j != r && Holds(before, size, j, e)
    requires forall x :: 0 <= x < |after| && !(Offset(size, r) <= x < Offset(size, r) + size) ==> after[x] == before[x]
    ensures Holds(after, size, j, e)
  {
    if j < r {
      SlotsApart(size, j, r);
    } else {
      SlotsApart(size, r, j);
    }
  }

  lemma NowHolds(bytes: seq<Byte>, size: nat, j: nat, e: seq<Byte>)
    requires |e| == size && Offset(size, j) + size <= |bytes|
    requires forall x :: 0 <= x < |bytes| && Offset(size, j) <= x < Offset(size, j) + size ==> bytes[x] == e[x - Offset(size, j)]
    ensures Holds(bytes, size, j, e)
  {
    hide Offset;
  }

  class Queue {
    var front: nat
    var rear: nat
    const len: nat
    const dataSize: nat
    const arr: array<Byte>
    ghost var contents: seq<seq<Byte>>

    /** The ring position `i` places behind `front`. */
    ghost function Position(i: nat): nat
      reads this
      requires front < len && i < len
    {
      if front + i < len then front + i else front + i - len
    }

    ghost predicate Valid()
      reads this, arr
    {
      && front < len && rear < len && arr.Length == Offset(dataSize, len)
      && |contents| < len && rear == Position(|contents|)
      && forall i :: 0 <= i < |contents| ==> Holds(arr[..], dataSize, Position(i), contents[i])
    }

    /** initQueue. */
    constructor (buffer: array<Byte>, queueLen: nat, size: nat)
      requires queueLen > 0 && buffer.Length == Offset(size, queueLen)
      ensures Valid() && contents == [] && len == queueLen && dataSize == size && arr == buffer && fresh(this)
    {
      front, rear, len, dataSize, arr, contents := 0, 0, queueLen, size, buffer, [];
    }

    /** queueIsEmpty. */
    method IsEmpty() returns (empty: bool)
      requires Valid()
      ensures empty <==> contents == []
    {
      empty := front == rear;
    }

    /** queueIsFull: one slot always stays unused. */
    method IsFull() returns (full: bool)
      requires Valid()
      ensures full <==> |contents| == len - 1
    {
      NextSlot(rear, len);
      full := front == (rear + 1) % len;
    }

    /** memcpy into the buffer. */
    method CopyIn(base: nat, data: seq<Byte>)
      requires base + |data| <= arr.Length
      modifies arr
      ensures forall x :: 0 <= x < arr.Length ==> arr[x] == if base <= x < base + |data| then data[x - base] else old(arr[x])
    {
      for b := 0 to |data|
        invariant forall x :: 0 <= x < arr.Length ==> arr[x] == if base <= x < base + b then data[x - base] else old(arr[x])
      {
        arr[base + b] := data[b];
      }
    }

    /** enQueue: appends unless the ring is full, in which case nothing changes. */
    method Enqueue(data: seq<Byte>) returns (ok: bool)
      requires Valid() && |data| == dataSize
      modifies this, arr
      ensures Valid() && ok == (|old(contents)| < len - 1)
      ensures contents == if ok then old(contents) + [data] else old(contents)
    {
      hide Holds, Offset;
      var full := IsFull();
      if full {
        return false;
      }
      SlotsApart(dataSize, rear, len);
      var base: nat := Offset(dataSize, rear);
      ghost var before := arr[..];
      CopyIn(base, data);
      forall i | 0 <= i < |contents| ensures Holds(arr[..], dataSize, Position(i), contents[i]) {
        KeepsOther(before, arr[..], dataSize, rear, Position(i), contents[i]);
      }
      NowHolds(arr[..], dataSize, rear, data);
      NextSlot(rear, len);
      rear := (rear + 1) % len;
      contents := contents + [data];
      ok := true;
    }

    /** deQueue: hands out the oldest element, or fails on an empty ring. */
    method Dequeue() returns (ok: bool, data: seq<Byte>)
      requires Valid()
      modifies this
      ensures Valid() && ok == (old(contents) != [])
      ensures ok ==> data == old(contents)[0] && contents == old(contents)[1..]
      ensures !ok ==> data == [] && contents == []
    {
      if front == rear {
        return false, [];
      }
      assert Holds(arr[..], dataSize, Position(0), contents[0]);
      SlotsApart(dataSize, front, len);
      var base := Offset(dataSize, front);
      data := [];
      for b := 0 to dataSize
        invariant |data| == b && forall x :: 0 <= x < b ==> data[x] == arr[base + x]
      {
        data := data + [arr[base + b]];
      }
      assert data == arr[base..base + dataSize];
      NextSlot(front, len);
      front := (front + 1) % len;
      contents := contents[1..];
      ok := true;
    }
  }
}
