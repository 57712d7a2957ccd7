/** The buffer manager as one thread runs it: its cache, the system heap and the published size. */
module BufferManager {
  import opened Basics
  import opened BufferPool

  const TWO_32: int := 0x1_0000_0000

  type U32 = x: int | 0 <= x < 0x1_0000_0000

  /** The system allocator; `made` and `deleted` record everything it has handed out and taken back. */
  class SystemHeap {
    var nextId: nat
    ghost var made: seq<Buffer>
    ghost var deleted: multiset<Buffer>

    ghost predicate Valid()
      reads this
    {
      nextId == |made|
    }

    constructor ()
      ensures Valid() && made == [] && deleted == multiset{}
    {
      nextId, made, deleted := 0, [], multiset{};
    }

    /** A fresh buffer, or nothing when memory has run out. */
    method NewFromSystem(size: nat, big: bool, outOfMemory: bool) returns (b: Option<Buffer>)
      requires Valid()
      modifies this
      ensures Valid() && deleted == old(deleted)
      ensures outOfMemory ==> b == None && made == old(made)
      ensures !outOfMemory ==> b == Some(Buffer(|old(made)|, size, big)) && made == old(made) + [b.value]
    {
      if outOfMemory {
        return None;
      }
      b := Some(Buffer(nextId, size, big));
      nextId := nextId + 1;
      made := made + [b.value];
    }

    method DeleteToSystem(b: Buffer)
      requires Valid()
      modifies this
      ensures Valid() && made == old(made) && deleted == old(deleted) + multiset{b}
    {
      deleted := deleted + multiset{b};
    }
  }

  /** One thread's cache. */
  class TlsBufferCache {
    var normal: seq<Buffer>
    var big: seq<Buffer>
    const heap: SystemHeap

    constructor (heap: SystemHeap)
      ensures this.heap == heap && normal == [] && big == []
    {
      this.heap, normal, big := heap, [], [];
    }

    ghost function Contents(): Cache
      reads this
    {
      Cache(normal, big)
    }

    /** Pops the stack until a buffer fits, deleting the ones that do not. */
    method PopFitting(stack: seq<Buffer>, size: nat) returns (found: Option<Buffer>, rest: seq<Buffer>)
      requires heap.Valid()
      modifies heap
      ensures heap.Valid() && heap.made == old(heap.made)
      ensures var p := PopReusable(stack, size);
              found == p.found && rest == p.rest && heap.deleted == old(heap.deleted) + multiset(p.dropped)
    {
      rest := stack;
      ghost var dropped: seq<Buffer> := [];
      while rest != []
        invariant |rest| <= |stack|
        invariant heap.Valid() && heap.made == old(heap.made)
        invariant heap.deleted == old(heap.deleted) + multiset(dropped)
        invariant PopReusable(stack, size) == PopReusable(rest, size).(dropped := dropped + PopReusable(rest, size).dropped)
      {
        var buf := rest[|rest| - 1];
        rest := rest[..|rest| - 1];
        if buf.size >= size {
          return Some(buf), rest;
        }
        heap.DeleteToSystem(buf);
        assert dropped + ([buf] + PopReusable(rest, size).dropped) == dropped + [buf] + PopReusable(rest, size).dropped;
        dropped := dropped + [buf];
      }
      found := None;
    }

    method PushOrDelete(stack: seq<Buffer>, cap: nat, b: Buffer) returns (stack': seq<Buffer>)
      requires heap.Valid()
      modifies heap
      ensures heap.Valid() && heap.made == old(heap.made)
      ensures stack' == Pushed(stack, cap, b) && heap.deleted == old(heap.deleted) + Overflow(stack, cap, b)
    {
      stack' := stack;
      if |stack| < cap {
        stack' := stack + [b];
      } else {
        heap.DeleteToSystem(b);
      }
    }

    /** Runs when the thread exits. */
    method Destroy()
      requires heap.Valid()
      modifies this, heap
      ensures heap.Valid() && heap.made == old(heap.made)
      ensures Contents() == EMPTY
      ensures heap.deleted == old(heap.deleted) + multiset(old(normal)) + multiset(old(big))
    {
      DeleteAll(normal);
      DeleteAll(big);
      normal, big := [], [];
    }

    method DeleteAll(stack: seq<Buffer>)
      requires heap.Valid()
      modifies heap
      ensures heap.Valid() && heap.made == old(heap.made)
      ensures heap.deleted == old(heap.deleted) + multiset(stack)
    {
      for i := 0 to |stack|
        invariant heap.Valid() && heap.made == old(heap.made)
        invariant heap.deleted == old(heap.deleted) + multiset(stack[..i])
      {
        heap.DeleteToSystem(stack[i]);
        assert stack[..i + 1] == stack[..i] + [stack[i]];
      }
      assert stack[..|stack|] == stack;
    }
  }

  /** What the other threads and the hardware do to one compare-and-swap: first they may raise the shared value,
      then the operation may fail for no reason. */
  datatype Turn = Turn(raiseTo: nat, spurious: bool)

  /** The shared value after the first `n` turns. */
  function RaisedBy(value: nat, turns: nat -> Turn, n: nat): nat {
    if n == 0 then value else Max(RaisedBy(value, turns, n - 1), turns(n - 1).raiseTo)
  }

  const UNDISTURBED: nat -> Turn := _ => Turn(0, false)

  lemma {:induction false} RaisedByNobody(value: nat, n: nat)
    ensures RaisedBy(value, UNDISTURBED, n) == value
  {
    if n > 0 {
      RaisedByNobody(value, n - 1);
    }
  }

  class GlobalBufferManager {
    var currentBufferSize: nat
    var initialized: bool

    constructor ()
      ensures currentBufferSize == 0 && !initialized
    {
      currentBufferSize, initialized := 0, false;
    }

    /** Raises the published size to at least `size` while other threads go on raising it: turn `i` is what happens
        at the attempt number `i`, and only finitely many attempts, those before `calm`, fail for no reason. */
    method AtomicRaiseSize(size: nat, turns: nat -> Turn, ghost calm: nat) returns (ghost used: nat)
      requires forall i :: i >= calm ==> !turns(i).spurious
      modifies this`currentBufferSize
      ensures currentBufferSize == Max(RaisedBy(old(currentBufferSize), turns, used), size)
      ensures used == 0 <==> size <= old(currentBufferSize)
    {
      var cur := currentBufferSize;
      var i := 0;
      while size > cur
        invariant old(currentBufferSize) <= cur <= currentBufferSize == RaisedBy(old(currentBufferSize), turns, i)
        invariant i == 0 ==> cur == old(currentBufferSize)
        invariant i > 0 ==> size > old(currentBufferSize)
        decreases if i < calm then calm - i else 0, if size > cur then size - cur else 0
      {
        currentBufferSize := Max(currentBufferSize, turns(i).raiseTo);
        var spurious := turns(i).spurious;
        i := i + 1;
        if currentBufferSize == cur && !spurious {
          currentBufferSize := size;
          break;
        }
        cur := currentBufferSize;
      }
      used := i;
    }

    /** A fitting buffer from the cache, or a new one of the published size, raised first if it is too small. */
    method NormalAlloc(tls: TlsBufferCache, size: nat, outOfMemory: bool) returns (b: Option<Buffer>)
      requires tls.heap.Valid()
      modifies this`currentBufferSize, tls, tls.heap
      ensures tls.heap.Valid()
      ensures var p := PopReusable(old(tls.normal), size);
              && tls.Contents() == Cache(p.rest, old(tls.big))
              && tls.heap.deleted == old(tls.heap.deleted) + multiset(p.dropped)
              && (p.found.Some? ==>
                    && b == p.found && currentBufferSize == old(currentBufferSize)
                    && tls.heap.made == old(tls.heap.made))
              && (p.found.None? ==>
                    && currentBufferSize == Max(old(currentBufferSize), size)
                    && b == (if outOfMemory then None else Some(Buffer(|old(tls.heap.made)|, currentBufferSize, false)))
                    && tls.heap.made == old(tls.heap.made) + (if b.Some? then [b.value] else []))
      ensures b.Some? ==> b.value.size >= size
    {
      PopReusableFindsTopmost(tls.normal, size);
      var rest;
      b, rest := tls.PopFitting(tls.normal, size);
      tls.normal := rest;
      if b.Some? {
        return;
      }
      var poolSize := currentBufferSize;
      var allocSize := if poolSize > size then poolSize else size;
      if allocSize > poolSize {
        ghost var used := AtomicRaiseSize(allocSize, UNDISTURBED, 0);
        RaisedByNobody(poolSize, used);
      }
      b := tls.heap.NewFromSystem(allocSize, false, outOfMemory);
    }

    /** A fitting big buffer from the cache, or a new one of exactly the requested size. */
    method BigAlloc(tls: TlsBufferCache, size: nat, outOfMemory: bool) returns (b: Option<Buffer>)
      requires tls.heap.Valid()
      modifies tls, tls.heap
      ensures tls.heap.Valid()
      ensures var p := PopReusable(old(tls.big), size);
              && tls.Contents() == Cache(old(tls.normal), p.rest)
              && tls.heap.deleted == old(tls.heap.deleted) + multiset(p.dropped)
              && b == (if p.found.Some? then p.found
                       else if outOfMemory then None
                       else Some(Buffer(|old(tls.heap.made)|, size, true)))
              && tls.heap.made == old(tls.heap.made) + (if p.found.None? && b.Some? then [b.value] else [])
      ensures b.Some? ==> b.value.size >= size
    {
      PopReusableFindsTopmost(tls.big, size);
      var rest;
      b, rest := tls.PopFitting(tls.big, size);
      tls.big := rest;
      if b.Some? {
        return;
      }
      b := tls.heap.NewFromSystem(size, true, outOfMemory);
    }

    /** Gives a buffer back to the cache of the thread that frees it, whichever thread obtained it. */
    method Free(tls: TlsBufferCache, buffer: Option<Buffer>)
      requires tls.heap.Valid()
      modifies tls, tls.heap
      ensures tls.heap.Valid() && tls.heap.made == old(tls.heap.made)
      ensures buffer.None? ==> tls.Contents() == old(tls.Contents()) && tls.heap.deleted == old(tls.heap.deleted)
      ensures buffer.Some? ==>
                var b, was := buffer.value, old(tls.Contents());
                var room := if b.big then |was.big| < 2 else |was.normal| < 4;
                && tls.Contents() == (if !room then was
                                      else if b.big then Cache(was.normal, was.big + [b]) else Cache(was.normal + [b], was.big))
                && tls.heap.deleted == old(tls.heap.deleted) + (if room then multiset{} else multiset{b})
      ensures buffer.Some? ==>
                var b, stack := buffer.value, Stack(old(tls.Contents()), buffer.value.big);
                && tls.Contents() == WithStack(old(tls.Contents()), b.big, Pushed(stack, Capacity(b.big), b))
                && tls.heap.deleted == old(tls.heap.deleted) + Overflow(stack, Capacity(b.big), b)
    {
      if buffer.None? {
        return;
      }
      if buffer.value.big {
        var stack := tls.PushOrDelete(tls.big, MAX_BIG, buffer.value);
        tls.big := stack;
      } else {
        var stack := tls.PushOrDelete(tls.normal, MAX_NORMAL, buffer.value);
        tls.normal := stack;
      }
    }

    method Clear()
      modifies this
      ensures currentBufferSize == 0 && !initialized
    {
      currentBufferSize := 0;
      initialized := false;
    }

    /** Publishes the preferred size, unless a size at least as large is already in force. */
    method Initialize(stripWidth: U32, blockHeight: U32)
      modifies this
      ensures initialized
      ensures currentBufferSize ==
              if old(initialized) then Max(old(currentBufferSize), MemoryBufferSize(stripWidth, blockHeight))
              else MemoryBufferSize(stripWidth, blockHeight)
    {
      var ts := MemoryBufferSize(stripWidth, blockHeight);
      if initialized && ts <= currentBufferSize {
        return;
      }
      currentBufferSize := ts;
      initialized := true;
    }
  }

  /** The bytes of a block whose rows are padded to 512 bits, in 32-bit arithmetic. */
  function MemoryBufferSize(stripWidth: U32, blockHeight: U32): U32 {
    var padded := (stripWidth + 511) % TWO_32 / 512 * 512;
    padded / 8 * blockHeight % TWO_32
  }

  /** The same without wrap-around. */
  function PaddedBlockBytes(stripWidth: nat, blockHeight: nat): nat {
    (stripWidth + 511) / 512 * 64 * blockHeight
  }

  /** A padded row is the shortest one of whole 64-byte units that holds the pixels, one bit each. */
  lemma PaddedRowIsLeast(stripWidth: nat, blockHeight: nat, row: nat)
    requires row % 64 == 0 && stripWidth <= 8 * row && (row == 0 || 8 * (row - 64) < stripWidth)
    ensures PaddedBlockBytes(stripWidth, blockHeight) == row * blockHeight
  {
    assert (stripWidth + 511) / 512 * 64 == row;
  }

  /** A width that fits is rounded up to 512 pixels; one that does not is rounded to nothing. */
  lemma RoundedWidth(stripWidth: U32)
    ensures (stripWidth + 511) % TWO_32 / 512 * 512 / 8 ==
            if stripWidth + 511 < TWO_32 then (stripWidth + 511) / 512 * 64 else 0
    ensures stripWidth + 511 >= TWO_32 ==> (stripWidth + 511) / 512 * 64 >= TWO_32 / 8
  {
    if stripWidth + 511 < TWO_32 {
      assert (stripWidth + 511) % TWO_32 == stripWidth + 511;
      assert (stripWidth + 511) / 512 * 512 / 8 == (stripWidth + 511) / 512 * 64;
    } else {
      assert (stripWidth + 511) % TWO_32 < 512;
    }
  }

  /** The computed size is the padded size of the block modulo 2^32, or 0 when it is the width that does not fit. */
  lemma MemoryBufferSizeIs(stripWidth: U32, blockHeight: U32)
    ensures MemoryBufferSize(stripWidth, blockHeight) ==
            if stripWidth + 511 < 0x1_0000_0000 then PaddedBlockBytes(stripWidth, blockHeight) % 0x1_0000_0000 else 0
  {
    RoundedWidth(stripWidth);
  }

  lemma Remains(n: nat)
    ensures n % TWO_32 == n <==> n < TWO_32
  {
  }

  lemma PositiveProduct(a: nat, b: nat)
    requires a > 0
    ensures a * b == 0 <==> b == 0
  {
  }

  /** So it is that size exactly when that size and the rounded width fit 32 bits. */
  lemma MemoryBufferSizeExact(stripWidth: U32, blockHeight: U32)
    ensures MemoryBufferSize(stripWidth, blockHeight) == PaddedBlockBytes(stripWidth, blockHeight) <==>
            PaddedBlockBytes(stripWidth, blockHeight) < TWO_32 && (stripWidth + 511 < TWO_32 || blockHeight == 0)
    ensures stripWidth <= 8 * ((stripWidth + 511) / 512 * 64)
  {
    RoundedWidth(stripWidth);
    MemoryBufferSizeIs(stripWidth, blockHeight);
    Remains(PaddedBlockBytes(stripWidth, blockHeight));
    if stripWidth + 511 >= TWO_32 {
      PositiveProduct((stripWidth + 511) / 512 * 64, blockHeight);
    }
  }
}
