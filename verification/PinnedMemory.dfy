/** Pinned host memory: a bump allocator over one shared area, and the translation of guest addresses into it. */
module PinnedMemory {
  import opened Bytes

  const PIN_SIZE := 20971520    // (1 << 20) * sizeof(float) * 5

  /** Where block number `i` starts within the area. */
  function Offset(sizes: seq<nat>, i: nat): nat
    requires i <= |sizes|
  {
    if i == 0 then 0 else Offset(sizes, i - 1) + sizes[i - 1]
  }

  function Total(sizes: seq<nat>): nat {
    Offset(sizes, |sizes|)
  }

  predicate Positive(sizes: seq<nat>) {
    forall i :: 0 <= i < |sizes| ==> sizes[i] > 0
  }

  lemma {:induction false} OffsetMonotone(sizes: seq<nat>, i: nat, j: nat)
    requires i < j <= |sizes|
    ensures Offset(sizes, i) + sizes[i] <= Offset(sizes, j)
    decreases j
  {
    if i + 1 < j { OffsetMonotone(sizes, i, j - 1); }
  }

  lemma {:induction false} OffsetOfPrefix(sizes: seq<nat>, more: nat, i: nat)
    requires i <= |sizes|
    ensures Offset(sizes + [more], i) == Offset(sizes, i)
  {
    if i > 0 { OffsetOfPrefix(sizes, more, i - 1); }
  }

  /** `at` is an address of block `i` of an area that starts at `start`. */
  predicate InBlock(start: nat, sizes: seq<nat>, i: nat, at: int) {
    i < |sizes| && start + Offset(sizes, i) <= at < start + Offset(sizes, i) + sizes[i]
  }

  /** Blocks never share an address and never leave the area, as long as what was registered fits. */
  lemma BlocksPartition(start: nat, sizes: seq<nat>, i: nat, j: nat, at: int)
    requires Total(sizes) <= PIN_SIZE && InBlock(start, sizes, i, at)
    ensures start <= at < start + PIN_SIZE
    ensures InBlock(start, sizes, j, at) ==> i == j
  {
    if i + 1 < |sizes| { OffsetMonotone(sizes, i, |sizes|); }
    if j < |sizes| {
      if i < j { OffsetMonotone(sizes, i, j); }
      if j < i { OffsetMonotone(sizes, j, i); }
    }
  }

  // ---------- address translation ----------

  /** The upper bound is inclusive, as in the source. */
  predicate IsPinned(clientStart: u64, ptr: u64) {
    var end := clientStart + PIN_SIZE;
    clientStart <= ptr <= (if end < TWO_TO_THE_64 then end else end - TWO_TO_THE_64)
  }

  function ConvertPin(clientStart: u64, hostStart: u64, ptr: u64): u64 {
    (hostStart + ptr - clientStart) % TWO_TO_THE_64
  }

  predicate AreaFits(start: u64) {
    start + PIN_SIZE < TWO_TO_THE_64
  }

  /**
   * If the guest's blocks lie one after the other from its first address, as the host's do, every range inside
   * guest block i is recognised and goes to the same place in host block i, and in no other block.
   */
  lemma TranslationRespectsBlocks(clientStart: u64, hostStart: u64, sizes: seq<nat>, i: nat, ptr: u64, count: nat,
                                  k: nat, j: nat)
    requires AreaFits(clientStart) && AreaFits(hostStart) && Total(sizes) <= PIN_SIZE
    requires k < count && InBlock(clientStart, sizes, i, ptr) && InBlock(clientStart, sizes, i, ptr + count - 1)
    ensures IsPinned(clientStart, ptr)
    ensures var to := ConvertPin(clientStart, hostStart, ptr) + k;
            && to - (hostStart + Offset(sizes, i)) == ptr + k - (clientStart + Offset(sizes, i))
            && InBlock(hostStart, sizes, i, to)
            && (InBlock(hostStart, sizes, j, to) ==> j == i)
  {
    BlocksPartition(clientStart, sizes, i, i, ptr);
    BlocksPartition(hostStart, sizes, i, j, hostStart + ptr - clientStart + k);
  }

  /** Recognised are the 20971520 addresses of the area and the one just past them. */
  lemma RecognisedIff(clientStart: u64, ptr: u64)
    requires clientStart + 20971520 < TWO_TO_THE_64
    ensures IsPinned(clientStart, ptr) <==> clientStart <= ptr <= clientStart + 20971520
  {
  }

  /** The recognised addresses go into the area except exactly one, the address just past its end. */
  lemma RecognisedInsideIffNotEnd(clientStart: u64, hostStart: u64, ptr: u64)
    requires AreaFits(clientStart) && AreaFits(hostStart) && IsPinned(clientStart, ptr)
    ensures hostStart <= ConvertPin(clientStart, hostStart, ptr) < hostStart + PIN_SIZE
       <==> ptr != clientStart + PIN_SIZE
  {
  }

  /** Before the first registration the start is null, and exactly the lowest addresses look pinned. */
  lemma NullStartCatchesLowAddresses(ptr: u64)
    ensures IsPinned(0, ptr) <==> ptr <= PIN_SIZE
  {
  }

  // ---------- the host's two objects ----------

  class Pool {
    const pinStart: u64
    var allocPos: nat
    var hashmap: map<u64, nat>

    constructor (pinStart: u64)
      ensures this.pinStart == pinStart && allocPos == 0 && hashmap == map[]
    {
      this.pinStart, allocPos, hashmap := pinStart, 0, map[];
    }

    method Register(byteSize: nat) returns (block: u64)
      requires pinStart + allocPos < TWO_TO_THE_64
      modifies this
      ensures block == pinStart + old(allocPos)
      ensures allocPos == old(allocPos) + byteSize && hashmap == old(hashmap)[block := byteSize]
    {
      block := pinStart + allocPos;
      allocPos := allocPos + byteSize;
      hashmap := hashmap[block := byteSize];
    }
  }

  /** The host's view of one guest: what `cuMemHostAlloc` builds up. */
  class Registrations {
    const pool: Pool
    var clientPinStart: u64
    var registered: seq<u64>
    ghost var sizes: seq<nat>

    ghost predicate Valid()
      reads this, pool
    {
      && AreaFits(pool.pinStart)
      && pool.allocPos == Total(sizes) && |registered| == |sizes|
      && (forall i :: 0 <= i < |sizes| ==> registered[i] == pool.pinStart + Offset(sizes, i))
      && (Positive(sizes) ==> forall i :: 0 <= i < |sizes| ==>
            registered[i] in pool.hashmap && pool.hashmap[registered[i]] == sizes[i])
    }

    constructor (pinStart: u64)
      requires AreaFits(pinStart)
      ensures Valid() && fresh(pool) && clientPinStart == 0 && sizes == [] && pool.pinStart == pinStart
    {
      pool := new Pool(pinStart);
      clientPinStart, registered, sizes := 0, [], [];
    }

    /** The `cuMemHostAlloc` handler up to the driver call. The first guest address seen becomes the base. */
    method MemHostAlloc(pp: u64, byteSize: nat)
      requires Valid() && Total(sizes) <= PIN_SIZE
      modifies this, pool
      ensures Valid() && sizes == old(sizes) + [byteSize]
      ensures clientPinStart == if old(clientPinStart) == 0 then pp else old(clientPinStart)
      ensures registered == old(registered) + [pool.pinStart + Total(old(sizes))]
    {
      if clientPinStart == 0 {
        clientPinStart := pp;
      }
      var block := pool.Register(byteSize);
      ghost var before := sizes;
      registered := registered + [block];
      sizes := sizes + [byteSize];
      forall i | 0 <= i <= |before|
        ensures Offset(sizes, i) == Offset(before, i)
      {
        OffsetOfPrefix(before, byteSize, i);
      }
      if Positive(sizes) {
        assert Positive(before) by {
          assert forall i :: 0 <= i < |before| ==> sizes[i] == before[i];
        }
        forall i | 0 <= i < |before|
          ensures registered[i] != block
        {
          OffsetMonotone(before, i, |before|);
          assert sizes[i] == before[i];
        }
      }
    }
  }
}
