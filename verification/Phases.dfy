/** The three phases of a window. Each method lets its workers take their steps in any order: the worker
    that moves next is an arbitrary choice, so the contracts hold for every schedule. */
module Phases {
  import opened Basics
  import opened Blocks
  import opened Fnv
  import opened BlockPipeline

  const MAX_WORKERS: int := 10

  predicate MayStart(workers: int, threads: int, slots: nat) {
    1 <= workers <= threads && workers <= slots && workers <= 10
  }

  /** The workers a phase starts: as many as asked for, but no more than slots or than ten, and at least one. */
  function WorkerCount(threads: int, slots: nat): (n: nat)
    ensures n == 1 || MayStart(n, threads, slots)
    ensures forall m :: MayStart(m, threads, slots) ==> m <= n
  {
    Max(1, Min(threads, Min(slots, MAX_WORKERS)))
  }

  /** Adds up the per-worker times after the join. */
  method Total(a: seq<nat>) returns (t: nat)
    ensures t == Sum(a)
  {
    t := 0;
    for i := 0 to |a|
      invariant t == Sum(a[..i])
    {
      SumSnoc(a[..i], a[i]);
      assert a[..i + 1] == a[..i] + [a[i]];
      t := t + a[i];
    }
    assert a[..|a|] == a;
  }

  function Lengths(blocks: seq<Option<Bitmap>>): seq<nat> {
    seq(|blocks|, i requires 0 <= i < |blocks| => if blocks[i].Some? then blocks[i].value.dataLength else 0)
  }

  /** Adds up the data lengths of the blocks that are there. */
  method TotalBytes(blocks: array<Option<Bitmap>>) returns (t: nat)
    ensures t == Sum(Lengths(blocks[..]))
  {
    t := 0;
    for i := 0 to blocks.Length
      invariant t == Sum(Lengths(blocks[..i]))
    {
      var n := if blocks[i].Some? then blocks[i].value.dataLength else 0;
      assert Lengths(blocks[..i + 1]) == Lengths(blocks[..i]) + [n];
      SumSnoc(Lengths(blocks[..i]), n);
      t := t + n;
    }
    assert blocks[..] == blocks[..blocks.Length];
  }

  // ---- Phase 1: raster ----

  datatype RasterSlot = RasterSlot(digest: BlockDigest, block: Option<Bitmap>)

  /** A raster worker stores the digest first and then moves the bitmap into place. */
  function RasterJob(initial: RasterSlot, block: Option<Bitmap>, doHash: bool, cost: nat): SlotJob<RasterSlot> {
    var digest := DigestOfBlock(block, doHash);
    SlotJob(initial, [RasterSlot(digest, initial.block), RasterSlot(digest, block)], cost, false)
  }

  /** The digest of a block, or the invalid digest when there is no block. */
  method MakeBlockDigest(block: Option<Bitmap>, doHash: bool) returns (digest: BlockDigest)
    ensures digest == DigestOfBlock(block, doHash)
  {
    digest := NO_DIGEST;
    if block.Some? {
      digest := MakeDigest(block.value, doHash);
    }
  }

  ghost function RasterJobs(rasterize: (nat, nat) -> Option<Bitmap>, col: nat, row0: nat, doHash: bool, elapsed: seq<nat>,
                            digests: seq<BlockDigest>, raw: seq<Option<Bitmap>>): (jobs: seq<SlotJob<RasterSlot>>)
    requires |elapsed| == |digests| == |raw|
    ensures |jobs| == |raw|
    ensures forall k :: 0 <= k < |raw| ==>
              jobs[k] == RasterJob(RasterSlot(digests[k], raw[k]), rasterize(col, row0 + k), doHash, elapsed[k])
  {
    seq(|raw|, k requires 0 <= k < |raw| =>
      RasterJob(RasterSlot(digests[k], raw[k]), rasterize(col, row0 + k), doHash, elapsed[k]))
  }

  /** A snapshot of everything a raster phase writes; `calls` lists the rasterize calls made so far. */
  datatype RasterMemory = RasterMemory(
    next: int, pcs: seq<Pc>, blocks: seq<Option<Bitmap>>, cpuUs: seq<nat>,
    digests: seq<BlockDigest>, raw: seq<Option<Bitmap>>, calls: seq<(nat, nat)>)

  /** The memory shows the state `s` of the interleaving machine. */
  ghost predicate RasterShows(rasterize: (nat, nat) -> Option<Bitmap>, col: nat, row0: nat, m: RasterMemory,
                              s: State<RasterSlot>) {
    && m.next == s.next && m.pcs == s.pcs && m.cpuUs == s.cpu
    && |m.blocks| == |m.pcs| && |m.digests| == |m.raw| == |s.out|
    && (forall k :: 0 <= k < |s.out| ==> s.out[k] == RasterSlot(m.digests[k], m.raw[k]))
    && (forall w :: 0 <= w < |m.pcs| ==>
          m.blocks[w] == if m.pcs[w].Holding? && m.pcs[w].done == 1 then rasterize(col, row0 + m.pcs[w].slot) else None)
    && |m.calls| == |s.started| && (forall i :: 0 <= i < |m.calls| ==> m.calls[i] == (col, row0 + s.started[i]))
  }

  lemma ShowsInit(rasterize: (nat, nat) -> Option<Bitmap>, col: nat, row0: nat, m: RasterMemory,
                  jobs: seq<SlotJob<RasterSlot>>, n: nat)
    requires m.next == 0 && m.calls == [] && |m.pcs| == |m.blocks| == |m.cpuUs| == n
    requires forall w :: 0 <= w < n ==> m.pcs[w] == Popping && m.cpuUs[w] == 0 && m.blocks[w] == None
    requires |m.digests| == |m.raw| == |jobs|
    requires forall k :: 0 <= k < |jobs| ==> jobs[k].initial == RasterSlot(m.digests[k], m.raw[k])
    ensures RasterShows(rasterize, col, row0, m, Init(jobs, n))
  {
  }

  lemma ShowsPop(rasterize: (nat, nat) -> Option<Bitmap>, col: nat, row0: nat, m: RasterMemory, s: State<RasterSlot>,
                 jobs: seq<SlotJob<RasterSlot>>, w: nat)
    requires RasterShows(rasterize, col, row0, m, s) && OwnSlot(jobs, s, w) && s.pcs[w] == Popping
    ensures RasterShows(rasterize, col, row0,
              m.(next := m.next + 1, pcs := m.pcs[w := if m.next < |jobs| then Holding(m.next, 0) else Returned]),
              Step(jobs, s, w))
  {
  }

  lemma ShowsStart(rasterize: (nat, nat) -> Option<Bitmap>, col: nat, row0: nat, m: RasterMemory, s: State<RasterSlot>,
                   jobs: seq<SlotJob<RasterSlot>>, w: nat, k: nat, doHash: bool, cost: nat)
    requires RasterShows(rasterize, col, row0, m, s) && OwnSlot(jobs, s, w) && s.pcs[w] == Holding(k, 0)
    requires jobs[k] == RasterJob(jobs[k].initial, rasterize(col, row0 + k), doHash, cost)
    ensures var block := rasterize(col, row0 + k);
            RasterShows(rasterize, col, row0,
              m.(pcs := m.pcs[w := Holding(k, 1)], blocks := m.blocks[w := block], cpuUs := m.cpuUs[w := m.cpuUs[w] + cost],
                 digests := m.digests[k := DigestOfBlock(block, doHash)], calls := m.calls + [(col, row0 + k)]),
              Step(jobs, s, w))
  {
  }

  lemma ShowsStore(rasterize: (nat, nat) -> Option<Bitmap>, col: nat, row0: nat, m: RasterMemory, s: State<RasterSlot>,
                   jobs: seq<SlotJob<RasterSlot>>, w: nat, k: nat, doHash: bool, cost: nat)
    requires RasterShows(rasterize, col, row0, m, s) && OwnSlot(jobs, s, w) && s.pcs[w] == Holding(k, 1)
    requires jobs[k] == RasterJob(jobs[k].initial, rasterize(col, row0 + k), doHash, cost)
    ensures RasterShows(rasterize, col, row0,
              m.(pcs := m.pcs[w := Holding(k, 2)], raw := m.raw[k := m.blocks[w]], blocks := m.blocks[w := None]),
              Step(jobs, s, w))
  {
  }

  lemma ShowsBack(rasterize: (nat, nat) -> Option<Bitmap>, col: nat, row0: nat, m: RasterMemory, s: State<RasterSlot>,
                  jobs: seq<SlotJob<RasterSlot>>, w: nat)
    requires RasterShows(rasterize, col, row0, m, s) && OwnSlot(jobs, s, w) && s.pcs[w].Holding?
    requires s.pcs[w].done == |jobs[s.pcs[w].slot].writes| == 2
    ensures RasterShows(rasterize, col, row0, m.(pcs := m.pcs[w := Popping]), Step(jobs, s, w))
  {
  }

  // ---- Footprint ----

  /** The places where a block is. */
  ghost function There(blocks: seq<Option<Bitmap>>): set<nat> {
    set k: nat | k < |blocks| && blocks[k].Some?
  }

  /** How many there are. */
  function Alive(blocks: seq<Option<Bitmap>>): (n: nat)
    ensures n <= |blocks|
  {
    if blocks == [] then 0
    else Alive(blocks[..|blocks| - 1]) + if blocks[|blocks| - 1].Some? then 1 else 0
  }

  lemma {:induction false} AliveIsThere(blocks: seq<Option<Bitmap>>)
    ensures Alive(blocks) == |There(blocks)|
  {
    if blocks != [] {
      var n := |blocks| - 1;
      AliveIsThere(blocks[..n]);
      assert There(blocks) == There(blocks[..n]) + if blocks[n].Some? then {n} else {};
    } else {
      assert There(blocks) == {};
    }
  }

  lemma {:induction false} NoneAlive(blocks: seq<Option<Bitmap>>)
    requires Cleared(blocks)
    ensures Alive(blocks) == 0
  {
    if blocks != [] {
      NoneAlive(blocks[..|blocks| - 1]);
    }
  }

  /** The uncompressed blocks alive: those stored in the window and those in the workers' hands. */
  function LiveBlocks(m: RasterMemory): nat {
    Alive(m.raw) + Alive(m.blocks)
  }

  predicate AtMost(counts: seq<nat>, bound: nat) {
    forall i :: 0 <= i < |counts| ==> counts[i] <= bound
  }

  predicate Cleared(blocks: seq<Option<Bitmap>>) {
    forall k :: 0 <= k < |blocks| ==> blocks[k] == None
  }

  /** The window starts without blocks. */
  ghost predicate ClearedJobs(jobs: seq<SlotJob<RasterSlot>>) {
    forall k :: 0 <= k < |jobs| ==> jobs[k].initial.block == None
  }

  ghost function Slots(pcs: seq<Pc>, workers: set<nat>): set<nat>
    requires forall w :: w in workers ==> w < |pcs| && pcs[w].Holding?
  {
    set w | w in workers :: pcs[w].slot
  }

  lemma {:induction false} DistinctSlots(pcs: seq<Pc>, workers: set<nat>)
    requires forall w :: w in workers ==> w < |pcs| && pcs[w].Holding?
    requires forall w, w' :: w in workers && w' in workers && w != w' ==> pcs[w].slot != pcs[w'].slot
    ensures |Slots(pcs, workers)| == |workers|
  {
    if workers != {} {
      var w :| w in workers;
      DistinctSlots(pcs, workers - {w});
      assert Slots(pcs, workers) == Slots(pcs, workers - {w}) + {pcs[w].slot};
    }
  }

  lemma {:induction false} BoundedSet(s: set<nat>, n: nat)
    requires forall k :: k in s ==> k < n
    ensures |s| <= n
  {
    if n == 0 {
      assert s == {};
    } else {
      BoundedSet(s - {n - 1}, n - 1);
      assert s <= (s - {n - 1}) + {n - 1};
    }
  }

  /** At every moment of a raster phase the blocks alive are no more than the slots of the window. */
  lemma LiveBlocksBounded(rasterize: (nat, nat) -> Option<Bitmap>, col: nat, row0: nat,
                          jobs: seq<SlotJob<RasterSlot>>, s: State<RasterSlot>, m: RasterMemory)
    requires Inv(jobs, s) && RasterShows(rasterize, col, row0, m, s) && ClearedJobs(jobs)
    requires forall k :: 0 <= k < |jobs| ==> |jobs[k].writes| == 2 && jobs[k].writes[0].block == jobs[k].initial.block
    ensures LiveBlocks(m) <= |jobs|
  {
    var hands := There(m.blocks);
    AliveIsThere(m.raw);
    AliveIsThere(m.blocks);
    forall w | w in hands ensures w < |m.pcs| && m.pcs[w].Holding? && m.pcs[w].slot < |jobs| && m.pcs[w].slot !in There(m.raw) {
      HandHoldsNewBlock(rasterize, col, row0, jobs, s, m, w);
    }
    DistinctSlots(m.pcs, hands);
    DisjointSum(There(m.raw), Slots(m.pcs, hands), |jobs|);
  }

  lemma DisjointSum(a: set<nat>, b: set<nat>, n: nat)
    requires a !! b && (forall k :: k in a ==> k < n) && (forall k :: k in b ==> k < n)
    ensures |a| + |b| <= n
  {
    assert |a + b| == |a| + |b|;
    BoundedSet(a + b, n);
  }

  /** A worker with a block in its hand has yet to store it. */
  lemma HandHoldsNewBlock(rasterize: (nat, nat) -> Option<Bitmap>, col: nat, row0: nat,
                          jobs: seq<SlotJob<RasterSlot>>, s: State<RasterSlot>, m: RasterMemory, w: nat)
    requires Inv(jobs, s) && RasterShows(rasterize, col, row0, m, s) && ClearedJobs(jobs) && w in There(m.blocks)
    requires forall k :: 0 <= k < |jobs| ==> |jobs[k].writes| == 2 && jobs[k].writes[0].block == jobs[k].initial.block
    ensures w < |m.pcs| && m.pcs[w].Holding? && m.pcs[w].slot < |jobs| && m.pcs[w].slot !in There(m.raw)
  {
    HolderSees(jobs, s, w);
  }

  /** Each block of the window has been rasterized exactly once, and nothing else has been. */
  ghost predicate CalledOnce(calls: seq<(nat, nat)>, col: nat, row0: nat, n: nat) {
    forall c: nat, r: nat :: multiset(calls)[(c, r)] == if c == col && row0 <= r < row0 + n then 1 else 0
  }

  /** What the raster workers share; `pcs` and `blocks` hold each worker's own position and local block. */
  class RasterPhase {
    const rasterize: (nat, nat) -> Option<Bitmap>
    const col: nat
    const row0: nat
    const doHash: bool
    const elapsed: seq<nat>
    const raw: array<Option<Bitmap>>
    const digests: array<BlockDigest>
    const work: RowBlockQueue
    var pcs: seq<Pc>
    var blocks: seq<Option<Bitmap>>
    var cpuUs: seq<nat>
    ghost const jobs: seq<SlotJob<RasterSlot>>
    ghost var s: State<RasterSlot>
    ghost var calls: seq<(nat, nat)>

    ghost predicate Planned() {
      && raw.Length == digests.Length == |elapsed| == |jobs| == work.total
      && (forall k :: 0 <= k < |jobs| ==>
            jobs[k] == RasterJob(jobs[k].initial, rasterize(col, row0 + k), doHash, elapsed[k]))
    }

    ghost function Memory(): RasterMemory
      reads this, raw, digests, work
    {
      RasterMemory(work.next, pcs, blocks, cpuUs, digests[..], raw[..], calls)
    }

    ghost predicate Linked()
      reads this, raw, digests, work
    {
      Planned() && RasterShows(rasterize, col, row0, Memory(), s)
    }

    constructor (rasterize: (nat, nat) -> Option<Bitmap>, col: nat, row0: nat, threads: int, doHash: bool,
                 raw: array<Option<Bitmap>>, digests: array<BlockDigest>, elapsed: seq<nat>)
      requires raw.Length == digests.Length == |elapsed|
      ensures this.rasterize == rasterize && this.col == col && this.row0 == row0 && this.doHash == doHash
      ensures this.elapsed == elapsed && this.raw == raw && this.digests == digests && fresh(work)
      ensures Linked() && |s.pcs| > 0 && s == Init(jobs, |s.pcs|)
    {
      this.rasterize, this.col, this.row0, this.doHash := rasterize, col, row0, doHash;
      this.raw, this.digests, this.elapsed := raw, digests, elapsed;
      var n := WorkerCount(threads, raw.Length);
      work := new RowBlockQueue(raw.Length);
      pcs := seq(n, _ => Popping);
      blocks := seq(n, _ => None);
      cpuUs := seq(n, _ => 0);
      jobs := RasterJobs(rasterize, col, row0, doHash, elapsed, digests[..], raw[..]);
      calls := [];
      new;
      s := Init(jobs, n);
      ShowsInit(rasterize, col, row0, Memory(), jobs, n);
    }

    /** The next step of worker `w`: take a ticket, rasterize and store the digest, store the bitmap, or loop. */
    method WorkerStep(w: nat)
      requires Linked() && OwnSlot(jobs, s, w) && s.pcs[w] != Returned
      modifies this, raw, digests, work
      ensures Linked() && s == Step(jobs, old(s), w)
    {
      match pcs[w] {
        case Popping => TakeTicket(w);
        case Holding(local, done) =>
          if done == 0 {
            RasterizeSlot(w, local);
          } else if done == 1 {
            StoreSlot(w, local);
          } else {
            ShowsBack(rasterize, col, row0, Memory(), s, jobs, w);
            pcs := pcs[w := Popping];
            s := Step(jobs, s, w);
          }
      }
    }

    method TakeTicket(w: nat)
      requires Linked() && OwnSlot(jobs, s, w) && s.pcs[w] == Popping
      modifies this, work
      ensures Linked() && s == Step(jobs, old(s), w)
    {
      ShowsPop(rasterize, col, row0, Memory(), s, jobs, w);
      var local := work.Pop();
      pcs := pcs[w := if local < 0 then Returned else Holding(local, 0)];
      s := Step(jobs, s, w);
    }

    method RasterizeSlot(w: nat, local: nat)
      requires Linked() && OwnSlot(jobs, s, w) && s.pcs[w] == Holding(local, 0)
      modifies this, digests
      ensures Linked() && s == Step(jobs, old(s), w)
    {
      ShowsStart(rasterize, col, row0, Memory(), s, jobs, w, local, doHash, elapsed[local]);
      Rasterized(w, local);
      s := Step(jobs, s, w);
    }

    method Rasterized(w: nat, local: nat)
      requires w < |pcs| == |cpuUs| == |blocks| && local < |elapsed| == digests.Length
      modifies this, digests
      ensures s == old(s)
      ensures var block := rasterize(col, row0 + local);
              Memory() == old(Memory()).(
                pcs := old(pcs)[w := Holding(local, 1)], blocks := old(blocks)[w := block],
                cpuUs := old(cpuUs)[w := old(cpuUs[w]) + elapsed[local]],
                digests := old(digests[..])[local := DigestOfBlock(block, doHash)], calls := old(calls) + [(col, row0 + local)])
    {
      var row := row0 + local;
      var block := rasterize(col, row);
      calls := calls + [(col, row)];
      cpuUs := cpuUs[w := cpuUs[w] + elapsed[local]];
      var digest := MakeBlockDigest(block, doHash);
      digests[local] := digest;
      blocks := blocks[w := block];
      pcs := pcs[w := Holding(local, 1)];
    }

    method StoreSlot(w: nat, local: nat)
      requires Linked() && OwnSlot(jobs, s, w) && s.pcs[w] == Holding(local, 1)
      modifies this, raw
      ensures Linked() && s == Step(jobs, old(s), w)
    {
      ShowsStore(rasterize, col, row0, Memory(), s, jobs, w, local, doHash, elapsed[local]);
      raw[local] := blocks[w];
      blocks := blocks[w := None];
      pcs := pcs[w := Holding(local, 2)];
      s := Step(jobs, s, w);
    }

    /** Some worker that has not returned moves, whichever it is. */
    method Turn()
      requires Linked() && Inv(jobs, s) && !AllReturned(pcs)
      modifies this, raw, digests, work
      ensures Linked() && Inv(jobs, s) && |s.pcs| == |old(s.pcs)|
      ensures WorkLeft(jobs, s) == old(WorkLeft(jobs, s)) - 1
    {
      var w :| 0 <= w < |pcs| && pcs[w] != Returned;
      TurnIsSound(jobs, s, w);
      WorkerStep(w);
    }

    /** Notes how many blocks are alive now. */
    ghost method Log(live: seq<nat>) returns (live': seq<nat>)
      requires Linked() && Inv(jobs, s) && (ClearedJobs(jobs) ==> AtMost(live, raw.Length))
      ensures live' == live + [LiveBlocks(Memory())] && (ClearedJobs(jobs) ==> AtMost(live', raw.Length))
    {
      if ClearedJobs(jobs) {
        LiveBlocksBounded(rasterize, col, row0, jobs, s, Memory());
      }
      live' := live + [LiveBlocks(Memory())];
    }

    /** The workers run until all have returned. `live` logs, at the start and after every step, how many blocks
        are alive. */
    method RunWorkers() returns (ghost live: seq<nat>)
      requires Linked() && Inv(jobs, s) && |s.pcs| > 0
      modifies this, raw, digests, work
      ensures Linked() && Inv(jobs, s) && |s.pcs| > 0 && AllReturned(pcs)
      ensures |live| + WorkLeft(jobs, s) == 1 + old(WorkLeft(jobs, s))
      ensures ClearedJobs(jobs) ==> AtMost(live, raw.Length)
    {
      live := Log([]);
      while !AllReturned(pcs)
        invariant Linked() && Inv(jobs, s) && |s.pcs| > 0
        invariant |live| + WorkLeft(jobs, s) == 1 + old(WorkLeft(jobs, s))
        invariant ClearedJobs(jobs) ==> AtMost(live, raw.Length)
        decreases WorkLeft(jobs, s)
      {
        Turn();
        live := Log(live);
      }
    }

    /** Spawn to join. */
    method RunToJoin() returns (ghost live: seq<nat>)
      requires Linked() && |s.pcs| > 0 && s == Init(jobs, |s.pcs|)
      modifies this, raw, digests, work
      ensures |live| > 2 * raw.Length
      ensures Cleared(old(raw[..])) ==> AtMost(live, raw.Length)
      ensures forall k :: 0 <= k < raw.Length ==> raw[k] == rasterize(col, row0 + k)
      ensures forall k :: 0 <= k < raw.Length ==> digests[k] == DigestOfBlock(rasterize(col, row0 + k), doHash)
      ensures Sum(cpuUs) == Sum(elapsed)
      ensures CalledOnce(calls, col, row0, raw.Length)
    {
      InitHasInv(jobs, |s.pcs|);
      TwoStepsPerSlot(jobs, 0);
      assert forall k :: 0 <= k < raw.Length ==> jobs[k].initial == s.out[k] == RasterSlot(digests[k], raw[..][k]);
      live := RunWorkers();
      NoWorkLeft(jobs, s);
      InvAtJoin(jobs, s);
      AtJoin();
      CallsAtJoin();
    }

    lemma AtJoin()
      requires Linked() && SequentialOutcome(jobs, s)
      ensures forall k :: 0 <= k < raw.Length ==> raw[k] == rasterize(col, row0 + k)
      ensures forall k :: 0 <= k < raw.Length ==> digests[k] == DigestOfBlock(rasterize(col, row0 + k), doHash)
      ensures Sum(cpuUs) == Sum(elapsed)
    {
      forall k | 0 <= k < raw.Length
        ensures RasterSlot(digests[k], raw[k]) == jobs[k].writes[1]
      {
        assert s.out[k] == SequentialMap(jobs)[k];
      }
      assert Charges(jobs) == elapsed;
    }

    lemma CallsAtJoin()
      requires Linked() && SequentialOutcome(jobs, s)
      ensures CalledOnce(calls, col, row0, raw.Length)
    {
      forall c: nat, r: nat
        ensures multiset(calls)[(c, r)] == if c == col && row0 <= r < row0 + raw.Length then 1 else 0
      {
        CallCount(col, row0, s.started, calls, c, r);
      }
    }
  }

  // ---- The phase as a whole ----

  lemma {:induction false} CallCount(col: nat, row0: nat, started: seq<nat>, calls: seq<(nat, nat)>, c: nat, r: nat)
    requires |calls| == |started| && forall i :: 0 <= i < |calls| ==> calls[i] == (col, row0 + started[i])
    ensures multiset(calls)[(c, r)] == if c == col && row0 <= r then multiset(started)[r - row0] else 0
    decreases |calls|
  {
    if calls != [] {
      CallCount(col, row0, started[1..], calls[1..], c, r);
      assert started == [started[0]] + started[1..];
      assert calls == [calls[0]] + calls[1..];
    }
  }

  /** Spawns the workers and joins them. */
  method RasterAll(rasterize: (nat, nat) -> Option<Bitmap>, col: nat, row0: nat, threads: int, doHash: bool,
                   raw: array<Option<Bitmap>>, digests: array<BlockDigest>, elapsed: seq<nat>)
    returns (cpuUs: seq<nat>, ghost calls: seq<(nat, nat)>, ghost live: seq<nat>)
    requires raw.Length == digests.Length == |elapsed|
    modifies raw, digests
    ensures |live| > 2 * raw.Length
    ensures Cleared(old(raw[..])) ==> AtMost(live, raw.Length)
    ensures forall k :: 0 <= k < raw.Length ==> raw[k] == rasterize(col, row0 + k)
    ensures forall k :: 0 <= k < raw.Length ==> digests[k] == DigestOfBlock(rasterize(col, row0 + k), doHash)
    ensures Sum(cpuUs) == Sum(elapsed)
    ensures CalledOnce(calls, col, row0, raw.Length)
  {
    var phase := new RasterPhase(rasterize, col, row0, threads, doHash, raw, digests, elapsed);
    live := phase.RunToJoin();
    cpuUs, calls := phase.cpuUs, phase.calls;
  }

  method RasterWindow(rasterize: (nat, nat) -> Option<Bitmap>, col: nat, row0: nat, nwin: nat, threads: int, doHash: bool,
                      raw: array<Option<Bitmap>>, digests: array<BlockDigest>, elapsed: seq<nat>)
    returns (cpu: nat, sourceBytes: nat, ghost calls: seq<(nat, nat)>, ghost live: seq<nat>)
    requires raw.Length == digests.Length == |elapsed| == nwin
    modifies raw, digests
    ensures |live| > 2 * nwin
    ensures Cleared(old(raw[..])) ==> AtMost(live, nwin)
    ensures forall k :: 0 <= k < nwin ==> raw[k] == rasterize(col, row0 + k)
    ensures forall k :: 0 <= k < nwin ==> digests[k] == DigestOfBlock(rasterize(col, row0 + k), doHash)
    ensures cpu == Sum(elapsed)
    ensures sourceBytes == Sum(Lengths(raw[..]))
    ensures CalledOnce(calls, col, row0, nwin)
  {
    var cpuUs: seq<nat>;
    cpuUs, calls, live := RasterAll(rasterize, col, row0, threads, doHash, raw, digests, elapsed);
    cpu := Total(cpuUs);
    sourceBytes := TotalBytes(raw);
  }

  // ---- Phase 2: encode ----

  /** An encode worker passes over missing blocks and otherwise stores the encoding in one write. */
  function EncodeJob(initial: Option<Bitmap>, block: Option<Bitmap>, encode: Bitmap -> Bitmap,
                     cost: nat): SlotJob<Option<Bitmap>> {
    SlotJob(initial, if block.Some? then [Some(encode(block.value))] else [], cost, false)
  }

  ghost function EncodeJobs(initial: seq<Option<Bitmap>>, raw: seq<Option<Bitmap>>, encode: Bitmap -> Bitmap, elapsed: seq<nat>)
    : (jobs: seq<SlotJob<Option<Bitmap>>>)
    requires |elapsed| == |initial| == |raw|
    ensures |jobs| == |raw|
    ensures forall k :: 0 <= k < |raw| ==> jobs[k] == EncodeJob(initial[k], raw[k], encode, elapsed[k])
  {
    seq(|raw|, k requires 0 <= k < |raw| => EncodeJob(initial[k], raw[k], encode, elapsed[k]))
  }

  /** The times of the slots that are worked on. */
  function TimesWhere(on: seq<bool>, elapsed: seq<nat>): seq<nat>
    requires |on| == |elapsed|
  {
    seq(|on|, k requires 0 <= k < |on| => if on[k] then elapsed[k] else 0)
  }

  /** The slots an encode worker does not pass over. */
  function Present(blocks: seq<Option<Bitmap>>): seq<bool> {
    seq(|blocks|, k requires 0 <= k < |blocks| => blocks[k].Some?)
  }

  /** Each slot that is worked on has been worked on this many times, and no other slot has. */
  ghost predicate EachTimes(calls: seq<nat>, on: seq<bool>, times: nat) {
    forall k: nat :: multiset(calls)[k] == if k < |on| && on[k] then times else 0
  }

  lemma EachTimesAppend(a: seq<nat>, b: seq<nat>, on: seq<bool>, times: nat, more: nat)
    requires EachTimes(a, on, times) && EachTimes(b, on, more)
    ensures EachTimes(a + b, on, times + more)
  {
    assert multiset(a + b) == multiset(a) + multiset(b);
  }

  /** What the encode workers share; `encodes` lists the slots whose blocks the encoder has been given. */
  class EncodePhase {
    const encode: Bitmap -> Bitmap
    const raw: seq<Option<Bitmap>>
    const elapsed: seq<nat>
    const encCache: array<Option<Bitmap>>
    const work: RowBlockQueue
    var pcs: seq<Pc>
    var cpuUs: seq<nat>
    ghost const before: seq<Option<Bitmap>>
    ghost const jobs: seq<SlotJob<Option<Bitmap>>>
    ghost var s: State<Option<Bitmap>>
    ghost var encodes: seq<nat>

    ghost predicate Planned() {
      && encCache.Length == |elapsed| == |raw| == |before| == work.total
      && jobs == EncodeJobs(before, raw, encode, elapsed)
    }

    ghost predicate Linked()
      reads this, encCache, work
    {
      Planned() && s.next == work.next && s.pcs == pcs && s.cpu == cpuUs && s.out == encCache[..] && encodes == s.started
    }

    constructor (encode: Bitmap -> Bitmap, raw: seq<Option<Bitmap>>, encCache: array<Option<Bitmap>>, threads: int,
                 elapsed: seq<nat>)
      requires encCache.Length == |elapsed| == |raw|
      ensures this.encode == encode && this.raw == raw && this.encCache == encCache && this.elapsed == elapsed
      ensures before == encCache[..] && fresh(work)
      ensures Linked() && |s.pcs| > 0 && s == Init(jobs, |s.pcs|)
    {
      this.encode, this.raw, this.encCache, this.elapsed := encode, raw, encCache, elapsed;
      var n := WorkerCount(threads, |raw|);
      work := new RowBlockQueue(|raw|);
      pcs := seq(n, _ => Popping);
      cpuUs := seq(n, _ => 0);
      before := encCache[..];
      jobs := EncodeJobs(encCache[..], raw, encode, elapsed);
      s := Init(EncodeJobs(encCache[..], raw, encode, elapsed), n);
      encodes := [];
    }

    /** The next step of worker `w`: take a ticket, encode and store, or loop. */
    method WorkerStep(w: nat)
      requires Linked() && OwnSlot(jobs, s, w) && s.pcs[w] != Returned
      modifies this, encCache, work
      ensures Linked() && s == Step(jobs, old(s), w)
    {
      match pcs[w] {
        case Popping =>
          var local := work.Pop();
          pcs := pcs[w := if local < 0 then Returned else Holding(local, 0)];
        case Holding(local, done) =>
          if done == 0 && raw[local].Some? {
            var e := encode(raw[local].value);
            encodes := encodes + [local];
            cpuUs := cpuUs[w := cpuUs[w] + elapsed[local]];
            encCache[local] := Some(e);
            pcs := pcs[w := Holding(local, 1)];
          } else {
            pcs := pcs[w := Popping];
          }
      }
      s := Step(jobs, s, w);
    }

    /** Some worker that has not returned moves, whichever it is. */
    method Turn()
      requires Linked() && Inv(jobs, s) && !AllReturned(pcs)
      modifies this, encCache, work
      ensures Linked() && Inv(jobs, s) && |s.pcs| == |old(s.pcs)|
      ensures WorkLeft(jobs, s) < old(WorkLeft(jobs, s))
    {
      var w :| 0 <= w < |pcs| && pcs[w] != Returned;
      TurnIsSound(jobs, s, w);
      WorkerStep(w);
    }

    /** Spawn to join. */
    method RunToJoin()
      requires Linked() && |s.pcs| > 0 && s == Init(jobs, |s.pcs|)
      modifies this, encCache, work
      ensures |before| == |raw| == |elapsed| == encCache.Length
      ensures forall k :: 0 <= k < |raw| ==> encCache[k] == if raw[k].Some? then Some(encode(raw[k].value)) else before[k]
      ensures Sum(cpuUs) == Sum(TimesWhere(Present(raw), elapsed))
      ensures EachTimes(encodes, Present(raw), 1)
    {
      InitHasInv(jobs, |s.pcs|);
      while !AllReturned(pcs)
        invariant Linked() && Inv(jobs, s) && |s.pcs| > 0
        decreases WorkLeft(jobs, s)
      {
        Turn();
      }
      InvAtJoin(jobs, s);
      forall k | 0 <= k < |raw|
        ensures encCache[k] == if raw[k].Some? then Some(encode(raw[k].value)) else before[k]
      {
        assert s.out[k] == SequentialMap(jobs)[k];
      }
      assert Charges(jobs) == TimesWhere(Present(raw), elapsed);
    }
  }

  method EncodeWindow(encode: Bitmap -> Bitmap, raw: seq<Option<Bitmap>>, encCache: array<Option<Bitmap>>,
                      threads: int, elapsed: seq<nat>)
    returns (cpu: nat, encodedBytes: nat, ghost encodes: seq<nat>)
    requires encCache.Length == |elapsed| == |raw|
    modifies encCache
    ensures EachTimes(encodes, Present(raw), 1)
    ensures forall k :: 0 <= k < |raw| ==> encCache[k] == if raw[k].Some? then Some(encode(raw[k].value)) else old(encCache[k])
    ensures cpu == Sum(TimesWhere(Present(raw), elapsed))
    ensures encodedBytes == Sum(Lengths(encCache[..]))
  {
    var phase := new EncodePhase(encode, raw, encCache, threads, elapsed);
    phase.RunToJoin();
    encodes := phase.encodes;
    cpu := Total(phase.cpuUs);
    encodedBytes := TotalBytes(encCache);
  }

  // ---- Phase 3: decode ----

  datatype DecodeSlot = DecodeSlot(buffer: seq<Byte>, decoded: bool)

  /** With the check on, a decode worker fills the slot's buffer and then either marks the slot decoded or
      clears the common flag; with the check off it decodes into its own buffer and leaves no trace. */
  function DecodeJob(libs: Libraries, fmt: int, check: bool, dig: BlockDigest, e: Option<Bitmap>,
                     cost: nat): SlotJob<DecodeSlot> {
    var initial := DecodeSlot([], false);
    if !dig.valid || e.None? then SlotJob(initial, [], cost, false)
    else if !check then SlotJob(initial, [initial], cost, false)
    else
      var d := DecodeFresh(libs, fmt, dig, e.value);
      SlotJob(initial, [DecodeSlot(d.dst, false), DecodeSlot(d.dst, d.ok)], cost, !d.ok)
  }

  ghost function DecodeJobs(libs: Libraries, fmt: int, check: bool, digests: seq<BlockDigest>,
                            encoded: seq<Option<Bitmap>>, elapsed: seq<nat>)
    : (jobs: seq<SlotJob<DecodeSlot>>)
    requires |elapsed| == |encoded| == |digests|
    ensures |jobs| == |digests|
    ensures forall k :: 0 <= k < |digests| ==> jobs[k] == DecodeJob(libs, fmt, check, digests[k], encoded[k], elapsed[k])
  {
    seq(|digests|, k requires 0 <= k < |digests| => DecodeJob(libs, fmt, check, digests[k], encoded[k], elapsed[k]))
  }

  /** The slots a decode worker does not pass over. */
  function Decodable(digests: seq<BlockDigest>, encoded: seq<Option<Bitmap>>): seq<bool>
    requires |digests| == |encoded|
  {
    seq(|digests|, k requires 0 <= k < |digests| => digests[k].valid && encoded[k].Some?)
  }

  /** A snapshot of everything a decode phase writes. */
  datatype DecodeMemory = DecodeMemory(
    next: int, pcs: seq<Pc>, cpuUs: seq<nat>, ok: bool,
    checkBufs: seq<seq<Byte>>, decodedOk: seq<bool>, decOk: seq<bool>)

  ghost predicate DecodeShows(jobs: seq<SlotJob<DecodeSlot>>, check: bool, m: DecodeMemory, s: State<DecodeSlot>) {
    && m.next == s.next && m.pcs == s.pcs && m.cpuUs == s.cpu && m.ok == s.ok
    && |m.decOk| == |m.pcs| && |s.out| == |jobs|
    && (check ==> |m.checkBufs| == |m.decodedOk| == |jobs|)
    && (check ==> forall k :: 0 <= k < |jobs| ==> s.out[k] == DecodeSlot(m.checkBufs[k], m.decodedOk[k]))
    && (forall w :: 0 <= w < |m.pcs| && m.pcs[w].Holding? && m.pcs[w].done == 1 && m.pcs[w].slot < |jobs| ==>
          m.decOk[w] == !jobs[m.pcs[w].slot].clears || !check)
  }

  lemma ShowsDecode(jobs: seq<SlotJob<DecodeSlot>>, check: bool, m: DecodeMemory, s: State<DecodeSlot>, w: nat, k: nat,
                    libs: Libraries, fmt: int, dig: BlockDigest, e: Option<Bitmap>, cost: nat, ok: bool)
    requires DecodeShows(jobs, check, m, s) && OwnSlot(jobs, s, w) && s.pcs[w] == Holding(k, 0)
    requires dig.valid && e.Some? && jobs[k] == DecodeJob(libs, fmt, check, dig, e, cost)
    requires check ==> ok == DecodeFresh(libs, fmt, dig, e.value).ok
    ensures DecodeShows(jobs, check,
              m.(pcs := m.pcs[w := Holding(k, 1)], cpuUs := m.cpuUs[w := m.cpuUs[w] + cost], decOk := m.decOk[w := ok],
                 checkBufs := if check then m.checkBufs[k := DecodeFresh(libs, fmt, dig, e.value).dst] else m.checkBufs),
              Step(jobs, s, w))
  {
  }

  lemma ShowsMark(jobs: seq<SlotJob<DecodeSlot>>, m: DecodeMemory, s: State<DecodeSlot>, w: nat, k: nat,
                  libs: Libraries, fmt: int, dig: BlockDigest, e: Option<Bitmap>, cost: nat)
    requires DecodeShows(jobs, true, m, s) && OwnSlot(jobs, s, w) && s.pcs[w] == Holding(k, 1)
    requires dig.valid && e.Some? && jobs[k] == DecodeJob(libs, fmt, true, dig, e, cost)
    ensures DecodeShows(jobs, true,
              m.(pcs := m.pcs[w := Holding(k, 2)], ok := m.ok && m.decOk[w],
                 decodedOk := if m.decOk[w] then m.decodedOk[k := true] else m.decodedOk),
              Step(jobs, s, w))
  {
  }

  /** The places where a buffer is. */
  ghost function Filled(bufs: seq<seq<Byte>>): set<nat> {
    set k: nat | k < |bufs| && bufs[k] != []
  }

  /** With the check on every slot of the window may have a buffer, otherwise every worker. */
  function BufferBound(check: bool, slots: nat): nat {
    if check then slots else MAX_WORKERS
  }

  /** What the decode workers share; `pcs`, `dbufs` and `decOk` hold each worker's own variables, and `decodes` lists
      the slots whose encodings the decoder has been given. */
  class DecodePhase {
    const libs: Libraries
    const fmt: int
    const check: bool
    const digests: seq<BlockDigest>
    const encCache: seq<Option<Bitmap>>
    const elapsed: seq<nat>
    const work: RowBlockQueue
    var pcs: seq<Pc>
    var cpuUs: seq<nat>
    var ok: bool
    var checkBufs: seq<seq<Byte>>
    var decodedOk: seq<bool>
    var dbufs: seq<seq<Byte>>
    var decOk: seq<bool>
    ghost const jobs: seq<SlotJob<DecodeSlot>>
    ghost var s: State<DecodeSlot>
    ghost var decodes: seq<nat>

    ghost predicate Planned() {
      && |digests| == |elapsed| == |encCache| == work.total
      && jobs == DecodeJobs(libs, fmt, check, digests, encCache, elapsed)
    }

    ghost function Memory(): DecodeMemory
      reads this, work
    {
      DecodeMemory(work.next, pcs, cpuUs, ok, checkBufs, decodedOk, decOk)
    }

    ghost predicate Linked()
      reads this, work
    {
      Planned() && |dbufs| == |pcs| && DecodeShows(jobs, check, Memory(), s) && OneKindOfBuffer() && decodes == s.started
    }

    /** Either the slots have buffers or the workers. */
    ghost predicate OneKindOfBuffer()
      reads this
    {
      if check then forall w :: 0 <= w < |dbufs| ==> dbufs[w] == [] else checkBufs == []
    }

    /** The decode buffers alive. */
    ghost function LiveBuffers(): nat
      reads this
    {
      |Filled(checkBufs)| + |Filled(dbufs)|
    }

    constructor (libs: Libraries, fmt: int, digests: seq<BlockDigest>, encCache: seq<Option<Bitmap>>, threads: int,
                 check: bool, elapsed: seq<nat>)
      requires |digests| == |elapsed| == |encCache|
      ensures this.libs == libs && this.fmt == fmt && this.digests == digests && this.encCache == encCache
      ensures this.check == check && this.elapsed == elapsed && fresh(work)
      ensures Linked() && 0 < |s.pcs| <= MAX_WORKERS && s == Init(jobs, |s.pcs|)
    {
      this.libs, this.fmt, this.digests, this.encCache, this.check, this.elapsed := libs, fmt, digests, encCache,
        check, elapsed;
      var n := WorkerCount(threads, |digests|);
      work := new RowBlockQueue(|digests|);
      pcs := seq(n, _ => Popping);
      cpuUs := seq(n, _ => 0);
      ok := true;
      checkBufs := if check then seq(|digests|, _ => []) else [];
      decodedOk := if check then seq(|digests|, _ => false) else [];
      dbufs := seq(n, _ => []);
      decOk := seq(n, _ => false);
      jobs := DecodeJobs(libs, fmt, check, digests, encCache, elapsed);
      s := Init(DecodeJobs(libs, fmt, check, digests, encCache, elapsed), n);
      decodes := [];
    }

    /** The next step of worker `w`: take a ticket, decode, record the result, or loop. */
    method WorkerStep(w: nat)
      requires Linked() && OwnSlot(jobs, s, w) && s.pcs[w] != Returned
      modifies this, work
      ensures Linked() && s == Step(jobs, old(s), w)
    {
      match pcs[w] {
        case Popping =>
          var local := work.Pop();
          pcs := pcs[w := if local < 0 then Returned else Holding(local, 0)];
          s := Step(jobs, s, w);
        case Holding(local, done) =>
          if done == 0 && digests[local].valid && encCache[local].Some? {
            DecodeBlock(w, local);
          } else if done == 1 && check {
            RecordResult(w, local);
          } else {
            pcs := pcs[w := Popping];
            s := Step(jobs, s, w);
          }
      }
    }

    /** Decodes a slot into a cleared buffer, or into the worker's own buffer after growing it if needed. */
    method Decode(w: nat, local: nat) returns (r: Decoded)
      requires w < |dbufs| && local < |digests| == |encCache| && encCache[local].Some?
      modifies this`dbufs, this`decodes
      ensures decodes == old(decodes) + [local]
      ensures check ==> r == DecodeFresh(libs, fmt, digests[local], encCache[local].value) && dbufs == old(dbufs)
      ensures var dig, need, own := digests[local], digests[local].nbytes + 4096, old(dbufs[w]);
              var buffer := if |own| < need then seq(need, _ => 0) else own;
              !check ==>
                && r == DecodePayload(libs, fmt, encCache[local], dig.width, dig.height, dig.stride, buffer, need)
                && dbufs == old(dbufs)[w := r.dst]
    {
      var dig, e := digests[local], encCache[local];
      var need := dig.nbytes + SLACK;
      decodes := decodes + [local];
      if check {
        r := DecodePayload(libs, fmt, e, dig.width, dig.height, dig.stride, Zeros(need), need);
      } else {
        if |dbufs[w]| < need {
          dbufs := dbufs[w := Zeros(need)];
        }
        r := DecodePayload(libs, fmt, e, dig.width, dig.height, dig.stride, dbufs[w], need);
        dbufs := dbufs[w := r.dst];
      }
    }

    method DecodeBlock(w: nat, local: nat)
      requires Linked() && OwnSlot(jobs, s, w) && s.pcs[w] == Holding(local, 0)
      requires digests[local].valid && encCache[local].Some?
      modifies this
      ensures Linked() && s == Step(jobs, old(s), w)
    {
      var dig, e := digests[local], encCache[local];
      var r := Decode(w, local);
      ShowsDecode(jobs, check, Memory(), s, w, local, libs, fmt, dig, e, elapsed[local], r.ok);
      if check {
        KeepChecked(w, local, r);
      } else {
        KeepUnchecked(w, local, r.ok);
      }
      s := Step(jobs, s, w);
    }

    /** The slot's own buffer now holds what was decoded. */
    method KeepChecked(w: nat, local: nat, r: Decoded)
      requires w < |pcs| == |cpuUs| == |decOk| && local < |elapsed| == |checkBufs| && check
      modifies `pcs, `cpuUs, `decOk, `checkBufs
      ensures Memory() == old(Memory()).(pcs := old(pcs)[w := Holding(local, 1)], decOk := old(decOk)[w := r.ok],
                cpuUs := old(cpuUs)[w := old(cpuUs[w]) + elapsed[local]], checkBufs := old(checkBufs)[local := r.dst])
    {
      checkBufs := checkBufs[local := r.dst];
      cpuUs := cpuUs[w := cpuUs[w] + elapsed[local]];
      decOk := decOk[w := r.ok];
      pcs := pcs[w := Holding(local, 1)];
    }

    /** Without the check nothing is kept but the time. */
    method KeepUnchecked(w: nat, local: nat, decoded: bool)
      requires w < |pcs| == |cpuUs| == |decOk| && local < |elapsed| && !check
      modifies `pcs, `cpuUs, `decOk
      ensures Memory() == old(Memory()).(pcs := old(pcs)[w := Holding(local, 1)], decOk := old(decOk)[w := decoded],
                cpuUs := old(cpuUs)[w := old(cpuUs[w]) + elapsed[local]])
    {
      cpuUs := cpuUs[w := cpuUs[w] + elapsed[local]];
      decOk := decOk[w := decoded];
      pcs := pcs[w := Holding(local, 1)];
    }

    method RecordResult(w: nat, local: nat)
      requires Linked() && OwnSlot(jobs, s, w) && s.pcs[w] == Holding(local, 1) && check
      requires digests[local].valid && encCache[local].Some?
      modifies this
      ensures Linked() && s == Step(jobs, old(s), w)
    {
      ShowsMark(jobs, Memory(), s, w, local, libs, fmt, digests[local], encCache[local], elapsed[local]);
      if !decOk[w] {
        ok := false;
      } else {
        decodedOk := decodedOk[local := true];
      }
      pcs := pcs[w := Holding(local, 2)];
      s := Step(jobs, s, w);
    }

    /** Some worker that has not returned moves, whichever it is. */
    method Turn()
      requires Linked() && Inv(jobs, s) && !AllReturned(pcs)
      modifies this, work
      ensures Linked() && Inv(jobs, s) && |s.pcs| == |old(s.pcs)|
      ensures WorkLeft(jobs, s) == old(WorkLeft(jobs, s)) - 1
    {
      var w :| 0 <= w < |pcs| && pcs[w] != Returned;
      TurnIsSound(jobs, s, w);
      WorkerStep(w);
    }

    /** Notes how many decode buffers are alive now. */
    ghost method Log(live: seq<nat>) returns (live': seq<nat>)
      requires Linked() && |s.pcs| <= MAX_WORKERS && AtMost(live, BufferBound(check, |digests|))
      ensures live' == live + [LiveBuffers()] && AtMost(live', BufferBound(check, |digests|))
    {
      BoundedSet(Filled(checkBufs), |checkBufs|);
      BoundedSet(Filled(dbufs), |dbufs|);
      if check {
        assert Filled(dbufs) == {};
      }
      live' := live + [LiveBuffers()];
    }

    /** The workers run until all have returned. `live` logs, at the start and after every step, how many decode
        buffers are alive. */
    method RunWorkers() returns (ghost live: seq<nat>)
      requires Linked() && Inv(jobs, s) && 0 < |s.pcs| <= MAX_WORKERS
      modifies this, work
      ensures Linked() && Inv(jobs, s) && |s.pcs| > 0 && AllReturned(pcs)
      ensures |live| + WorkLeft(jobs, s) == 1 + old(WorkLeft(jobs, s)) && AtMost(live, BufferBound(check, |digests|))
    {
      live := Log([]);
      while !AllReturned(pcs)
        invariant Linked() && Inv(jobs, s) && 0 < |s.pcs| <= MAX_WORKERS
        invariant |live| + WorkLeft(jobs, s) == 1 + old(WorkLeft(jobs, s)) && AtMost(live, BufferBound(check, |digests|))
        decreases WorkLeft(jobs, s)
      {
        Turn();
        live := Log(live);
      }
    }

    /** Spawn to join. */
    method RunToJoin() returns (ghost live: seq<nat>)
      requires Linked() && 0 < |s.pcs| <= MAX_WORKERS && s == Init(jobs, |s.pcs|)
      modifies this, work
      ensures |live| > 2 * |digests| && AtMost(live, BufferBound(check, |digests|))
      ensures |digests| == |elapsed| == |encCache|
      ensures Sum(cpuUs) == Sum(TimesWhere(Decodable(digests, encCache), elapsed))
      ensures EachTimes(decodes, Decodable(digests, encCache), 1)
      ensures ok <==> forall k :: 0 <= k < |digests| && digests[k].valid && encCache[k].Some? && check ==>
                                    DecodeFresh(libs, fmt, digests[k], encCache[k].value).ok
      ensures check ==> |checkBufs| == |decodedOk| == |digests|
      ensures check ==> forall k :: 0 <= k < |digests| && digests[k].valid ==>
                decodedOk[k] == (encCache[k].Some? && DecodeFresh(libs, fmt, digests[k], encCache[k].value).ok)
      ensures check ==> forall k :: 0 <= k < |digests| && digests[k].valid && encCache[k].Some? ==>
                checkBufs[k] == DecodeFresh(libs, fmt, digests[k], encCache[k].value).dst
    {
      InitHasInv(jobs, |s.pcs|);
      TwoStepsPerSlot(jobs, 0);
      live := RunWorkers();
      NoWorkLeft(jobs, s);
      InvAtJoin(jobs, s);
      AtJoin();
    }

    lemma AtJoin()
      requires Linked() && SequentialOutcome(jobs, s)
      ensures Sum(cpuUs) == Sum(TimesWhere(Decodable(digests, encCache), elapsed))
      ensures EachTimes(decodes, Decodable(digests, encCache), 1)
      ensures ok <==> forall k :: 0 <= k < |digests| && digests[k].valid && encCache[k].Some? && check ==>
                                    DecodeFresh(libs, fmt, digests[k], encCache[k].value).ok
      ensures check ==> |checkBufs| == |decodedOk| == |digests|
      ensures check ==> forall k :: 0 <= k < |digests| && digests[k].valid ==>
                decodedOk[k] == (encCache[k].Some? && DecodeFresh(libs, fmt, digests[k], encCache[k].value).ok)
      ensures check ==> forall k :: 0 <= k < |digests| && digests[k].valid && encCache[k].Some? ==>
                checkBufs[k] == DecodeFresh(libs, fmt, digests[k], encCache[k].value).dst
    {
      assert Charges(jobs) == TimesWhere(Decodable(digests, encCache), elapsed);
      assert forall k :: 0 <= k < |jobs| ==> s.out[k] == SequentialMap(jobs)[k];
    }
  }

  /** The integrity pass over a decoded window; `ok` is what the workers left in the common flag. */
  method VerifyWindow(fmt: int, digests: seq<BlockDigest>, checkBufs: seq<seq<Byte>>, decodedOk: seq<bool>, ok: bool)
    returns (allOk: bool)
    requires |checkBufs| == |decodedOk| == |digests|
    requires forall k :: 0 <= k < |digests| && digests[k].valid && decodedOk[k] ==> digests[k].nbytes <= |checkBufs[k]|
    ensures allOk <==> ok && (fmt != BROTLI ==>
              forall k :: 0 <= k < |digests| && digests[k].valid ==>
                decodedOk[k] && Digest(checkBufs[k][..digests[k].nbytes]) == digests[k].hash)
  {
    allOk := ok;
    for i := 0 to |digests|
      invariant allOk <==> ok && (fmt != BROTLI ==>
                  forall k :: 0 <= k < i && digests[k].valid ==>
                    decodedOk[k] && Digest(checkBufs[k][..digests[k].nbytes]) == digests[k].hash)
    {
      var dig := digests[i];
      if !dig.valid || fmt == BROTLI {
        continue;
      }
      if !decodedOk[i] {
        allOk := false;
        continue;
      }
      var got := Fnv1a64(checkBufs[i], dig.nbytes);
      if got != dig.hash {
        allOk := false;
      }
    }
  }

  method DecodeWindow(libs: Libraries, fmt: int, digests: seq<BlockDigest>, encCache: seq<Option<Bitmap>>,
                      threads: int, check: bool, elapsed: seq<nat>)
    returns (cpu: nat, allOk: bool, ghost decodes: seq<nat>, ghost live: seq<nat>)
    requires |digests| == |encCache| == |elapsed|
    ensures EachTimes(decodes, Decodable(digests, encCache), 1)
    ensures |live| > 2 * |digests| && AtMost(live, BufferBound(check, |digests|))
    ensures allOk <==> WindowVerdict(libs, fmt, check, digests, encCache)
    ensures cpu == Sum(TimesWhere(Decodable(digests, encCache), elapsed))
  {
    var phase := new DecodePhase(libs, fmt, digests, encCache, threads, check, elapsed);
    live := phase.RunToJoin();
    decodes := phase.decodes;
    allOk := phase.ok;
    if check {
      allOk := VerifyWindow(fmt, digests, phase.checkBufs, phase.decodedOk, phase.ok);
    }
    cpu := Total(phase.cpuUs);
  }
}
