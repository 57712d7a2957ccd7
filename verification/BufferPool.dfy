/** The thread-cached buffer pool as a machine: every interleaving of allocations, frees from any thread,
    thread starts and exits, and the compare-and-swap loop that publishes the preferred size. */
module BufferPool {
  import opened Basics

  /** A memory buffer; `id` numbers the buffers in the order of their creation. */
  datatype Buffer = Buffer(id: nat, size: nat, big: bool)

  const MAX_NORMAL: nat := 4
  const MAX_BIG: nat := 2

  // ---- The stacks ----

  datatype Popped = Popped(found: Option<Buffer>, rest: seq<Buffer>, dropped: seq<Buffer>)

  /** Pops until an entry of at least `size` bytes turns up; `dropped` lists the entries deleted on the way. */
  function PopReusable(stack: seq<Buffer>, size: nat): Popped {
    if stack == [] then Popped(None, [], [])
    else
      var below, top := stack[..|stack| - 1], stack[|stack| - 1];
      if top.size >= size then Popped(Some(top), below, [])
      else
        var p := PopReusable(below, size);
        p.(dropped := [top] + p.dropped)
  }

  function Reversed(s: seq<Buffer>): (r: seq<Buffer>)
    ensures |r| == |s|
    ensures forall i :: 0 <= i < |r| ==> r[i] == s[|s| - 1 - i]
  {
    seq(|s|, i requires 0 <= i < |s| => s[|s| - 1 - i])
  }

  /** The entry found is the topmost one that fits, what stays is the prefix below it, and what is deleted is
      exactly the too small entries above it, from the top down. */
  ghost predicate TopmostFit(stack: seq<Buffer>, size: nat, p: Popped) {
    match p.found
    case Some(b) =>
      var i := |p.rest|;
      && i < |stack| && b == stack[i] && b.size >= size && p.rest == stack[..i]
      && (forall j :: i < j < |stack| ==> stack[j].size < size)
      && p.dropped == Reversed(stack[i + 1..])
    case None =>
      && p.rest == [] && p.dropped == Reversed(stack)
      && (forall j :: 0 <= j < |stack| ==> stack[j].size < size)
  }

  lemma TopmostBelow(below: seq<Buffer>, top: Buffer, size: nat, p: Popped)
    requires TopmostFit(below, size, p) && top.size < size
    ensures TopmostFit(below + [top], size, p.(dropped := [top] + p.dropped))
  {
    var i := if p.found.Some? then |p.rest| + 1 else 0;
    assert below[0..] == below;
    assert (below + [top])[i..] == below[i..] + [top];
    ReversedSnoc(below[i..], top);
  }

  lemma {:induction false} PopReusableFindsTopmost(stack: seq<Buffer>, size: nat)
    ensures TopmostFit(stack, size, PopReusable(stack, size))
    decreases |stack|
  {
    if stack != [] {
      var below, top := stack[..|stack| - 1], stack[|stack| - 1];
      if top.size < size {
        PopReusableFindsTopmost(below, size);
        TopmostBelow(below, top, size, PopReusable(below, size));
        assert stack == below + [top];
      }
    }
  }

  lemma ReversedSnoc(s: seq<Buffer>, b: Buffer)
    ensures Reversed(s + [b]) == [b] + Reversed(s)
  {
  }

  lemma {:induction false} PopReusableConserves(stack: seq<Buffer>, size: nat, b: Buffer)
    ensures var p := PopReusable(stack, size);
            multiset(stack)[b] == multiset(p.rest)[b] + multiset(p.dropped)[b] + (if p.found == Some(b) then 1 else 0)
    decreases |stack|
  {
    if stack != [] {
      var below, top := stack[..|stack| - 1], stack[|stack| - 1];
      assert stack == below + [top];
      if top.size < size {
        PopReusableConserves(below, size, b);
      }
    }
  }

  /** What becomes of a stack and a freed buffer: pushed while there is room, deleted otherwise. */
  function Pushed(stack: seq<Buffer>, cap: nat, b: Buffer): seq<Buffer> {
    if |stack| < cap then stack + [b] else stack
  }

  function Overflow(stack: seq<Buffer>, cap: nat, b: Buffer): multiset<Buffer> {
    if |stack| < cap then multiset{} else multiset{b}
  }

  // ---- The machine ----

  datatype Cache = Cache(normal: seq<Buffer>, big: seq<Buffer>)

  const EMPTY := Cache([], [])

  /** Where a thread stands inside the allocator. */
  datatype Pc =
    | Idle
    | Loading(request: nat)                          // cache missed; about to read the published size
    | Raising(size: nat, request: nat)               // about to read the size it wants to raise
    | Swapping(size: nat, cur: nat, request: nat)    // in the compare-and-swap loop, having last seen `cur`
    | Creating(size: nat, request: nat, big: bool)   // about to ask the system for memory

  datatype Thread = Thread(alive: bool, cache: Cache, pc: Pc)

  /** A buffer handed to a client that asked for `request` bytes. */
  datatype Grant = Grant(request: nat, big: bool, buffer: Buffer)

  /** `made`, `grants`, `created`, `start` and `raised` are history: all buffers ever made; all buffers
      handed out; the normal buffers made since the published size was last reset; the size it was last set to,
      and the sizes it has been asked to rise to since. */
  datatype Pool = Pool(
    published: nat, initialized: bool, threads: seq<Thread>, held: multiset<Buffer>, deleted: multiset<Buffer>,
    made: seq<Buffer>, grants: seq<Grant>, created: seq<Grant>, start: nat, raised: seq<nat>)

  const NEW_POOL := Pool(0, false, [], multiset{}, multiset{}, [], [], [], 0, [])

  datatype Action =
    | Spawn
    | Alloc(t: nat, size: nat, big: bool)
    | Load(t: nat)
    | Begin(t: nat)
    | Swap(t: nat, spurious: bool)
    | Create(t: nat, outOfMemory: bool)
    | Free(t: nat, buffer: Buffer)
    | Exit(t: nat)
    | Initialize(size: nat)
    | Clear

  predicate Ready(s: Pool, t: nat) {
    t < |s.threads| && s.threads[t].alive && s.threads[t].pc == Idle
  }

  predicate Quiet(s: Pool) {
    forall t :: 0 <= t < |s.threads| ==> s.threads[t].pc == Idle
  }

  /** `Initialize` and `Clear` run on the main thread between worker joins. */
  predicate Enabled(s: Pool, a: Action) {
    match a
    case Spawn => true
    case Alloc(t, _, _) => Ready(s, t)
    case Load(t) => t < |s.threads| && s.threads[t].pc.Loading?
    case Begin(t) => t < |s.threads| && s.threads[t].pc.Raising?
    case Swap(t, _) => t < |s.threads| && s.threads[t].pc.Swapping?
    case Create(t, _) => t < |s.threads| && s.threads[t].pc.Creating?
    case Free(t, b) => Ready(s, t) && b in s.held
    case Exit(t) => Ready(s, t)
    case Initialize(_) => Quiet(s)
    case Clear => Quiet(s)
  }

  /** The thread that takes the step, if it is a step of a single thread. */
  function Actor(a: Action): (t: Option<nat>)
  {
    match a
    case Spawn => None
    case Initialize(_) => None
    case Clear => None
    case _ => Some(a.t)
  }

  function At(s: Pool, t: nat, pc: Pc): Pool
    requires t < |s.threads|
  {
    s.(threads := s.threads[t := s.threads[t].(pc := pc)])
  }

  function WithCache(s: Pool, t: nat, cache: Cache): Pool
    requires t < |s.threads|
  {
    s.(threads := s.threads[t := s.threads[t].(cache := cache)])
  }

  function Stack(cache: Cache, big: bool): seq<Buffer> {
    if big then cache.big else cache.normal
  }

  function WithStack(cache: Cache, big: bool, stack: seq<Buffer>): Cache {
    if big then cache.(big := stack) else cache.(normal := stack)
  }

  function Capacity(big: bool): nat {
    if big then MAX_BIG else MAX_NORMAL
  }

  function Granted(s: Pool, g: Grant): Pool {
    s.(held := s.held + multiset{g.buffer}, grants := s.grants + [g])
  }

  /** Both allocators first look into the thread's own stack. */
  function StartAlloc(s: Pool, t: nat, size: nat, big: bool): Pool
    requires t < |s.threads|
  {
    var cache := s.threads[t].cache;
    var p := PopReusable(Stack(cache, big), size);
    var s' := WithCache(s, t, WithStack(cache, big, p.rest)).(deleted := s.deleted + multiset(p.dropped));
    if p.found.Some? then Granted(s', Grant(size, big, p.found.value))
    else At(s', t, if big then Creating(size, size, true) else Loading(size))
  }

  function Apply(s: Pool, a: Action): Pool
    requires Enabled(s, a)
  {
    match a
    case Spawn => s.(threads := s.threads + [Thread(true, EMPTY, Idle)])
    case Alloc(t, size, big) => StartAlloc(s, t, size, big)
    case Load(t) =>
      var request := s.threads[t].pc.request;
      var size := if s.published > request then s.published else request;
      if size > s.published then At(s, t, Raising(size, request)).(raised := s.raised + [size])
      else At(s, t, Creating(size, request, false))
    case Begin(t) =>
      var pc := s.threads[t].pc;
      At(s, t, Swapping(pc.size, s.published, pc.request))
    case Swap(t, spurious) =>
      var pc := s.threads[t].pc;
      if pc.size <= pc.cur then At(s, t, Creating(pc.size, pc.request, false))
      else if s.published == pc.cur && !spurious then At(s, t, Creating(pc.size, pc.request, false)).(published := pc.size)
      else At(s, t, pc.(cur := s.published))
    case Create(t, outOfMemory) =>
      var pc := s.threads[t].pc;
      if outOfMemory then At(s, t, Idle)
      else
        var g := Grant(pc.request, pc.big, Buffer(|s.made|, pc.size, pc.big));
        Granted(At(s, t, Idle), g).(made := s.made + [g.buffer],
                                    created := if pc.big then s.created else s.created + [g])
    case Free(t, b) =>
      var cache := s.threads[t].cache;
      var stack := Stack(cache, b.big);
      WithCache(s, t, WithStack(cache, b.big, Pushed(stack, Capacity(b.big), b))).(
        held := s.held - multiset{b}, deleted := s.deleted + Overflow(stack, Capacity(b.big), b))
    case Exit(t) =>
      var cache := s.threads[t].cache;
      s.(threads := s.threads[t := Thread(false, EMPTY, Idle)],
         deleted := s.deleted + multiset(cache.normal) + multiset(cache.big))
    case Initialize(size) =>
      if s.initialized && size <= s.published then s
      else s.(published := size, initialized := true, start := size, raised := [],
              created := if s.initialized then s.created else [])
    case Clear => s.(published := 0, initialized := false, start := 0, raised := [], created := [])
  }

  // ---- Conservation ----

  /** How often `b` occurs in the caches of the threads. */
  function Cached(threads: seq<Thread>, b: Buffer): nat {
    if threads == [] then 0 else InCache(threads[0].cache, b) + Cached(threads[1..], b)
  }

  function InCache(cache: Cache, b: Buffer): nat {
    multiset(cache.normal)[b] + multiset(cache.big)[b]
  }

  /** The places `b` is in: held by a client, in cache slots, deleted. */
  function Places(s: Pool, b: Buffer): nat {
    s.held[b] + Cached(s.threads, b) + s.deleted[b]
  }

  /** Every buffer ever made is in exactly one place, once; nothing else is anywhere. */
  ghost predicate Conserved(s: Pool) {
    && (forall b: Buffer :: Places(s, b) == multiset(s.made)[b])
    && (forall i :: 0 <= i < |s.made| ==> s.made[i].id == i)
  }

  lemma {:induction false} CachedUpdate(threads: seq<Thread>, t: nat, th: Thread, b: Buffer)
    requires t < |threads|
    ensures Cached(threads[t := th], b) == Cached(threads, b) - InCache(threads[t].cache, b) + InCache(th.cache, b)
  {
    assert threads[t := th][1..] == if t == 0 then threads[1..] else threads[1..][t - 1 := th];
    if t != 0 {
      CachedUpdate(threads[1..], t - 1, th, b);
    }
  }

  lemma {:induction false} CachedSnoc(threads: seq<Thread>, th: Thread, b: Buffer)
    ensures Cached(threads + [th], b) == Cached(threads, b) + InCache(th.cache, b)
  {
    if threads != [] {
      assert (threads + [th])[1..] == threads[1..] + [th];
      CachedSnoc(threads[1..], th, b);
    } else {
      assert threads + [th] == [th];
    }
  }

  lemma RestackedCount(cache: Cache, big: bool, stack: seq<Buffer>, b: Buffer)
    ensures InCache(WithStack(cache, big, stack), b) ==
            InCache(cache, b) - multiset(Stack(cache, big))[b] + multiset(stack)[b]
  {
  }

  lemma PoppedCount(cache: Cache, big: bool, size: nat, b: Buffer)
    ensures var p := PopReusable(Stack(cache, big), size);
            InCache(WithStack(cache, big, p.rest), b) + multiset(p.dropped)[b] + (if p.found == Some(b) then 1 else 0)
            == InCache(cache, b)
  {
    PopReusableConserves(Stack(cache, big), size, b);
    RestackedCount(cache, big, PopReusable(Stack(cache, big), size).rest, b);
  }

  lemma AllocMoves(s: Pool, t: nat, size: nat, big: bool, b: Buffer)
    requires t < |s.threads|
    ensures var s', cache := StartAlloc(s, t, size, big), s.threads[t].cache;
            var p := PopReusable(Stack(cache, big), size);
            && |s'.threads| == |s.threads| && s'.threads == s.threads[t := s'.threads[t]]
            && s'.threads[t].cache == WithStack(cache, big, p.rest)
            && s'.held[b] == s.held[b] + (if p.found == Some(b) then 1 else 0)
            && s'.deleted[b] == s.deleted[b] + multiset(p.dropped)[b]
  {
  }

  lemma AllocConserves(s: Pool, t: nat, size: nat, big: bool, b: Buffer)
    requires t < |s.threads|
    ensures Places(StartAlloc(s, t, size, big), b) == Places(s, b)
  {
    AllocMoves(s, t, size, big, b);
    PoppedCount(s.threads[t].cache, big, size, b);
    CachedUpdate(s.threads, t, StartAlloc(s, t, size, big).threads[t], b);
  }

  lemma CreateConserves(s: Pool, t: nat, b: Buffer)
    requires Enabled(s, Create(t, false))
    ensures var s' := Apply(s, Create(t, false));
            Places(s', b) - multiset(s'.made)[b] == Places(s, b) - multiset(s.made)[b]
  {
    var s' := Apply(s, Create(t, false));
    CachedUpdate(s.threads, t, s'.threads[t], b);
    assert s'.held == s.held + multiset{s'.made[|s.made|]};
  }

  lemma FreeConserves(s: Pool, t: nat, freed: Buffer, b: Buffer)
    requires Enabled(s, Free(t, freed))
    ensures Places(Apply(s, Free(t, freed)), b) == Places(s, b)
  {
    CachedUpdate(s.threads, t, Apply(s, Free(t, freed)).threads[t], b);
  }

  /** A step that leaves the caches alone and moves no buffer. */
  lemma IdleConserves(s: Pool, s': Pool, t: nat, b: Buffer)
    requires t < |s.threads| == |s'.threads| && s'.threads == s.threads[t := s'.threads[t]]
    requires s'.threads[t].cache == s.threads[t].cache && s'.held == s.held && s'.deleted == s.deleted
    ensures Places(s', b) == Places(s, b)
  {
    CachedUpdate(s.threads, t, s'.threads[t], b);
  }

  lemma ExitConserves(s: Pool, t: nat, b: Buffer)
    requires Enabled(s, Exit(t))
    ensures Places(Apply(s, Exit(t)), b) == Places(s, b)
  {
    CachedUpdate(s.threads, t, Thread(false, EMPTY, Idle), b);
  }

  /** What a step adds to the places of a buffer it adds to the buffers made. */
  lemma StepBalances(s: Pool, a: Action, b: Buffer)
    requires Enabled(s, a)
    ensures Places(Apply(s, a), b) - multiset(Apply(s, a).made)[b] == Places(s, b) - multiset(s.made)[b]
  {
    match a {
      case Spawn => CachedSnoc(s.threads, Thread(true, EMPTY, Idle), b);
      case Alloc(t, size, big) => AllocConserves(s, t, size, big, b);
      case Free(t, freed) => FreeConserves(s, t, freed, b);
      case Load(t) => IdleConserves(s, Apply(s, a), t, b);
      case Begin(t) => IdleConserves(s, Apply(s, a), t, b);
      case Swap(t, _) => IdleConserves(s, Apply(s, a), t, b);
      case Create(t, outOfMemory) =>
        if outOfMemory {
          IdleConserves(s, Apply(s, a), t, b);
        } else {
          CreateConserves(s, t, b);
        }
      case Exit(t) => ExitConserves(s, t, b);
      case Initialize(_) =>
      case Clear =>
    }
  }

  lemma StepConserves(s: Pool, a: Action)
    requires Conserved(s) && Enabled(s, a)
    ensures Conserved(Apply(s, a))
  {
    forall b: Buffer ensures Places(Apply(s, a), b) == multiset(Apply(s, a).made)[b] {
      StepBalances(s, a, b);
    }
  }

  // ---- Cache discipline ----

  ghost predicate Tidy(cache: Cache) {
    && |cache.normal| <= MAX_NORMAL && |cache.big| <= MAX_BIG
    && (forall i :: 0 <= i < |cache.normal| ==> !cache.normal[i].big)
    && (forall i :: 0 <= i < |cache.big| ==> cache.big[i].big)
  }

  /** Caches are bounded and sorted by kind, exited threads own nothing, and clients got what they asked for. */
  ghost predicate Disciplined(s: Pool) {
    && (forall t :: 0 <= t < |s.threads| ==> ThreadInOrder(s.threads[t]))
    && (forall i :: 0 <= i < |s.grants| ==> Fair(s.grants[i]))
  }

  ghost predicate ThreadInOrder(th: Thread) {
    && Tidy(th.cache) && PcInOrder(th.pc)
    && (!th.alive ==> th.cache == EMPTY && th.pc == Idle)
  }

  predicate PcInOrder(pc: Pc) {
    (pc.Raising? || pc.Swapping? || pc.Creating?) ==> pc.request <= pc.size
  }

  lemma PopKeepsTidy(cache: Cache, size: nat, big: bool)
    requires Tidy(cache)
    ensures Tidy(WithStack(cache, big, PopReusable(Stack(cache, big), size).rest))
    ensures var f := PopReusable(Stack(cache, big), size).found; f.Some? ==> f.value.size >= size && f.value.big == big
  {
    PopReusableFindsTopmost(Stack(cache, big), size);
  }

  lemma FreeKeepsTidy(cache: Cache, b: Buffer)
    requires Tidy(cache)
    ensures Tidy(WithStack(cache, b.big, Pushed(Stack(cache, b.big), Capacity(b.big), b)))
  {
  }

  predicate Fair(g: Grant) {
    g.buffer.size >= g.request && g.buffer.big == g.big
  }

  /** The step of a thread, seen from its own variables and the grants it makes. */
  ghost predicate OwnKept(s: Pool, s': Pool, t: nat) {
    && t < |s.threads| == |s'.threads|
    && s'.threads == s.threads[t := s'.threads[t]] && ThreadInOrder(s'.threads[t])
    && (s'.grants == s.grants || exists g :: Fair(g) && s'.grants == s.grants + [g])
  }

  lemma AllocInOrder(s: Pool, t: nat, size: nat, big: bool)
    requires Ready(s, t) && ThreadInOrder(s.threads[t])
    ensures OwnKept(s, StartAlloc(s, t, size, big), t)
  {
    PopKeepsTidy(s.threads[t].cache, size, big);
    var p := PopReusable(Stack(s.threads[t].cache, big), size);
    if p.found.Some? {
      assert Fair(Grant(size, big, p.found.value));
    }
  }

  lemma CreateInOrder(s: Pool, t: nat)
    requires Enabled(s, Create(t, false)) && ThreadInOrder(s.threads[t])
    ensures OwnKept(s, Apply(s, Create(t, false)), t)
  {
    var pc := s.threads[t].pc;
    assert Fair(Grant(pc.request, pc.big, Buffer(|s.made|, pc.size, pc.big)));
  }

  lemma FreeInOrder(s: Pool, t: nat, b: Buffer)
    requires Enabled(s, Free(t, b)) && ThreadInOrder(s.threads[t])
    ensures OwnKept(s, Apply(s, Free(t, b)), t)
  {
    FreeKeepsTidy(s.threads[t].cache, b);
  }

  lemma OwnInOrder(s: Pool, a: Action, t: nat)
    requires Enabled(s, a) && Actor(a) == Some(t) && ThreadInOrder(s.threads[t])
    ensures OwnKept(s, Apply(s, a), t)
  {
    match a {
      case Alloc(_, size, big) => AllocInOrder(s, t, size, big);
      case Create(_, outOfMemory) =>
        if !outOfMemory {
          CreateInOrder(s, t);
        }
      case Free(_, b) => FreeInOrder(s, t, b);
      case _ =>
    }
  }

  lemma DisciplinedAgain(s: Pool, s': Pool, t: nat)
    requires Disciplined(s) && OwnKept(s, s', t)
    ensures Disciplined(s')
  {
  }

  lemma StepKeepsDisciplined(s: Pool, a: Action)
    requires Disciplined(s) && Enabled(s, a)
    ensures Disciplined(Apply(s, a))
  {
    if Actor(a).Some? {
      OwnInOrder(s, a, Actor(a).value);
      DisciplinedAgain(s, Apply(s, a), Actor(a).value);
    }
  }

  // ---- The published size ----

  predicate Pending(pc: Pc, size: nat) {
    (pc.Raising? || pc.Swapping?) && pc.size == size
  }

  ghost predicate PcBounded(s: Pool, pc: Pc) {
    match pc
    case Raising(size, _) => size in s.raised
    case Swapping(size, cur, _) => size in s.raised && cur <= s.published
    case Creating(size, _, big) => big || size <= s.published
    case _ => true
  }

  ghost predicate Reached(s: Pool, size: nat) {
    size <= s.published || exists t :: 0 <= t < |s.threads| && Pending(s.threads[t].pc, size)
  }

  /** The published size never falls below where it started, is always one of the sizes asked for, and has
      reached each of them unless a thread is still at it; new normal buffers are never larger. */
  ghost predicate Published(s: Pool) {
    && s.start <= s.published && (s.published == s.start || s.published in s.raised)
    && (forall t :: 0 <= t < |s.threads| ==> PcBounded(s, s.threads[t].pc))
    && (forall i :: 0 <= i < |s.raised| ==> Reached(s, s.raised[i]))
    && (forall i :: 0 <= i < |s.created| ==>
          s.created[i].request <= s.created[i].buffer.size <= s.published && !s.created[i].big)
  }

  lemma StillReached(s: Pool, s': Pool, t: nat, size: nat)
    requires t < |s.threads| == |s'.threads| && s'.threads == s.threads[t := s'.threads[t]]
    requires Reached(s, size) && s.published <= s'.published
    requires Pending(s.threads[t].pc, size) ==> Pending(s'.threads[t].pc, size) || size <= s'.published
    ensures Reached(s', size)
  {
    if size > s'.published {
      var v :| 0 <= v < |s.threads| && Pending(s.threads[v].pc, size);
      assert Pending(s'.threads[v].pc, size);
    }
  }

  /** A step of one thread changes no other thread. */
  lemma ThreadAlone(s: Pool, a: Action, t: nat)
    requires Enabled(s, a) && Actor(a) == Some(t)
    ensures var s' := Apply(s, a); |s'.threads| == |s.threads| && s'.threads == s.threads[t := s'.threads[t]]
  {
  }

  /** It raises the published size, if at all, to a size that was to be reached. */
  lemma ThreadRaises(s: Pool, a: Action, t: nat)
    requires Enabled(s, a) && Actor(a) == Some(t) && PcBounded(s, s.threads[t].pc)
    ensures var s' := Apply(s, a);
            && s.published <= s'.published && s'.start == s.start
            && (s'.published == s.published || s'.published in s.raised)
            && (forall r :: r in s.raised ==> r in s'.raised)
  {
  }

  /** A size a thread is at stays pending until it has been reached. */
  lemma PendingUntilReached(s: Pool, a: Action, t: nat, size: nat)
    requires Enabled(s, a) && Actor(a) == Some(t) && Pending(s.threads[t].pc, size)
    requires PcBounded(s, s.threads[t].pc)
    ensures Pending(Apply(s, a).threads[t].pc, size) || size <= Apply(s, a).published
  {
  }

  /** Every size that was to be reached stays so; the size a thread is about to raise to is added to them. */
  lemma ThreadKeepsReached(s: Pool, a: Action, t: nat, i: nat)
    requires Published(s) && Enabled(s, a) && t < |s.threads|
    requires Actor(a) == Some(t)
    requires i < |Apply(s, a).raised|
    ensures Reached(Apply(s, a), Apply(s, a).raised[i])
  {
    var s' := Apply(s, a);
    ThreadAlone(s, a, t);
    ThreadRaises(s, a, t);
    if i < |s.raised| {
      if Pending(s.threads[t].pc, s.raised[i]) {
        PendingUntilReached(s, a, t, s.raised[i]);
      }
      StillReached(s, s', t, s.raised[i]);
    } else {
      assert Pending(s'.threads[t].pc, s'.raised[i]);
    }
  }

  lemma OthersBounded(s: Pool, s': Pool, t: nat)
    requires Published(s) && t < |s.threads| == |s'.threads| && s'.threads == s.threads[t := s'.threads[t]]
    requires s.published <= s'.published && forall r :: r in s.raised ==> r in s'.raised
    requires PcBounded(s', s'.threads[t].pc)
    ensures forall v :: 0 <= v < |s'.threads| ==> PcBounded(s', s'.threads[v].pc)
  {
  }

  lemma OwnBounded(s: Pool, a: Action, t: nat)
    requires Published(s) && Enabled(s, a) && t < |s.threads|
    requires Actor(a) == Some(t)
    ensures PcBounded(Apply(s, a), Apply(s, a).threads[t].pc)
  {
  }

  lemma NewBounded(s: Pool, a: Action, t: nat)
    requires Published(s) && Disciplined(s) && Enabled(s, a) && Actor(a) == Some(t)
    ensures var s' := Apply(s, a);
            forall i :: 0 <= i < |s'.created| ==>
              s'.created[i].request <= s'.created[i].buffer.size <= s'.published && !s'.created[i].big
  {
    assert ThreadInOrder(s.threads[t]) && PcBounded(s, s.threads[t].pc);
  }

  lemma ThreadKeepsPublished(s: Pool, a: Action, t: nat)
    requires Published(s) && Disciplined(s) && Enabled(s, a) && t < |s.threads|
    requires Actor(a) == Some(t)
    ensures Published(Apply(s, a))
  {
    var s' := Apply(s, a);
    forall i | 0 <= i < |s'.raised| ensures Reached(s', s'.raised[i]) {
      ThreadKeepsReached(s, a, t, i);
    }
    ThreadAlone(s, a, t);
    ThreadRaises(s, a, t);
    OwnBounded(s, a, t);
    OthersBounded(s, s', t);
    NewBounded(s, a, t);
  }

  lemma StepKeepsPublished(s: Pool, a: Action)
    requires Published(s) && Disciplined(s) && Enabled(s, a)
    ensures Published(Apply(s, a))
  {
    if a.Spawn? {
      var s' := Apply(s, a);
      forall i | 0 <= i < |s'.raised| ensures Reached(s', s'.raised[i]) {
        if s.raised[i] > s.published {
          var v :| 0 <= v < |s.threads| && Pending(s.threads[v].pc, s.raised[i]);
          assert Pending(s'.threads[v].pc, s'.raised[i]);
        }
      }
    } else if Actor(a).Some? {
      ThreadKeepsPublished(s, a, Actor(a).value);
    }
  }

  // ---- Every run ----

  ghost predicate Inv(s: Pool) {
    Conserved(s) && Disciplined(s) && Published(s)
  }

  lemma StepKeepsInv(s: Pool, a: Action)
    requires Inv(s) && Enabled(s, a)
    ensures Inv(Apply(s, a))
  {
    StepConserves(s, a);
    StepKeepsDisciplined(s, a);
    StepKeepsPublished(s, a);
  }

  /** The actions can be taken one after the other, each being enabled when its turn comes. */
  predicate Possible(s: Pool, run: seq<Action>)
    decreases |run|
  {
    run == [] || (Enabled(s, run[0]) && Possible(Apply(s, run[0]), run[1..]))
  }

  function After(s: Pool, run: seq<Action>): Pool
    requires Possible(s, run)
    decreases |run|
  {
    if run == [] then s else After(Apply(s, run[0]), run[1..])
  }

  lemma {:induction false} RunKeepsInv(s: Pool, run: seq<Action>)
    requires Inv(s) && Possible(s, run)
    ensures Inv(After(s, run))
    decreases |run|
  {
    if run != [] {
      StepKeepsInv(s, run[0]);
      RunKeepsInv(Apply(s, run[0]), run[1..]);
    }
  }

  lemma EveryRunIsSound(run: seq<Action>)
    requires Possible(NEW_POOL, run)
    ensures Inv(After(NEW_POOL, run))
  {
    RunKeepsInv(NEW_POOL, run);
  }

  // ---- What holds in every reachable state ----

  /** In every run no thread keeps more than 4 normal and 2 big buffers, and every client has got a buffer of the kind
      and at least the size it asked for. */
  lemma CachesStaySmall(run: seq<Action>, t: nat, i: nat)
    requires Possible(NEW_POOL, run)
    ensures var s := After(NEW_POOL, run);
            && (t < |s.threads| ==> |s.threads[t].cache.normal| <= 4 && |s.threads[t].cache.big| <= 2)
            && (i < |s.grants| ==> s.grants[i].buffer.size >= s.grants[i].request && s.grants[i].buffer.big == s.grants[i].big)
  {
    EveryRunIsSound(run);
    var s := After(NEW_POOL, run);
    assert t < |s.threads| ==> ThreadInOrder(s.threads[t]);
    assert i < |s.grants| ==> Fair(s.grants[i]);
  }

  /** A freed buffer goes on top of the stack of its kind of the thread that frees it; when 4 normal or 2 big buffers
      are there already, it is itself deleted and no cache changes. */
  lemma FreedIsKeptOrDeleted(s: Pool, t: nat, b: Buffer)
    requires Enabled(s, Free(t, b))
    ensures var s', cache := Apply(s, Free(t, b)), s.threads[t].cache;
            var room := if b.big then |cache.big| < 2 else |cache.normal| < 4;
            && s'.held == s.held - multiset{b} && s'.made == s.made && s'.published == s.published
            && |s'.threads| == |s.threads| && (forall v :: 0 <= v < |s.threads| && v != t ==> s'.threads[v] == s.threads[v])
            && (room ==> s'.deleted == s.deleted)
            && (room ==> s'.threads[t].cache ==
                         if b.big then Cache(cache.normal, cache.big + [b]) else Cache(cache.normal + [b], cache.big))
            && (!room ==> s'.deleted == s.deleted + multiset{b} && s'.threads == s.threads)
  {
    var s', th := Apply(s, Free(t, b)), s.threads[t];
    assert th.(cache := WithStack(th.cache, b.big, Stack(th.cache, b.big))) == th;
    assert s.threads[t := th] == s.threads;
  }

  /** Setting the preferred size: the first time, and after a clear, it is taken as it is, and then only raised. No
      buffer moves. */
  lemma InitializeAndClear(s: Pool, size: nat)
    requires Quiet(s)
    ensures var i, c := Apply(s, Initialize(size)), Apply(s, Clear);
            && i.initialized && i.published == (if s.initialized && s.published > size then s.published else size)
            && !c.initialized && c.published == 0
            && i.threads == c.threads == s.threads && i.held == c.held == s.held
            && i.deleted == c.deleted == s.deleted && i.made == c.made == s.made
  {
  }

  lemma {:induction false} MadeOnce(made: seq<Buffer>, b: Buffer)
    requires forall i, j :: 0 <= i < j < |made| ==> made[i] != made[j]
    ensures multiset(made)[b] == if b in made then 1 else 0
    decreases |made|
  {
    if made != [] {
      var rest := made[..|made| - 1];
      assert made == rest + [made[|made| - 1]];
      MadeOnce(rest, b);
    }
  }

  /** A buffer that has been made is in one place, once; in particular it is never deleted twice, nor deleted
      while a client holds it or a cache keeps it. */
  lemma OnePlaceEach(s: Pool, b: Buffer)
    requires Conserved(s)
    ensures Places(s, b) == if b in s.made then 1 else 0
    ensures s.deleted[b] <= 1 && (b in s.deleted ==> b !in s.held && Cached(s.threads, b) == 0)
  {
    assert forall i, j :: 0 <= i < j < |s.made| ==> s.made[i].id != s.made[j].id;
    MadeOnce(s.made, b);
  }

  lemma {:induction false} NothingCached(threads: seq<Thread>, b: Buffer)
    requires forall t :: 0 <= t < |threads| ==> threads[t].cache == EMPTY
    ensures Cached(threads, b) == 0
  {
    if threads != [] {
      NothingCached(threads[1..], b);
    }
  }

  /** Once the clients have freed everything and all threads have exited, exactly what was made has been deleted. */
  lemma NothingLeaks(run: seq<Action>)
    requires Possible(NEW_POOL, run)
    requires var s := After(NEW_POOL, run); s.held == multiset{} && forall t :: 0 <= t < |s.threads| ==> !s.threads[t].alive
    ensures After(NEW_POOL, run).deleted == multiset(After(NEW_POOL, run).made)
  {
    var s := After(NEW_POOL, run);
    EveryRunIsSound(run);
    forall b: Buffer ensures s.deleted[b] == multiset(s.made)[b] {
      assert Places(s, b) == multiset(s.made)[b];
      NothingCached(s.threads, b);
    }
  }

  function MaxOf(start: nat, sizes: seq<nat>): nat {
    if sizes == [] then start else Max(sizes[0], MaxOf(start, sizes[1..]))
  }

  lemma {:induction false} MaxOfIs(start: nat, sizes: seq<nat>, m: nat)
    requires start <= m && (m == start || m in sizes)
    requires forall i :: 0 <= i < |sizes| ==> sizes[i] <= m
    ensures MaxOf(start, sizes) == m
    decreases |sizes|
  {
    if sizes != [] {
      if m == sizes[0] {
        MaxOfBounded(start, sizes[1..], m);
      } else {
        MaxOfIs(start, sizes[1..], m);
      }
    }
  }

  lemma {:induction false} MaxOfBounded(start: nat, sizes: seq<nat>, m: nat)
    requires start <= m && forall i :: 0 <= i < |sizes| ==> sizes[i] <= m
    ensures MaxOf(start, sizes) <= m
  {
    if sizes != [] {
      MaxOfBounded(start, sizes[1..], m);
    }
  }

  /** When no thread is inside the allocator, the published size is the largest of the size it was last set to
      and all the sizes it has been raised to since, however the raises interleaved and failed. */
  lemma PublishedIsMaximum(run: seq<Action>)
    requires Possible(NEW_POOL, run) && Quiet(After(NEW_POOL, run))
    ensures var s := After(NEW_POOL, run); s.published == MaxOf(s.start, s.raised)
  {
    var s := After(NEW_POOL, run);
    EveryRunIsSound(run);
    assert forall i :: 0 <= i < |s.raised| ==> Reached(s, s.raised[i]);
    MaxOfIs(s.start, s.raised, s.published);
  }

  /** No step but these two lowers the published size. */
  lemma PublishedNeverFalls(s: Pool, a: Action)
    requires Inv(s) && Enabled(s, a)
    ensures a.Clear? || (a.Initialize? && !s.initialized) || s.published <= Apply(s, a).published
  {
  }

  /** From one initialization to the next clear, whatever happens in between, the published size only grows. */
  lemma {:induction false} PublishedGrows(s: Pool, run: seq<Action>)
    requires Inv(s) && s.initialized && Possible(s, run) && Clear !in run
    ensures After(s, run).initialized && s.published <= After(s, run).published
    decreases |run|
  {
    if run != [] {
      StepKeepsInv(s, run[0]);
      PublishedNeverFalls(s, run[0]);
      PublishedGrows(Apply(s, run[0]), run[1..]);
    }
  }

  /** A compare-and-swap that really fails has seen a larger value: the distance left to raise shrinks. */
  lemma FailedSwapNarrows(s: Pool, t: nat, spurious: bool)
    requires Inv(s) && Enabled(s, Swap(t, spurious))
    requires s.threads[t].pc.cur < s.threads[t].pc.size && s.published != s.threads[t].pc.cur
    ensures var pc, pc' := s.threads[t].pc, Apply(s, Swap(t, spurious)).threads[t].pc;
            pc'.Swapping? && pc'.size == pc.size && pc'.request == pc.request && pc'.size - pc'.cur < pc.size - pc.cur
  {
    assert PcBounded(s, s.threads[t].pc);
  }

  lemma PopPushed(stack: seq<Buffer>, cap: nat, b: Buffer, size: nat)
    requires |stack| < cap && size <= b.size
    ensures PopReusable(Pushed(stack, cap, b), size) == Popped(Some(b), stack, [])
  {
    assert (stack + [b])[..|stack|] == stack;
  }

  lemma Restacked(cache: Cache, big: bool, stack: seq<Buffer>)
    ensures Stack(WithStack(cache, big, stack), big) == stack
    ensures WithStack(WithStack(cache, big, stack), big, Stack(cache, big)) == cache
  {
  }

  lemma FreeThenAllocRestores(s: Pool, t: nat, b: Buffer, size: nat)
    requires Enabled(s, Free(t, b)) && size <= b.size
    requires |Stack(s.threads[t].cache, b.big)| < Capacity(b.big)
    ensures Ready(Apply(s, Free(t, b)), t)
    ensures StartAlloc(Apply(s, Free(t, b)), t, size, b.big) == s.(grants := s.grants + [Grant(size, b.big, b)])
  {
    var cache, s1 := s.threads[t].cache, Apply(s, Free(t, b));
    var stack := Pushed(Stack(cache, b.big), Capacity(b.big), b);
    assert s1 == WithCache(s, t, WithStack(cache, b.big, stack)).(held := s.held - multiset{b}) by {
      assert s1.deleted == s.deleted;
    }
    Restacked(cache, b.big, stack);
    PopPushed(Stack(cache, b.big), Capacity(b.big), b, size);
    var s2 := StartAlloc(s1, t, size, b.big);
    assert s2.threads == s.threads by {
      assert s2.threads[t] == s.threads[t];
    }
    assert s2.held == s.held && s2.deleted == s.deleted;
  }

  /** While its cache has room, a thread that frees a buffer and then asks for no more than its size gets that very
      buffer back, and the two calls undo each other. */
  lemma FreeThenAllocUndoes(s: Pool, t: nat, b: Buffer, size: nat)
    requires Enabled(s, Free(t, b)) && size <= b.size
    requires |Stack(s.threads[t].cache, b.big)| < Capacity(b.big)
    ensures Possible(s, [Free(t, b)] + [Alloc(t, size, b.big)])
    ensures After(s, [Free(t, b)] + [Alloc(t, size, b.big)]) == s.(grants := s.grants + [Grant(size, b.big, b)])
  {
    FreeThenAllocRestores(s, t, b, size);
    OneStep(Apply(s, Free(t, b)), Alloc(t, size, b.big));
    Prepend(s, Free(t, b), [Alloc(t, size, b.big)]);
  }

  /** The steps a thread takes through `normal_alloc` when no other thread moves in between. */
  function SoloRun(s: Pool, t: nat, size: nat, outOfMemory: bool): seq<Action>
    requires Ready(s, t)
  {
    if PopReusable(s.threads[t].cache.normal, size).found.Some? then [Alloc(t, size, false)]
    else if s.published >= size then [Alloc(t, size, false), Load(t), Create(t, outOfMemory)]
    else [Alloc(t, size, false), Load(t), Begin(t), Swap(t, false), Create(t, outOfMemory)]
  }

  /** Alone, a thread gets what the sequential code gives it: a fitting cached buffer, or a new one of the
      published size after raising it to the request. */
  lemma SoloNormalAlloc(s: Pool, t: nat, size: nat, outOfMemory: bool)
    requires Ready(s, t)
    ensures Possible(s, SoloRun(s, t, size, outOfMemory))
    ensures var s' := After(s, SoloRun(s, t, size, outOfMemory));
            var p := PopReusable(s.threads[t].cache.normal, size);
            && Ready(s', t)
            && s'.threads[t].cache == Cache(p.rest, s.threads[t].cache.big)
            && s'.deleted == s.deleted + multiset(p.dropped)
            && (p.found.Some? ==>
                  s'.held == s.held + multiset{p.found.value} && s'.made == s.made && s'.published == s.published)
            && (p.found.None? ==> s'.published == Max(s.published, size))
            && (p.found.None? && outOfMemory ==> s'.held == s.held && s'.made == s.made)
            && (p.found.None? && !outOfMemory ==>
                  var b := Buffer(|s.made|, s'.published, false);
                  s'.held == s.held + multiset{b} && s'.made == s.made + [b])
  {
    var a := Alloc(t, size, false);
    var s1 := Apply(s, a);
    if PopReusable(s.threads[t].cache.normal, size).found.Some? {
      OneStep(s, a);
    } else {
      var run := SoloCreate(s1, t, size, outOfMemory);
      Prepend(s, a, run);
      assert SoloRun(s, t, size, outOfMemory) == [a] + run;
    }
  }

  /** The part of a solo allocation that follows a miss in the cache. */
  lemma SoloCreate(s: Pool, t: nat, size: nat, outOfMemory: bool) returns (run: seq<Action>)
    requires t < |s.threads| && s.threads[t].alive && s.threads[t].pc == Loading(size)
    ensures run == if s.published >= size then [Load(t), Create(t, outOfMemory)]
                   else [Load(t), Begin(t), Swap(t, false), Create(t, outOfMemory)]
    ensures Possible(s, run)
    ensures var s' := After(s, run);
            && Ready(s', t) && s'.threads[t].cache == s.threads[t].cache && s'.deleted == s.deleted
            && s'.published == Max(s.published, size)
            && (outOfMemory ==> s'.held == s.held && s'.made == s.made)
            && (!outOfMemory ==>
                  var b := Buffer(|s.made|, s'.published, false);
                  s'.held == s.held + multiset{b} && s'.made == s.made + [b])
  {
    var create := Create(t, outOfMemory);
    var s2 := Apply(s, Load(t));
    if s.published >= size {
      OneStep(s2, create);
      Prepend(s, Load(t), [create]);
      run := [Load(t)] + [create];
    } else {
      var s3 := Apply(s2, Begin(t));
      var s4 := Apply(s3, Swap(t, false));
      OneStep(s4, create);
      Prepend(s3, Swap(t, false), [create]);
      Prepend(s2, Begin(t), [Swap(t, false)] + [create]);
      run := [Begin(t)] + ([Swap(t, false)] + [create]);
      Prepend(s, Load(t), run);
      run := [Load(t)] + run;
    }
  }

  lemma OneStep(s: Pool, a: Action)
    requires Enabled(s, a)
    ensures Possible(s, [a]) && After(s, [a]) == Apply(s, a)
  {
    assert [a][1..] == [] && Possible(Apply(s, a), []);
  }

  lemma Prepend(s: Pool, a: Action, run: seq<Action>)
    requires Enabled(s, a) && Possible(Apply(s, a), run)
    ensures Possible(s, [a] + run) && After(s, [a] + run) == After(Apply(s, a), run)
  {
    assert ([a] + run)[1..] == run;
  }

  /** A big allocation gets a fitting cached buffer, or a new one of exactly the size requested; the published size
      has no part in it. */
  lemma SoloBigAlloc(s: Pool, t: nat, size: nat, outOfMemory: bool) returns (run: seq<Action>)
    requires Ready(s, t)
    ensures var p := PopReusable(s.threads[t].cache.big, size);
            && run == (if p.found.Some? then [Alloc(t, size, true)] else [Alloc(t, size, true), Create(t, outOfMemory)])
            && Possible(s, run)
            && var s' := After(s, run);
            && Ready(s', t) && s'.published == s.published
            && s'.threads[t].cache == Cache(s.threads[t].cache.normal, p.rest)
            && s'.deleted == s.deleted + multiset(p.dropped)
            && (p.found.Some? ==> s'.held == s.held + multiset{p.found.value} && s'.made == s.made)
            && (p.found.None? && outOfMemory ==> s'.held == s.held && s'.made == s.made)
            && (p.found.None? && !outOfMemory ==>
                  var b := Buffer(|s.made|, size, true);
                  s'.held == s.held + multiset{b} && s'.made == s.made + [b])
  {
    var alloc, create := Alloc(t, size, true), Create(t, outOfMemory);
    if PopReusable(s.threads[t].cache.big, size).found.Some? {
      OneStep(s, alloc);
      run := [alloc];
    } else {
      OneStep(Apply(s, alloc), create);
      Prepend(s, alloc, [create]);
      run := [alloc] + [create];
    }
  }
}
