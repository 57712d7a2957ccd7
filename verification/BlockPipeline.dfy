/** The ticket queue, and every interleaving of the workers that draw from it. */
module BlockPipeline {
  import opened Basics

  /** The shared counter that hands out block rows. */
  class RowBlockQueue {
    const total: int
    var next: int

    constructor (totalRows: int)
      ensures total == totalRows && next == 0
    {
      total := totalRows;
      next := 0;
    }

    /** One fetch-and-add: the next row, or -1 once all rows have been issued. */
    method Pop() returns (row: int)
      modifies this
      ensures next == old(next) + 1
      ensures row == if old(next) < total then old(next) else -1
    {
      row := next;
      next := next + 1;
      row := if row < total then row else -1;
    }
  }

  /** What a worker does to one slot: the shared contents it starts from, the contents after each of its
      writes in turn, the time it is charged, and whether its last write also clears the common flag. */
  datatype SlotJob<Out> = SlotJob(initial: Out, writes: seq<Out>, cost: nat, clears: bool) {
    function At(done: nat): Out
      requires done <= |writes|
    {
      if done == 0 then initial else writes[done - 1]
    }

    function Final(): Out {
      At(|writes|)
    }

    function Charge(): nat {
      if writes == [] then 0 else cost
    }
  }

  /** Where a worker's loop stands: about to pop, `done` writes into a slot, or returned. */
  datatype Pc = Popping | Holding(slot: nat, done: nat) | Returned

  /** The memory the workers share, and their program counters. `progress` and `started` are history:
      the writes each slot has seen, and the slots in the order in which work on them began. */
  datatype State<Out> = State(
    next: nat,
    pcs: seq<Pc>,
    out: seq<Out>,
    cpu: seq<nat>,
    ok: bool,
    progress: seq<nat>,
    started: seq<nat>)

  function Init<Out>(jobs: seq<SlotJob<Out>>, workers: nat): State<Out> {
    State(0, seq(workers, _ => Popping), seq(|jobs|, k requires 0 <= k < |jobs| => jobs[k].initial),
          seq(workers, _ => 0), true, seq(|jobs|, _ => 0), [])
  }

  lemma InitHasInv<Out>(jobs: seq<SlotJob<Out>>, workers: nat)
    ensures Inv(jobs, Init(jobs, workers))
  {
    var s := Init(jobs, workers);
    SumOfZeros(s.cpu);
    SumOfZeros(Charged(jobs, s.progress));
    NoneReturned(s.pcs);
  }

  ghost predicate Shape<Out>(jobs: seq<SlotJob<Out>>, workers: nat, s: State<Out>) {
    && |s.pcs| == |s.cpu| == workers
    && |s.out| == |s.progress| == |jobs|
    && (forall k :: 0 <= k < |jobs| ==> s.progress[k] <= |jobs[k].writes|)
    && (forall w :: 0 <= w < workers && s.pcs[w].Holding? ==>
          s.pcs[w].slot < |jobs| && s.pcs[w].done <= |jobs[s.pcs[w].slot].writes|)
  }

  /** The next atomic step of worker `w`. */
  function Step<Out>(jobs: seq<SlotJob<Out>>, s: State<Out>, w: nat): State<Out>
    requires Shape(jobs, |s.pcs|, s) && w < |s.pcs|
  {
    match s.pcs[w]
    case Popping =>
      if s.next < |jobs|
      then s.(next := s.next + 1, pcs := s.pcs[w := Holding(s.next, 0)])
      else s.(next := s.next + 1, pcs := s.pcs[w := Returned])
    case Holding(k, d) =>
      if d < |jobs[k].writes| then
        s.(pcs := s.pcs[w := Holding(k, d + 1)],
           out := s.out[k := jobs[k].writes[d]],
           cpu := if d == 0 then s.cpu[w := s.cpu[w] + jobs[k].cost] else s.cpu,
           ok := s.ok && !(jobs[k].clears && d + 1 == |jobs[k].writes|),
           progress := s.progress[k := d + 1],
           started := if d == 0 then s.started + [k] else s.started)
      else s.(pcs := s.pcs[w := Popping])
    case Returned => s
  }

  /** Runs the workers in the order of the schedule. */
  function Run<Out>(jobs: seq<SlotJob<Out>>, s: State<Out>, schedule: seq<nat>): (r: State<Out>)
    requires Shape(jobs, |s.pcs|, s)
    requires forall i :: 0 <= i < |schedule| ==> schedule[i] < |s.pcs|
    ensures Shape(jobs, |s.pcs|, r)
    decreases |schedule|
  {
    if schedule == [] then s
    else Run(jobs, Step(jobs, s, schedule[0]), schedule[1..])
  }

  predicate AllReturned(pcs: seq<Pc>) {
    forall w :: 0 <= w < |pcs| ==> pcs[w] == Returned
  }

  // ---- What every reachable state satisfies ----

  function CountReturned(pcs: seq<Pc>): nat {
    if pcs == [] then 0 else (if pcs[0] == Returned then 1 else 0) + CountReturned(pcs[1..])
  }

  /** The time charged so far, slot by slot. */
  ghost function Charged<Out>(jobs: seq<SlotJob<Out>>, progress: seq<nat>): (c: seq<nat>)
    requires |progress| == |jobs|
    ensures |c| == |jobs|
  {
    seq(|jobs|, k requires 0 <= k < |jobs| => if progress[k] == 0 then 0 else jobs[k].cost)
  }

  ghost predicate Held(pcs: seq<Pc>, k: nat) {
    exists w :: 0 <= w < |pcs| && pcs[w].Holding? && pcs[w].slot == k
  }

  ghost predicate Finished<Out>(jobs: seq<SlotJob<Out>>, progress: seq<nat>, k: nat)
    requires |progress| == |jobs|
  {
    k < |jobs| && jobs[k].writes != [] && progress[k] == |jobs[k].writes|
  }

  ghost predicate Tickets<Out>(jobs: seq<SlotJob<Out>>, s: State<Out>) {
    && Shape(jobs, |s.pcs|, s)
    && CountReturned(s.pcs) == (if s.next <= |jobs| then 0 else s.next - |jobs|)
    && (forall k :: s.next <= k < |jobs| ==> s.progress[k] == 0)
    && (forall w :: 0 <= w < |s.pcs| && s.pcs[w].Holding? ==>
          s.pcs[w].slot < s.next && s.progress[s.pcs[w].slot] == s.pcs[w].done)
    && (forall w, w' :: 0 <= w < w' < |s.pcs| && s.pcs[w].Holding? && s.pcs[w'].Holding? ==>
          s.pcs[w].slot != s.pcs[w'].slot)
    && (forall k :: 0 <= k < s.next && k < |jobs| && !Held(s.pcs, k) ==> s.progress[k] == |jobs[k].writes|)
  }

  ghost predicate InPlace<Out>(jobs: seq<SlotJob<Out>>, s: State<Out>)
    requires Shape(jobs, |s.pcs|, s)
  {
    forall k :: 0 <= k < |jobs| ==> s.out[k] == jobs[k].At(s.progress[k])
  }

  ghost predicate Accounted<Out>(jobs: seq<SlotJob<Out>>, s: State<Out>)
    requires |s.progress| == |jobs|
  {
    Sum(s.cpu) == Sum(Charged(jobs, s.progress))
  }

  ghost predicate Judged<Out>(jobs: seq<SlotJob<Out>>, s: State<Out>)
    requires |s.progress| == |jobs|
  {
    s.ok <==> forall k: nat :: Finished(jobs, s.progress, k) ==> !jobs[k].clears
  }

  ghost predicate StartedOnce<Out>(jobs: seq<SlotJob<Out>>, s: State<Out>)
    requires |s.progress| == |jobs|
  {
    forall k: nat :: multiset(s.started)[k] == if k < |jobs| && s.progress[k] > 0 then 1 else 0
  }

  ghost predicate Effects<Out>(jobs: seq<SlotJob<Out>>, s: State<Out>)
    requires Shape(jobs, |s.pcs|, s)
  {
    && InPlace(jobs, s)
    && Accounted(jobs, s)
    && Judged(jobs, s)
    && StartedOnce(jobs, s)
  }

  ghost predicate Inv<Out>(jobs: seq<SlotJob<Out>>, s: State<Out>) {
    Tickets(jobs, s) && Effects(jobs, s)
  }

  lemma {:induction false} CountUpdate(pcs: seq<Pc>, w: nat, p: Pc)
    requires w < |pcs|
    ensures CountReturned(pcs[w := p]) ==
            CountReturned(pcs) - (if pcs[w] == Returned then 1 else 0) + (if p == Returned then 1 else 0)
  {
    assert pcs[w := p][1..] == if w == 0 then pcs[1..] else pcs[1..][w - 1 := p];
    if w != 0 {
      CountUpdate(pcs[1..], w - 1, p);
    }
  }

  lemma {:induction false} CountBounds(pcs: seq<Pc>)
    ensures CountReturned(pcs) <= |pcs|
    ensures CountReturned(pcs) == |pcs| <==> AllReturned(pcs)
  {
    if pcs != [] {
      CountBounds(pcs[1..]);
      assert AllReturned(pcs) <==> pcs[0] == Returned && AllReturned(pcs[1..]) by {
        forall i | 0 <= i < |pcs| && AllReturned(pcs[1..]) && pcs[0] == Returned ensures pcs[i] == Returned {
          if i > 0 {
            assert pcs[i] == pcs[1..][i - 1];
          }
        }
      }
    }
  }

  lemma {:induction false} NoneReturned(pcs: seq<Pc>)
    requires forall w :: 0 <= w < |pcs| ==> pcs[w] == Popping
    ensures CountReturned(pcs) == 0
  {
    if pcs != [] {
      NoneReturned(pcs[1..]);
    }
  }

  lemma PopKeepsTickets<Out>(jobs: seq<SlotJob<Out>>, s: State<Out>, w: nat)
    requires Tickets(jobs, s) && w < |s.pcs| && s.pcs[w] == Popping
    ensures Tickets(jobs, Step(jobs, s, w))
  {
    var s' := Step(jobs, s, w);
    CountUpdate(s.pcs, w, s'.pcs[w]);
    forall k | 0 <= k < s'.next && k < |jobs| && !Held(s'.pcs, k)
      ensures s'.progress[k] == |jobs[k].writes|
    {
      assert s'.pcs[w] == Holding(k, 0) || k < s.next;
      assert !Held(s.pcs, k) by {
        if Held(s.pcs, k) {
          StillHeld(s.pcs, s'.pcs, w, k);
        }
      }
    }
  }

  lemma StillHeld(pcs: seq<Pc>, pcs': seq<Pc>, w: nat, k: nat)
    requires w < |pcs| == |pcs'| && pcs' == pcs[w := pcs'[w]] && Held(pcs, k)
    requires pcs[w].Holding? && pcs[w].slot == k ==> pcs'[w].Holding? && pcs'[w].slot == k
    ensures Held(pcs', k)
  {
    var v :| 0 <= v < |pcs| && pcs[v].Holding? && pcs[v].slot == k;
    assert pcs'[v].Holding? && pcs'[v].slot == k;
  }

  ghost predicate Writes<Out>(jobs: seq<SlotJob<Out>>, s: State<Out>, w: nat)
    requires Shape(jobs, |s.pcs|, s) && w < |s.pcs|
  {
    s.pcs[w].Holding? && s.pcs[w].done < |jobs[s.pcs[w].slot].writes|
  }

  lemma WriteKeepsTickets<Out>(jobs: seq<SlotJob<Out>>, s: State<Out>, w: nat)
    requires Tickets(jobs, s) && w < |s.pcs| && Writes(jobs, s, w)
    ensures Tickets(jobs, Step(jobs, s, w))
  {
    var s' := Step(jobs, s, w);
    CountUpdate(s.pcs, w, s'.pcs[w]);
    forall k | 0 <= k < s'.next && k < |jobs| && !Held(s'.pcs, k) ensures !Held(s.pcs, k) {
      if Held(s.pcs, k) {
        StillHeld(s.pcs, s'.pcs, w, k);
      }
    }
    assert Held(s'.pcs, s.pcs[w].slot);
  }

  lemma GiveBackKeepsTickets<Out>(jobs: seq<SlotJob<Out>>, s: State<Out>, w: nat)
    requires Tickets(jobs, s) && w < |s.pcs| && s.pcs[w].Holding? && !Writes(jobs, s, w)
    ensures Tickets(jobs, Step(jobs, s, w))
  {
    var s' := Step(jobs, s, w);
    CountUpdate(s.pcs, w, Popping);
    forall k | 0 <= k < s'.next && k < |jobs| && !Held(s'.pcs, k) ensures k == s.pcs[w].slot || !Held(s.pcs, k) {
      if k != s.pcs[w].slot && Held(s.pcs, k) {
        StillHeld(s.pcs, s'.pcs, w, k);
      }
    }
  }

  lemma StepKeepsInPlace<Out>(jobs: seq<SlotJob<Out>>, s: State<Out>, w: nat)
    requires Tickets(jobs, s) && w < |s.pcs| && InPlace(jobs, s) && Shape(jobs, |s.pcs|, Step(jobs, s, w))
    ensures InPlace(jobs, Step(jobs, s, w))
  {
  }

  lemma WriteKeepsAccounted<Out>(jobs: seq<SlotJob<Out>>, s: State<Out>, w: nat)
    requires Tickets(jobs, s) && w < |s.pcs| && Writes(jobs, s, w) && Accounted(jobs, s)
    ensures Accounted(jobs, Step(jobs, s, w))
  {
    var k := s.pcs[w].slot;
    var c, c' := Charged(jobs, s.progress), Charged(jobs, Step(jobs, s, w).progress);
    assert c' == c[k := jobs[k].cost];
    SumUpdate(c, k, jobs[k].cost);
    SumUpdate(s.cpu, w, s.cpu[w] + jobs[k].cost);
  }

  lemma WriteKeepsJudged<Out>(jobs: seq<SlotJob<Out>>, s: State<Out>, w: nat)
    requires Tickets(jobs, s) && w < |s.pcs| && Writes(jobs, s, w) && Judged(jobs, s)
    ensures Judged(jobs, Step(jobs, s, w))
  {
    var k, s' := s.pcs[w].slot, Step(jobs, s, w);
    assert forall j: nat :: j != k ==> (Finished(jobs, s'.progress, j) <==> Finished(jobs, s.progress, j));
    assert !Finished(jobs, s.progress, k);
    assert Finished(jobs, s'.progress, k) <==> s.pcs[w].done + 1 == |jobs[k].writes|;
  }

  lemma WriteKeepsStartedOnce<Out>(jobs: seq<SlotJob<Out>>, s: State<Out>, w: nat)
    requires Tickets(jobs, s) && w < |s.pcs| && Writes(jobs, s, w) && StartedOnce(jobs, s)
    ensures StartedOnce(jobs, Step(jobs, s, w))
  {
    var k := s.pcs[w].slot;
    assert multiset(s.started + [k]) == multiset(s.started) + multiset{k};
  }

  lemma StepKeepsInv<Out>(jobs: seq<SlotJob<Out>>, s: State<Out>, w: nat)
    requires Inv(jobs, s) && w < |s.pcs|
    ensures Inv(jobs, Step(jobs, s, w))
  {
    match s.pcs[w] {
      case Popping => PopKeepsTickets(jobs, s, w);
      case Holding(_, _) =>
        if Writes(jobs, s, w) {
          WriteKeepsTickets(jobs, s, w);
        } else {
          GiveBackKeepsTickets(jobs, s, w);
        }
      case Returned =>
    }
    StepKeepsInPlace(jobs, s, w);
    if Writes(jobs, s, w) {
      WriteKeepsAccounted(jobs, s, w);
      WriteKeepsJudged(jobs, s, w);
      WriteKeepsStartedOnce(jobs, s, w);
    }
  }

  // ---- What a joined phase leaves behind ----

  /** The sequential reference: each slot's job done to the end, slot by slot. */
  function SequentialMap<Out>(jobs: seq<SlotJob<Out>>): seq<Out> {
    seq(|jobs|, k requires 0 <= k < |jobs| => jobs[k].Final())
  }

  function Charges<Out>(jobs: seq<SlotJob<Out>>): seq<nat> {
    seq(|jobs|, k requires 0 <= k < |jobs| => jobs[k].Charge())
  }

  predicate SequentialVerdict<Out>(jobs: seq<SlotJob<Out>>) {
    forall k :: 0 <= k < |jobs| && jobs[k].writes != [] ==> !jobs[k].clears
  }

  /** The join has been reached: every worker has returned, and there was at least one. */
  ghost predicate Joined<Out>(s: State<Out>) {
    |s.pcs| > 0 && AllReturned(s.pcs)
  }

  ghost predicate SequentialOutcome<Out>(jobs: seq<SlotJob<Out>>, s: State<Out>) {
    && s.next == |jobs| + |s.pcs|
    && s.out == SequentialMap(jobs)
    && Sum(s.cpu) == Sum(Charges(jobs))
    && (s.ok <==> SequentialVerdict(jobs))
    && (forall k: nat :: multiset(s.started)[k] == if k < |jobs| && jobs[k].writes != [] then 1 else 0)
  }

  lemma InvAtJoin<Out>(jobs: seq<SlotJob<Out>>, s: State<Out>)
    requires Inv(jobs, s) && Joined(s)
    ensures SequentialOutcome(jobs, s)
  {
    CountBounds(s.pcs);
    assert s.next == |jobs| + |s.pcs|;
    forall k | 0 <= k < |jobs| ensures s.progress[k] == |jobs[k].writes| {
      assert !Held(s.pcs, k);
    }
    assert Charged(jobs, s.progress) == Charges(jobs);
    assert forall k: nat :: Finished(jobs, s.progress, k) <==> k < |jobs| && jobs[k].writes != [];
  }

  /** Every reachable state keeps the invariant. */
  lemma {:induction false} RunKeepsInv<Out>(jobs: seq<SlotJob<Out>>, s: State<Out>, schedule: seq<nat>)
    requires Inv(jobs, s)
    requires forall i :: 0 <= i < |schedule| ==> schedule[i] < |s.pcs|
    ensures Inv(jobs, Run(jobs, s, schedule))
    decreases |schedule|
  {
    if schedule != [] {
      StepKeepsInv(jobs, s, schedule[0]);
      RunKeepsInv(jobs, Step(jobs, s, schedule[0]), schedule[1..]);
    }
  }

  /** Whatever the schedule, a joined phase leaves exactly what the sequential pass leaves. */
  lemma EveryScheduleIsSequential<Out>(jobs: seq<SlotJob<Out>>, workers: nat, schedule: seq<nat>)
    requires forall i :: 0 <= i < |schedule| ==> schedule[i] < workers
    requires Joined(Run(jobs, Init(jobs, workers), schedule))
    ensures SequentialOutcome(jobs, Run(jobs, Init(jobs, workers), schedule))
  {
    InitHasInv(jobs, workers);
    RunKeepsInv(jobs, Init(jobs, workers), schedule);
    InvAtJoin(jobs, Run(jobs, Init(jobs, workers), schedule));
  }

  /** A worker holding a slot finds there exactly what its own writes so far have left. */
  lemma HolderSees<Out>(jobs: seq<SlotJob<Out>>, s: State<Out>, w: nat)
    requires Inv(jobs, s) && w < |s.pcs|
    ensures OwnSlot(jobs, s, w)
  {
  }

  ghost predicate OwnSlot<Out>(jobs: seq<SlotJob<Out>>, s: State<Out>, w: nat) {
    && Shape(jobs, |s.pcs|, s)
    && w < |s.pcs|
    && (s.pcs[w].Holding? ==> s.out[s.pcs[w].slot] == jobs[s.pcs[w].slot].At(s.pcs[w].done))
  }

  /** The counter never runs past one failing pop per worker, so it never overflows an int. */
  lemma TicketsBounded<Out>(jobs: seq<SlotJob<Out>>, s: State<Out>)
    requires Inv(jobs, s)
    ensures s.next <= |jobs| + |s.pcs|
    ensures |s.pcs| <= 10 && |jobs| <= INT_MAX - 10 ==> s.next <= INT_MAX
  {
    CountBounds(s.pcs);
  }

  // ---- Progress ----

  /** Steps needed to issue, work off and give back the slots not yet issued. */
  function UnissuedWork<Out>(jobs: seq<SlotJob<Out>>, next: nat): nat
    decreases |jobs| - next
  {
    if next >= |jobs| then 0 else |jobs[next].writes| + 2 + UnissuedWork(jobs, next + 1)
  }

  function PcWork<Out>(jobs: seq<SlotJob<Out>>, p: Pc): nat {
    match p
    case Popping => 1
    case Holding(k, d) => if k < |jobs| && d <= |jobs[k].writes| then |jobs[k].writes| - d + 2 else 1
    case Returned => 0
  }

  function PcWorks<Out>(jobs: seq<SlotJob<Out>>, pcs: seq<Pc>): (work: seq<nat>)
    ensures |work| == |pcs| && forall w :: 0 <= w < |pcs| ==> work[w] == PcWork(jobs, pcs[w])
  {
    seq(|pcs|, w requires 0 <= w < |pcs| => PcWork(jobs, pcs[w]))
  }

  function WorkLeft<Out>(jobs: seq<SlotJob<Out>>, s: State<Out>): nat {
    UnissuedWork(jobs, s.next) + Sum(PcWorks(jobs, s.pcs))
  }

  lemma PcWorksUpdate<Out>(jobs: seq<SlotJob<Out>>, pcs: seq<Pc>, w: nat, p: Pc)
    requires w < |pcs|
    ensures Sum(PcWorks(jobs, pcs[w := p])) == Sum(PcWorks(jobs, pcs)) - PcWork(jobs, pcs[w]) + PcWork(jobs, p)
  {
    assert PcWorks(jobs, pcs[w := p]) == PcWorks(jobs, pcs)[w := PcWork(jobs, p)];
    SumUpdate(PcWorks(jobs, pcs), w, PcWork(jobs, p));
  }

  lemma PopMakesProgress<Out>(jobs: seq<SlotJob<Out>>, s: State<Out>, w: nat)
    requires Shape(jobs, |s.pcs|, s) && w < |s.pcs| && s.pcs[w] == Popping
    ensures WorkLeft(jobs, Step(jobs, s, w)) == WorkLeft(jobs, s) - 1
  {
    PcWorksUpdate(jobs, s.pcs, w, if s.next < |jobs| then Holding(s.next, 0) else Returned);
  }

  lemma WorkMakesProgress<Out>(jobs: seq<SlotJob<Out>>, s: State<Out>, w: nat)
    requires Shape(jobs, |s.pcs|, s) && w < |s.pcs| && s.pcs[w].Holding?
    ensures WorkLeft(jobs, Step(jobs, s, w)) == WorkLeft(jobs, s) - 1
  {
    var k, d := s.pcs[w].slot, s.pcs[w].done;
    PcWorksUpdate(jobs, s.pcs, w, if d < |jobs[k].writes| then Holding(k, d + 1) else Popping);
  }

  /** Every step of a worker that has not returned brings the join nearer by exactly one. */
  lemma StepMakesProgress<Out>(jobs: seq<SlotJob<Out>>, s: State<Out>, w: nat)
    requires Inv(jobs, s) && w < |s.pcs| && s.pcs[w] != Returned
    ensures WorkLeft(jobs, Step(jobs, s, w)) == WorkLeft(jobs, s) - 1
  {
    if s.pcs[w] == Popping {
      PopMakesProgress(jobs, s, w);
    } else {
      WorkMakesProgress(jobs, s, w);
    }
  }

  /** What a worker may rely on when its turn comes, and what its step keeps. */
  lemma TurnIsSound<Out>(jobs: seq<SlotJob<Out>>, s: State<Out>, w: nat)
    requires Inv(jobs, s) && w < |s.pcs| && s.pcs[w] != Returned
    ensures OwnSlot(jobs, s, w)
    ensures Inv(jobs, Step(jobs, s, w)) && |Step(jobs, s, w).pcs| == |s.pcs|
    ensures WorkLeft(jobs, Step(jobs, s, w)) == WorkLeft(jobs, s) - 1
  {
    HolderSees(jobs, s, w);
    StepKeepsInv(jobs, s, w);
    StepMakesProgress(jobs, s, w);
  }

  /** Every slot takes at least two steps: it is drawn and given back. */
  lemma {:induction false} TwoStepsPerSlot<Out>(jobs: seq<SlotJob<Out>>, next: nat)
    requires next <= |jobs|
    ensures UnissuedWork(jobs, next) >= 2 * (|jobs| - next)
    decreases |jobs| - next
  {
    if next < |jobs| {
      TwoStepsPerSlot(jobs, next + 1);
    }
  }

  /** No step is wasted on a worker that has returned. */
  ghost predicate Effective<Out>(jobs: seq<SlotJob<Out>>, s: State<Out>, schedule: seq<nat>)
    requires Shape(jobs, |s.pcs|, s)
    requires forall i :: 0 <= i < |schedule| ==> schedule[i] < |s.pcs|
    decreases |schedule|
  {
    schedule == [] ||
    (s.pcs[schedule[0]] != Returned && Effective(jobs, Step(jobs, s, schedule[0]), schedule[1..]))
  }

  lemma {:induction false} AllZero(s: seq<nat>)
    ensures Sum(s) == 0 <==> forall i :: 0 <= i < |s| ==> s[i] == 0
  {
    if s != [] {
      AllZero(s[1..]);
      assert forall i :: 1 <= i < |s| ==> s[i] == s[1..][i - 1];
    }
  }

  lemma NoWorkLeft<Out>(jobs: seq<SlotJob<Out>>, s: State<Out>)
    requires Inv(jobs, s) && |s.pcs| > 0
    ensures WorkLeft(jobs, s) == 0 <==> Joined(s)
  {
    var work := PcWorks(jobs, s.pcs);
    AllZero(work);
    assert forall w :: 0 <= w < |s.pcs| ==> (work[w] == 0 <==> s.pcs[w] == Returned);
    CountBounds(s.pcs);
  }

  lemma {:induction false} RunSpendsWork<Out>(jobs: seq<SlotJob<Out>>, s: State<Out>, schedule: seq<nat>)
    requires Inv(jobs, s)
    requires forall i :: 0 <= i < |schedule| ==> schedule[i] < |s.pcs|
    requires Effective(jobs, s, schedule)
    ensures |schedule| + WorkLeft(jobs, Run(jobs, s, schedule)) == WorkLeft(jobs, s)
    decreases |schedule|
  {
    if schedule != [] {
      StepKeepsInv(jobs, s, schedule[0]);
      StepMakesProgress(jobs, s, schedule[0]);
      RunSpendsWork(jobs, Step(jobs, s, schedule[0]), schedule[1..]);
    }
  }

  /** Every run joins after the same number of steps: none can go on for longer, none can stop earlier. */
  lemma RunLength<Out>(jobs: seq<SlotJob<Out>>, workers: nat, schedule: seq<nat>)
    requires workers > 0
    requires forall i :: 0 <= i < |schedule| ==> schedule[i] < workers
    requires Effective(jobs, Init(jobs, workers), schedule)
    ensures |schedule| <= UnissuedWork(jobs, 0) + workers
    ensures Joined(Run(jobs, Init(jobs, workers), schedule)) <==> |schedule| == UnissuedWork(jobs, 0) + workers
  {
    var s := Init(jobs, workers);
    InitHasInv(jobs, workers);
    RunKeepsInv(jobs, s, schedule);
    InitialWork(jobs, workers, s);
    RunSpendsWork(jobs, s, schedule);
    NoWorkLeft(jobs, Run(jobs, s, schedule));
  }

  lemma InitialWork<Out>(jobs: seq<SlotJob<Out>>, workers: nat, s: State<Out>)
    requires s.next == 0 && |s.pcs| == workers && forall w :: 0 <= w < workers ==> s.pcs[w] == Popping
    ensures WorkLeft(jobs, s) == UnissuedWork(jobs, 0) + workers
  {
    SumOfOnes(PcWorks(jobs, s.pcs));
  }

  lemma {:induction false} SumOfOnes(s: seq<nat>)
    requires forall i :: 0 <= i < |s| ==> s[i] == 1
    ensures Sum(s) == |s|
  {
    if s != [] {
      SumOfOnes(s[1..]);
    }
  }
}
