/** The process-wide retirement of native cores (mpvrenderbridge.cpp): slots
    with an atomic state, a semaphore, any number of worker threads that scan
    the slots, and any number of leases that reserve and retire them. One step
    is one atomic operation of one thread. */
module RetirementPool {
  import opened Native

  const CAPACITY: nat := 32

  datatype SlotState = Free | Reserved | Queued | Destroying

  /** A slot; handle 0 stands for the null pointer. */
  datatype Slot = Slot(state: SlotState, handle: nat)

  /** Where a worker's `drain` loop stands: in `sem_wait`, about to try a slot,
      or about to destroy, clear or free the slot it claimed. */
  datatype Worker = Waiting | Scanning(at: nat) | Destroys(slot: nat) | Clears(slot: nat) | Frees(slot: nat)

  /** Where a lease stands: trying slots in `reserve`, holding one (with its
      handle, if published), or inside `retire` about to queue or to post. */
  datatype Lease = Reserving(at: nat) | Holding(slot: nat, handle: nat) | Queueing(slot: nat, handle: nat) | Posting

  /** Bookkeeping that no step reads: who may touch a slot. */
  datatype Owner = Nobody | ByLease(lease: nat) | ByWorker(worker: nat)

  datatype Pool = Pool(
    slots: seq<Slot>, work: nat, workers: seq<Worker>, leases: map<nat, Lease>,
    nextHandle: nat, destroyed: seq<nat>, owners: seq<Owner>)

  datatype Step =
    | BeginReserve(lease: nat)
    | TryReserve(lease: nat)
    | Publish(lease: nat)
    | Retire(lease: nat)
    | MarkQueued(lease: nat)
    | Post(lease: nat)
    | Wake(worker: nat)
    | TryClaim(worker: nat)
    | Destroy(worker: nat)
    | Clear(worker: nat)
    | SetFree(worker: nat)

  predicate WorkerStep(step: Step) {
    step.Wake? || step.TryClaim? || step.Destroy? || step.Clear? || step.SetFree?
  }

  predicate Sized(s: Pool) {
    |s.slots| == CAPACITY && |s.owners| == CAPACITY
  }

  /** The thread is at this operation. (The slot index is in range in every run.) */
  predicate Enabled(s: Pool, step: Step) {
    Sized(s) &&
    match step
    case BeginReserve(l) => l !in s.leases
    case TryReserve(l) => l in s.leases && s.leases[l].Reserving?
    case Publish(l) => l in s.leases && s.leases[l].Holding? && s.leases[l].handle == 0
    case Retire(l) => l in s.leases && s.leases[l].Holding? && s.leases[l].slot < CAPACITY
    case MarkQueued(l) => l in s.leases && s.leases[l].Queueing? && s.leases[l].slot < CAPACITY
    case Post(l) => l in s.leases && s.leases[l].Posting?
    case Wake(w) => w < |s.workers| && s.workers[w].Waiting? && s.work > 0
    case TryClaim(w) => w < |s.workers| && s.workers[w].Scanning?
    case Destroy(w) => w < |s.workers| && s.workers[w].Destroys? && s.workers[w].slot < CAPACITY
    case Clear(w) => w < |s.workers| && s.workers[w].Clears? && s.workers[w].slot < CAPACITY
    case SetFree(w) => w < |s.workers| && s.workers[w].Frees? && s.workers[w].slot < CAPACITY
  }

  function SetState(s: Pool, i: nat, state: SlotState, owner: Owner): Pool
    requires Sized(s) && i < CAPACITY
  {
    s.(slots := s.slots[i := s.slots[i].(state := state)], owners := s.owners[i := owner])
  }

  function SetHandle(s: Pool, i: nat, handle: nat): Pool
    requires Sized(s) && i < CAPACITY
  {
    s.(slots := s.slots[i := s.slots[i].(handle := handle)])
  }

  function SetLease(s: Pool, l: nat, lease: Lease): Pool {
    s.(leases := s.leases[l := lease])
  }

  function SetWorker(s: Pool, w: nat, worker: Worker): Pool
    requires w < |s.workers|
  {
    s.(workers := s.workers[w := worker])
  }

  function Next(s: Pool, step: Step): Pool
    requires Enabled(s, step)
  {
    match step
    case BeginReserve(l) => SetLease(s, l, Reserving(0))
    case TryReserve(l) =>
      var i := s.leases[l].at;
      if i >= CAPACITY then s.(leases := s.leases - {l})
      else if s.slots[i].state.Free? then SetLease(SetState(s, i, Reserved, ByLease(l)), l, Holding(i, 0))
      else SetLease(s, l, Reserving(i + 1))
    case Publish(l) =>
      SetLease(s, l, Holding(s.leases[l].slot, s.nextHandle)).(nextHandle := s.nextHandle + 1)
    case Retire(l) =>
      var i, handle := s.leases[l].slot, s.leases[l].handle;
      if handle == 0 then SetState(s, i, Free, Nobody).(leases := s.leases - {l})
      else SetLease(SetHandle(s, i, handle), l, Queueing(i, handle))
    case MarkQueued(l) => SetLease(SetState(s, s.leases[l].slot, Queued, Nobody), l, Posting)
    case Post(l) => s.(work := s.work + 1, leases := s.leases - {l})
    case Wake(w) => SetWorker(s, w, Scanning(0)).(work := s.work - 1)
    case TryClaim(w) =>
      var i := s.workers[w].at;
      if i >= CAPACITY then SetWorker(s, w, Waiting)
      else if s.slots[i].state.Queued? then SetWorker(SetState(s, i, Destroying, ByWorker(w)), w, Destroys(i))
      else SetWorker(s, w, Scanning(i + 1))
    case Destroy(w) =>
      var i := s.workers[w].slot;
      SetWorker(s, w, Clears(i)).(destroyed := s.destroyed + [s.slots[i].handle])
    case Clear(w) =>
      var i := s.workers[w].slot;
      SetWorker(SetHandle(s, i, 0), w, Frees(i))
    case SetFree(w) =>
      var i := s.workers[w].slot;
      SetWorker(SetState(s, i, Free, Nobody), w, Waiting)
  }

  /** The service after bootstrap, with its workers in `sem_wait`. The original
      starts two of them; nothing below depends on how many there are. */
  predicate Initial(s: Pool) {
    && Sized(s) && (forall i :: 0 <= i < CAPACITY ==> s.slots[i] == Slot(Free, 0) && s.owners[i].Nobody?)
    && s.work == 0 && (forall w :: 0 <= w < |s.workers| ==> s.workers[w].Waiting?)
    && s.leases == map[] && s.nextHandle == 1 && s.destroyed == []
  }

  /** A run: each step possible where it is taken. */
  predicate Run(s: Pool, steps: seq<Step>)
    decreases |steps|
  {
    steps == [] || (Enabled(s, steps[0]) && Run(Next(s, steps[0]), steps[1..]))
  }

  function Outcome(s: Pool, steps: seq<Step>): Pool
    requires Run(s, steps)
    decreases |steps|
  {
    if steps == [] then s else Outcome(Next(s, steps[0]), steps[1..])
  }

  // ----- who owns what -----

  predicate LeaseHas(lease: Lease, slot: nat) {
    (lease.Holding? || lease.Queueing?) && lease.slot == slot
  }

  predicate WorkerHas(worker: Worker, slot: nat) {
    (worker.Destroys? || worker.Clears? || worker.Frees?) && worker.slot == slot
  }

  /** A slot's state agrees with its owner, and its owner with it. */
  predicate OwnedRight(s: Pool, i: nat)
    requires Sized(s) && i < CAPACITY
  {
    match s.owners[i]
    case Nobody => s.slots[i].state.Free? || s.slots[i].state.Queued?
    case ByLease(l) => s.slots[i].state.Reserved? && l in s.leases && LeaseHas(s.leases[l], i)
    case ByWorker(w) => s.slots[i].state.Destroying? && w < |s.workers| && WorkerHas(s.workers[w], i)
  }

  ghost predicate Ownership(s: Pool) {
    && Sized(s)
    && (forall i :: 0 <= i < CAPACITY ==> OwnedRight(s, i))
    && (forall l :: l in s.leases && (s.leases[l].Holding? || s.leases[l].Queueing?) ==>
          s.leases[l].slot < CAPACITY && s.owners[s.leases[l].slot] == ByLease(l))
    && (forall w :: 0 <= w < |s.workers| && !s.workers[w].Waiting? && !s.workers[w].Scanning? ==>
          s.workers[w].slot < CAPACITY && s.owners[s.workers[w].slot] == ByWorker(w))
    && (forall l :: l in s.leases && s.leases[l].Queueing? ==>
          s.leases[l].handle != 0 && s.slots[s.leases[l].slot].handle == s.leases[l].handle)
  }

  /** A step of a lease touches the lease and at most the one slot it has or takes. */
  lemma LeaseStepKeepsOwnership(s: Pool, step: Step)
    requires Ownership(s) && Enabled(s, step) && !WorkerStep(step)
    ensures Ownership(Next(s, step))
  {
    if step.TryReserve? {
      ReserveKeepsOwnership(s, step.lease);
    } else {
      var t := Next(s, step);
      forall i | 0 <= i < CAPACITY ensures OwnedRight(t, i) {
        assert OwnedRight(s, i);
      }
    }
  }

  lemma ReserveKeepsOwnership(s: Pool, l: nat)
    requires Ownership(s) && Enabled(s, TryReserve(l))
    ensures Ownership(Next(s, TryReserve(l)))
  {
    var t := Next(s, TryReserve(l));
    forall i | 0 <= i < CAPACITY ensures OwnedRight(t, i) {
      assert OwnedRight(s, i);
    }
    if s.leases[l].at < CAPACITY {
      assert OwnedRight(s, s.leases[l].at);
    }
  }

  lemma WorkerStepKeepsOwnership(s: Pool, step: Step)
    requires Ownership(s) && Enabled(s, step) && WorkerStep(step)
    ensures Ownership(Next(s, step))
  {
    var t := Next(s, step);
    forall i | 0 <= i < CAPACITY ensures OwnedRight(t, i) {
      assert OwnedRight(s, i);
    }
    if step.TryClaim? && s.workers[step.worker].at < CAPACITY {
      assert OwnedRight(s, s.workers[step.worker].at);
    }
  }

  lemma StepKeepsOwnership(s: Pool, step: Step)
    requires Ownership(s) && Enabled(s, step)
    ensures Ownership(Next(s, step))
  {
    if WorkerStep(step) { WorkerStepKeepsOwnership(s, step); } else { LeaseStepKeepsOwnership(s, step); }
  }

  // ----- where the handles are -----

  /** The handle a slot answers for: its lease's, the queued one, or the one
      claimed and not yet destroyed; 0 for none. */
  function HandleAt(s: Pool, i: nat): nat
    requires Sized(s) && i < CAPACITY
  {
    match s.owners[i]
    case Nobody => if s.slots[i].state.Queued? then s.slots[i].handle else 0
    case ByLease(l) =>
      if l in s.leases && (s.leases[l].Holding? || s.leases[l].Queueing?) then s.leases[l].handle else 0
    case ByWorker(w) => if w < |s.workers| && s.workers[w].Destroys? then s.slots[i].handle else 0
  }

  /** What a step makes of the handle a slot answers for: only publishing
      brings one, only destroying takes it away. */
  function HandleAfter(s: Pool, step: Step, i: nat): nat
    requires Enabled(s, step) && i < CAPACITY
  {
    if step.Publish? && i == s.leases[step.lease].slot then s.nextHandle
    else if step.Destroy? && i == s.workers[step.worker].slot then 0
    else HandleAt(s, i)
  }

  lemma LeaseStepMovesHandles(s: Pool, step: Step, i: nat)
    requires Ownership(s) && Enabled(s, step) && !WorkerStep(step) && i < CAPACITY
    ensures HandleAt(Next(s, step), i) == HandleAfter(s, step, i)
  {
    assert OwnedRight(s, i);
  }

  lemma WorkerStepMovesHandles(s: Pool, step: Step, i: nat)
    requires Ownership(s) && Enabled(s, step) && WorkerStep(step) && i < CAPACITY
    ensures HandleAt(Next(s, step), i) == HandleAfter(s, step, i)
  {
    assert OwnedRight(s, i);
  }

  lemma StepMovesHandles(s: Pool, step: Step)
    requires Ownership(s) && Enabled(s, step)
    ensures forall i :: 0 <= i < CAPACITY ==> HandleAt(Next(s, step), i) == HandleAfter(s, step, i)
  {
    forall i | 0 <= i < CAPACITY ensures HandleAt(Next(s, step), i) == HandleAfter(s, step, i) {
      if WorkerStep(step) { WorkerStepMovesHandles(s, step, i); } else { LeaseStepMovesHandles(s, step, i); }
    }
  }

  /** Every handle ever published is in exactly one slot or has been destroyed,
      not both, and is destroyed at most once. */
  ghost predicate Conserved(s: Pool)
    requires Sized(s)
  {
    && 0 < s.nextHandle
    && (forall i, j :: 0 <= i < CAPACITY && 0 <= j < CAPACITY && HandleAt(s, i) == HandleAt(s, j) != 0 ==> i == j)
    && (forall i :: 0 <= i < CAPACITY ==> HandleAt(s, i) < s.nextHandle && HandleAt(s, i) !in s.destroyed)
    && (forall k :: 0 <= k < |s.destroyed| ==> 0 < s.destroyed[k] < s.nextHandle)
    && (forall k, m :: 0 <= k < m < |s.destroyed| ==> s.destroyed[k] != s.destroyed[m])
    && (forall h :: 0 < h < s.nextHandle ==> h in s.destroyed || exists i :: 0 <= i < CAPACITY && HandleAt(s, i) == h)
  }

  /** A worker about to destroy has a handle to destroy. */
  ghost predicate NothingNull(s: Pool)
    requires Sized(s)
  {
    && (forall i :: 0 <= i < CAPACITY && s.slots[i].state.Queued? ==> s.slots[i].handle != 0)
    && (forall w :: 0 <= w < |s.workers| && s.workers[w].Destroys? ==>
          s.workers[w].slot < CAPACITY && s.slots[s.workers[w].slot].handle != 0)
  }

  lemma StepKeepsNothingNull(s: Pool, step: Step)
    requires Ownership(s) && NothingNull(s) && Enabled(s, step)
    ensures NothingNull(Next(s, step))
  {
    var t := Next(s, step);
    forall w | 0 <= w < |t.workers| && t.workers[w].Destroys?
      ensures t.workers[w].slot < CAPACITY && t.slots[t.workers[w].slot].handle != 0
    {
      if s.workers[w].Destroys? { assert OwnedRight(s, s.workers[w].slot); }
    }
    forall i | 0 <= i < CAPACITY && t.slots[i].state.Queued? ensures t.slots[i].handle != 0 {
      assert OwnedRight(s, i);
    }
  }

  lemma QuietStepConserves(s: Pool, step: Step)
    requires Ownership(s) && Conserved(s) && Enabled(s, step) && !step.Publish? && !step.Destroy?
    ensures Conserved(Next(s, step))
  {
    var t := Next(s, step);
    StepMovesHandles(s, step);
    assert t.nextHandle == s.nextHandle && t.destroyed == s.destroyed;
    assert forall i :: 0 <= i < CAPACITY ==> HandleAt(t, i) == HandleAt(s, i);
  }

  lemma PublishConserves(s: Pool, l: nat)
    requires Ownership(s) && Conserved(s) && Enabled(s, Publish(l))
    ensures Conserved(Next(s, Publish(l)))
  {
    var t := Next(s, Publish(l));
    var slot := s.leases[l].slot;
    StepMovesHandles(s, Publish(l));
    assert OwnedRight(s, slot);
    assert HandleAt(s, slot) == 0;
    forall h | 0 < h < t.nextHandle
      ensures h in t.destroyed || exists i :: 0 <= i < CAPACITY && HandleAt(t, i) == h
    {
      if h == s.nextHandle {
        assert HandleAt(t, slot) == h;
      } else if h !in s.destroyed {
        var i :| 0 <= i < CAPACITY && HandleAt(s, i) == h;
        assert HandleAt(t, i) == h;
      }
    }
  }

  lemma DestroyConserves(s: Pool, w: nat)
    requires Ownership(s) && NothingNull(s) && Conserved(s) && Enabled(s, Destroy(w))
    ensures Conserved(Next(s, Destroy(w)))
    ensures Next(s, Destroy(w)).destroyed == s.destroyed + [HandleAt(s, s.workers[w].slot)]
  {
    var t := Next(s, Destroy(w));
    var slot := s.workers[w].slot;
    StepMovesHandles(s, Destroy(w));
    assert OwnedRight(s, slot);
    var gone := HandleAt(s, slot);
    assert gone == s.slots[slot].handle && t.destroyed == s.destroyed + [gone];
    forall h | 0 < h < t.nextHandle
      ensures h in t.destroyed || exists i :: 0 <= i < CAPACITY && HandleAt(t, i) == h
    {
      if h !in s.destroyed {
        var i :| 0 <= i < CAPACITY && HandleAt(s, i) == h;
        assert i != slot ==> HandleAt(t, i) == h;
        assert i == slot ==> t.destroyed[|s.destroyed|] == h;
      }
    }
  }

  // ----- the scan -----

  /** Queued slots at or above a position. */
  function QueuedFrom(slots: seq<Slot>, p: nat): nat
    decreases |slots| - p
  {
    if p >= |slots| then 0
    else (if slots[p].state.Queued? then 1 else 0) + QueuedFrom(slots, p + 1)
  }

  /** Workers scanning at or above a position. */
  function ScanningFrom(workers: seq<Worker>, p: nat): nat {
    if workers == [] then 0
    else (if workers[0].Scanning? && workers[0].at >= p then 1 else 0) + ScanningFrom(workers[1..], p)
  }

  /** Leases that have queued their slot and not yet posted. */
  function PostingLeases(s: Pool): set<nat> {
    set l | l in s.leases && s.leases[l].Posting?
  }

  /** The semaphore, the woken workers and the posts still to come account for
      every queued slot; and from any position on there is a queued slot for
      each worker scanning there. */
  ghost predicate ScanBalance(s: Pool) {
    && QueuedFrom(s.slots, 0) == s.work + ScanningFrom(s.workers, 0) + |PostingLeases(s)|
    && (forall p: nat :: p <= CAPACITY ==> QueuedFrom(s.slots, p) >= ScanningFrom(s.workers, p))
  }

  lemma {:induction false} QueuedUpdate(slots: seq<Slot>, i: nat, x: Slot, p: nat)
    requires i < |slots|
    ensures QueuedFrom(slots[i := x], p) + Bit(p <= i && slots[i].state.Queued?)
            == QueuedFrom(slots, p) + Bit(p <= i && x.state.Queued?)
    decreases |slots| - p
  {
    if p < |slots| { QueuedUpdate(slots, i, x, p + 1); }
  }

  lemma {:induction false} ScanningUpdate(workers: seq<Worker>, w: nat, x: Worker, p: nat)
    requires w < |workers|
    ensures ScanningFrom(workers[w := x], p) + Bit(workers[w].Scanning? && workers[w].at >= p)
            == ScanningFrom(workers, p) + Bit(x.Scanning? && x.at >= p)
  {
    if w == 0 {
      assert workers[w := x][1..] == workers[1..];
    } else {
      assert workers[w := x][1..] == workers[1..][w - 1 := x];
      ScanningUpdate(workers[1..], w - 1, x, p);
    }
  }

  lemma QueuedSplit(slots: seq<Slot>, p: nat)
    requires p < |slots|
    ensures QueuedFrom(slots, p) == Bit(slots[p].state.Queued?) + QueuedFrom(slots, p + 1)
  {
  }

  /** A worker at a position is not among those strictly above it. */
  lemma {:induction false} ScanningAbove(workers: seq<Worker>, w: nat, p: nat)
    requires w < |workers| && workers[w] == Scanning(p)
    ensures ScanningFrom(workers, p + 1) < ScanningFrom(workers, p)
  {
    if w == 0 {
      ScanningMonotone(workers[1..], p);
    } else {
      ScanningAbove(workers[1..], w - 1, p);
    }
  }

  lemma {:induction false} ScanningMonotone(workers: seq<Worker>, p: nat)
    ensures ScanningFrom(workers, p + 1) <= ScanningFrom(workers, p)
  {
    if workers != [] { ScanningMonotone(workers[1..], p); }
  }

  /** Trying a slot: the claim takes one queued slot and one scanner away; a
      slot that is not queued leaves its scanner to the slots above. */
  lemma ClaimKeepsBalance(s: Pool, w: nat)
    requires Sized(s) && ScanBalance(s) && Enabled(s, TryClaim(w)) && s.workers[w].at < CAPACITY
    ensures ScanBalance(Next(s, TryClaim(w)))
  {
    var t := Next(s, TryClaim(w));
    var i := s.workers[w].at;
    assert PostingLeases(t) == PostingLeases(s);
    forall p: nat | p <= CAPACITY
      ensures QueuedFrom(t.slots, p) >= ScanningFrom(t.workers, p)
      ensures p == 0 ==> QueuedFrom(t.slots, p) == t.work + ScanningFrom(t.workers, p) + |PostingLeases(t)|
    {
      ScanningUpdate(s.workers, w, t.workers[w], p);
      if s.slots[i].state.Queued? {
        QueuedUpdate(s.slots, i, t.slots[i], p);
      } else if p == i + 1 {
        QueuedSplit(s.slots, i);
        ScanningAbove(s.workers, w, i);
      }
    }
  }

  /** No scanning worker runs out of slots. */
  lemma ScannerIsInRange(s: Pool, w: nat)
    requires ScanBalance(s) && Sized(s) && w < |s.workers| && s.workers[w].Scanning?
    ensures s.workers[w].at < CAPACITY
  {
    ScanningCounts(s.workers, w, CAPACITY);
  }

  lemma {:induction false} ScanningCounts(workers: seq<Worker>, w: nat, p: nat)
    requires w < |workers|
    ensures workers[w].Scanning? && workers[w].at >= p ==> ScanningFrom(workers, p) > 0
  {
    if w > 0 { ScanningCounts(workers[1..], w - 1, p); }
  }

  /** A step that neither starts nor ends a scan, a queueing or a post. */
  lemma UnrelatedKeepsBalance(s: Pool, t: Pool)
    requires Sized(s) && ScanBalance(s) && t.work == s.work && PostingLeases(t) == PostingLeases(s)
    requires forall p: nat :: p <= CAPACITY ==> QueuedFrom(t.slots, p) == QueuedFrom(s.slots, p)
    requires forall p: nat :: p <= CAPACITY ==> ScanningFrom(t.workers, p) == ScanningFrom(s.workers, p)
    ensures ScanBalance(t)
  {
  }

  lemma WorkerStepKeepsBalance(s: Pool, step: Step)
    requires Ownership(s) && ScanBalance(s) && Enabled(s, step) && WorkerStep(step)
    ensures ScanBalance(Next(s, step))
  {
    var t := Next(s, step);
    var w := step.worker;
    assert PostingLeases(t) == PostingLeases(s);
    if step.TryClaim? {
      ScannerIsInRange(s, w);
      ClaimKeepsBalance(s, w);
    } else {
      forall p: nat | p <= CAPACITY
        ensures QueuedFrom(t.slots, p) == QueuedFrom(s.slots, p)
        ensures ScanningFrom(t.workers, p) == ScanningFrom(s.workers, p) + Bit(step.Wake? && p == 0)
      {
        ScanningUpdate(s.workers, w, t.workers[w], p);
        if step.Clear? || step.SetFree? {
          var i := s.workers[w].slot;
          assert OwnedRight(s, i);
          QueuedUpdate(s.slots, i, t.slots[i], p);
        }
      }
      if !step.Wake? { UnrelatedKeepsBalance(s, t); }
    }
  }

  lemma LeaseStepKeepsBalance(s: Pool, step: Step)
    requires Ownership(s) && ScanBalance(s) && Enabled(s, step) && !WorkerStep(step)
    ensures ScanBalance(Next(s, step))
  {
    var t := Next(s, step);
    var l := step.lease;
    if step.MarkQueued? {
      MarkQueuedKeepsBalance(s, l);
    } else if step.Post? {
      PostKeepsBalance(s, l);
    } else {
      assert PostingLeases(t) == PostingLeases(s);
      if step.TryReserve? { SlotQueues(s, t, step, s.leases[l].at); }
      if step.Retire? { SlotQueues(s, t, step, s.leases[l].slot); }
      UnrelatedKeepsBalance(s, t);
    }
  }

  lemma MarkQueuedKeepsBalance(s: Pool, l: nat)
    requires Ownership(s) && ScanBalance(s) && Enabled(s, MarkQueued(l))
    ensures ScanBalance(Next(s, MarkQueued(l)))
  {
    var t := Next(s, MarkQueued(l));
    assert PostingLeases(t) == PostingLeases(s) + {l};
    SlotQueues(s, t, MarkQueued(l), s.leases[l].slot);
  }

  lemma PostKeepsBalance(s: Pool, l: nat)
    requires Ownership(s) && ScanBalance(s) && Enabled(s, Post(l))
    ensures ScanBalance(Next(s, Post(l)))
  {
    assert PostingLeases(Next(s, Post(l))) == PostingLeases(s) - {l};
  }

  /** Only `MarkQueued` queues a slot. */
  lemma SlotQueues(s: Pool, t: Pool, step: Step, i: nat)
    requires Ownership(s) && Enabled(s, step) && t == Next(s, step)
    requires step.TryReserve? || step.Retire? || step.MarkQueued?
    requires i == if step.TryReserve? then s.leases[step.lease].at else s.leases[step.lease].slot
    ensures forall p: nat :: p <= CAPACITY ==>
                               QueuedFrom(t.slots, p) == QueuedFrom(s.slots, p) + Bit(step.MarkQueued? && p <= i)
  {
    if i < CAPACITY {
      assert OwnedRight(s, i);
      forall p: nat | p <= CAPACITY
        ensures QueuedFrom(t.slots, p) == QueuedFrom(s.slots, p) + Bit(step.MarkQueued? && p <= i)
      {
        QueuedUpdate(s.slots, i, t.slots[i], p);
        assert t.slots == s.slots[i := t.slots[i]];
      }
    }
  }

  // ----- over every run -----

  ghost predicate Invariant(s: Pool) {
    Ownership(s) && NothingNull(s) && Conserved(s) && ScanBalance(s)
  }

  lemma {:induction false} NothingQueued(slots: seq<Slot>, p: nat)
    requires forall i :: 0 <= i < |slots| ==> !slots[i].state.Queued?
    ensures QueuedFrom(slots, p) == 0
    decreases |slots| - p
  {
    if p < |slots| { NothingQueued(slots, p + 1); }
  }

  lemma {:induction false} NobodyScans(workers: seq<Worker>, p: nat)
    requires forall w :: 0 <= w < |workers| ==> !workers[w].Scanning?
    ensures ScanningFrom(workers, p) == 0
  {
    if workers != [] { NobodyScans(workers[1..], p); }
  }

  lemma InitialHolds(s: Pool)
    requires Initial(s)
    ensures Invariant(s)
  {
    assert PostingLeases(s) == {};
    forall p: nat | p <= CAPACITY ensures QueuedFrom(s.slots, p) == ScanningFrom(s.workers, p) == 0 {
      NothingQueued(s.slots, p);
      NobodyScans(s.workers, p);
    }
  }

  lemma StepKeeps(s: Pool, step: Step)
    requires Invariant(s) && Enabled(s, step)
    ensures Invariant(Next(s, step))
  {
    StepKeepsOwnership(s, step);
    StepKeepsNothingNull(s, step);
    if step.Publish? { PublishConserves(s, step.lease); }
    else if step.Destroy? { DestroyConserves(s, step.worker); }
    else { QuietStepConserves(s, step); }
    if WorkerStep(step) { WorkerStepKeepsBalance(s, step); } else { LeaseStepKeepsBalance(s, step); }
  }

  lemma {:induction false} RunKeeps(s: Pool, steps: seq<Step>)
    requires Invariant(s) && Run(s, steps)
    ensures Invariant(Outcome(s, steps))
    decreases |steps|
  {
    if steps != [] {
      StepKeeps(s, steps[0]);
      RunKeeps(Next(s, steps[0]), steps[1..]);
    }
  }

  /** Whenever a worker is woken, its scan finds a queued slot: no run brings a
      scanning worker past the last slot, although others claim and retirers
      queue while it scans. */
  lemma ScanNeverFails(s: Pool, steps: seq<Step>, w: nat)
    requires Initial(s) && Run(s, steps) && w < |s.workers|
    ensures var t := Outcome(s, steps);
      |t.workers| == |s.workers| && (t.workers[w].Scanning? ==> t.workers[w].at < CAPACITY)
  {
    InitialHolds(s);
    RunKeeps(s, steps);
    WorkersStay(s, steps);
    var t := Outcome(s, steps);
    if t.workers[w].Scanning? { ScannerIsInRange(t, w); }
  }

  lemma {:induction false} WorkersStay(s: Pool, steps: seq<Step>)
    requires Run(s, steps)
    ensures |Outcome(s, steps).workers| == |s.workers|
    decreases |steps|
  {
    if steps != [] { WorkersStay(Next(s, steps[0]), steps[1..]); }
  }

  /** Where a published handle is: destroyed, or answered for by one slot, which
      is then not free. */
  lemma HandleIsInOnePlace(s: Pool, steps: seq<Step>, handle: nat)
    requires Initial(s) && Run(s, steps) && 0 < handle < Outcome(s, steps).nextHandle
    ensures var t := Outcome(s, steps);
      Sized(t) &&
      if handle in t.destroyed
      then forall i :: 0 <= i < CAPACITY ==> HandleAt(t, i) != handle
      else exists i :: 0 <= i < CAPACITY && HandleAt(t, i) == handle && !t.slots[i].state.Free?
                       && forall j :: 0 <= j < CAPACITY && HandleAt(t, j) == handle ==> j == i
  {
    InitialHolds(s);
    RunKeeps(s, steps);
    var t := Outcome(s, steps);
    if handle !in t.destroyed {
      var i :| 0 <= i < CAPACITY && HandleAt(t, i) == handle;
      assert OwnedRight(t, i);
    }
  }

  lemma DestroyedOnce(s: Pool, steps: seq<Step>, k: nat, m: nat)
    requires Initial(s) && Run(s, steps)
    requires k < m < |Outcome(s, steps).destroyed|
    ensures Outcome(s, steps).destroyed[k] != Outcome(s, steps).destroyed[m]
  {
    InitialHolds(s);
    RunKeeps(s, steps);
  }

  /** The handles the first slots answer for. */
  ghost function LiveBelow(s: Pool, n: nat): set<nat>
    requires Sized(s) && n <= CAPACITY
  {
    set i | 0 <= i < n && HandleAt(s, i) != 0 :: HandleAt(s, i)
  }

  lemma {:induction false} LiveCount(s: Pool, n: nat)
    requires Sized(s) && n <= CAPACITY
    ensures |LiveBelow(s, n)| <= n
  {
    if n > 0 {
      LiveCount(s, n - 1);
      LiveStep(s, n - 1);
    }
  }

  lemma LiveStep(s: Pool, i: nat)
    requires Sized(s) && i < CAPACITY
    ensures LiveBelow(s, i + 1) == LiveBelow(s, i) + if HandleAt(s, i) == 0 then {} else {HandleAt(s, i)}
  {
    forall h ensures h in LiveBelow(s, i + 1) <==> h in LiveBelow(s, i) || (h == HandleAt(s, i) && h != 0) {
      if h in LiveBelow(s, i) {
        var j :| 0 <= j < i && HandleAt(s, j) != 0 && HandleAt(s, j) == h;
      }
    }
  }

  /** At most as many handles as slots are published and not yet destroyed. */
  lemma OutstandingIsBounded(s: Pool, steps: seq<Step>, handles: set<nat>)
    requires Initial(s) && Run(s, steps)
    requires forall h :: h in handles ==> 0 < h < Outcome(s, steps).nextHandle && h !in Outcome(s, steps).destroyed
    ensures |handles| <= CAPACITY
  {
    InitialHolds(s);
    RunKeeps(s, steps);
    var t := Outcome(s, steps);
    assert handles <= LiveBelow(t, CAPACITY);
    LiveCount(t, CAPACITY);
    Subset(handles, LiveBelow(t, CAPACITY));
  }

  lemma {:induction false} Subset(a: set<nat>, b: set<nat>)
    requires a <= b
    ensures |a| <= |b|
  {
    if a != {} {
      var x :| x in a;
      Subset(a - {x}, b - {x});
    }
  }

  // ----- draining -----

  function Effort(w: Worker): nat {
    match w
    case Waiting => 0
    case Scanning(at) => if at < CAPACITY then 4 + CAPACITY - at else 1
    case Destroys(_) => 3
    case Clears(_) => 2
    case Frees(_) => 1
  }

  function TotalEffort(workers: seq<Worker>): nat {
    if workers == [] then 0 else Effort(workers[0]) + TotalEffort(workers[1..])
  }

  function Measure(s: Pool): nat {
    s.work * (CAPACITY + 5) + TotalEffort(s.workers)
  }

  lemma {:induction false} EffortUpdate(workers: seq<Worker>, w: nat, x: Worker)
    requires w < |workers|
    ensures TotalEffort(workers[w := x]) + Effort(workers[w]) == TotalEffort(workers) + Effort(x)
  {
    if w == 0 {
      assert workers[w := x][1..] == workers[1..];
    } else {
      assert workers[w := x][1..] == workers[1..][w - 1 := x];
      EffortUpdate(workers[1..], w - 1, x);
    }
  }

  /** Every step of a worker brings the measure down. */
  lemma WorkerStepDescends(s: Pool, step: Step)
    requires Enabled(s, step) && WorkerStep(step)
    ensures Measure(Next(s, step)) < Measure(s)
  {
    EffortUpdate(s.workers, step.worker, Next(s, step).workers[step.worker]);
  }

  /** Without further retirements the workers come to rest after a bounded
      number of steps. */
  lemma {:induction false} DrainIsBounded(s: Pool, steps: seq<Step>)
    requires Run(s, steps) && forall k :: 0 <= k < |steps| ==> WorkerStep(steps[k])
    ensures |steps| <= Measure(s)
    decreases |steps|
  {
    if steps != [] {
      WorkerStepDescends(s, steps[0]);
      DrainIsBounded(Next(s, steps[0]), steps[1..]);
    }
  }

  /** At rest, with no retirement half done, every slot is free or leased and
      every handle not with a lease is destroyed. */
  lemma RestIsClean(s: Pool)
    requires Invariant(s) && |s.workers| > 0 && PostingLeases(s) == {}
    requires forall step :: WorkerStep(step) ==> !Enabled(s, step)
    ensures forall i :: 0 <= i < CAPACITY ==> s.slots[i].state.Free? || s.slots[i].state.Reserved?
  {
    forall w | 0 <= w < |s.workers| ensures s.workers[w].Waiting? {
      assert WorkerStep(TryClaim(w)) && WorkerStep(Destroy(w)) && WorkerStep(Clear(w)) && WorkerStep(SetFree(w));
    }
    assert WorkerStep(Wake(0));
    assert s.work == 0;
    NobodyScans(s.workers, 0);
    forall i | 0 <= i < CAPACITY ensures s.slots[i].state.Free? || s.slots[i].state.Reserved? {
      assert OwnedRight(s, i);
      QueuedCounts(s.slots, i, 0);
    }
  }

  lemma {:induction false} QueuedCounts(slots: seq<Slot>, i: nat, p: nat)
    requires p <= i < |slots|
    ensures slots[i].state.Queued? ==> QueuedFrom(slots, p) > 0
    decreases |slots| - p
  {
    if p < i { QueuedCounts(slots, i, p + 1); }
  }

  // ----- free slots hold nothing -----

  /** A handle sits in a slot only between `retire` and the end of its destruction. */
  predicate HoldsNothing(s: Pool, i: nat)
    requires Sized(s) && i < CAPACITY
  {
    match s.owners[i]
    case Nobody => s.slots[i].state.Free?
    case ByLease(l) => l in s.leases && s.leases[l].Holding?
    case ByWorker(w) => w < |s.workers| && s.workers[w].Frees?
  }

  ghost predicate Emptied(s: Pool)
    requires Sized(s)
  {
    forall i :: 0 <= i < CAPACITY && HoldsNothing(s, i) ==> s.slots[i].handle == 0
  }

  lemma StepKeepsEmptied(s: Pool, step: Step)
    requires Ownership(s) && Emptied(s) && Enabled(s, step)
    ensures Emptied(Next(s, step))
  {
    var t := Next(s, step);
    forall i | 0 <= i < CAPACITY && HoldsNothing(t, i) ensures t.slots[i].handle == 0 {
      assert OwnedRight(s, i) && (HoldsNothing(s, i) ==> s.slots[i].handle == 0);
    }
  }

  lemma {:induction false} RunKeepsEmptied(s: Pool, steps: seq<Step>)
    requires Ownership(s) && Emptied(s) && Run(s, steps)
    ensures Ownership(Outcome(s, steps)) && Emptied(Outcome(s, steps))
    decreases |steps|
  {
    if steps != [] {
      StepKeepsOwnership(s, steps[0]);
      StepKeepsEmptied(s, steps[0]);
      RunKeepsEmptied(Next(s, steps[0]), steps[1..]);
    }
  }

  /** In every run a free slot has no handle left in it for its next owner. */
  lemma FreeSlotsAreEmpty(s: Pool, steps: seq<Step>, i: nat)
    requires Initial(s) && Run(s, steps) && i < CAPACITY
    ensures var t := Outcome(s, steps);
      Sized(t) && (t.slots[i].state.Free? ==> t.slots[i].handle == 0)
  {
    RunKeepsEmptied(s, steps);
    var t := Outcome(s, steps);
    assert OwnedRight(t, i);
    assert HoldsNothing(t, i) ==> t.slots[i].handle == 0;
  }

  // ----- reserving -----

  /** The lease is inside `reserve`. */
  predicate Reserves(s: Pool, l: nat) {
    l in s.leases && s.leases[l].Reserving?
  }

  /** The lease stays inside `reserve` until the last of the steps. */
  predicate ReservesUntilLast(s: Pool, steps: seq<Step>, l: nat)
    requires Run(s, steps)
    decreases |steps|
  {
    steps == [] || (Reserves(s, l) && ReservesUntilLast(Next(s, steps[0]), steps[1..], l))
  }

  /** The slot is free before each of the steps. */
  predicate FreeUntilLast(s: Pool, steps: seq<Step>, i: nat)
    requires Run(s, steps) && i < CAPACITY
    decreases |steps|
  {
    steps == [] || (s.slots[i].state.Free? && FreeUntilLast(Next(s, steps[0]), steps[1..], i))
  }

  /** At one of the steps the lease tried the slot and found it not free. */
  predicate FoundTaken(s: Pool, steps: seq<Step>, l: nat, i: nat)
    requires Run(s, steps) && i < CAPACITY
    decreases |steps|
  {
    steps != [] &&
    ((steps[0] == TryReserve(l) && s.leases[l] == Reserving(i) && !s.slots[i].state.Free?)
     || FoundTaken(Next(s, steps[0]), steps[1..], l, i))
  }

  /** Other threads leave a reserving lease where it stands. */
  lemma OthersLeaveReserving(s: Pool, step: Step, l: nat)
    requires Enabled(s, step) && Reserves(s, l) && step != TryReserve(l)
    ensures l in Next(s, step).leases && Next(s, step).leases[l] == s.leases[l]
  {
  }

  /** A lease begins to reserve, and some slot stays free until it is done: it
      then holds a slot, whichever slots the others take and free meanwhile. */
  lemma ReserveFindsFreeSlot(s: Pool, steps: seq<Step>, l: nat, i: nat)
    requires Enabled(s, BeginReserve(l)) && i < CAPACITY
    requires var begun := Next(s, BeginReserve(l));
      Run(begun, steps) && ReservesUntilLast(begun, steps, l) && FreeUntilLast(begun, steps, i)
      && !Reserves(Outcome(begun, steps), l)
    ensures var t := Outcome(Next(s, BeginReserve(l)), steps);
      && Sized(t) && l in t.leases && t.leases[l].Holding? && t.leases[l].slot < CAPACITY
      && t.slots[t.leases[l].slot].state.Reserved? && t.owners[t.leases[l].slot] == ByLease(l)
  {
    StillFinds(Next(s, BeginReserve(l)), steps, l, i);
  }

  lemma {:induction false} StillFinds(s: Pool, steps: seq<Step>, l: nat, i: nat)
    requires Sized(s) && i < CAPACITY && Reserves(s, l) && s.leases[l].at <= i
    requires Run(s, steps) && ReservesUntilLast(s, steps, l) && FreeUntilLast(s, steps, i)
    requires !Reserves(Outcome(s, steps), l)
    ensures var t := Outcome(s, steps);
      && Sized(t) && l in t.leases && t.leases[l].Holding? && t.leases[l].slot < CAPACITY
      && t.slots[t.leases[l].slot].state.Reserved? && t.owners[t.leases[l].slot] == ByLease(l)
    decreases |steps|
  {
    var t := Next(s, steps[0]);
    if steps[0] != TryReserve(l) { OthersLeaveReserving(s, steps[0], l); }
    if Reserves(t, l) {
      StillFinds(t, steps[1..], l, i);
    } else {
      assert steps[1..] == [];
    }
  }

  /** A lease leaves `reserve` without a slot only after it tried each of the
      slots, one after the other, and found each not free at that moment. */
  lemma ReserveFailsAfterAll(s: Pool, steps: seq<Step>, l: nat, i: nat)
    requires Enabled(s, BeginReserve(l)) && i < CAPACITY
    requires var begun := Next(s, BeginReserve(l));
      Run(begun, steps) && ReservesUntilLast(begun, steps, l) && l !in Outcome(begun, steps).leases
    ensures FoundTaken(Next(s, BeginReserve(l)), steps, l, i)
  {
    FoundEach(Next(s, BeginReserve(l)), steps, l, i);
  }

  lemma {:induction false} FoundEach(s: Pool, steps: seq<Step>, l: nat, i: nat)
    requires Sized(s) && Reserves(s, l) && s.leases[l].at <= i < CAPACITY
    requires Run(s, steps) && ReservesUntilLast(s, steps, l) && l !in Outcome(s, steps).leases
    ensures FoundTaken(s, steps, l, i)
    decreases |steps|
  {
    var t := Next(s, steps[0]);
    if steps[0] != TryReserve(l) { OthersLeaveReserving(s, steps[0], l); }
    if Reserves(t, l) {
      if t.leases[l].at <= i { FoundEach(t, steps[1..], l, i); }
    }
  }
}
