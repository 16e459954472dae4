/** The atomics of a core lease (mpvrenderbridge.cpp) under any interleaving:
    the renderer claim, the retirement marker with its sequence counter, and
    the token counter. One step is one atomic operation of one thread. */
module CoreLease {
  import opened Native

  // ===== the renderer claim and the retirement marker =====

  /** Where a renderer stands: before its claim, owning the context slot with
      or without a native context, at each of the four stores of
      `markContextRetiring`, marked, refused, or gone. */
  datatype Renderer =
    | Unclaimed
    | Owner(hasContext: bool)
    | Mark1(intent: nat)
    | Mark2(intent: nat)
    | Mark3(intent: nat)
    | Mark4(intent: nat)
    | Marked
    | Refused
    | Gone

  /** Where a `retiringContext` call stands, with what it has loaded. */
  datatype Reader =
    | Idle
    | HasSequence(intent: nat, sequence: nat)
    | HasGeneration(intent: nat, sequence: nat, generation: nat)
    | HasBoth(intent: nat, sequence: nat, generation: nat, marked: nat)
    | Returned(intent: nat, result: nat)

  /** A completed `markContextRetiring` call. */
  datatype Mark = Mark(generation: nat, intent: nat)

  datatype Lease = Lease(
    renderOwner: nat, sequence: nat, retiringIntent: nat, retiringGeneration: nat,
    renderers: map<nat, Renderer>, readers: map<nat, Reader>, marks: seq<Mark>)

  datatype Step =
    | Create(generation: nat)
    | Claim(generation: nat)
    | ContextCreated(generation: nat)
    | BeginMark(generation: nat, intent: nat)
    | BumpOdd(generation: nat)
    | StoreIntent(generation: nat)
    | StoreGeneration(generation: nat)
    | BumpEven(generation: nat)
    | Release(generation: nat)
    | StaleRelease(generation: nat)
    | BeginRead(reader: nat, intent: nat)
    | LoadGeneration(reader: nat)
    | LoadIntent(reader: nat)
    | Check(reader: nat)

  /** The thread is at this operation. A context is marked only by the renderer
      that created it, and a renderer releases only what it claimed. */
  predicate Enabled(s: Lease, step: Step) {
    match step
    case Create(g) => g != 0 && g !in s.renderers
    case Claim(g) => g in s.renderers && s.renderers[g].Unclaimed?
    case ContextCreated(g) => g in s.renderers && s.renderers[g] == Owner(false)
    case BeginMark(g, _) => g in s.renderers && s.renderers[g] == Owner(true)
    case BumpOdd(g) => g in s.renderers && s.renderers[g].Mark1?
    case StoreIntent(g) => g in s.renderers && s.renderers[g].Mark2?
    case StoreGeneration(g) => g in s.renderers && s.renderers[g].Mark3?
    case BumpEven(g) => g in s.renderers && s.renderers[g].Mark4?
    case Release(g) => g in s.renderers && (s.renderers[g] == Owner(false) || s.renderers[g].Marked?)
    case StaleRelease(g) => g in s.renderers && !Owns(s.renderers[g])
    case BeginRead(r, _) => r !in s.readers || s.readers[r].Idle? || s.readers[r].Returned?
    case LoadGeneration(r) => r in s.readers && s.readers[r].HasSequence?
    case LoadIntent(r) => r in s.readers && s.readers[r].HasGeneration?
    case Check(r) => r in s.readers && s.readers[r].HasBoth?
  }

  function ToRenderer(s: Lease, g: nat, renderer: Renderer): Lease {
    s.(renderers := s.renderers[g := renderer])
  }

  function ToReader(s: Lease, r: nat, reader: Reader): Lease {
    s.(readers := s.readers[r := reader])
  }

  function Next(s: Lease, step: Step): Lease
    requires Enabled(s, step)
  {
    match step
    case Create(g) => ToRenderer(s, g, Unclaimed)
    case Claim(g) =>
      if s.renderOwner == 0 then ToRenderer(s, g, Owner(false)).(renderOwner := g)
      else ToRenderer(s, g, Refused)
    case ContextCreated(g) => ToRenderer(s, g, Owner(true))
    case BeginMark(g, intent) => ToRenderer(s, g, Mark1(intent))
    case BumpOdd(g) => ToRenderer(s, g, Mark2(s.renderers[g].intent)).(sequence := s.sequence + 1)
    case StoreIntent(g) =>
      ToRenderer(s, g, Mark3(s.renderers[g].intent)).(retiringIntent := s.renderers[g].intent)
    case StoreGeneration(g) => ToRenderer(s, g, Mark4(s.renderers[g].intent)).(retiringGeneration := g)
    case BumpEven(g) =>
      ToRenderer(s, g, Marked).(sequence := s.sequence + 1, marks := s.marks + [Mark(g, s.renderers[g].intent)])
    case Release(g) =>
      ToRenderer(s, g, Gone).(renderOwner := if s.renderOwner == g then 0 else s.renderOwner)
    case StaleRelease(g) => s.(renderOwner := if s.renderOwner == g then 0 else s.renderOwner)
    case BeginRead(r, intent) =>
      ToReader(s, r, if s.sequence % 2 == 1 then Returned(intent, 0) else HasSequence(intent, s.sequence))
    case LoadGeneration(r) =>
      var c := s.readers[r];
      ToReader(s, r, HasGeneration(c.intent, c.sequence, s.retiringGeneration))
    case LoadIntent(r) =>
      var c := s.readers[r];
      ToReader(s, r, HasBoth(c.intent, c.sequence, c.generation, s.retiringIntent))
    case Check(r) =>
      var c := s.readers[r];
      ToReader(s, r, Returned(c.intent,
        if c.sequence == s.sequence && c.generation != 0 && c.marked == c.intent then c.generation else 0))
  }

  const INITIAL := Lease(0, 0, 0, 0, map[], map[], [])

  predicate Run(s: Lease, steps: seq<Step>)
    decreases |steps|
  {
    steps == [] || (Enabled(s, steps[0]) && Run(Next(s, steps[0]), steps[1..]))
  }

  function Outcome(s: Lease, steps: seq<Step>): Lease
    requires Run(s, steps)
    decreases |steps|
  {
    if steps == [] then s else Outcome(Next(s, steps[0]), steps[1..])
  }

  /** The renderer holds the claim. */
  predicate Owns(r: Renderer) {
    r.Owner? || r.Mark1? || r.Mark2? || r.Mark3? || r.Mark4? || r.Marked?
  }

  /** The renderer is between the two sequence bumps. */
  predicate Writing(r: Renderer) {
    r.Mark2? || r.Mark3? || r.Mark4?
  }

  ghost predicate ClaimRight(s: Lease) {
    && (forall g :: g in s.renderers ==> g != 0)
    && (forall g :: g in s.renderers && Owns(s.renderers[g]) ==> s.renderOwner == g)
    && (s.renderOwner != 0 ==> s.renderOwner in s.renderers && Owns(s.renderers[s.renderOwner]))
  }

  /** The marker fields as the last completed mark left them. */
  predicate Settled(s: Lease, generation: nat, intent: nat) {
    if s.marks == [] then generation == 0 && intent == 0
    else s.marks[|s.marks| - 1] == Mark(generation, intent)
  }

  /** How far the current holder has got with the marker. */
  predicate MarkerRight(s: Lease) {
    var holder := if s.renderOwner in s.renderers then s.renderers[s.renderOwner] else Unclaimed;
    && s.sequence == 2 * |s.marks| + (if Writing(holder) then 1 else 0)
    && (!Writing(holder) ==> Settled(s, s.retiringGeneration, s.retiringIntent))
    && (holder.Mark3? || holder.Mark4? ==> s.retiringIntent == holder.intent)
    && (holder.Mark4? ==> s.retiringGeneration == s.renderOwner)
    && (forall k :: 0 <= k < |s.marks| ==> s.marks[k].generation != 0)
  }

  /** A reader that loaded the present sequence has loaded the present marker. */
  predicate ReaderRight(s: Lease, c: Reader) {
    match c
    case Idle => true
    case HasSequence(_, sequence) => sequence % 2 == 0 && sequence <= s.sequence
    case HasGeneration(_, sequence, generation) =>
      sequence % 2 == 0 && sequence <= s.sequence && (sequence == s.sequence ==> generation == s.retiringGeneration)
    case HasBoth(_, sequence, generation, marked) =>
      sequence % 2 == 0 && sequence <= s.sequence
      && (sequence == s.sequence ==> generation == s.retiringGeneration && marked == s.retiringIntent)
    case Returned(intent, result) => result != 0 ==> Mark(result, intent) in s.marks
  }

  ghost predicate ReadersRight(s: Lease) {
    forall r :: r in s.readers ==> ReaderRight(s, s.readers[r])
  }

  ghost predicate Invariant(s: Lease) {
    ClaimRight(s) && MarkerRight(s) && ReadersRight(s)
  }

  /** While no write is under way, the marker is the last completed mark. */
  lemma EvenMeansSettled(s: Lease)
    requires ClaimRight(s) && MarkerRight(s) && s.sequence % 2 == 0
    ensures Settled(s, s.retiringGeneration, s.retiringIntent) && s.sequence == 2 * |s.marks|
  {
  }

  lemma StepKeepsClaim(s: Lease, step: Step)
    requires Invariant(s) && Enabled(s, step)
    ensures ClaimRight(Next(s, step)) && MarkerRight(Next(s, step))
  {
  }

  lemma StepKeepsReaders(s: Lease, step: Step)
    requires Invariant(s) && Enabled(s, step)
    ensures ReadersRight(Next(s, step))
  {
    if step.Check? && s.readers[step.reader].sequence == s.sequence { EvenMeansSettled(s); }
  }

  lemma {:induction false} RunKeeps(s: Lease, steps: seq<Step>)
    requires Invariant(s) && Run(s, steps)
    ensures Invariant(Outcome(s, steps))
    decreases |steps|
  {
    if steps != [] {
      StepKeepsClaim(s, steps[0]);
      StepKeepsReaders(s, steps[0]);
      RunKeeps(Next(s, steps[0]), steps[1..]);
    }
  }

  /** What `retiringContext` returns: the generation of the last completed mark,
      if that mark is for the intent asked about and no mark began since the
      read did; otherwise zero. */
  lemma ReadIsCoherent(steps: seq<Step>, r: nat)
    requires Run(INITIAL, steps) && Enabled(Outcome(INITIAL, steps), Check(r))
    ensures var s := Outcome(INITIAL, steps);
      var c := s.readers[r];
      var undisturbed := c.sequence == s.sequence == 2 * |s.marks|;
      Next(s, Check(r)).readers[r] == Returned(c.intent,
        if undisturbed && s.marks != [] && s.marks[|s.marks| - 1].intent == c.intent
        then s.marks[|s.marks| - 1].generation else 0)
  {
    var s := Outcome(INITIAL, steps);
    RunKeeps(INITIAL, steps);
    if s.readers[r].sequence == s.sequence { EvenMeansSettled(s); }
  }

  /** A read gives up at its first step exactly while a renderer is between its two
      sequence bumps; otherwise, left undisturbed, it returns the generation of the
      last completed mark if that mark is for its intent. */
  lemma UndisturbedReadReturnsTheMark(steps: seq<Step>, r: nat, intent: nat)
    requires Run(INITIAL, steps) && Enabled(Outcome(INITIAL, steps), BeginRead(r, intent))
    ensures var s := Outcome(INITIAL, steps);
      var read := [BeginRead(r, intent), LoadGeneration(r), LoadIntent(r), Check(r)];
      if exists g :: g in s.renderers && Writing(s.renderers[g]) then
        Next(s, BeginRead(r, intent)).readers[r] == Returned(intent, 0)
      else
        Run(s, read) && r in Outcome(s, read).readers
        && Outcome(s, read).readers[r] == Returned(intent,
             if s.marks != [] && s.marks[|s.marks| - 1].intent == intent then s.marks[|s.marks| - 1].generation else 0)
  {
    var s := Outcome(INITIAL, steps);
    RunKeeps(INITIAL, steps);
    if s.sequence % 2 == 0 {
      EvenMeansSettled(s);
      ReadsOn(s, r, intent);
    } else {
      assert Writing(s.renderers[s.renderOwner]);
    }
  }

  lemma ReadsOn(s: Lease, r: nat, intent: nat)
    requires Enabled(s, BeginRead(r, intent)) && s.sequence % 2 == 0
    ensures var read := [BeginRead(r, intent), LoadGeneration(r), LoadIntent(r), Check(r)];
      Run(s, read) && r in Outcome(s, read).readers
      && Outcome(s, read).readers[r] == Returned(intent,
           if s.retiringGeneration != 0 && s.retiringIntent == intent then s.retiringGeneration else 0)
  {
    var a := Next(s, BeginRead(r, intent));
    var b := Next(a, LoadGeneration(r));
    var c := Next(b, LoadIntent(r));
    OneStep(c, Check(r));
    MoreSteps(b, LoadIntent(r), [Check(r)]);
    MoreSteps(a, LoadGeneration(r), [LoadIntent(r), Check(r)]);
    MoreSteps(s, BeginRead(r, intent), [LoadGeneration(r), LoadIntent(r), Check(r)]);
  }

  lemma OneStep(s: Lease, step: Step)
    requires Enabled(s, step)
    ensures Run(s, [step]) && Outcome(s, [step]) == Next(s, step)
  {
    MoreSteps(s, step, []);
  }

  lemma MoreSteps(s: Lease, step: Step, rest: seq<Step>)
    requires Enabled(s, step) && Run(Next(s, step), rest)
    ensures Run(s, [step] + rest) && Outcome(s, [step] + rest) == Outcome(Next(s, step), rest)
  {
    assert ([step] + rest)[1..] == rest;
  }

  /** A generation once returned was marked with the intent it was returned for. */
  lemma ReturnedWasMarked(steps: seq<Step>, r: nat)
    requires Run(INITIAL, steps) && r in Outcome(INITIAL, steps).readers
    ensures var s := Outcome(INITIAL, steps);
      s.readers[r].Returned? && s.readers[r].result != 0 ==> Mark(s.readers[r].result, s.readers[r].intent) in s.marks
  {
    RunKeeps(INITIAL, steps);
  }

  /** At most one renderer owns the claim, and only its own release frees it. */
  lemma ClaimIsExclusive(steps: seq<Step>, step: Step, g: nat, h: nat)
    requires Run(INITIAL, steps) && Enabled(Outcome(INITIAL, steps), step)
    ensures var s := Outcome(INITIAL, steps);
      && (g in s.renderers && h in s.renderers && Owns(s.renderers[g]) && Owns(s.renderers[h]) ==> g == h)
      && (s.renderOwner != 0 && Next(s, step).renderOwner != s.renderOwner ==> step == Release(s.renderOwner))
      && (step.Claim? ==> (Next(s, step).renderers[step.generation] == Owner(false)
                           <==> forall k :: k in s.renderers ==> !Owns(s.renderers[k])))
  {
    RunKeeps(INITIAL, steps);
  }
}

/** The native token counter of a core lease: GUI threads allocate, the worker
    allocates and notes, all by compare-and-swap loops that may fail. */
module TokenCounter {
  import opened Native

  datatype Operation = Allocate | NoteToken(token: nat)

  /** A call between its load of the counter and its next compare-and-swap. */
  datatype Call = Call(operation: Operation, next: nat)

  /** What calls have done, in the order their last atomic operation took effect. */
  datatype Effect = Allocated(token: nat) | Exhausted | Noted(token: nat)

  datatype Counter = Counter(value: nat, calls: map<nat, Call>, effects: seq<Effect>)

  datatype Step = Load(thread: nat, operation: Operation) | Try(thread: nat, spurious: bool)

  predicate Enabled(s: Counter, step: Step) {
    match step
    case Load(thread, operation) =>
      thread !in s.calls && (operation.NoteToken? ==> operation.token <= UINT64_MAX)
    case Try(thread, _) => thread in s.calls
  }

  function Finish(s: Counter, thread: nat, value: nat, effect: Effect): Counter {
    s.(value := value, calls := s.calls - {thread}, effects := s.effects + [effect])
  }

  /** One turn of a call's loop: leave it, swap, or learn the present value. */
  function Next(s: Counter, step: Step): Counter
    requires Enabled(s, step)
  {
    match step
    case Load(thread, operation) => s.(calls := s.calls[thread := Call(operation, s.value)])
    case Try(thread, spurious) =>
      var c := s.calls[thread];
      var swaps := !spurious && s.value == c.next;
      var reload := s.(calls := s.calls[thread := c.(next := s.value)]);
      match c.operation
      case Allocate =>
        if c.next == 0 then Finish(s, thread, s.value, Exhausted)
        else if swaps then Finish(s, thread, Following(c.next), Allocated(c.next))
        else reload
      case NoteToken(token) =>
        if c.next == 0 || token < c.next then Finish(s, thread, s.value, Noted(token))
        else if swaps then Finish(s, thread, Following(token), Noted(token))
        else reload
  }

  const INITIAL := Counter(1, map[], [])

  predicate Run(s: Counter, steps: seq<Step>)
    decreases |steps|
  {
    steps == [] || (Enabled(s, steps[0]) && Run(Next(s, steps[0]), steps[1..]))
  }

  function Outcome(s: Counter, steps: seq<Step>): Counter
    requires Run(s, steps)
    decreases |steps|
  {
    if steps == [] then s else Outcome(Next(s, steps[0]), steps[1..])
  }

  /** The effect allows only values above it, or none at all. */
  predicate Bounds(effect: Effect, value: nat) {
    match effect
    case Allocated(token) => token <= UINT64_MAX && (value == 0 || token < value)
    case Exhausted => value == 0
    case Noted(token) => value == 0 || token < value
  }

  ghost predicate Invariant(s: Counter) {
    && s.value <= UINT64_MAX
    && (forall k :: 0 <= k < |s.effects| ==> Bounds(s.effects[k], s.value))
    && (forall k, m :: 0 <= k < m < |s.effects| && s.effects[m].Allocated? ==>
          Bounds(s.effects[k], s.effects[m].token) && s.effects[m].token != 0)
    && (forall k :: 0 <= k < |s.effects| && s.effects[k].Allocated? ==> s.effects[k].token != 0)
    && (forall t :: t in s.calls ==>
          (s.value == 0 || 0 < s.calls[t].next <= s.value)
          && (s.calls[t].operation.NoteToken? ==> s.calls[t].operation.token <= UINT64_MAX))
  }

  lemma StepKeeps(s: Counter, step: Step)
    requires Invariant(s) && Enabled(s, step)
    ensures Invariant(Next(s, step))
  {
  }

  lemma {:induction false} RunKeeps(s: Counter, steps: seq<Step>)
    requires Invariant(s) && Run(s, steps)
    ensures Invariant(Outcome(s, steps))
    decreases |steps|
  {
    if steps != [] {
      StepKeeps(s, steps[0]);
      RunKeeps(Next(s, steps[0]), steps[1..]);
    }
  }

  /** The value is the first, or follows a token that was allocated or noted. */
  ghost predicate Reached(effects: seq<Effect>, value: nat) {
    value == 1 || exists k :: 0 <= k < |effects| && !effects[k].Exhausted? && Following(effects[k].token) == value
  }

  /** What the effect found the counter at. */
  function Found(effect: Effect): Option<nat> {
    match effect
    case Allocated(token) => Some(token)
    case Exhausted => Some(0)
    case Noted(_) => None
  }

  ghost predicate NoGaps(s: Counter) {
    && Reached(s.effects, s.value)
    && forall m :: 0 <= m < |s.effects| && Found(s.effects[m]).Some? ==>
                     Reached(s.effects[..m], Found(s.effects[m]).value)
  }

  lemma ReachedStays(effects: seq<Effect>, effect: Effect, value: nat)
    requires Reached(effects, value)
    ensures Reached(effects + [effect], value)
  {
    if value != 1 {
      var k :| 0 <= k < |effects| && !effects[k].Exhausted? && Following(effects[k].token) == value;
      assert (effects + [effect])[k] == effects[k];
    }
  }

  /** An effect that found the value the counter was at, and left another that
      follows its own token. */
  lemma FinishLeavesNoGaps(s: Counter, thread: nat, value: nat, effect: Effect)
    requires NoGaps(s) && (Found(effect).Some? ==> Found(effect).value == s.value)
    requires value == s.value || (!effect.Exhausted? && value == Following(effect.token))
    ensures NoGaps(Finish(s, thread, value, effect))
  {
    var more := s.effects + [effect];
    ReachedStays(s.effects, effect, s.value);
    assert more[|s.effects|] == effect;
    forall m | 0 <= m < |more| && Found(more[m]).Some? ensures Reached(more[..m], Found(more[m]).value) {
      assert more[..m] == s.effects[..m];
      assert m == |s.effects| ==> s.effects[..m] == s.effects;
    }
  }

  lemma StepLeavesNoGaps(s: Counter, step: Step)
    requires Invariant(s) && NoGaps(s) && Enabled(s, step)
    ensures NoGaps(Next(s, step))
  {
    if step.Try? {
      var c := s.calls[step.thread];
      match c.operation
      case Allocate =>
        FinishLeavesNoGaps(s, step.thread, s.value, if s.value == 0 then Exhausted else Noted(0));
        FinishLeavesNoGaps(s, step.thread, Following(s.value), Allocated(s.value));
      case NoteToken(token) =>
        FinishLeavesNoGaps(s, step.thread, s.value, Noted(token));
        FinishLeavesNoGaps(s, step.thread, Following(token), Noted(token));
    }
  }

  lemma {:induction false} RunLeavesNoGaps(s: Counter, steps: seq<Step>)
    requires Invariant(s) && NoGaps(s) && Run(s, steps)
    ensures NoGaps(Outcome(s, steps))
    decreases |steps|
  {
    if steps != [] {
      StepKeeps(s, steps[0]);
      StepLeavesNoGaps(s, steps[0]);
      RunLeavesNoGaps(Next(s, steps[0]), steps[1..]);
    }
  }

  /** No token is left out: an allocated one is 1, or one more than a token that
      was allocated or noted before; and tokens are exhausted only once the
      largest was. */
  lemma TokensLeaveNoGaps(steps: seq<Step>, m: nat)
    requires Run(INITIAL, steps) && m < |Outcome(INITIAL, steps).effects|
    ensures var e := Outcome(INITIAL, steps).effects;
      && (e[m].Allocated? && e[m].token != 1 ==>
            exists k :: 0 <= k < m && !e[k].Exhausted? && e[k].token + 1 == e[m].token)
      && (e[m].Exhausted? ==> exists k :: 0 <= k < m && !e[k].Exhausted? && e[k].token == UINT64_MAX)
  {
    RunKeeps(INITIAL, steps);
    RunLeavesNoGaps(INITIAL, steps);
    var e := Outcome(INITIAL, steps).effects;
    if Found(e[m]).Some? && Found(e[m]).value != 1 {
      var k :| 0 <= k < m && !e[..m][k].Exhausted? && Following(e[..m][k].token) == Found(e[m]).value;
      assert e[k] == e[..m][k];
    }
  }

  /** An allocated token is above all allocated and all noted before it, and
      nothing is allocated after exhaustion. */
  lemma TokensAreFresh(steps: seq<Step>, k: nat, m: nat)
    requires Run(INITIAL, steps) && k < m < |Outcome(INITIAL, steps).effects|
    requires Outcome(INITIAL, steps).effects[m].Allocated?
    ensures var e := Outcome(INITIAL, steps).effects;
      && 0 < e[m].token <= UINT64_MAX
      && !e[k].Exhausted?
      && e[k].token < e[m].token
  {
    RunKeeps(INITIAL, steps);
  }
}
