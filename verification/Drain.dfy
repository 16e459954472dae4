/** The wakeup and drain protocol shared by the log client, the hook manager
    and the controller: a pending bit set by libmpv's callback thread, drain
    closures tagged with a generation in the receiver's event queue, a drain
    loop whose handlers may run the event queue again, shut the client down
    and set up another one.

    Steps are those of libmpv (enqueueing, calling back), of the callback
    (exchange, post) and of the receiver's thread. libmpv calls back on an
    enqueue unless it has done so since the queue was last found empty, and on
    registration if events wait; posting a closure succeeds. */
module Drain {
  import opened Native

  /** A running drain loop: at its head, inside a handler, or past its end. */
  datatype Frame = Reading(client: nat, generation: nat) | Handling(client: nat, generation: nat) | Leaving

  /** What the receiver's thread is doing apart from its drain loops: nothing,
      between creating a client and registering its callback, or waiting for
      the callbacks of a client it shuts down. */
  datatype Task = Free | Registering | Barrier(calls: nat, posting: nat, pending: bool, generation: nat)

  /** The log and hook helpers may set up another client after a shutdown; the
      controller has one client and may lose it without a new generation. */
  datatype Kind = Helper | Controller

  datatype Receiver = Receiver(
    kind: Kind,
    client: nat,          // 0: none
    nextClient: nat,
    generation: nat,
    registered: bool,
    pending: bool,        // the registered token's bit
    calls: nat,           // callbacks of this client before their exchange
    posting: nat,         // callbacks of this client between exchange and post
    events: nat,          // native events waiting in this client
    notified: bool,       // libmpv has called back since it last reported none
    draining: bool,
    redrain: bool,
    frames: seq<Frame>,   // drain loops on the receiver's stack, innermost last
    task: Task,
    queue: seq<nat>)      // generations of queued closures

  datatype Step =
    | Enqueue
    | Exchange
    | Post
    | OldExchange
    | OldPost
    | Setup
    | Register(synchronous: bool)
    | Shutdown
    | BarrierDone
    | Deliver
    | ReadMessage
    | ReadOther
    | ReadShutdown
    | ReadNone
    | Stop
    | HandlerReturns
    | Leave

  const FIRST_GENERATION: nat := 1

  predicate Initial(s: Receiver) {
    s == Receiver(s.kind, 0, 1, FIRST_GENERATION, false, false, 0, 0, 0, false, false, false, [], Free, [])
  }

  /** The receiver's thread runs its event queue or user code. */
  predicate Open(s: Receiver) {
    s.task.Free? && (s.frames == [] || Top(s).Handling?)
  }

  function Top(s: Receiver): Frame {
    if s.frames == [] then Leaving else s.frames[|s.frames| - 1]
  }

  /** The innermost loop is at its head and its client is still the registered one. */
  predicate MayRead(s: Receiver) {
    s.task.Free? && s.frames != [] && Top(s).Reading? && s.client != 0
    && Top(s).client == s.client && Top(s).generation == s.generation
  }

  predicate Enabled(s: Receiver, step: Step) {
    match step
    case Enqueue => s.client != 0
    case Exchange => s.calls > 0
    case Post => s.posting > 0
    case OldExchange => s.task.Barrier? && s.task.calls > 0
    case OldPost => s.task.Barrier? && s.task.posting > 0
    case Setup => Open(s) && s.client == 0 && (s.kind.Controller? ==> s.nextClient == 1)
    case Register(synchronous) => s.task.Registering? && (s.events > 0 ==> synchronous)
    case Shutdown => Open(s)
    case BarrierDone => s.task.Barrier? && s.task.calls == 0 && s.task.posting == 0
    case Deliver => Open(s) && s.queue != []
    case ReadMessage => MayRead(s) && s.events > 0
    case ReadOther => MayRead(s) && s.events > 0
    case ReadShutdown => MayRead(s) && s.events > 0
    case ReadNone => MayRead(s) && s.events == 0
    case Stop => s.task.Free? && s.frames != [] && Top(s).Reading? && !MayRead(s)
    case HandlerReturns => s.task.Free? && s.frames != [] && Top(s).Handling?
    case Leave => s.task.Free? && s.frames != [] && Top(s).Leaving?
  }

  function Replace(frames: seq<Frame>, frame: Frame): seq<Frame>
    requires frames != []
  {
    frames[..|frames| - 1] + [frame]
  }

  /** Taking the client away: its callbacks finish behind the barrier, under
      the generation they were registered with. */
  function Detach(s: Receiver, generation: nat): Receiver {
    if s.client == 0 then s.(generation := generation)
    else s.(client := 0, generation := generation, registered := false, pending := false, calls := 0,
            posting := 0, events := 0, notified := false,
            task := Barrier(s.calls, s.posting, s.pending, s.generation))
  }

  function Next(s: Receiver, step: Step): Receiver
    requires Enabled(s, step)
  {
    match step
    case Enqueue =>
      s.(events := s.events + 1, notified := true,
         calls := if s.registered && !s.notified then s.calls + 1 else s.calls)
    case Exchange =>
      if s.pending then s.(calls := s.calls - 1)
      else s.(calls := s.calls - 1, pending := true, posting := s.posting + 1)
    case Post => s.(posting := s.posting - 1, queue := s.queue + [s.generation])
    case OldExchange =>
      var b := s.task;
      s.(task := if b.pending then b.(calls := b.calls - 1)
                 else b.(calls := b.calls - 1, pending := true, posting := b.posting + 1))
    case OldPost =>
      s.(task := s.task.(posting := s.task.posting - 1), queue := s.queue + [s.task.generation])
    case Setup =>
      s.(client := s.nextClient, nextClient := s.nextClient + 1, pending := false, calls := 0, posting := 0,
         events := 0, notified := false, registered := false, redrain := s.redrain || s.draining,
         task := Registering)
    case Register(synchronous) =>
      s.(registered := true, task := Free, calls := if synchronous then s.calls + 1 else s.calls)
    case Shutdown => Detach(s, s.generation + 1)
    case BarrierDone => s.(task := Free)
    case Deliver =>
      var g := s.queue[0];
      var rest := s.(queue := s.queue[1..]);
      if s.client == 0 || g != s.generation then rest
      else if s.draining then rest.(pending := false, redrain := true)
      else rest.(pending := false, draining := true, frames := s.frames + [Reading(s.client, g)])
    case ReadMessage =>
      s.(events := s.events - 1, frames := Replace(s.frames, Handling(Top(s).client, Top(s).generation)))
    case ReadOther => s.(events := s.events - 1)
    case ReadShutdown =>
      Detach(s, if s.kind.Helper? then s.generation + 1 else s.generation).(frames := Replace(s.frames, Leaving))
    case ReadNone => s.(notified := false, frames := Replace(s.frames, Leaving))
    case Stop => s.(frames := Replace(s.frames, Leaving))
    case HandlerReturns =>
      s.(frames := Replace(s.frames, Reading(Top(s).client, Top(s).generation)))
    case Leave =>
      var again := s.redrain && s.client != 0;
      s.(draining := false, frames := s.frames[..|s.frames| - 1],
         redrain := if s.kind.Helper? then false else s.redrain && !again,
         queue := if again then s.queue + [s.generation] else s.queue)
  }

  predicate Run(s: Receiver, steps: seq<Step>)
    decreases |steps|
  {
    steps == [] || (Enabled(s, steps[0]) && Run(Next(s, steps[0]), steps[1..]))
  }

  function Outcome(s: Receiver, steps: seq<Step>): Receiver
    requires Run(s, steps)
    decreases |steps|
  {
    if steps == [] then s else Outcome(Next(s, steps[0]), steps[1..])
  }

  /** The innermost loop will read again from the present client. */
  predicate LoopReads(s: Receiver) {
    s.frames != [] && (Top(s).Reading? || Top(s).Handling?)
    && Top(s).client == s.client && Top(s).generation == s.generation
  }

  /** Something is under way that ends in another read of the client. */
  predicate WillRead(s: Receiver) {
    || s.calls > 0
    || s.posting > 0
    || s.generation in s.queue
    || LoopReads(s)
    || (s.draining && s.redrain)
  }

  predicate Invariant(s: Receiver) {
    // one loop at most, and the flag says so
    && |s.frames| <= 1 && (s.draining <==> s.frames != [])
    // a set bit has its closure posted or about to be
    && (s.pending ==> s.posting > 0 || s.generation in s.queue)
    // waiting events were announced, and an announcement leads to a read
    && (s.client != 0 && s.events > 0 ==> s.notified)
    && (s.task.Registering? && s.notified ==> s.events > 0)
    && (s.client != 0 && s.registered && s.notified ==> WillRead(s))
    // without a client, nothing of one
    && (s.client == 0 ==> !s.registered && !s.pending && s.calls == 0 && s.posting == 0 && s.events == 0)
    && (s.client != 0 ==> s.client < s.nextClient && (s.registered <==> !s.task.Registering?) && !s.task.Barrier?)
    && (!s.registered ==> s.calls == 0 && s.posting == 0 && !s.pending)
    && (s.task.Registering? ==> s.client != 0)
    // no closure and no loop is from the future
    && 0 < s.nextClient
    && (forall g :: g in s.queue ==> g <= s.generation)
    && (s.task.Barrier? ==> s.task.generation <= s.generation)
    && (s.frames != [] && !Top(s).Leaving? ==>
          && Top(s).generation <= s.generation && 0 < Top(s).client < s.nextClient
          && (Top(s).generation == s.generation ==>
                s.client == Top(s).client || (s.client == 0 && s.kind.Controller?)))
  }

  /** Steps of libmpv and of its callback threads. */
  lemma NativeStepKeeps(s: Receiver, step: Step)
    requires Invariant(s) && Enabled(s, step)
    requires step.Enqueue? || step.Exchange? || step.Post? || step.OldExchange? || step.OldPost?
    ensures Invariant(Next(s, step))
  {
    var t := Next(s, step);
    forall g | g in t.queue ensures g <= t.generation {
    }
    assert s.generation in s.queue ==> s.generation in t.queue;
    if step.Post? { assert t.queue[|s.queue|] == s.generation; }
  }

  lemma ClientStepKeeps(s: Receiver, step: Step)
    requires Invariant(s) && Enabled(s, step)
    requires step.Setup? || step.Register? || step.Shutdown? || step.BarrierDone?
    ensures Invariant(Next(s, step))
  {
  }

  lemma DeliverKeeps(s: Receiver)
    requires Invariant(s) && Enabled(s, Deliver)
    ensures Invariant(Next(s, Deliver))
  {
    var t := Next(s, Deliver);
    assert s.queue == [s.queue[0]] + t.queue;
    assert forall g :: g in t.queue ==> g in s.queue;
  }

  lemma LoopStepKeeps(s: Receiver, step: Step)
    requires Invariant(s) && Enabled(s, step)
    requires step.ReadMessage? || step.ReadOther? || step.ReadShutdown? || step.ReadNone? || step.Stop?
             || step.HandlerReturns?
    ensures Invariant(Next(s, step))
  {
    assert |Next(s, step).frames| == 1;
  }

  lemma LeaveKeeps(s: Receiver)
    requires Invariant(s) && Enabled(s, Leave)
    ensures Invariant(Next(s, Leave))
  {
    var t := Next(s, Leave);
    assert t.frames == [];
    if t.queue != s.queue { assert t.queue[|s.queue|] == s.generation; }
  }

  lemma StepKeeps(s: Receiver, step: Step)
    requires Invariant(s) && Enabled(s, step)
    ensures Invariant(Next(s, step))
  {
    match step
    case Deliver => DeliverKeeps(s);
    case Leave => LeaveKeeps(s);
    case Enqueue | Exchange | Post | OldExchange | OldPost => NativeStepKeeps(s, step);
    case Setup | Register(_) | Shutdown | BarrierDone => ClientStepKeeps(s, step);
    case ReadMessage | ReadOther | ReadShutdown | ReadNone | Stop | HandlerReturns => LoopStepKeeps(s, step);
  }

  lemma {:induction false} RunKeeps(s: Receiver, steps: seq<Step>)
    requires Invariant(s) && Run(s, steps)
    ensures Invariant(Outcome(s, steps))
    decreases |steps|
  {
    if steps != [] {
      StepKeeps(s, steps[0]);
      RunKeeps(Next(s, steps[0]), steps[1..]);
    }
  }

  /** No run loses a wakeup: while events wait in a registered client, a callback
      is on its way, a closure of its generation is queued, or a loop will read
      again or post another closure. */
  lemma NoLostWakeup(s: Receiver, steps: seq<Step>)
    requires Initial(s) && Run(s, steps)
    ensures var t := Outcome(s, steps);
      t.client != 0 && t.registered && t.events > 0 ==> WillRead(t)
  {
    RunKeeps(s, steps);
  }

  /** There is one drain loop at most; if its generation is the current one, its
      client is the current one or has been lost. */
  lemma OneLoopForOneClient(s: Receiver, steps: seq<Step>)
    requires Initial(s) && Run(s, steps)
    ensures var t := Outcome(s, steps);
      && |t.frames| <= 1
      && (t.frames != [] && !Top(t).Leaving? && Top(t).generation == t.generation ==>
            t.client == Top(t).client || t.client == 0)
  {
    RunKeeps(s, steps);
  }

  // ----- every waiting event is read -----

  /** The steps left when nothing new happens: callbacks finish, closures run,
      loops read and handlers return. */
  predicate Cooperative(step: Step) {
    !step.Enqueue? && !step.Setup? && !step.Shutdown? && !step.ReadShutdown?
  }

  function FrameEffort(f: Frame): nat {
    match f
    case Reading(_, _) => 9
    case Handling(_, _) => 10
    case Leaving => 8
  }

  function FramesEffort(frames: seq<Frame>): nat {
    if frames == [] then 0 else FrameEffort(frames[|frames| - 1]) + FramesEffort(frames[..|frames| - 1])
  }

  function TaskEffort(t: Task): nat {
    match t
    case Free => 0
    case Registering => 15
    case Barrier(calls, posting, _, _) => 14 * calls + 13 * posting + 1
  }

  function Measure(s: Receiver): nat {
    14 * s.calls + 13 * s.posting + 12 * |s.queue| + (if s.redrain then 10 else 0) + 2 * s.events
    + FramesEffort(s.frames) + TaskEffort(s.task)
  }

  /** Steps outside the loop leave its frames as they are. */
  lemma OuterStepDescends(s: Receiver, step: Step)
    requires Invariant(s) && Enabled(s, step) && Cooperative(step)
    requires step.Exchange? || step.Post? || step.OldExchange? || step.OldPost? || step.Register? || step.BarrierDone?
    ensures Measure(Next(s, step)) < Measure(s)
  {
  }

  lemma StepDescends(s: Receiver, step: Step)
    requires Enabled(s, step) && Cooperative(step)
    requires Invariant(s)
    ensures Measure(Next(s, step)) < Measure(s)
  {
    if step.Exchange? || step.Post? || step.OldExchange? || step.OldPost? || step.Register? || step.BarrierDone? {
      OuterStepDescends(s, step);
    } else {
      LoopStepDescends(s, step);
    }
  }

  lemma LoopStepDescends(s: Receiver, step: Step)
    requires Invariant(s) && Enabled(s, step) && Cooperative(step)
    requires !(step.Exchange? || step.Post? || step.OldExchange? || step.OldPost? || step.Register?
               || step.BarrierDone?)
    ensures Measure(Next(s, step)) < Measure(s)
  {
    var t := Next(s, step);
    if s.frames != [] {
      assert s.frames[..|s.frames| - 1] == [];
      if step.Leave? {
      } else if |t.frames| == 1 {
        assert t.frames[..0] == [];
      }
    } else if step.Deliver? && t.frames != [] {
      assert t.frames[..0] == [];
    }
  }

  /** With nothing new happening, the receiver comes to rest. */
  lemma {:induction false} DrainingEnds(s: Receiver, steps: seq<Step>)
    requires Invariant(s) && Run(s, steps) && forall k :: 0 <= k < |steps| ==> Cooperative(steps[k])
    ensures |steps| <= Measure(s)
    decreases |steps|
  {
    if steps != [] {
      StepDescends(s, steps[0]);
      StepKeeps(s, steps[0]);
      DrainingEnds(Next(s, steps[0]), steps[1..]);
    }
  }

  /** At rest no event is left unread. */
  lemma RestIsDrained(s: Receiver)
    requires Invariant(s)
    requires forall step :: Cooperative(step) ==> !Enabled(s, step)
    ensures s.events == 0 && s.queue == [] && !s.draining
  {
    assert Cooperative(Exchange) && Cooperative(Post) && Cooperative(Deliver) && Cooperative(Leave);
    assert Cooperative(ReadMessage) && Cooperative(ReadNone) && Cooperative(Stop) && Cooperative(HandlerReturns);
    assert Cooperative(OldExchange) && Cooperative(OldPost) && Cooperative(BarrierDone);
    assert Cooperative(Register(true));
  }

  // ----- every event is read once -----

  /** How often a kind of step was taken. */
  function Times(steps: seq<Step>, of: Step -> bool): nat {
    if steps == [] then 0 else Bit(of(steps[0])) + Times(steps[1..], of)
  }

  predicate Enters(step: Step) { step.Enqueue? }

  predicate Takes(step: Step) { step.ReadMessage? || step.ReadOther? }

  predicate Hands(step: Step) { step.ReadMessage? }

  predicate Returns(step: Step) { step.HandlerReturns? }

  lemma StepReadsOnce(s: Receiver, step: Step)
    requires Invariant(s) && Enabled(s, step) && !step.Shutdown? && !step.ReadShutdown?
    ensures s.events + Bit(Enters(step)) == Bit(Takes(step)) + Next(s, step).events
  {
  }

  /** Until the client is shut down, the events that came in are those that were
      read and those that still wait. */
  lemma {:induction false} EventsAreReadOnce(s: Receiver, steps: seq<Step>)
    requires Invariant(s) && Run(s, steps)
    requires forall k :: 0 <= k < |steps| ==> !steps[k].Shutdown? && !steps[k].ReadShutdown?
    ensures s.events + Times(steps, Enters) == Times(steps, Takes) + Outcome(s, steps).events
    decreases |steps|
  {
    if steps != [] {
      StepKeeps(s, steps[0]);
      StepReadsOnce(s, steps[0]);
      EventsAreReadOnce(Next(s, steps[0]), steps[1..]);
    }
  }

  /** A handler is running. */
  function InHandler(s: Receiver): nat {
    Bit(s.frames != [] && Top(s).Handling?)
  }

  lemma StepHandlesOnce(s: Receiver, step: Step)
    requires Invariant(s) && Enabled(s, step)
    ensures InHandler(s) + Bit(Hands(step)) == Bit(Returns(step)) + InHandler(Next(s, step))
  {
  }

  /** Every message read is handled once, whatever its handler does: shut down,
      set up, or run the event queue. */
  lemma {:induction false} MessagesAreHandledOnce(s: Receiver, steps: seq<Step>)
    requires Invariant(s) && Run(s, steps)
    ensures InHandler(s) + Times(steps, Hands) == Times(steps, Returns) + InHandler(Outcome(s, steps))
    decreases |steps|
  {
    if steps != [] {
      StepKeeps(s, steps[0]);
      StepHandlesOnce(s, steps[0]);
      MessagesAreHandledOnce(Next(s, steps[0]), steps[1..]);
    }
  }

  predicate Posts(step: Step) { step.Post? }

  predicate Delivers(step: Step) { step.Deliver? }

  /** What the callbacks of a client may still post. */
  function Room(s: Receiver): nat {
    Bit(!s.pending)
  }

  lemma StepCoalesces(s: Receiver, step: Step)
    requires Enabled(s, step) && !step.Setup? && !step.Shutdown? && !step.ReadShutdown?
    ensures Bit(Posts(step)) + Next(s, step).posting + Room(Next(s, step)) <= s.posting + Room(s) + Bit(Delivers(step))
  {
  }

  /** However often libmpv calls back, its callbacks post one drain at most, and one
      more for each drain delivered. */
  lemma {:induction false} CallbacksCoalesce(s: Receiver, steps: seq<Step>)
    requires Run(s, steps)
    requires forall k :: 0 <= k < |steps| ==> !steps[k].Setup? && !steps[k].Shutdown? && !steps[k].ReadShutdown?
    ensures Times(steps, Posts) + Outcome(s, steps).posting <= s.posting + 1 + Times(steps, Delivers)
    ensures Times(steps, Posts) + Outcome(s, steps).posting + Room(Outcome(s, steps))
            <= s.posting + Room(s) + Times(steps, Delivers)
    decreases |steps|
  {
    if steps != [] {
      StepCoalesces(s, steps[0]);
      CallbacksCoalesce(Next(s, steps[0]), steps[1..]);
    }
  }

  // ----- what the redrain flag is for -----

  lemma {:induction false} RedrainSurvives(s: Receiver, steps: seq<Step>)
    requires Run(s, steps) && s.redrain
    requires forall k :: 0 <= k < |steps| ==> !steps[k].Leave?
    ensures Outcome(s, steps).redrain
    decreases |steps|
  {
    if steps != [] { RedrainSurvives(Next(s, steps[0]), steps[1..]); }
  }

  /** A client set up, or a current wakeup delivered, while a loop runs is not
      left to the next wakeup: whatever happens until that loop leaves, it then
      posts a drain of the client registered at that time. */
  lemma LoopHandsOver(s: Receiver, first: Step, steps: seq<Step>)
    requires s.draining && Enabled(s, first)
    requires first.Setup? || (first.Deliver? && s.client != 0 && s.queue[0] == s.generation)
    requires Run(Next(s, first), steps) && forall k :: 0 <= k < |steps| ==> !steps[k].Leave?
    requires var t := Outcome(Next(s, first), steps); Enabled(t, Leave) && t.client != 0
    ensures var t := Next(Outcome(Next(s, first), steps), Leave);
      t.generation in t.queue && !t.draining
  {
    RedrainSurvives(Next(s, first), steps);
  }
}
