/** Request correlation from the facade (mpvplayer.cpp) over the adapter
    (mpvcontroller_adapter.cpp) to the worker (mpvcontroller.cpp) and back:
    public ids, native tokens, three queues, and losing the core or shutting
    the facade down at any point. One step is what one thread does between two
    looks at its event queue. */
module Requests {
  import opened Native

  datatype Kind = Command | PropertySet | PropertyRead | Configuration

  /** An admitted operation in the adapter's table, under its native token. */
  datatype Request = Request(id: nat, kind: Kind, generation: nat)

  /** Who waits for an id in the facade's table: the application, or one of the
      facade's own actions. */
  datatype Owner = Owner(kind: Kind, caller: bool)

  /** What is posted to the worker thread. */
  datatype Posted = Submit(token: nat, kind: Kind) | ShutDown

  /** What is posted to the GUI thread, in posting order. */
  datatype GuiEvent =
    | Reply(kind: Kind, token: nat, generation: nat, error: int)
    | CoreUnavailable
    | Finish(id: nat, finished: Kind, error: int)
    | Complete(id: nat, completed: Kind, error: int)
    | Settle(id: nat, owner: Owner)

  /** One terminal signal for an admitted id. */
  datatype Delivery = Delivery(id: nat, kind: Kind, caller: bool, error: int)

  datatype System = System(
    // facade
    shuttingDown: bool, coreAvailable: bool, owners: map<nat, Owner>,
    // adapter
    closing: bool, available: bool, generation: nat, nextPublicId: nat, requests: map<nat, Request>,
    // core lease
    nextToken: nat,
    // worker and libmpv
    posted: seq<Posted>, workerAvailable: bool, workerGeneration: nat, native: map<nat, Kind>,
    // GUI event queue
    gui: seq<GuiEvent>,
    // history
    admitted: map<nat, Kind>, deliveries: seq<Delivery>)

  const INITIAL := System(false, true, map[], false, true, 1, 1, map[], 1, [], true, 1, map[], [], map[], [])

  // ----- the adapter -----

  /** The id handed out, or a negative error; `posts` says whether the worker's
      queue takes the operation. */
  function AdmissionResult(s: System, posts: bool): int {
    if s.closing || !s.available then UNINITIALIZED
    else if s.nextPublicId > INT32_MAX then NOMEM
    else if s.nextToken == 0 then NOMEM
    else if !posts then UNINITIALIZED
    else s.nextPublicId
  }

  function Admit(s: System, kind: Kind, posts: bool): System {
    if s.closing || !s.available || s.nextPublicId > INT32_MAX || s.nextToken == 0 then s
    else
      var token, id := s.nextToken, s.nextPublicId;
      var s := s.(nextToken := Following(token), nextPublicId := id + 1);
      if posts then
        s.(requests := s.requests[token := Request(id, kind, s.generation)], posted := s.posted + [Submit(token, kind)])
      else s.(requests := s.requests - {token})
  }

  predicate Accepts(s: System, kind: Kind, token: nat, generation: nat) {
    token in s.requests && s.requests[token].kind == kind
    && s.requests[token].generation == s.generation && generation == s.generation
  }

  function Receive(s: System, kind: Kind, token: nat, generation: nat, error: int): System {
    if !Accepts(s, kind, token, generation) then s
    else
      var request := s.requests[token];
      s.(requests := s.requests - {token}, gui := s.gui + [Finish(request.id, request.kind, error)])
  }

  /** The finishes of the requests under the given tokens, in that order. */
  function Finishes(requests: map<nat, Request>, tokens: seq<nat>, error: int): seq<GuiEvent>
    requires forall t :: t in tokens ==> t in requests
  {
    if tokens == [] then []
    else Finishes(requests, tokens[..|tokens| - 1], error)
         + [Finish(requests[tokens[|tokens| - 1]].id, requests[tokens[|tokens| - 1]].kind, error)]
  }

  /** The tokens are the table's keys in some order. */
  ghost predicate Enumerates<V>(tokens: seq<nat>, table: map<nat, V>) {
    && (forall t :: t in tokens <==> t in table)
    && (forall i, j :: 0 <= i < j < |tokens| ==> tokens[i] != tokens[j])
  }

  function SettleRequests(s: System, tokens: seq<nat>): System
    requires forall t :: t in tokens ==> t in s.requests
  {
    s.(requests := map[], gui := s.gui + Finishes(s.requests, tokens, UNINITIALIZED))
  }

  // ----- the facade -----

  /** A facade action: admission, and an entry in the facade's table. */
  function Act(s: System, kind: Kind, caller: bool, posts: bool): System {
    if s.shuttingDown || !s.coreAvailable then s
    else
      var id := AdmissionResult(s, posts);
      var s := Admit(s, kind, posts);
      if id > 0 then s.(owners := s.owners[id := Owner(kind, caller)], admitted := s.admitted[id := kind]) else s
  }

  function CompleteRequest(s: System, id: nat, kind: Kind, error: int): System {
    if id !in s.owners || s.owners[id].kind != kind then s
    else
      s.(owners := s.owners - {id},
         deliveries := s.deliveries + [Delivery(id, kind, s.owners[id].caller, error)])
  }

  function Settles(owners: map<nat, Owner>, ids: seq<nat>): seq<GuiEvent>
    requires forall id :: id in ids ==> id in owners
  {
    if ids == [] then []
    else Settles(owners, ids[..|ids| - 1]) + [Settle(ids[|ids| - 1], owners[ids[|ids| - 1]])]
  }

  function ShutdownFacade(s: System, ids: seq<nat>, tokens: seq<nat>): System
    requires forall id :: id in ids ==> id in s.owners
    requires forall t :: t in tokens ==> t in s.requests
  {
    if s.shuttingDown then s
    else
      var s := s.(shuttingDown := true, coreAvailable := false, owners := map[], gui := s.gui + Settles(s.owners, ids));
      ShutdownAdapter(s, tokens)
  }

  function ShutdownAdapter(s: System, tokens: seq<nat>): System
    requires forall t :: t in tokens ==> t in s.requests
  {
    if s.closing then s
    else
      var s := SettleRequests(s.(closing := true, available := false, generation := s.generation + 1), tokens);
      s.(posted := s.posted + [ShutDown])
  }

  // ----- runs -----

  datatype Step =
    | Action(kind: Kind, caller: bool, posts: bool)
    | GuiTurn(tokens: seq<nat>)
    | FacadeShutdown(ids: seq<nat>, tokens: seq<nat>)
    | WorkerTurn(error: int)
    | NativeReply(token: nat, error: int)
    | CoreLoss

  /** Table iterations visit every entry once, in any order; libmpv answers what
      it accepted, while the worker listens. */
  ghost predicate Enabled(s: System, step: Step) {
    match step
    case Action(_, _, _) => true
    case GuiTurn(tokens) => s.gui != [] && Enumerates(tokens, s.requests)
    case FacadeShutdown(ids, tokens) => Enumerates(ids, s.owners) && Enumerates(tokens, s.requests)
    case WorkerTurn(_) => s.posted != []
    case NativeReply(token, _) => s.workerAvailable && token in s.native
    case CoreLoss => s.workerAvailable
  }

  function Handle(s: System, event: GuiEvent, tokens: seq<nat>): System
    requires forall t :: t in tokens ==> t in s.requests
  {
    match event
    case Reply(kind, token, generation, error) => Receive(s, kind, token, generation, error)
    case CoreUnavailable => SettleRequests(s.(available := false), tokens).(coreAvailable := false)
    case Finish(id, kind, error) => s.(gui := s.gui + [Complete(id, kind, error)])
    case Complete(id, kind, error) => CompleteRequest(s, id, kind, error)
    case Settle(id, owner) =>
      s.(deliveries := s.deliveries + [Delivery(id, owner.kind, owner.caller, UNINITIALIZED)])
  }

  /** The worker submits what was posted first; a configuration is answered on
      the spot, everything else only when it is rejected. */
  function WorkerRuns(s: System, error: int): System
    requires s.posted != []
  {
    var rest := s.(posted := s.posted[1..]);
    match s.posted[0]
    case ShutDown => rest.(workerAvailable := false, workerGeneration := s.workerGeneration + 1)
    case Submit(token, kind) =>
      var error := if s.workerAvailable then error else UNINITIALIZED;
      if error < 0 || kind.Configuration? then
        rest.(gui := s.gui + [Reply(kind, token, s.workerGeneration, error)])
      else rest.(native := s.native[token := kind])
  }

  function Next(s: System, step: Step): System
    requires Enabled(s, step)
  {
    match step
    case Action(kind, caller, posts) => Act(s, kind, caller, posts)
    case GuiTurn(tokens) => Handle(s.(gui := s.gui[1..]), s.gui[0], tokens)
    case FacadeShutdown(ids, tokens) => ShutdownFacade(s, ids, tokens)
    case WorkerTurn(error) => WorkerRuns(s, error)
    case NativeReply(token, error) =>
      s.(native := s.native - {token},
         gui := s.gui + [Reply(s.native[token], token, s.workerGeneration, error)])
    case CoreLoss => s.(workerAvailable := false, gui := s.gui + [CoreUnavailable])
  }

  ghost predicate Run(s: System, steps: seq<Step>)
    decreases |steps|
  {
    steps == [] || (Enabled(s, steps[0]) && Run(Next(s, steps[0]), steps[1..]))
  }

  function Outcome(s: System, steps: seq<Step>): System
    requires Run(s, steps)
    decreases |steps|
  {
    if steps == [] then s else Outcome(Next(s, steps[0]), steps[1..])
  }
}
