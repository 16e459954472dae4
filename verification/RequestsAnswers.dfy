/** What the application is told about an admitted id is what libmpv or the
    worker answered under its token. A journal collects, from the steps of a
    run, which token each id was given and what was answered under each token;
    no table and no queued event is read for it. */
module RequestsAnswers {
  import opened Native
  import opened Requests
  import opened RequestsProofs

  /** The token and the caller of each id, what was answered under each token, and
      whether the core was lost or the facade shut down. */
  datatype Journal = Journal(tokens: map<nat, nat>, callers: map<nat, bool>, answers: map<nat, int>, down: bool)

  const EMPTY := Journal(map[], map[], map[], false)

  function Noted(j: Journal, s: System, step: Step): Journal {
    match step
    case Action(_, caller, posts) =>
      if s.shuttingDown || !s.coreAvailable || AdmissionResult(s, posts) <= 0 then j
      else j.(tokens := j.tokens[s.nextPublicId := s.nextToken], callers := j.callers[s.nextPublicId := caller])
    case GuiTurn(_) => j
    case FacadeShutdown(_, _) => j.(down := true)
    case WorkerTurn(error) =>
      if s.posted != [] && s.posted[0].Submit? && s.workerAvailable && (error < 0 || s.posted[0].kind.Configuration?)
      then j.(answers := j.answers[s.posted[0].token := error]) else j
    case NativeReply(token, error) => j.(answers := j.answers[token := error])
    case CoreLoss => j.(down := true)
  }

  function JournalOf(j: Journal, s: System, steps: seq<Step>): Journal
    requires Run(s, steps)
    decreases |steps|
  {
    if steps == [] then j else JournalOf(Noted(j, s, steps[0]), Next(s, steps[0]), steps[1..])
  }

  /** The error was answered under the token. */
  predicate Answered(j: Journal, token: nat, error: int) {
    token in j.answers && j.answers[token] == error
  }

  /** The error was answered under the id's token, or there is no core to answer. */
  predicate Justified(j: Journal, id: nat, error: int) {
    (id in j.tokens && Answered(j, j.tokens[id], error)) || (j.down && error == UNINITIALIZED)
  }

  predicate Asked(j: Journal, id: nat, caller: bool) {
    id in j.callers && j.callers[id] == caller
  }

  predicate EventJustified(j: Journal, e: GuiEvent) {
    match e
    case Reply(_, token, _, error) => Answered(j, token, error) || (j.down && error == UNINITIALIZED)
    case CoreUnavailable => j.down
    case Finish(id, _, error) => Justified(j, id, error)
    case Complete(id, _, error) => Justified(j, id, error)
    case Settle(id, owner) => j.down && Asked(j, id, owner.caller)
  }

  predicate DeliveryJustified(j: Journal, d: Delivery) {
    Justified(j, d.id, d.error) && Asked(j, d.id, d.caller)
  }

  ghost predicate EventsJustified(j: Journal, gui: seq<GuiEvent>) {
    forall i :: 0 <= i < |gui| ==> EventJustified(j, gui[i])
  }

  ghost predicate TablesJustified(j: Journal, s: System) {
    && (forall t :: t in s.requests ==> s.requests[t].id in j.tokens && j.tokens[s.requests[t].id] == t)
    && (forall id :: id in s.owners ==> Asked(j, id, s.owners[id].caller))
    && (forall id :: id in j.tokens || id in j.callers ==> id < s.nextPublicId)
  }

  ghost predicate JournalRight(j: Journal, s: System) {
    && TablesJustified(j, s)
    && EventsJustified(j, s.gui)
    && (forall i :: 0 <= i < |s.deliveries| ==> DeliveryJustified(j, s.deliveries[i]))
    && (ShutDown in s.posted || !s.workerAvailable ==> j.down)
  }

  /** The journal only grows. */
  predicate Extends(j: Journal, k: Journal) {
    && (forall id :: id in j.tokens ==> id in k.tokens && k.tokens[id] == j.tokens[id])
    && (forall id :: id in j.callers ==> id in k.callers && k.callers[id] == j.callers[id])
    && (forall t :: t in j.answers ==> t in k.answers && k.answers[t] == j.answers[t])
    && (j.down ==> k.down)
  }

  lemma ExtendedEvents(j: Journal, k: Journal, gui: seq<GuiEvent>)
    requires Extends(j, k) && EventsJustified(j, gui)
    ensures EventsJustified(k, gui)
  {
    forall i | 0 <= i < |gui| ensures EventJustified(k, gui[i]) {
      assert EventJustified(j, gui[i]);
    }
  }

  lemma ExtendedDeliveries(j: Journal, k: Journal, deliveries: seq<Delivery>)
    requires Extends(j, k) && forall i :: 0 <= i < |deliveries| ==> DeliveryJustified(j, deliveries[i])
    ensures forall i :: 0 <= i < |deliveries| ==> DeliveryJustified(k, deliveries[i])
  {
    forall i | 0 <= i < |deliveries| ensures DeliveryJustified(k, deliveries[i]) {
      assert DeliveryJustified(j, deliveries[i]);
    }
  }

  // ----- the GUI thread -----

  /** A table detached for want of a core is finished with the error for that. */
  lemma {:induction false} FinishesJustified(j: Journal, requests: map<nat, Request>, tokens: seq<nat>)
    requires j.down && forall t :: t in tokens ==> t in requests
    ensures EventsJustified(j, Finishes(requests, tokens, UNINITIALIZED))
  {
    if tokens != [] { FinishesJustified(j, requests, tokens[..|tokens| - 1]); }
  }

  lemma {:induction false} SettlesJustified(j: Journal, owners: map<nat, Owner>, ids: seq<nat>)
    requires j.down && forall id :: id in ids ==> id in owners && Asked(j, id, owners[id].caller)
    ensures EventsJustified(j, Settles(owners, ids))
  {
    if ids != [] { SettlesJustified(j, owners, ids[..|ids| - 1]); }
  }

  lemma SettlingJustified(j: Journal, s: System, tokens: seq<nat>)
    requires JournalRight(j, s) && j.down && forall t :: t in tokens ==> t in s.requests
    ensures JournalRight(j, SettleRequests(s, tokens))
  {
    FinishesJustified(j, s.requests, tokens);
  }

  lemma TurnJustified(j: Journal, s: System, tokens: seq<nat>)
    requires JournalRight(j, s) && Enabled(s, GuiTurn(tokens))
    ensures JournalRight(j, Next(s, GuiTurn(tokens)))
  {
    var rest := s.(gui := s.gui[1..]);
    assert JournalRight(j, rest) && EventJustified(j, s.gui[0]);
    HandlingJustified(j, rest, s.gui[0], tokens);
  }

  lemma HandlingJustified(j: Journal, s: System, e: GuiEvent, tokens: seq<nat>)
    requires JournalRight(j, s) && EventJustified(j, e) && forall t :: t in tokens ==> t in s.requests
    ensures JournalRight(j, Handle(s, e, tokens))
  {
    if e.CoreUnavailable? {
      SettlingJustified(j, s.(available := false), tokens);
    }
  }

  lemma ShutdownJustified(j: Journal, s: System, ids: seq<nat>, tokens: seq<nat>)
    requires JournalRight(j, s) && Enabled(s, FacadeShutdown(ids, tokens))
    ensures JournalRight(j.(down := true), ShutdownFacade(s, ids, tokens))
  {
    var k := j.(down := true);
    ExtendedEvents(j, k, s.gui);
    ExtendedDeliveries(j, k, s.deliveries);
    if !s.shuttingDown {
      SettlesJustified(k, s.owners, ids);
      var settled := s.(shuttingDown := true, coreAvailable := false, owners := map[],
                        gui := s.gui + Settles(s.owners, ids));
      assert JournalRight(k, settled);
      if !s.closing {
        SettlingJustified(k, settled.(closing := true, available := false, generation := s.generation + 1), tokens);
      }
    }
  }

  lemma ActionJustified(j: Journal, s: System, kind: Kind, caller: bool, posts: bool)
    requires JournalRight(j, s) && Names(s)
    ensures JournalRight(Noted(j, s, Action(kind, caller, posts)), Act(s, kind, caller, posts))
  {
    var k := Noted(j, s, Action(kind, caller, posts));
    assert Extends(j, k);
    ExtendedEvents(j, k, s.gui);
    ExtendedDeliveries(j, k, s.deliveries);
  }

  // ----- the worker and libmpv -----

  /** The worker answers on the spot, while there is a core. */
  predicate Answers(s: System, error: int) {
    s.posted != [] && s.posted[0].Submit? && s.workerAvailable && (error < 0 || s.posted[0].kind.Configuration?)
  }

  /** The answer that the worker gives itself. */
  function AnswerTo(s: System, error: int, token: nat, kind: Kind): GuiEvent {
    Reply(kind, token, s.workerGeneration, if s.workerAvailable then error else UNINITIALIZED)
  }

  lemma AnswerShows(s: System, error: int, token: nat, kind: Kind)
    requires s.posted != [] && s.posted[0] == Submit(token, kind) && (Answers(s, error) || !s.workerAvailable)
    ensures WorkerRuns(s, error) == s.(posted := s.posted[1..], gui := s.gui + [AnswerTo(s, error, token, kind)])
  {
  }

  lemma TakingShows(s: System, error: int, token: nat, kind: Kind)
    requires s.posted != [] && s.posted[0] == Submit(token, kind) && !Answers(s, error) && s.workerAvailable
    ensures WorkerRuns(s, error) == s.(posted := s.posted[1..], native := s.native[token := kind])
  {
  }

  lemma WorkerJustified(j: Journal, s: System, error: int)
    requires JournalRight(j, s) && s.posted != [] && KeepsAnswers(j, Noted(j, s, WorkerTurn(error)))
    ensures JournalRight(Noted(j, s, WorkerTurn(error)), WorkerRuns(s, error))
  {
    match s.posted[0]
    case ShutDown =>
      PopJustified(j, s);
      StopJustified(j, s.(posted := s.posted[1..]));
    case Submit(token, kind) =>
      if Answers(s, error) || !s.workerAvailable { AnsweringJustified(j, s, error, token, kind); }
      else { TakingJustified(j, s, error, token, kind); }
  }

  lemma AnsweringJustified(j: Journal, s: System, error: int, token: nat, kind: Kind)
    requires JournalRight(j, s) && s.posted != [] && KeepsAnswers(j, Noted(j, s, WorkerTurn(error)))
    requires s.posted[0] == Submit(token, kind) && (Answers(s, error) || !s.workerAvailable)
    ensures JournalRight(Noted(j, s, WorkerTurn(error)), WorkerRuns(s, error))
  {
    var k, e := Noted(j, s, WorkerTurn(error)), AnswerTo(s, error, token, kind);
    AnswerShows(s, error, token, kind);
    PopJustified(j, s);
    assert EventJustified(k, e);
    AnswerJustified(j, k, s.(posted := s.posted[1..]), e);
  }

  lemma TakingJustified(j: Journal, s: System, error: int, token: nat, kind: Kind)
    requires JournalRight(j, s) && s.posted != [] && s.posted[0] == Submit(token, kind)
    requires !Answers(s, error) && s.workerAvailable
    ensures JournalRight(Noted(j, s, WorkerTurn(error)), WorkerRuns(s, error))
  {
    TakingShows(s, error, token, kind);
    PopJustified(j, s);
    TakenJustified(j, s.(posted := s.posted[1..]), token, kind);
  }

  lemma PopJustified(j: Journal, s: System)
    requires JournalRight(j, s) && s.posted != []
    ensures JournalRight(j, s.(posted := s.posted[1..])) && (s.posted[0].ShutDown? ==> j.down)
  {
    assert s.posted[0] in s.posted && forall p :: p in s.posted[1..] ==> p in s.posted;
  }

  lemma StopJustified(j: Journal, s: System)
    requires JournalRight(j, s) && j.down
    ensures JournalRight(j, s.(workerAvailable := false, workerGeneration := s.workerGeneration + 1))
  {
  }

  lemma TakenJustified(j: Journal, s: System, token: nat, kind: Kind)
    requires JournalRight(j, s)
    ensures JournalRight(j, s.(native := s.native[token := kind]))
  {
  }

  /** An answer is queued, and the journal has it. */
  lemma AnswerJustified(j: Journal, k: Journal, s: System, e: GuiEvent)
    requires JournalRight(j, s) && Extends(j, k) && k == j.(answers := k.answers) && EventJustified(k, e)
    ensures JournalRight(k, s.(gui := s.gui + [e]))
  {
    ExtendedEvents(j, k, s.gui);
    ExtendedDeliveries(j, k, s.deliveries);
  }

  lemma ReplyJustified(j: Journal, s: System, token: nat, error: int)
    requires JournalRight(j, s) && Enabled(s, NativeReply(token, error))
    requires KeepsAnswers(j, Noted(j, s, NativeReply(token, error)))
    ensures JournalRight(Noted(j, s, NativeReply(token, error)), Next(s, NativeReply(token, error)))
  {
    var k := Noted(j, s, NativeReply(token, error));
    ExtendedEvents(j, k, s.gui);
    ExtendedDeliveries(j, k, s.deliveries);
  }

  lemma LossJustified(j: Journal, s: System)
    requires JournalRight(j, s) && Enabled(s, CoreLoss)
    ensures JournalRight(j.(down := true), Next(s, CoreLoss))
  {
    var k := j.(down := true);
    ExtendedEvents(j, k, s.gui);
    ExtendedDeliveries(j, k, s.deliveries);
  }

  // ----- one answer under each token -----

  predicate TokenBelow(t: nat, next: nat) {
    next == 0 || t < next
  }

  /** Neither libmpv has the token nor was it answered. */
  predicate Unanswered(p: Posted, native: map<nat, Kind>, answers: map<nat, int>, next: nat) {
    p.Submit? ==> TokenBelow(p.token, next) && p.token !in native && p.token !in answers
  }

  predicate Differ(p: Posted, q: Posted) {
    p.Submit? && q.Submit? ==> p.token != q.token
  }

  /** A token is with the worker, with libmpv, or answered: one of the three. */
  ghost predicate OneAnswer(answers: map<nat, int>, posted: seq<Posted>, native: map<nat, Kind>, next: nat) {
    && (forall i :: 0 <= i < |posted| ==> Unanswered(posted[i], native, answers, next))
    && (forall i, k :: 0 <= i < k < |posted| ==> Differ(posted[i], posted[k]))
    && (forall t :: t in native ==> TokenBelow(t, next) && t !in answers)
    && (forall t :: t in answers ==> TokenBelow(t, next))
  }

  ghost predicate AnsweredOnce(j: Journal, s: System) {
    OneAnswer(j.answers, s.posted, s.native, s.nextToken)
  }

  /** No answer is given under a token that has one. */
  predicate KeepsAnswers(j: Journal, k: Journal) {
    forall t :: t in j.answers ==> Answered(k, t, j.answers[t])
  }

  lemma PushAnswers(answers: map<nat, int>, posted: seq<Posted>, native: map<nat, Kind>, next: nat, p: Posted)
    requires OneAnswer(answers, posted, native, next) && Unanswered(p, native, answers, next)
    requires forall i :: 0 <= i < |posted| ==> Differ(posted[i], p)
    ensures OneAnswer(answers, posted + [p], native, next)
  {
  }

  lemma TokenTaken(answers: map<nat, int>, posted: seq<Posted>, native: map<nat, Kind>, next: nat, kind: Kind)
    requires OneAnswer(answers, posted, native, next) && 0 < next <= UINT64_MAX
    ensures OneAnswer(answers, posted, native, Following(next))
    ensures OneAnswer(answers, posted + [Submit(next, kind)], native, Following(next))
  {
    forall i | 0 <= i < |posted|
      ensures Unanswered(posted[i], native, answers, Following(next)) && Differ(posted[i], Submit(next, kind))
    {
      assert Unanswered(posted[i], native, answers, next);
    }
    PushAnswers(answers, posted, native, Following(next), Submit(next, kind));
  }

  /** The first posted operation is taken. */
  lemma PopAnswers(answers: map<nat, int>, posted: seq<Posted>, native: map<nat, Kind>, next: nat)
    requires OneAnswer(answers, posted, native, next) && posted != []
    ensures OneAnswer(answers, posted[1..], native, next) && Unanswered(posted[0], native, answers, next)
    ensures forall i :: 0 <= i < |posted[1..]| ==> Differ(posted[1..][i], posted[0])
  {
    forall i | 0 <= i < |posted[1..]| ensures Differ(posted[1..][i], posted[0]) {
      assert Differ(posted[0], posted[i + 1]);
    }
    forall i, k | 0 <= i < k < |posted[1..]| ensures Differ(posted[1..][i], posted[1..][k]) {
      assert Differ(posted[i + 1], posted[k + 1]);
    }
  }

  lemma NativeTakes(answers: map<nat, int>, posted: seq<Posted>, native: map<nat, Kind>, next: nat, p: Posted)
    requires OneAnswer(answers, posted, native, next) && p.Submit? && Unanswered(p, native, answers, next)
    requires forall i :: 0 <= i < |posted| ==> Differ(posted[i], p)
    ensures OneAnswer(answers, posted, native[p.token := p.kind], next)
  {
    forall i | 0 <= i < |posted| ensures Unanswered(posted[i], native[p.token := p.kind], answers, next) {
      assert Unanswered(posted[i], native, answers, next) && Differ(posted[i], p);
    }
  }

  lemma WorkerAnswers(answers: map<nat, int>, posted: seq<Posted>, native: map<nat, Kind>, next: nat, p: Posted,
                      error: int)
    requires OneAnswer(answers, posted, native, next) && p.Submit? && Unanswered(p, native, answers, next)
    requires forall i :: 0 <= i < |posted| ==> Differ(posted[i], p)
    ensures OneAnswer(answers[p.token := error], posted, native, next)
  {
    forall i | 0 <= i < |posted| ensures Unanswered(posted[i], native, answers[p.token := error], next) {
      assert Unanswered(posted[i], native, answers, next) && Differ(posted[i], p);
    }
  }

  lemma NativeAnswers(answers: map<nat, int>, posted: seq<Posted>, native: map<nat, Kind>, next: nat, t: nat,
                      error: int)
    requires OneAnswer(answers, posted, native, next) && t in native
    ensures OneAnswer(answers[t := error], posted, native - {t}, next)
  {
    forall i | 0 <= i < |posted| ensures Unanswered(posted[i], native - {t}, answers[t := error], next) {
      assert Unanswered(posted[i], native, answers, next);
    }
  }

  /** The step changes neither answers nor what libmpv has. */
  lemma SameAnswers(j: Journal, s: System, k: Journal, t: System)
    requires k.answers == j.answers && t.native == s.native
    requires OneAnswer(j.answers, t.posted, s.native, t.nextToken)
    ensures AnsweredOnce(k, t) && KeepsAnswers(j, k)
  {
  }

  lemma ActionAnswersOnce(j: Journal, s: System, kind: Kind, caller: bool, posts: bool)
    requires AnsweredOnce(j, s) && s.nextToken <= UINT64_MAX
    ensures var k := Noted(j, s, Action(kind, caller, posts));
      AnsweredOnce(k, Act(s, kind, caller, posts)) && KeepsAnswers(j, k)
  {
    if s.nextToken != 0 { TokenTaken(j.answers, s.posted, s.native, s.nextToken, kind); }
    ActionShows(s, kind, caller, posts);
    SameAnswers(j, s, Noted(j, s, Action(kind, caller, posts)), Act(s, kind, caller, posts));
  }

  /** An action takes a token at most, and posts under it at most. */
  lemma ActionShows(s: System, kind: Kind, caller: bool, posts: bool)
    ensures var t := Act(s, kind, caller, posts);
      && t.native == s.native
      && (t.posted == s.posted || (s.nextToken != 0 && t.posted == s.posted + [Submit(s.nextToken, kind)]))
      && ((t.nextToken == s.nextToken && t.posted == s.posted)
          || (s.nextToken != 0 && t.nextToken == Following(s.nextToken)))
  {
  }

  lemma WorkerAnswersOnce(j: Journal, s: System, error: int)
    requires AnsweredOnce(j, s) && s.posted != []
    ensures var k := Noted(j, s, WorkerTurn(error)); AnsweredOnce(k, WorkerRuns(s, error)) && KeepsAnswers(j, k)
  {
    var p, rest := s.posted[0], s.posted[1..];
    var k, t := Noted(j, s, WorkerTurn(error)), WorkerRuns(s, error);
    PopAnswers(j.answers, s.posted, s.native, s.nextToken);
    WorkerShows(s, error);
    if Answers(s, error) {
      WorkerAnswers(j.answers, rest, s.native, s.nextToken, p, error);
      assert k.answers == j.answers[p.token := error];
    } else {
      if p.Submit? { NativeTakes(j.answers, rest, s.native, s.nextToken, p); }
      assert OneAnswer(j.answers, rest, t.native, s.nextToken);
      assert k.answers == j.answers;
    }
  }

  lemma WorkerShows(s: System, error: int)
    requires s.posted != []
    ensures var t := WorkerRuns(s, error);
      && t.posted == s.posted[1..] && t.nextToken == s.nextToken
      && t.native == NativeAfter(s, error)
  {
    match s.posted[0]
    case ShutDown =>
    case Submit(token, kind) =>
      if Answers(s, error) || !s.workerAvailable { AnswerShows(s, error, token, kind); }
      else { TakingShows(s, error, token, kind); }
  }

  /** What libmpv has once the worker ran. */
  function NativeAfter(s: System, error: int): map<nat, Kind>
    requires s.posted != []
  {
    if s.posted[0].Submit? && s.workerAvailable && !Answers(s, error)
    then s.native[s.posted[0].token := s.posted[0].kind] else s.native
  }

  lemma ReplyAnswersOnce(j: Journal, s: System, token: nat, error: int)
    requires AnsweredOnce(j, s) && Enabled(s, NativeReply(token, error))
    ensures var k := Noted(j, s, NativeReply(token, error));
      AnsweredOnce(k, Next(s, NativeReply(token, error))) && KeepsAnswers(j, k)
  {
    NativeAnswers(j.answers, s.posted, s.native, s.nextToken, token, error);
  }

  lemma OtherAnswersOnce(j: Journal, s: System, step: Step)
    requires AnsweredOnce(j, s) && Enabled(s, step) && (step.GuiTurn? || step.FacadeShutdown? || step.CoreLoss?)
    ensures AnsweredOnce(Noted(j, s, step), Next(s, step)) && KeepsAnswers(j, Noted(j, s, step))
  {
    PushAnswers(j.answers, s.posted, s.native, s.nextToken, ShutDown);
    OthersShow(s, step);
    SameAnswers(j, s, Noted(j, s, step), Next(s, step));
  }

  lemma OthersShow(s: System, step: Step)
    requires Enabled(s, step) && (step.GuiTurn? || step.FacadeShutdown? || step.CoreLoss?)
    ensures var t := Next(s, step);
      && t.native == s.native && t.nextToken == s.nextToken
      && (t.posted == s.posted || t.posted == s.posted + [ShutDown])
  {
    match step
    case GuiTurn(tokens) => HandlingShows(s.(gui := s.gui[1..]), s.gui[0], tokens);
    case FacadeShutdown(ids, tokens) => ShutdownShows(s, ids, tokens);
    case CoreLoss =>
  }

  lemma HandlingShows(s: System, e: GuiEvent, tokens: seq<nat>)
    requires forall t :: t in tokens ==> t in s.requests
    ensures var t := Handle(s, e, tokens);
      t.native == s.native && t.nextToken == s.nextToken && t.posted == s.posted
  {
    match e
    case Reply(kind, token, generation, error) =>
    case CoreUnavailable =>
    case Finish(id, kind, error) =>
    case Complete(id, kind, error) =>
    case Settle(id, owner) =>
  }

  lemma ShutdownShows(s: System, ids: seq<nat>, tokens: seq<nat>)
    requires forall id :: id in ids ==> id in s.owners
    requires forall t :: t in tokens ==> t in s.requests
    ensures var t := ShutdownFacade(s, ids, tokens);
      && t.native == s.native && t.nextToken == s.nextToken
      && (t.posted == s.posted || t.posted == s.posted + [ShutDown])
  {
  }

  lemma StepAnswersOnce(j: Journal, s: System, step: Step)
    requires AnsweredOnce(j, s) && Enabled(s, step) && s.nextToken <= UINT64_MAX
    ensures AnsweredOnce(Noted(j, s, step), Next(s, step)) && KeepsAnswers(j, Noted(j, s, step))
  {
    match step
    case Action(kind, caller, posts) => ActionAnswersOnce(j, s, kind, caller, posts);
    case WorkerTurn(error) => WorkerAnswersOnce(j, s, error);
    case NativeReply(token, error) => ReplyAnswersOnce(j, s, token, error);
    case _ => OtherAnswersOnce(j, s, step);
  }

  // ----- runs -----

  lemma StepJustified(j: Journal, s: System, step: Step)
    requires JournalRight(j, s) && Names(s) && Enabled(s, step) && KeepsAnswers(j, Noted(j, s, step))
    ensures JournalRight(Noted(j, s, step), Next(s, step))
  {
    match step
    case Action(kind, caller, posts) => ActionJustified(j, s, kind, caller, posts);
    case GuiTurn(tokens) => TurnJustified(j, s, tokens);
    case FacadeShutdown(ids, tokens) => ShutdownJustified(j, s, ids, tokens);
    case WorkerTurn(error) => WorkerJustified(j, s, error);
    case NativeReply(token, error) => ReplyJustified(j, s, token, error);
    case CoreLoss => LossJustified(j, s);
  }

  lemma {:induction false} RunJustified(j: Journal, s: System, steps: seq<Step>)
    requires JournalRight(j, s) && AnsweredOnce(j, s) && Invariant(s) && Run(s, steps)
    ensures JournalRight(JournalOf(j, s, steps), Outcome(s, steps))
    decreases |steps|
  {
    if steps != [] {
      StepAnswersOnce(j, s, steps[0]);
      StepJustified(j, s, steps[0]);
      StepKeeps(s, steps[0]);
      RunJustified(Noted(j, s, steps[0]), Next(s, steps[0]), steps[1..]);
    }
  }

  /** Over every run: an id is delivered to whoever asked for it, with the error
      that libmpv or the worker answered under its token; or with UNINITIALIZED,
      and then the core was lost or the facade shut down. */
  lemma DeliveredErrorIsTheAnswer(steps: seq<Step>, i: nat)
    requires Run(INITIAL, steps) && i < |Outcome(INITIAL, steps).deliveries|
    ensures var j := JournalOf(EMPTY, INITIAL, steps);
      var d := Outcome(INITIAL, steps).deliveries[i];
      && d.id in j.callers && j.callers[d.id] == d.caller
      && ((d.id in j.tokens && j.tokens[d.id] in j.answers && j.answers[j.tokens[d.id]] == d.error)
          || (j.down && d.error == UNINITIALIZED))
  {
    InitialHolds();
    RunJustified(EMPTY, INITIAL, steps);
    assert DeliveryJustified(JournalOf(EMPTY, INITIAL, steps), Outcome(INITIAL, steps).deliveries[i]);
  }

  /** An answer once given stays the answer. */
  lemma {:induction false} AnswersStay(j: Journal, s: System, steps: seq<Step>, token: nat)
    requires AnsweredOnce(j, s) && Invariant(s) && Run(s, steps) && token in j.answers
    ensures Answered(JournalOf(j, s, steps), token, j.answers[token])
    decreases |steps|
  {
    if steps != [] {
      StepAnswersOnce(j, s, steps[0]);
      StepKeeps(s, steps[0]);
      assert Answered(Noted(j, s, steps[0]), token, j.answers[token]);
      AnswersStay(Noted(j, s, steps[0]), Next(s, steps[0]), steps[1..], token);
    }
  }

  // ----- admissions succeed -----

  function Actions(steps: seq<Step>): nat {
    if steps == [] then 0 else (if steps[0].Action? then 1 else 0) + Actions(steps[1..])
  }

  /** No core is lost, nothing is shut down, and the worker's queue takes everything. */
  predicate Untroubled(step: Step) {
    !step.CoreLoss? && !step.FacadeShutdown? && (step.Action? ==> step.posts)
  }

  predicate Serves(s: System, count: nat) {
    && !s.shuttingDown && s.coreAvailable && !s.closing && s.available && CoreUnavailable !in s.gui
    && s.nextPublicId == s.nextToken == count + 1
  }

  lemma ServingGoesOn(s: System, step: Step, count: nat)
    requires Serves(s, count) && count < INT32_MAX && Enabled(s, step) && Untroubled(step)
    ensures Serves(Next(s, step), count + if step.Action? then 1 else 0)
  {
    match step
    case Action(kind, caller, posts) =>
    case GuiTurn(tokens) => TurnServes(s, tokens, count);
    case WorkerTurn(error) =>
    case NativeReply(token, error) =>
  }

  lemma TurnServes(s: System, tokens: seq<nat>, count: nat)
    requires Serves(s, count) && Enabled(s, GuiTurn(tokens))
    ensures Serves(Next(s, GuiTurn(tokens)), count)
  {
    assert s.gui[0] in s.gui;
    assert forall e :: e in s.gui[1..] ==> e in s.gui;
    HandlingServes(s.(gui := s.gui[1..]), s.gui[0], tokens, count);
  }

  lemma HandlingServes(s: System, e: GuiEvent, tokens: seq<nat>, count: nat)
    requires Serves(s, count) && e != CoreUnavailable && forall t :: t in tokens ==> t in s.requests
    ensures Serves(Handle(s, e, tokens), count)
  {
    match e
    case Reply(_, _, _, _) =>
    case Finish(_, _, _) =>
    case Complete(_, _, _) =>
    case Settle(_, _) =>
  }

  lemma {:induction false} ServesAll(s: System, steps: seq<Step>, count: nat)
    requires Serves(s, count) && Run(s, steps) && forall k :: 0 <= k < |steps| ==> Untroubled(steps[k])
    requires count + Actions(steps) < INT32_MAX
    ensures Serves(Outcome(s, steps), count + Actions(steps))
    decreases |steps|
  {
    if steps != [] {
      ServingGoesOn(s, steps[0], count);
      ServesAll(Next(s, steps[0]), steps[1..], count + if steps[0].Action? then 1 else 0);
    }
  }

  /** While the core lives and the worker's queue takes what is posted, the n-th
      action is admitted under the id n, up to the largest `int`. */
  lemma ActionsAreNumbered(steps: seq<Step>)
    requires Run(INITIAL, steps) && forall k :: 0 <= k < |steps| ==> Untroubled(steps[k])
    requires Actions(steps) < INT32_MAX
    ensures AdmissionResult(Outcome(INITIAL, steps), true) == Actions(steps) + 1
  {
    ServesAll(INITIAL, steps, 0);
  }

  /** Until the core is lost or the facade shut down, an action is refused for one of
      three reasons: the ids are used up, the tokens are, or the worker's queue does
      not take it; the first two are told apart from the third. */
  lemma RefusalsSayWhy(steps: seq<Step>, posts: bool)
    requires Run(INITIAL, steps) && forall k :: 0 <= k < |steps| ==> !steps[k].CoreLoss? && !steps[k].FacadeShutdown?
    ensures var s := Outcome(INITIAL, steps);
      var used := s.nextPublicId == 0x8000_0000 || s.nextToken == 0;
      AdmissionResult(s, posts) == if used then -2 else if !posts then -3 else s.nextPublicId
  {
    RunKeeps(INITIAL, steps);
    StaysLive(INITIAL, steps);
  }

  predicate Live(s: System) {
    !s.closing && s.available && CoreUnavailable !in s.gui
  }

  lemma StepStaysLive(s: System, step: Step)
    requires Live(s) && Enabled(s, step) && !step.CoreLoss? && !step.FacadeShutdown?
    ensures Live(Next(s, step))
  {
    match step
    case Action(kind, caller, posts) => ActionStaysLive(s, kind, caller, posts);
    case GuiTurn(tokens) =>
      assert s.gui[0] in s.gui;
      assert forall e :: e in s.gui[1..] ==> e in s.gui;
      HandlingStaysLive(s.(gui := s.gui[1..]), s.gui[0], tokens);
    case WorkerTurn(error) => WorkerStaysLive(s, error);
    case NativeReply(token, error) => assert Next(s, step).closing == s.closing;
  }

  lemma ActionStaysLive(s: System, kind: Kind, caller: bool, posts: bool)
    requires Live(s)
    ensures Live(Act(s, kind, caller, posts))
  {
    AdmittingStaysLive(s, kind, posts);
    var id := AdmissionResult(s, posts);
    if s.shuttingDown || !s.coreAvailable {
      assert Act(s, kind, caller, posts) == s;
    } else if id > 0 {
      var t := Admit(s, kind, posts);
      assert Act(s, kind, caller, posts)
             == t.(owners := t.owners[id := Owner(kind, caller)], admitted := t.admitted[id := kind]);
    } else {
      assert Act(s, kind, caller, posts) == Admit(s, kind, posts);
    }
  }

  lemma AdmittingStaysLive(s: System, kind: Kind, posts: bool)
    requires Live(s)
    ensures Live(Admit(s, kind, posts))
  {
  }

  lemma WorkerStaysLive(s: System, error: int)
    requires Live(s) && s.posted != []
    ensures Live(WorkerRuns(s, error))
  {
    match s.posted[0]
    case ShutDown =>
    case Submit(token, kind) =>
      if Answers(s, error) || !s.workerAvailable { AnswerShows(s, error, token, kind); }
      else { TakingShows(s, error, token, kind); }
  }

  lemma HandlingStaysLive(s: System, e: GuiEvent, tokens: seq<nat>)
    requires Live(s) && e != CoreUnavailable && forall t :: t in tokens ==> t in s.requests
    ensures Live(Handle(s, e, tokens))
  {
    match e
    case Reply(_, _, _, _) =>
    case Finish(_, _, _) =>
    case Complete(_, _, _) =>
    case Settle(_, _) =>
  }

  lemma {:induction false} StaysLive(s: System, steps: seq<Step>)
    requires Live(s) && Run(s, steps)
    requires forall k :: 0 <= k < |steps| ==> !steps[k].CoreLoss? && !steps[k].FacadeShutdown?
    ensures Live(Outcome(s, steps))
    decreases |steps|
  {
    if steps != [] {
      StepStaysLive(s, steps[0]);
      StaysLive(Next(s, steps[0]), steps[1..]);
    }
  }
}
