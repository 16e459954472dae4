/** Without new actions every request is answered: the turns of the threads,
    libmpv's replies and the loss of the core use up a measure, and where none
    of them is possible any more, everything admitted has been delivered. */
module RequestsProgress {
  import opened Native
  import opened Requests
  import opened RequestsProofs

  /** A step that is not the application's doing. */
  predicate Settling(step: Step) {
    step.GuiTurn? || step.WorkerTurn? || step.NativeReply? || step.CoreLoss?
  }

  function EventWeight(e: GuiEvent): nat {
    match e
    case Reply(_, _, _, _) => 3
    case Finish(_, _, _) => 2
    case _ => 1
  }

  function QueueWeight(gui: seq<GuiEvent>): nat {
    if gui == [] then 0 else EventWeight(gui[0]) + QueueWeight(gui[1..])
  }

  function Measure(s: System): nat {
    5 * |s.posted| + 4 * |s.native| + 3 * |s.requests| + QueueWeight(s.gui) + 2 * Bit(s.workerAvailable)
  }

  lemma {:induction false} WeightAdds(a: seq<GuiEvent>, b: seq<GuiEvent>)
    ensures QueueWeight(a + b) == QueueWeight(a) + QueueWeight(b)
  {
    if a == [] {
      assert a + b == b;
    } else {
      assert (a + b)[0] == a[0] && (a + b)[1..] == a[1..] + b;
      WeightAdds(a[1..], b);
    }
  }

  lemma {:induction false} FinishesWeigh(requests: map<nat, Request>, tokens: seq<nat>, error: int)
    requires forall t :: t in tokens ==> t in requests
    ensures QueueWeight(Finishes(requests, tokens, error)) == 2 * |tokens|
  {
    if tokens != [] {
      var last := tokens[|tokens| - 1];
      FinishesWeigh(requests, tokens[..|tokens| - 1], error);
      var one := [Finish(requests[last].id, requests[last].kind, error)];
      assert one[1..] == [];
      WeightAdds(Finishes(requests, tokens[..|tokens| - 1], error), one);
    }
  }

  lemma {:induction false} EnumerationCounts(tokens: seq<nat>, keys: set<nat>)
    requires forall t :: t in tokens <==> t in keys
    requires forall i, j :: 0 <= i < j < |tokens| ==> tokens[i] != tokens[j]
    ensures |tokens| == |keys|
  {
    if tokens != [] {
      var last := tokens[|tokens| - 1];
      forall t ensures t in tokens[..|tokens| - 1] <==> t in keys - {last} {
        if t in keys - {last} {
          var i :| 0 <= i < |tokens| && tokens[i] == t;
          assert tokens[..|tokens| - 1][i] == t;
        }
      }
      EnumerationCounts(tokens[..|tokens| - 1], keys - {last});
    }
  }

  lemma Removed<V>(m: map<nat, V>, k: nat)
    requires k in m
    ensures |m - {k}| == |m| - 1
  {
    assert (m - {k}).Keys == m.Keys - {k};
    assert |m - {k}| == |(m - {k}).Keys| && |m| == |m.Keys|;
  }

  lemma Added<V>(m: map<nat, V>, k: nat, v: V)
    ensures |m[k := v]| <= |m| + 1
  {
    assert m[k := v].Keys == m.Keys + {k};
    assert |m[k := v]| == |m[k := v].Keys| && |m| == |m.Keys|;
  }

  lemma Appended(s: System, e: GuiEvent)
    ensures Measure(s.(gui := s.gui + [e])) == Measure(s) + EventWeight(e)
  {
    assert [e][1..] == [];
    WeightAdds(s.gui, [e]);
  }

  lemma ReplyUsesUp(s: System, kind: Kind, token: nat, generation: nat, error: int)
    ensures Measure(Receive(s, kind, token, generation, error)) <= Measure(s)
  {
    if Accepts(s, kind, token, generation) {
      Removed(s.requests, token);
      Appended(s.(requests := s.requests - {token}), Finish(s.requests[token].id, s.requests[token].kind, error));
    }
  }

  lemma LossUsesUp(s: System, tokens: seq<nat>)
    requires Enumerates(tokens, s.requests)
    ensures Measure(SettleRequests(s, tokens)) <= Measure(s)
  {
    EnumerationCounts(tokens, s.requests.Keys);
    assert |s.requests| == |s.requests.Keys|;
    FinishesWeigh(s.requests, tokens, UNINITIALIZED);
    WeightAdds(s.gui, Finishes(s.requests, tokens, UNINITIALIZED));
  }

  lemma TakenFromQueue(s: System)
    requires s.gui != []
    ensures Measure(s.(gui := s.gui[1..])) + EventWeight(s.gui[0]) == Measure(s)
  {
  }

  lemma HandlingUsesUp(s: System, e: GuiEvent, tokens: seq<nat>)
    requires Enumerates(tokens, s.requests)
    ensures Measure(Handle(s, e, tokens)) < Measure(s) + EventWeight(e)
  {
    match e
    case Reply(kind, token, generation, error) => ReplyUsesUp(s, kind, token, generation, error);
    case CoreUnavailable =>
      LossUsesUp(s.(available := false), tokens);
      LossMarksFacade(SettleRequests(s.(available := false), tokens));
    case Finish(id, kind, error) => Appended(s, Complete(id, kind, error));
    case Complete(id, kind, error) => CompletionUsesUp(s, id, kind, error);
    case Settle(id, owner) =>
  }

  lemma LossMarksFacade(s: System)
    ensures Measure(s.(coreAvailable := false)) == Measure(s)
  {
  }

  lemma CompletionUsesUp(s: System, id: nat, kind: Kind, error: int)
    ensures Measure(CompleteRequest(s, id, kind, error)) == Measure(s)
  {
  }

  lemma GuiTurnDescends(s: System, tokens: seq<nat>)
    requires Enabled(s, GuiTurn(tokens))
    ensures Measure(Next(s, GuiTurn(tokens))) < Measure(s)
  {
    TakenFromQueue(s);
    HandlingUsesUp(s.(gui := s.gui[1..]), s.gui[0], tokens);
  }

  lemma Accepted(s: System, token: nat, kind: Kind)
    ensures Measure(s.(native := s.native[token := kind])) <= Measure(s) + 4
  {
    Added(s.native, token, kind);
  }

  lemma TakenFromPosted(s: System)
    requires s.posted != []
    ensures Measure(s.(posted := s.posted[1..])) + 5 == Measure(s)
  {
  }

  lemma WorkerStops(s: System, generation: nat)
    ensures Measure(s.(workerAvailable := false, workerGeneration := generation)) <= Measure(s)
  {
  }

  lemma WorkerTurnDescends(s: System, error: int)
    requires s.posted != []
    ensures Measure(WorkerRuns(s, error)) < Measure(s)
  {
    TakenFromPosted(s);
    var rest := s.(posted := s.posted[1..]);
    match s.posted[0]
    case ShutDown => WorkerStops(rest, s.workerGeneration + 1);
    case Submit(token, kind) =>
      Accepted(rest, token, kind);
      Appended(rest, Reply(kind, token, s.workerGeneration, if s.workerAvailable then error else UNINITIALIZED));
  }

  lemma StepDescends(s: System, step: Step)
    requires Enabled(s, step) && Settling(step)
    ensures Measure(Next(s, step)) < Measure(s)
  {
    match step
    case GuiTurn(tokens) => GuiTurnDescends(s, tokens);
    case WorkerTurn(error) => WorkerTurnDescends(s, error);
    case NativeReply(token, error) =>
      Removed(s.native, token);
      Appended(s.(native := s.native - {token}), Reply(s.native[token], token, s.workerGeneration, error));
    case CoreLoss => Appended(s.(workerAvailable := false), CoreUnavailable);
  }

  /** Without new actions or a shutdown, a run is no longer than the measure. */
  lemma {:induction false} SettlingEnds(s: System, steps: seq<Step>)
    requires Run(s, steps) && forall k :: 0 <= k < |steps| ==> Settling(steps[k])
    ensures |steps| <= Measure(s)
    decreases |steps|
  {
    if steps != [] {
      StepDescends(s, steps[0]);
      SettlingEnds(Next(s, steps[0]), steps[1..]);
    }
  }

  lemma {:induction false} Enumerable(keys: set<nat>) returns (tokens: seq<nat>)
    ensures forall t :: t in tokens <==> t in keys
    ensures forall i, j :: 0 <= i < j < |tokens| ==> tokens[i] != tokens[j]
  {
    tokens := [];
    if keys != {} {
      var k :| k in keys;
      var rest := Enumerable(keys - {k});
      tokens := rest + [k];
      assert forall i :: 0 <= i < |rest| ==> rest[i] in rest;
    }
  }

  /** Where nothing is left to happen by itself, every admitted id has been
      delivered exactly once. */
  lemma RestIsSettled(steps: seq<Step>, id: nat)
    requires Run(INITIAL, steps)
    requires forall step :: Settling(step) ==> !Enabled(Outcome(INITIAL, steps), step)
    ensures var s := Outcome(INITIAL, steps);
      Delivered(s.deliveries, id) == Bit(id in s.admitted)
  {
    var s := Outcome(INITIAL, steps);
    if s.gui != [] {
      var tokens := Enumerable(s.requests.Keys);
      assert Enabled(s, GuiTurn(tokens));
    }
    assert !Enabled(s, WorkerTurn(0));
    forall t | t in s.native ensures !s.workerAvailable {
      assert !Enabled(s, NativeReply(t, 0));
    }
    DeliveredExactlyOnce(steps, id);
  }
}
