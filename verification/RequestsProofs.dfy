/** Every admitted id gets exactly one terminal signal of its own kind, after
    the admitting call, whatever is lost or shut down on the way. */
module RequestsProofs {
  import opened Native
  import opened Requests

  // ----- counting -----

  /** Two sorts of queued events that concern an id: a completion under way from
      the adapter, and a settlement by the facade's shutdown. */
  datatype Sort = Flight | Settlement

  predicate Concerns(e: GuiEvent, id: nat, sort: Sort) {
    match sort
    case Flight => (e.Finish? || e.Complete?) && e.id == id
    case Settlement => e.Settle? && e.id == id
  }

  function Count(gui: seq<GuiEvent>, id: nat, sort: Sort): nat {
    if gui == [] then 0
    else Count(gui[..|gui| - 1], id, sort) + Bit(Concerns(gui[|gui| - 1], id, sort))
  }

  function Delivered(deliveries: seq<Delivery>, id: nat): nat {
    if deliveries == [] then 0
    else Delivered(deliveries[..|deliveries| - 1], id) + Bit(deliveries[|deliveries| - 1].id == id)
  }

  lemma CountPush(gui: seq<GuiEvent>, e: GuiEvent, id: nat, sort: Sort)
    ensures Count(gui + [e], id, sort) == Count(gui, id, sort) + Bit(Concerns(e, id, sort))
  {
    assert (gui + [e])[..|gui|] == gui;
  }

  lemma {:induction false} CountAppend(a: seq<GuiEvent>, b: seq<GuiEvent>, id: nat, sort: Sort)
    ensures Count(a + b, id, sort) == Count(a, id, sort) + Count(b, id, sort)
  {
    if b == [] {
      assert a + b == a;
    } else {
      CountAppend(a, b[..|b| - 1], id, sort);
      assert (a + b)[..|a + b| - 1] == a + b[..|b| - 1];
    }
  }

  lemma {:induction false} CountPop(gui: seq<GuiEvent>, id: nat, sort: Sort)
    requires gui != []
    ensures Count(gui, id, sort) == Bit(Concerns(gui[0], id, sort)) + Count(gui[1..], id, sort)
  {
    assert gui == [gui[0]] + gui[1..];
    CountAppend([gui[0]], gui[1..], id, sort);
    assert [gui[0]][..0] == [];
  }

  lemma DeliveredPush(deliveries: seq<Delivery>, d: Delivery, id: nat)
    ensures Delivered(deliveries + [d], id) == Delivered(deliveries, id) + Bit(d.id == id)
  {
    assert (deliveries + [d])[..|deliveries|] == deliveries;
  }

  // ----- the invariant -----

  predicate HasRequest(requests: map<nat, Request>, id: nat) {
    exists t :: t in requests && requests[t].id == id
  }

  predicate Known(admitted: map<nat, Kind>, id: nat, kind: Kind) {
    id in admitted && admitted[id] == kind
  }

  predicate EventRight(admitted: map<nat, Kind>, e: GuiEvent) {
    match e
    case Finish(id, kind, _) => Known(admitted, id, kind)
    case Complete(id, kind, _) => Known(admitted, id, kind)
    case Settle(id, owner) => Known(admitted, id, owner.kind)
    case _ => true
  }

  ghost predicate RequestsKnown(requests: map<nat, Request>, admitted: map<nat, Kind>, generation: nat,
                                nextToken: nat) {
    && (forall t :: t in requests ==>
          Known(admitted, requests[t].id, requests[t].kind) && requests[t].generation == generation
          && (nextToken == 0 || t < nextToken))
    && (forall t, u :: t in requests && u in requests && requests[t].id == requests[u].id ==> t == u)
  }

  ghost predicate EventsKnown(gui: seq<GuiEvent>, admitted: map<nat, Kind>) {
    forall i :: 0 <= i < |gui| ==> EventRight(admitted, gui[i])
  }

  ghost predicate DeliveriesKnown(deliveries: seq<Delivery>, admitted: map<nat, Kind>) {
    forall i :: 0 <= i < |deliveries| ==> Known(admitted, deliveries[i].id, deliveries[i].kind)
  }

  /** Tables and queues name admitted ids, with their kinds. */
  ghost predicate Names(s: System) {
    && 0 < s.nextPublicId <= INT32_MAX + 1 && s.nextToken <= UINT64_MAX
    && (forall id :: id in s.admitted ==> 0 < id < s.nextPublicId)
    && (forall id :: id in s.owners ==> Known(s.admitted, id, s.owners[id].kind))
    && RequestsKnown(s.requests, s.admitted, s.generation, s.nextToken)
    && EventsKnown(s.gui, s.admitted)
    && DeliveriesKnown(s.deliveries, s.admitted)
  }

  /** An admitted id waits in the facade's table, or for its settlement, or has
      been delivered: one of the three, once. */
  ghost predicate Balance(s: System) {
    forall id: nat ::
      Bit(id in s.owners) + Count(s.gui, id, Settlement) + Delivered(s.deliveries, id) == Bit(id in s.admitted)
  }

  /** For every id the facade waits for, one completion is under way; for none
      are there two. */
  ghost predicate Underway(s: System) {
    && (forall id: nat :: Bit(HasRequest(s.requests, id)) + Count(s.gui, id, Flight) <= 1)
    && (forall id: nat :: id in s.owners ==> Bit(HasRequest(s.requests, id)) + Count(s.gui, id, Flight) == 1)
  }

  ghost predicate ReplyQueued(s: System, t: nat, kind: Kind) {
    exists i :: 0 <= i < |s.gui| && s.gui[i].Reply? && s.gui[i].token == t && s.gui[i].kind == kind
                && s.gui[i].generation == s.generation
  }

  /** Something will answer the request. */
  ghost predicate Sourced(s: System, t: nat)
    requires t in s.requests
  {
    var kind := s.requests[t].kind;
    || Submit(t, kind) in s.posted
    || (s.workerAvailable && t in s.native && s.native[t] == kind)
    || ReplyQueued(s, t, kind)
    || CoreUnavailable in s.gui
  }

  /** A posted submission names the token and kind it was admitted with. */
  predicate PostedRight(p: Posted, requests: map<nat, Request>, nextToken: nat) {
    p.Submit? ==> (nextToken == 0 || p.token < nextToken)
                  && (p.token in requests ==> requests[p.token].kind == p.kind)
  }

  ghost predicate Sources(s: System) {
    && (forall i :: 0 <= i < |s.posted| ==> PostedRight(s.posted[i], s.requests, s.nextToken))
    && (!s.closing ==> s.workerGeneration == s.generation && ShutDown !in s.posted)
    && (s.closing || !s.available ==> s.requests == map[])
    && (s.shuttingDown ==> s.closing && s.owners == map[])
    && (!s.closing && s.available && !s.workerAvailable ==> CoreUnavailable in s.gui)
    && (forall t :: t in s.requests ==> Sourced(s, t))
  }

  ghost predicate Invariant(s: System) {
    Names(s) && Balance(s) && Underway(s) && Sources(s)
  }

  // ----- what settling posts -----

  /** `token` is the only one whose request has the id. */
  lemma {:induction false} FinishesCount(requests: map<nat, Request>, tokens: seq<nat>, error: int, id: nat, token: nat)
    requires forall t :: t in tokens ==> t in requests
    requires forall i, j :: 0 <= i < j < |tokens| ==> tokens[i] != tokens[j]
    requires forall t :: t in requests ==> (requests[t].id == id <==> t == token)
    ensures Count(Finishes(requests, tokens, error), id, Flight) == Bit(token in tokens)
    ensures Count(Finishes(requests, tokens, error), id, Settlement) == 0
  {
    if tokens != [] {
      var n := |tokens| - 1;
      assert tokens[n] in tokens;
      var last := Finish(requests[tokens[n]].id, requests[tokens[n]].kind, error);
      FinishesCount(requests, tokens[..n], error, id, token);
      CountPush(Finishes(requests, tokens[..n], error), last, id, Flight);
      CountPush(Finishes(requests, tokens[..n], error), last, id, Settlement);
      assert tokens == tokens[..n] + [tokens[n]];
    }
  }

  lemma {:induction false} FinishesNone(requests: map<nat, Request>, tokens: seq<nat>, error: int, id: nat)
    requires forall t :: t in tokens ==> t in requests
    requires forall t :: t in requests ==> requests[t].id != id
    ensures Count(Finishes(requests, tokens, error), id, Flight) == 0
    ensures Count(Finishes(requests, tokens, error), id, Settlement) == 0
  {
    if tokens != [] {
      var n := |tokens| - 1;
      assert tokens[n] in tokens;
      var last := Finish(requests[tokens[n]].id, requests[tokens[n]].kind, error);
      FinishesNone(requests, tokens[..n], error, id);
      CountPush(Finishes(requests, tokens[..n], error), last, id, Flight);
      CountPush(Finishes(requests, tokens[..n], error), last, id, Settlement);
    }
  }

  lemma FinishesOfAll(requests: map<nat, Request>, tokens: seq<nat>, error: int, id: nat)
    requires Enumerates(tokens, requests)
    requires forall t, u :: t in requests && u in requests && requests[t].id == requests[u].id ==> t == u
    ensures Count(Finishes(requests, tokens, error), id, Flight) == Bit(HasRequest(requests, id))
    ensures Count(Finishes(requests, tokens, error), id, Settlement) == 0
  {
    if HasRequest(requests, id) {
      var t :| t in requests && requests[t].id == id;
      FinishesCount(requests, tokens, error, id, t);
    } else {
      FinishesNone(requests, tokens, error, id);
    }
  }

  lemma {:induction false} FinishesRight(requests: map<nat, Request>, tokens: seq<nat>, error: int,
                                         admitted: map<nat, Kind>)
    requires forall t :: t in tokens ==> t in requests
    requires forall t :: t in requests ==> Known(admitted, requests[t].id, requests[t].kind)
    ensures forall i :: 0 <= i < |Finishes(requests, tokens, error)| ==>
              EventRight(admitted, Finishes(requests, tokens, error)[i])
  {
    if tokens != [] {
      assert tokens[|tokens| - 1] in tokens;
      FinishesRight(requests, tokens[..|tokens| - 1], error, admitted);
    }
  }

  lemma {:induction false} SettlesCount(owners: map<nat, Owner>, ids: seq<nat>, id: nat)
    requires forall i :: i in ids ==> i in owners
    requires forall i, j :: 0 <= i < j < |ids| ==> ids[i] != ids[j]
    ensures Count(Settles(owners, ids), id, Settlement) == Bit(id in ids)
    ensures Count(Settles(owners, ids), id, Flight) == 0
  {
    if ids != [] {
      var n := |ids| - 1;
      var last := Settle(ids[n], owners[ids[n]]);
      SettlesCount(owners, ids[..n], id);
      CountPush(Settles(owners, ids[..n]), last, id, Settlement);
      CountPush(Settles(owners, ids[..n]), last, id, Flight);
      assert ids == ids[..n] + [ids[n]];
    }
  }

  lemma {:induction false} SettlesRight(owners: map<nat, Owner>, ids: seq<nat>, admitted: map<nat, Kind>)
    requires forall id :: id in ids ==> id in owners
    requires forall id :: id in owners ==> Known(admitted, id, owners[id].kind)
    ensures forall i :: 0 <= i < |Settles(owners, ids)| ==> EventRight(admitted, Settles(owners, ids)[i])
  {
    if ids != [] {
      assert ids[|ids| - 1] in ids;
      SettlesRight(owners, ids[..|ids| - 1], admitted);
    }
  }

  // ----- steps -----

  lemma SettleKeeps(s: System, tokens: seq<nat>)
    requires Names(s) && Balance(s) && Underway(s) && Enumerates(tokens, s.requests)
    ensures var t := SettleRequests(s, tokens);
      Names(t) && Balance(t) && Underway(t)
  {
    var t := SettleRequests(s, tokens);
    var added := Finishes(s.requests, tokens, UNINITIALIZED);
    FinishesRight(s.requests, tokens, UNINITIALIZED, s.admitted);
    forall id: nat
      ensures Count(t.gui, id, Flight) == Count(s.gui, id, Flight) + Bit(HasRequest(s.requests, id))
      ensures Count(t.gui, id, Settlement) == Count(s.gui, id, Settlement)
    {
      CountAppend(s.gui, added, id, Flight);
      CountAppend(s.gui, added, id, Settlement);
      FinishesOfAll(s.requests, tokens, UNINITIALIZED, id);
    }
  }

  /** A queued event leaves the queue before it is handled. */
  lemma PopCounts(s: System)
    requires s.gui != []
    ensures forall id: nat, sort: Sort ::
      Count(s.gui, id, sort) == Bit(Concerns(s.gui[0], id, sort)) + Count(s.gui[1..], id, sort)
  {
    forall id: nat, sort: Sort
      ensures Count(s.gui, id, sort) == Bit(Concerns(s.gui[0], id, sort)) + Count(s.gui[1..], id, sort)
    {
      CountPop(s.gui, id, sort);
    }
  }

  /** The action that is taken: what it adds. */
  predicate Takes(s: System, posts: bool) {
    !s.shuttingDown && s.coreAvailable && AdmissionResult(s, posts) > 0
  }

  /** One more admitted id does not disturb what the queues say of the others. */
  lemma AdmittedGrows(s: System, kind: Kind)
    requires Names(s)
    ensures var admitted := s.admitted[s.nextPublicId := kind];
      EventsKnown(s.gui, admitted) && DeliveriesKnown(s.deliveries, admitted)
  {
    var admitted := s.admitted[s.nextPublicId := kind];
    assert forall i, k :: Known(s.admitted, i, k) ==> Known(admitted, i, k);
    forall i | 0 <= i < |s.gui| ensures EventRight(admitted, s.gui[i]) {
      assert EventRight(s.admitted, s.gui[i]);
    }
  }

  lemma TakenRequestsKnown(s: System, kind: Kind)
    requires Names(s) && s.nextToken != 0
    ensures RequestsKnown(s.requests[s.nextToken := Request(s.nextPublicId, kind, s.generation)],
                          s.admitted[s.nextPublicId := kind], s.generation, Following(s.nextToken))
  {
  }

  lemma TakenNames(s: System, kind: Kind, caller: bool)
    requires Names(s) && Takes(s, true)
    ensures Names(Act(s, kind, caller, true))
  {
    AdmittedGrows(s, kind);
    TakenRequestsKnown(s, kind);
  }

  lemma TakenBalance(s: System, kind: Kind, caller: bool)
    requires Names(s) && Balance(s) && Takes(s, true)
    ensures Balance(Act(s, kind, caller, true))
  {
    NewIdIsNew(s);
    var t := Act(s, kind, caller, true);
    assert t.gui == s.gui && t.deliveries == s.deliveries;
    assert t.admitted == s.admitted[s.nextPublicId := kind];
    assert t.owners == s.owners[s.nextPublicId := Owner(kind, caller)];
  }

  lemma TakenRequests(s: System, kind: Kind, caller: bool, id: nat)
    requires Names(s) && Balance(s) && Takes(s, true)
    ensures HasRequest(Act(s, kind, caller, true).requests, id)
            <==> HasRequest(s.requests, id) || id == s.nextPublicId
  {
    var t := Act(s, kind, caller, true);
    assert t.requests == s.requests[s.nextToken := Request(s.nextPublicId, kind, s.generation)];
    if id == s.nextPublicId { assert t.requests[s.nextToken].id == id; }
    if HasRequest(s.requests, id) {
      var u :| u in s.requests && s.requests[u].id == id;
      assert u != s.nextToken && t.requests[u].id == id;
    }
  }

  lemma TakenUnderway(s: System, kind: Kind, caller: bool)
    requires Names(s) && Balance(s) && Underway(s) && Takes(s, true)
    ensures Underway(Act(s, kind, caller, true))
  {
    var t := Act(s, kind, caller, true);
    NewIdIsNew(s);
    assert t.gui == s.gui && t.owners == s.owners[s.nextPublicId := Owner(kind, caller)];
    forall id: nat
      ensures Bit(HasRequest(t.requests, id)) + Count(t.gui, id, Flight) <= 1
      ensures id in t.owners ==> Bit(HasRequest(t.requests, id)) + Count(t.gui, id, Flight) == 1
    {
      TakenRequests(s, kind, caller, id);
    }
  }

  lemma TakenSources(s: System, kind: Kind, caller: bool)
    requires Names(s) && Sources(s) && Takes(s, true)
    ensures Sources(Act(s, kind, caller, true))
  {
    var t := Act(s, kind, caller, true);
    forall u | u in t.requests ensures Sourced(t, u) {
      if u == s.nextToken {
        assert t.posted[|s.posted|] == Submit(u, kind);
      } else {
        assert Sourced(s, u);
        ReplyStays(s, t, u, s.requests[u].kind);
      }
    }
  }

  lemma ActKeeps(s: System, kind: Kind, caller: bool, posts: bool)
    requires Invariant(s)
    ensures Invariant(Act(s, kind, caller, posts))
  {
    if Takes(s, posts) {
      assert posts;
      TakenNames(s, kind, caller);
      TakenBalance(s, kind, caller);
      TakenUnderway(s, kind, caller);
      TakenSources(s, kind, caller);
    } else {
      RefusedActKeeps(s, kind, caller, posts);
    }
  }

  /** An action that is refused changes counters at most. */
  lemma RefusedActKeeps(s: System, kind: Kind, caller: bool, posts: bool)
    requires Invariant(s) && !Takes(s, posts)
    ensures Invariant(Act(s, kind, caller, posts))
  {
    var t := Act(s, kind, caller, posts);
    if t != s {
      assert s.nextPublicId !in s.admitted;
      assert s.nextToken !in s.requests;
      assert t.requests == s.requests - {s.nextToken} == s.requests;
      forall u | u in t.requests ensures Sourced(t, u) {
        assert Sourced(s, u);
        ReplyStays(s, t, u, s.requests[u].kind);
      }
    }
  }

  lemma NewIdIsNew(s: System)
    requires Names(s) && Balance(s)
    ensures var id := s.nextPublicId;
      id !in s.admitted && id !in s.owners && !HasRequest(s.requests, id)
      && Count(s.gui, id, Settlement) == 0 && Delivered(s.deliveries, id) == 0 && Count(s.gui, id, Flight) == 0
  {
    NoFlight(s.gui, s.admitted, s.nextPublicId);
  }

  lemma {:induction false} NoFlight(gui: seq<GuiEvent>, admitted: map<nat, Kind>, id: nat)
    requires id !in admitted && forall i :: 0 <= i < |gui| ==> EventRight(admitted, gui[i])
    ensures Count(gui, id, Flight) == 0
  {
    if gui != [] { NoFlight(gui[..|gui| - 1], admitted, id); }
  }

  lemma ReplyStays(s: System, t: System, token: nat, kind: Kind)
    requires s.gui <= t.gui && t.generation == s.generation
    ensures ReplyQueued(s, token, kind) ==> ReplyQueued(t, token, kind)
    ensures CoreUnavailable in s.gui ==> CoreUnavailable in t.gui
  {
    if ReplyQueued(s, token, kind) {
      var i :| 0 <= i < |s.gui| && s.gui[i].Reply? && s.gui[i].token == token && s.gui[i].kind == kind
               && s.gui[i].generation == s.generation;
      assert t.gui[i] == s.gui[i];
    }
    if CoreUnavailable in s.gui {
      var i :| 0 <= i < |s.gui| && s.gui[i] == CoreUnavailable;
      assert t.gui[i] == s.gui[i];
    }
  }

  /** Taking the first event off the queue, before handling it. */
  function Popped(s: System): System
    requires s.gui != []
  {
    s.(gui := s.gui[1..])
  }

  lemma PopNames(s: System)
    requires Names(s) && s.gui != []
    ensures Names(Popped(s)) && EventRight(s.admitted, s.gui[0])
  {
  }

  /** The request still has its source, unless the event taken off was it. */
  lemma PopSource(s: System, t: nat)
    requires s.gui != [] && t in s.requests && Sourced(s, t)
    requires s.gui[0] != CoreUnavailable
    requires s.gui[0].Reply? ==> !(s.gui[0].token == t && s.gui[0].kind == s.requests[t].kind
                                   && s.gui[0].generation == s.generation)
    ensures Sourced(Popped(s), t)
  {
    if ReplyQueued(s, t, s.requests[t].kind) { PopReply(s, t, s.requests[t].kind); }
    if CoreUnavailable in s.gui { PopCore(s); }
  }

  lemma PopReply(s: System, t: nat, kind: Kind)
    requires s.gui != [] && ReplyQueued(s, t, kind)
    requires s.gui[0].Reply? ==> !(s.gui[0].token == t && s.gui[0].kind == kind && s.gui[0].generation == s.generation)
    ensures ReplyQueued(Popped(s), t, kind)
  {
    var i :| 0 <= i < |s.gui| && s.gui[i].Reply? && s.gui[i].token == t && s.gui[i].kind == kind
             && s.gui[i].generation == s.generation;
    assert i > 0 && Popped(s).gui[i - 1] == s.gui[i];
  }

  lemma PopCore(s: System)
    requires s.gui != [] && s.gui[0] != CoreUnavailable && CoreUnavailable in s.gui
    ensures CoreUnavailable in Popped(s).gui
  {
    var i :| 0 <= i < |s.gui| && s.gui[i] == CoreUnavailable;
    assert i > 0 && Popped(s).gui[i - 1] == s.gui[i];
  }

  /** One more event at the end of the queue. */
  lemma PushSource(s: System, e: GuiEvent, t: nat)
    requires t in s.requests && Sourced(s, t)
    ensures Sourced(s.(gui := s.gui + [e]), t)
  {
    ReplyStays(s, s.(gui := s.gui + [e]), t, s.requests[t].kind);
  }

  lemma PushCounts(s: System, e: GuiEvent)
    ensures forall id: nat, sort: Sort ::
      Count(s.gui + [e], id, sort) == Count(s.gui, id, sort) + Bit(Concerns(e, id, sort))
  {
    forall id: nat, sort: Sort
      ensures Count(s.gui + [e], id, sort) == Count(s.gui, id, sort) + Bit(Concerns(e, id, sort))
    {
      CountPush(s.gui, e, id, sort);
    }
  }

  lemma ReceiveKeeps(s: System, kind: Kind, token: nat, generation: nat, error: int)
    requires Invariant(s) && s.gui != [] && s.gui[0] == Reply(kind, token, generation, error)
    ensures Invariant(Receive(Popped(s), kind, token, generation, error))
  {
    PopCounts(s);
    PopNames(s);
    if Accepts(s, kind, token, generation) {
      ReceivedNames(s, kind, token, generation, error);
      ReceivedCounts(s, kind, token, generation, error);
      ReceivedSources(s, kind, token, generation, error);
    } else {
      forall t | t in s.requests ensures Sourced(Popped(s), t) {
        assert Sourced(s, t);
        PopSource(s, t);
      }
      if CoreUnavailable in s.gui { PopCore(s); }
    }
  }

  lemma ReceivedNames(s: System, kind: Kind, token: nat, generation: nat, error: int)
    requires Names(s) && s.gui != [] && Accepts(s, kind, token, generation)
    ensures Names(Receive(Popped(s), kind, token, generation, error))
  {
    PopNames(s);
  }

  lemma ReceivedCounts(s: System, kind: Kind, token: nat, generation: nat, error: int)
    requires Invariant(s) && s.gui != [] && s.gui[0] == Reply(kind, token, generation, error)
    requires Accepts(s, kind, token, generation)
    ensures var t := Receive(Popped(s), kind, token, generation, error);
      Balance(t) && Underway(t)
  {
    var request := s.requests[token];
    var t := Receive(Popped(s), kind, token, generation, error);
    forall id: nat
      ensures Count(t.gui, id, Settlement) == Count(s.gui, id, Settlement)
      ensures Count(t.gui, id, Flight) == Count(s.gui, id, Flight) + Bit(id == request.id)
      ensures Bit(HasRequest(t.requests, id)) + Bit(id == request.id) == Bit(HasRequest(s.requests, id))
    {
      CountPop(s.gui, id, Settlement);
      CountPop(s.gui, id, Flight);
      CountPush(Popped(s).gui, Finish(request.id, request.kind, error), id, Settlement);
      CountPush(Popped(s).gui, Finish(request.id, request.kind, error), id, Flight);
      RemovedRequest(s, token, id);
    }
    SameTotals(s, t);
  }

  /** Requests and completions under way may trade places. */
  lemma SameTotals(s: System, t: System)
    requires Balance(s) && Underway(s)
    requires t.owners == s.owners && t.deliveries == s.deliveries && t.admitted == s.admitted
    requires forall id: nat :: Count(t.gui, id, Settlement) == Count(s.gui, id, Settlement)
    requires forall id: nat :: Bit(HasRequest(t.requests, id)) + Count(t.gui, id, Flight)
                               == Bit(HasRequest(s.requests, id)) + Count(s.gui, id, Flight)
    ensures Balance(t) && Underway(t)
  {
  }

  lemma RemovedRequest(s: System, token: nat, id: nat)
    requires Names(s) && token in s.requests
    ensures Bit(HasRequest(s.requests - {token}, id)) + Bit(id == s.requests[token].id)
            == Bit(HasRequest(s.requests, id))
  {
    var rest := s.requests - {token};
    if HasRequest(s.requests, id) {
      var u :| u in s.requests && s.requests[u].id == id;
      if id != s.requests[token].id { assert u in rest && rest[u].id == id; }
    }
  }

  lemma ReceivedSources(s: System, kind: Kind, token: nat, generation: nat, error: int)
    requires Invariant(s) && s.gui != [] && s.gui[0] == Reply(kind, token, generation, error)
    requires Accepts(s, kind, token, generation)
    ensures Sources(Receive(Popped(s), kind, token, generation, error))
  {
    var request := s.requests[token];
    var t := Receive(Popped(s), kind, token, generation, error);
    forall u | u in t.requests ensures Sourced(t, u) {
      assert Sourced(s, u);
      PopSource(s, u);
      ReplyStays(Popped(s), t, u, s.requests[u].kind);
    }
    if CoreUnavailable in s.gui {
      PopCore(s);
      ReplyStays(Popped(s), t, token, kind);
    }
  }

  /** An event that is no reply and no core loss leaves every source in place. */
  lemma PopKeepsSources(s: System)
    requires Sources(s) && s.gui != [] && s.gui[0] != CoreUnavailable && !s.gui[0].Reply?
    ensures Sources(Popped(s))
  {
    forall t | t in s.requests ensures Sourced(Popped(s), t) {
      assert Sourced(s, t);
      PopSource(s, t);
    }
    if CoreUnavailable in s.gui { PopCore(s); }
  }

  lemma PushKeepsSources(s: System, e: GuiEvent)
    requires Sources(s)
    ensures Sources(s.(gui := s.gui + [e]))
  {
    forall t | t in s.requests ensures Sourced(s.(gui := s.gui + [e]), t) {
      assert Sourced(s, t);
      PushSource(s, e, t);
    }
    ReplyStays(s, s.(gui := s.gui + [e]), 0, Command);
  }

  lemma FinishKeeps(s: System, id: nat, kind: Kind, error: int)
    requires Invariant(s) && s.gui != [] && s.gui[0] == Finish(id, kind, error)
    ensures Invariant(Popped(s).(gui := Popped(s).gui + [Complete(id, kind, error)]))
  {
    var t := Popped(s).(gui := Popped(s).gui + [Complete(id, kind, error)]);
    PopNames(s);
    PopKeepsSources(s);
    PushKeepsSources(Popped(s), Complete(id, kind, error));
    forall i: nat, sort: Sort ensures Count(t.gui, i, sort) == Count(s.gui, i, sort) {
      CountPop(s.gui, i, sort);
      CountPush(Popped(s).gui, Complete(id, kind, error), i, sort);
    }
    SameTotals(s, t);
  }

  lemma CompleteKeeps(s: System, id: nat, kind: Kind, error: int)
    requires Invariant(s) && s.gui != [] && s.gui[0] == Complete(id, kind, error)
    ensures Invariant(CompleteRequest(Popped(s), id, kind, error))
  {
    PopNames(s);
    PopKeepsSources(s);
    CompletedNames(Popped(s), id, kind, error);
    CompletedCounts(s, id, kind, error);
  }

  lemma CompletedNames(s: System, id: nat, kind: Kind, error: int)
    requires Names(s) && Sources(s) && Known(s.admitted, id, kind)
    ensures Names(CompleteRequest(s, id, kind, error)) && Sources(CompleteRequest(s, id, kind, error))
  {
    var t := CompleteRequest(s, id, kind, error);
    forall u | u in t.requests ensures Sourced(t, u) {
      assert Sourced(s, u);
      ReplyStays(s, t, u, s.requests[u].kind);
    }
  }

  lemma CompletedCounts(s: System, id: nat, kind: Kind, error: int)
    requires Invariant(s) && s.gui != [] && s.gui[0] == Complete(id, kind, error)
    ensures Balance(CompleteRequest(Popped(s), id, kind, error))
    ensures Underway(CompleteRequest(Popped(s), id, kind, error))
  {
    CompletionLeaves(s, id, kind, error);
    assert EventRight(s.admitted, s.gui[0]);
    if id in s.owners { OwnerCompletes(s, id, kind, error); }
  }

  lemma OwnerCompletes(s: System, id: nat, kind: Kind, error: int)
    requires Invariant(s) && s.gui != [] && s.gui[0] == Complete(id, kind, error) && id in s.owners
    ensures Balance(CompleteRequest(Popped(s), id, kind, error))
    ensures Underway(CompleteRequest(Popped(s), id, kind, error))
  {
    CompletionLeaves(s, id, kind, error);
    assert EventRight(s.admitted, s.gui[0]);
    var d := Delivery(id, kind, s.owners[id].caller, error);
    assert CompleteRequest(Popped(s), id, kind, error)
           == Popped(s).(owners := s.owners - {id}, deliveries := s.deliveries + [d]);
    DeliveryMoves(s, d);
  }

  lemma CompletionLeaves(s: System, id: nat, kind: Kind, error: int)
    requires s.gui != [] && s.gui[0] == Complete(id, kind, error)
    ensures forall i: nat :: Count(Popped(s).gui, i, Settlement) == Count(s.gui, i, Settlement)
    ensures forall i: nat :: Count(Popped(s).gui, i, Flight) + Bit(i == id) == Count(s.gui, i, Flight)
  {
    forall i: nat
      ensures Count(Popped(s).gui, i, Settlement) == Count(s.gui, i, Settlement)
      ensures Count(Popped(s).gui, i, Flight) + Bit(i == id) == Count(s.gui, i, Flight)
    {
      CountPop(s.gui, i, Settlement);
      CountPop(s.gui, i, Flight);
    }
  }

  lemma DeliveryMoves(s: System, d: Delivery)
    ensures forall i: nat :: Delivered(s.deliveries + [d], i) == Delivered(s.deliveries, i) + Bit(i == d.id)
  {
    forall i: nat ensures Delivered(s.deliveries + [d], i) == Delivered(s.deliveries, i) + Bit(i == d.id) {
      DeliveredPush(s.deliveries, d, i);
    }
  }

  lemma SettlementKeeps(s: System, id: nat, owner: Owner)
    requires Invariant(s) && s.gui != [] && s.gui[0] == Settle(id, owner)
    ensures Invariant(Popped(s).(deliveries := s.deliveries + [Delivery(id, owner.kind, owner.caller, UNINITIALIZED)]))
  {
    var t := Popped(s).(deliveries := s.deliveries + [Delivery(id, owner.kind, owner.caller, UNINITIALIZED)]);
    PopNames(s);
    PopKeepsSources(s);
    forall i: nat
      ensures Count(t.gui, i, Settlement) + Bit(i == id) == Count(s.gui, i, Settlement)
      ensures Count(t.gui, i, Flight) == Count(s.gui, i, Flight)
      ensures Delivered(t.deliveries, i) == Delivered(s.deliveries, i) + Bit(i == id)
    {
      CountPop(s.gui, i, Settlement);
      CountPop(s.gui, i, Flight);
      DeliveredPush(s.deliveries, Delivery(id, owner.kind, owner.caller, UNINITIALIZED), i);
    }
  }

  lemma CoreUnavailableKeeps(s: System, tokens: seq<nat>)
    requires Invariant(s) && s.gui != [] && s.gui[0] == CoreUnavailable && Enumerates(tokens, s.requests)
    ensures Invariant(SettleRequests(Popped(s).(available := false), tokens).(coreAvailable := false))
  {
    var t := Popped(s).(available := false);
    PopNames(s);
    forall id: nat, sort: Sort ensures Count(t.gui, id, sort) == Count(s.gui, id, sort) {
      CountPop(s.gui, id, sort);
    }
    SameTotals(s, t);
    SettleKeeps(t, tokens);
    SettledSources(t, tokens);
  }

  /** With the adapter's table empty there is nothing to answer. */
  lemma SettledSources(s: System, tokens: seq<nat>)
    requires Enumerates(tokens, s.requests) && !s.available
    requires !s.closing ==> s.workerGeneration == s.generation && ShutDown !in s.posted
    requires s.shuttingDown ==> s.closing && s.owners == map[]
    requires forall i :: 0 <= i < |s.posted| ==> PostedRight(s.posted[i], s.requests, s.nextToken)
    ensures Sources(SettleRequests(s, tokens))
  {
  }

  lemma GuiTurnKeeps(s: System, tokens: seq<nat>)
    requires Invariant(s) && Enabled(s, GuiTurn(tokens))
    ensures Invariant(Next(s, GuiTurn(tokens)))
  {
    match s.gui[0]
    case Reply(kind, token, generation, error) => ReceiveKeeps(s, kind, token, generation, error);
    case CoreUnavailable => CoreUnavailableKeeps(s, tokens);
    case Finish(id, kind, error) => FinishKeeps(s, id, kind, error);
    case Complete(id, kind, error) => CompleteKeeps(s, id, kind, error);
    case Settle(id, owner) => SettlementKeeps(s, id, owner);
  }

  /** The facade's table becomes settlements in the queue, then the adapter's
      becomes finishes nobody waits for. */
  lemma ShutdownKeeps(s: System, ids: seq<nat>, tokens: seq<nat>)
    requires Invariant(s) && Enumerates(ids, s.owners) && Enumerates(tokens, s.requests)
    ensures Invariant(ShutdownFacade(s, ids, tokens))
  {
    if !s.shuttingDown {
      var t := s.(shuttingDown := true, coreAvailable := false, owners := map[], gui := s.gui + Settles(s.owners, ids));
      SettlesRight(s.owners, ids, s.admitted);
      forall id: nat
        ensures Count(t.gui, id, Settlement) == Count(s.gui, id, Settlement) + Bit(id in s.owners)
        ensures Count(t.gui, id, Flight) == Count(s.gui, id, Flight)
      {
        CountAppend(s.gui, Settles(s.owners, ids), id, Settlement);
        CountAppend(s.gui, Settles(s.owners, ids), id, Flight);
        SettlesCount(s.owners, ids, id);
      }
      assert Names(t) && Balance(t) && Underway(t);
      AdapterShutdownKeeps(t, tokens);
    }
  }

  lemma AdapterShutdownKeeps(s: System, tokens: seq<nat>)
    requires Names(s) && Balance(s) && Underway(s) && Enumerates(tokens, s.requests)
    requires s.shuttingDown && s.owners == map[] && (s.closing ==> s.requests == map[])
    requires forall i :: 0 <= i < |s.posted| ==> PostedRight(s.posted[i], s.requests, s.nextToken)
    ensures Invariant(ShutdownAdapter(s, tokens))
  {
    SettleKeeps(s, tokens);
  }

  lemma WorkerTurnKeeps(s: System, error: int)
    requires Invariant(s) && s.posted != []
    ensures Invariant(WorkerRuns(s, error))
  {
    if s.posted[0].ShutDown? {
      WorkerShutDownKeeps(s, error);
    } else {
      var token, kind := s.posted[0].token, s.posted[0].kind;
      var answer := if s.workerAvailable then error else UNINITIALIZED;
      if answer < 0 || kind.Configuration? {
        AnsweredKeeps(s, token, kind, answer);
        assert WorkerRuns(s, error)
               == s.(posted := s.posted[1..], gui := s.gui + [Reply(kind, token, s.workerGeneration, answer)]);
      } else {
        SubmittedKeeps(s, token, kind);
        assert WorkerRuns(s, error) == s.(posted := s.posted[1..], native := s.native[token := kind]);
      }
    }
  }

  lemma WorkerShutDownKeeps(s: System, error: int)
    requires Invariant(s) && s.posted != [] && s.posted[0].ShutDown?
    ensures Invariant(WorkerRuns(s, error))
  {
    assert s.posted[0] in s.posted;
    assert s.closing && s.requests == map[];
  }

  lemma AnsweredKeeps(s: System, token: nat, kind: Kind, error: int)
    requires Invariant(s) && s.posted != [] && s.posted[0] == Submit(token, kind)
    ensures Invariant(s.(posted := s.posted[1..], gui := s.gui + [Reply(kind, token, s.workerGeneration, error)]))
  {
    var e := Reply(kind, token, s.workerGeneration, error);
    var t := s.(posted := s.posted[1..], gui := s.gui + [e]);
    PushCounts(s, e);
    SameTotals(s, t);
    forall u | u in t.requests ensures Sourced(t, u) {
      assert Sourced(s, u);
      PushSource(s, e, u);
      if Submit(u, s.requests[u].kind) == s.posted[0] {
        assert t.gui[|s.gui|] == e;
        assert ReplyQueued(t, u, kind);
      } else {
        ReplyStays(s, t, u, s.requests[u].kind);
        StillPosted(s.posted, Submit(u, s.requests[u].kind));
      }
    }
    ReplyStays(s, t, token, kind);
  }

  lemma StillPosted(posted: seq<Posted>, p: Posted)
    requires posted != [] && p != posted[0]
    ensures p in posted ==> p in posted[1..]
  {
  }

  lemma SubmittedKeeps(s: System, token: nat, kind: Kind)
    requires Invariant(s) && s.posted != [] && s.posted[0] == Submit(token, kind) && s.workerAvailable
    ensures Invariant(s.(posted := s.posted[1..], native := s.native[token := kind]))
  {
    var t := s.(posted := s.posted[1..], native := s.native[token := kind]);
    SameTotals(s, t);
    forall u | u in t.requests ensures Sourced(t, u) {
      assert Sourced(s, u);
      ReplyStays(s, t, u, s.requests[u].kind);
      if Submit(u, s.requests[u].kind) != s.posted[0] { StillPosted(s.posted, Submit(u, s.requests[u].kind)); }
    }
  }

  lemma NativeReplyKeeps(s: System, token: nat, error: int)
    requires Invariant(s) && s.workerAvailable && token in s.native
    ensures Invariant(Next(s, NativeReply(token, error)))
  {
    var e := Reply(s.native[token], token, s.workerGeneration, error);
    var t := Next(s, NativeReply(token, error));
    PushCounts(s, e);
    SameTotals(s, t);
    forall u | u in t.requests ensures Sourced(t, u) {
      assert Sourced(s, u);
      ReplyStays(s, t, u, s.requests[u].kind);
      if u == token && s.native[u] == s.requests[u].kind {
        assert t.gui[|s.gui|] == e;
        assert ReplyQueued(t, u, s.requests[u].kind);
      }
    }
    ReplyStays(s, t, token, s.native[token]);
  }

  lemma CoreLossKeeps(s: System)
    requires Invariant(s) && s.workerAvailable
    ensures Invariant(Next(s, CoreLoss))
  {
    var t := Next(s, CoreLoss);
    PushCounts(s, CoreUnavailable);
    SameTotals(s, t);
    assert t.gui[|s.gui|] == CoreUnavailable;
  }

  lemma InitialHolds()
    ensures Invariant(INITIAL)
  {
  }

  lemma StepKeeps(s: System, step: Step)
    requires Invariant(s) && Enabled(s, step)
    ensures Invariant(Next(s, step))
  {
    match step
    case Action(kind, caller, posts) => ActKeeps(s, kind, caller, posts);
    case GuiTurn(tokens) => GuiTurnKeeps(s, tokens);
    case FacadeShutdown(ids, tokens) => ShutdownKeeps(s, ids, tokens);
    case WorkerTurn(error) => WorkerTurnKeeps(s, error);
    case NativeReply(token, error) => NativeReplyKeeps(s, token, error);
    case CoreLoss => CoreLossKeeps(s);
  }

  lemma {:induction false} RunKeeps(s: System, steps: seq<Step>)
    requires Invariant(s) && Run(s, steps)
    ensures Invariant(Outcome(s, steps))
    decreases |steps|
  {
    if steps != [] {
      StepKeeps(s, steps[0]);
      RunKeeps(Next(s, steps[0]), steps[1..]);
    }
  }

  // ----- what it means -----

  /** A positive id is new, larger than all before it and at most INT_MAX; the
      call that hands it out delivers nothing; and every other result leaves no
      trace of an admission. */
  lemma AdmittedIdsGrow(steps: seq<Step>, kind: Kind, caller: bool, posts: bool)
    requires Run(INITIAL, steps)
    ensures AdmitsFresh(Outcome(INITIAL, steps), kind, caller, posts)
  {
    InitialHolds();
    RunKeeps(INITIAL, steps);
    InvariantAdmitsFresh(Outcome(INITIAL, steps), kind, caller, posts);
  }

  /** The next admission gives out an id above all earlier ones and no larger
      than an `int` holds, or refuses and changes nothing the facade keeps. */
  predicate AdmitsFresh(s: System, kind: Kind, caller: bool, posts: bool) {
    var t := Act(s, kind, caller, posts);
    var id := AdmissionResult(s, posts);
    && t.deliveries == s.deliveries
    && (!s.shuttingDown && s.coreAvailable && id > 0 ==>
          id <= INT32_MAX && t.admitted == s.admitted[id := kind] && forall i :: i in s.admitted ==> i < id)
    && (!s.shuttingDown && s.coreAvailable && id <= 0 ==> t.admitted == s.admitted && t.owners == s.owners)
  }

  lemma InvariantAdmitsFresh(s: System, kind: Kind, caller: bool, posts: bool)
    requires Names(s)
    ensures AdmitsFresh(s, kind, caller, posts)
  {
  }

  /** Never twice, never for an id that was not admitted, and in its own kind. */
  lemma DeliveredAtMostOnce(steps: seq<Step>, id: nat)
    requires Run(INITIAL, steps)
    ensures var s := Outcome(INITIAL, steps);
      && Delivered(s.deliveries, id) <= Bit(id in s.admitted)
      && forall i :: 0 <= i < |s.deliveries| && s.deliveries[i].id == id ==> Known(s.admitted, id, s.deliveries[i].kind)
  {
    InitialHolds();
    RunKeeps(INITIAL, steps);
  }

  /** Nothing can happen any more but new actions: both queues are empty, and
      libmpv has answered everything or is gone. */
  predicate Quiet(s: System) {
    s.gui == [] && s.posted == [] && (s.workerAvailable ==> s.native == map[])
  }

  /** Once quiet, every admitted id has been delivered exactly once. */
  lemma DeliveredExactlyOnce(steps: seq<Step>, id: nat)
    requires Run(INITIAL, steps) && Quiet(Outcome(INITIAL, steps))
    ensures var s := Outcome(INITIAL, steps);
      Delivered(s.deliveries, id) == Bit(id in s.admitted)
  {
    InitialHolds();
    RunKeeps(INITIAL, steps);
    var s := Outcome(INITIAL, steps);
    NothingUnanswered(s);
    assert Count(s.gui, id, Flight) == 0 && Count(s.gui, id, Settlement) == 0;
  }

  lemma NothingUnanswered(s: System)
    requires Invariant(s) && Quiet(s)
    ensures s.requests == map[]
  {
    RequestsAreUnderway(s);
  }

  lemma RequestsAreUnderway(s: System)
    requires Invariant(s)
    ensures s.requests != map[] ==> !Quiet(s)
  {
    if s.requests != map[] {
      var t :| t in s.requests;
      assert Sourced(s, t);
    }
  }
}
