/** The tables of the facade (mpvplayer.cpp) and of the adapter
    (mpvcontroller_adapter.cpp) as the objects update them in place; every
    method is the function of `Requests` with its name. */
module RequestsObject {
  import opened Native
  import opened Requests

  class Session {
    // the facade
    var shuttingDown: bool
    var coreAvailable: bool
    var owners: map<nat, Owner>
    // the adapter
    var closing: bool
    var available: bool
    var generation: nat
    var nextPublicId: nat
    var requests: map<nat, Request>
    // the core lease, the worker's queue and the GUI queue
    var nextToken: nat
    var posted: seq<Posted>
    var gui: seq<GuiEvent>
    // the worker, libmpv, and history
    ghost var workerAvailable: bool
    ghost var workerGeneration: nat
    ghost var native: map<nat, Kind>
    ghost var admitted: map<nat, Kind>
    ghost var deliveries: seq<Delivery>

    ghost function State(): System
      reads this
    {
      System(shuttingDown, coreAvailable, owners, closing, available, generation, nextPublicId, requests,
             nextToken, posted, workerAvailable, workerGeneration, native, gui, admitted, deliveries)
    }

    constructor ()
      ensures State() == INITIAL
    {
      shuttingDown, coreAvailable, owners := false, true, map[];
      closing, available, generation, nextPublicId, requests := false, true, 1, 1, map[];
      nextToken, posted, gui := 1, [], [];
      workerAvailable, workerGeneration, native, admitted, deliveries := true, 1, map[], map[], [];
    }

    /** mpvrenderbridge.cpp, `allocateNativeToken`, seen as one step. */
    method AllocateNativeToken() returns (token: nat)
      modifies this`nextToken
      ensures token == old(nextToken)
      ensures nextToken == if token == 0 then 0 else Following(token)
    {
      token := nextToken;
      if token != 0 { nextToken := Following(token); }
    }

    /** mpvcontroller_adapter.cpp, `admit`. */
    method Admit(kind: Kind, posts: bool) returns (id: int)
      modifies this`nextToken, this`nextPublicId, this`requests, this`posted
      ensures State() == Requests.Admit(old(State()), kind, posts)
      ensures id == AdmissionResult(old(State()), posts)
    {
      if closing || !available { return UNINITIALIZED; }
      if nextPublicId > INT32_MAX { return NOMEM; }
      var token := AllocateNativeToken();
      if token == 0 { return NOMEM; }
      id := nextPublicId;
      nextPublicId := nextPublicId + 1;
      var before := requests;
      requests := requests[token := Request(id, kind, generation)];
      if !posts {
        requests := requests - {token};
        assert requests == before - {token};
        return UNINITIALIZED;
      }
      posted := posted + [Submit(token, kind)];
    }

    /** mpvcontroller_adapter.cpp, `receive`: only the reply of this kind and
        generation takes the request out of the table. */
    method Receive(kind: Kind, token: nat, replyGeneration: nat, error: int)
      modifies this`requests, this`gui
      ensures State() == Requests.Receive(old(State()), kind, token, replyGeneration, error)
    {
      if token !in requests || requests[token].kind != kind
         || requests[token].generation != generation || replyGeneration != generation { return; }
      var request := requests[token];
      requests := requests - {token};
      FinishRequest(request, error);
    }

    /** mpvcontroller_adapter.cpp, `finish`: a queued terminal signal. */
    method FinishRequest(request: Request, error: int)
      modifies this`gui
      ensures gui == old(gui) + [Finish(request.id, request.kind, error)]
    {
      gui := gui + [Finish(request.id, request.kind, error)];
    }

    /** mpvcontroller_adapter.cpp, `settleRequests`: the table is detached first,
        then each of its requests is finished, in whatever order it yields them. */
    method SettleRequests() returns (ghost tokens: seq<nat>)
      modifies this`requests, this`gui
      ensures Enumerates(tokens, old(requests))
      ensures State() == Requests.SettleRequests(old(State()), tokens)
    {
      var pending := requests;
      requests := map[];
      tokens := [];
      var left := pending.Keys;
      while left != {}
        invariant left <= pending.Keys
        invariant forall t :: t in tokens <==> t in pending.Keys - left
        invariant forall i :: 0 <= i < |tokens| ==> tokens[i] !in left
        invariant forall i, j :: 0 <= i < j < |tokens| ==> tokens[i] != tokens[j]
        invariant gui == old(gui) + Finishes(pending, tokens, UNINITIALIZED)
        modifies this`gui
      {
        var token :| token in left;
        FinishRequest(pending[token], UNINITIALIZED);
        assert (tokens + [token])[..|tokens|] == tokens;
        tokens := tokens + [token];
        left := left - {token};
      }
      assert pending == old(requests);
    }

    /** mpvcontroller_adapter.cpp, `shutdown`. */
    method ShutdownAdapter() returns (ghost tokens: seq<nat>)
      modifies this
      ensures if old(closing) then tokens == [] else Enumerates(tokens, old(requests))
      ensures State() == Requests.ShutdownAdapter(old(State()), tokens)
    {
      tokens := [];
      if closing { return; }
      closing := true;
      available := false;
      generation := generation + 1;
      tokens := SettleRequests();
      posted := posted + [ShutDown];
    }

    /** mpvplayer.cpp, `submitCommand`, `commandAsync` and their like: the id is
        entered in the facade's table before any event can be handled. */
    method Act(kind: Kind, caller: bool, posts: bool) returns (id: int)
      modifies this
      ensures State() == Requests.Act(old(State()), kind, caller, posts)
      ensures id == if old(shuttingDown) || !old(coreAvailable) then UNINITIALIZED
                    else AdmissionResult(old(State()), posts)
    {
      if shuttingDown || !coreAvailable { return UNINITIALIZED; }
      id := Admit(kind, posts);
      if id > 0 {
        owners := owners[id := Owner(kind, caller)];
        admitted := admitted[id := kind];
      }
    }

    /** mpvplayer.cpp, `complete`: the entry is erased before the signal. */
    method CompleteRequest(id: nat, kind: Kind, error: int)
      modifies this`owners, this`deliveries
      ensures State() == Requests.CompleteRequest(old(State()), id, kind, error)
    {
      if id !in owners || owners[id].kind != kind { return; }
      var owner := owners[id];
      owners := owners - {id};
      deliveries := deliveries + [Delivery(id, kind, owner.caller, error)];
    }

    /** The facade's table is detached, and each entry becomes a queued settlement. */
    method SettleOwners() returns (ghost ids: seq<nat>)
      modifies this`owners, this`gui
      ensures Enumerates(ids, old(owners))
      ensures owners == map[] && gui == old(gui) + Settles(old(owners), ids)
    {
      var table := owners;
      owners := map[];
      ids := [];
      var left := table.Keys;
      while left != {}
        invariant left <= table.Keys
        invariant forall id :: id in ids <==> id in table.Keys - left
        invariant forall i :: 0 <= i < |ids| ==> ids[i] !in left
        invariant forall i, j :: 0 <= i < j < |ids| ==> ids[i] != ids[j]
        invariant gui == old(gui) + Settles(table, ids)
        modifies this`gui
      {
        var id :| id in left;
        gui := gui + [Settle(id, table[id])];
        assert (ids + [id])[..|ids|] == ids;
        ids := ids + [id];
        left := left - {id};
      }
    }

    /** mpvplayer.cpp, the request part of `shutdown`; the adapter goes last. */
    method ShutdownFacade() returns (ghost ids: seq<nat>, ghost tokens: seq<nat>)
      modifies this
      ensures if old(shuttingDown) then ids == [] else Enumerates(ids, old(owners))
      ensures if old(shuttingDown) || old(closing) then tokens == [] else Enumerates(tokens, old(requests))
      ensures State() == Requests.ShutdownFacade(old(State()), ids, tokens)
    {
      ids, tokens := [], [];
      if shuttingDown { return; }
      shuttingDown := true;
      coreAvailable := false;
      ids := SettleOwners();
      ghost var before := old(State());
      assert State() == before.(shuttingDown := true, coreAvailable := false, owners := map[],
                                gui := before.gui + Settles(before.owners, ids));
      tokens := ShutdownAdapter();
    }

    /** mpvcontroller_adapter.cpp and mpvplayer.cpp, `coreUnavailable`. */
    method LoseCore() returns (ghost tokens: seq<nat>)
      modifies this
      ensures Enumerates(tokens, old(requests))
      ensures State() == Requests.Handle(old(State()), CoreUnavailable, tokens)
    {
      available := false;
      tokens := SettleRequests();
      coreAvailable := false;
    }
  }
}
