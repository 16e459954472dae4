/** The facade's setters, cancelling calls and synchronisation (mpvplayer.cpp).
    A signal runs its handlers before `emit` returns, and a handler may call the
    facade again. */
module PlayerFacade {
  import opened Native
  import opened Player
  import opened PlayerCalls

  class MpvPlayer {
    var available: bool
    var initialized: bool
    var renderError: int
    var source: string
    var fillMode: string
    var members: map<Property, Value>
    var propertyRevisions: map<Property, nat>
    var pendingProperties: map<Property, Value>
    var dirtyProperties: set<Property>
    var submitted: seq<Submission>
    var mediaRevision: nat
    var deferredInitActions: seq<Deferred>
    ghost var newest: map<Property, Value>
    ghost var deferrals: seq<Deferred>

    ghost function Now(): (s: State)
      reads this
    {
      State(available, initialized, renderError, source, fillMode, members, propertyRevisions, pendingProperties,
            dirtyProperties, newest, submitted, mediaRevision, deferredInitActions, deferrals)
    }

    /** A facade whose controller has a core or has none. The hardware decoder, the
        scaler and the fill mode are set from the start. */
    constructor (available: bool)
      ensures Quiet(Now()) && this.available == available && !initialized
      ensures members == DEFAULTS && submitted == [] && mediaRevision == 0 && deferrals == []
      ensures newest == INITIAL_INTENTS && forall p :: Revision(Now(), p) == if p in INITIAL_INTENTS then 1 else 0
    {
      this.available, initialized, renderError := available, false, 0;
      source, fillMode, members := "", "preserveAspectFit", DEFAULTS;
      propertyRevisions, pendingProperties, dirtyProperties := map[], map[], {};
      submitted, mediaRevision, deferredInitActions := [], 0, [];
      newest, deferrals := map[], [];
      new;
      InitialIntents(Now());
      var revision := Intend(Hwdec, Text("auto"));
      revision := Intend(Tscale, Text("mitchell"));
      revision := Intend(KeepAspect, Text("yes"));
      revision := Intend(PanScan, Amount(0.0));
    }

    method Intend(p: Property, value: Value) returns (revision: nat)
      modifies this`propertyRevisions, this`pendingProperties, this`dirtyProperties, this`newest
      ensures Now() == Intended(old(Now()), p, value) && revision == Revision(Now(), p)
    {
      revision := PropertyIntent(p, value);
    }

    // ----- intents -----

    /** mpvplayer.cpp, `propertyIntent`. */
    method PropertyIntent(p: Property, value: Value) returns (revision: nat)
      modifies this`propertyRevisions, this`pendingProperties, this`dirtyProperties, this`newest
      ensures revision == RevisionOf(old(propertyRevisions), p) + 1
      ensures propertyRevisions == old(propertyRevisions)[p := revision] && newest == old(newest)[p := value]
      ensures pendingProperties == if available then old(pendingProperties)[p := value] else old(pendingProperties)
      ensures dirtyProperties == if available then old(dirtyProperties) + {p} else old(dirtyProperties)
    {
      revision := (if p in propertyRevisions then propertyRevisions[p] else 0) + 1;
      propertyRevisions := propertyRevisions[p := revision];
      newest := newest[p := value];
      if available {
        pendingProperties := pendingProperties[p := value];
        dirtyProperties := dirtyProperties + {p};
      }
    }

    /** mpvplayer.cpp, `flushProperty`, for the revision its setter captured.
        Without a core the operation fails, whatever was asked. */
    method FlushProperty(p: Property, revision: nat, reply: Reply)
      requires Good(Now()) && Due(Now(), p, revision)
      requires Good(Flushed(Now(), p, revision))
      modifies this
      ensures Good(Now()) && Follows(Flushed(old(Now()), p, revision), Now())
      ensures Now() == AfterFlush(p, revision, reply, old(Now()))
      ensures reply.Accepted? ==> Now() == Flushed(old(Now()), p, revision)
      decreases ReplyWeight(reply), 3
    {
      if (if p in propertyRevisions then propertyRevisions[p] else 0) != revision { return; }
      if !available {
        FailOperation(reply);
        return;
      }
      if !initialized || renderError < 0 { return; }
      var value := pendingProperties[p];
      pendingProperties := pendingProperties - {p};
      dirtyProperties := dirtyProperties - {p};
      Submit(Intent(p, value, revision), reply);
    }

    /** A submission; the controller may refuse it at once, in the handler of
        which calls may follow, and without a core nothing reaches it. */
    method Submit(submission: Submission, reply: Reply)
      requires Good(Handed(Now(), submission))
      modifies this
      ensures Good(Now())
      ensures Follows(Handed(old(Now()), submission), Now())
      ensures Now() == AfterReply(reply, Handed(old(Now()), submission))
      ensures reply.Accepted? ==> Now() == Handed(old(Now()), submission)
      decreases ReplyWeight(reply), 2
    {
      if available { submitted := submitted + [submission]; }
      FailOperation(reply);
    }

    /** mpvplayer.cpp, `failOperation`, when the operation is refused. */
    method FailOperation(reply: Reply)
      requires Good(Now())
      modifies this
      ensures Good(Now()) && Follows(old(Now()), Now())
      ensures Now() == AfterReply(reply, old(Now()))
      ensures reply.Accepted? ==> Now() == old(Now())
      decreases ReplyWeight(reply), 1
    {
      if reply.Refused? { Emit(reply.handlers); }
    }

    /** A signal runs these handlers, each from the state its predecessor left. */
    method Emit(handlers: seq<Call>)
      requires Good(Now())
      modifies this
      ensures Good(Now()) && Follows(old(Now()), Now())
      ensures Now() == AfterAll(handlers, old(Now()))
      ensures handlers == [] ==> Now() == old(Now())
      decreases WeightAll(handlers), 9
    {
      var i := 0;
      while i < |handlers|
        invariant 0 <= i <= |handlers| && Good(Now()) && Follows(old(Now()), Now())
        invariant Now() == AfterAll(handlers[..i], old(Now()))
      {
        ghost var before := Now();
        PartWeighsLess(handlers, i);
        Execute(handlers[i]);
        FollowsIsTransitive(old(Now()), before, Now(), {});
        OneMoreAfter(handlers, i, old(Now()));
        i := i + 1;
      }
      assert handlers[..i] == handlers;
    }

    /** What the call was made for is done, and so is all that its handlers do. */
    method Execute(call: Call)
      requires Good(Now())
      modifies this
      ensures Good(Now()) && Follows(old(Now()), Now())
      ensures Promised(call, old(Now()), Now())
      ensures Now() == After(call, old(Now()))
      decreases Weight(call), 8
    {
      match call
      case SetProperty(_, _, _, _) => this.SetProperty(call);
      case SetFillMode(_, _, _, _) => this.SetFillMode(call);
      case SetSource(_, _, _) => ghost var signalled := this.SetSource(call);
      case Load(url, mode, reply) => this.Load(url, mode, reply);
      case SelectTrack(name, id, first, second) => this.SelectTrack(name, id, first, second);
      case MoveMouse(x, y, first, second) => SendMousePosition(x, y, first, second);
      case Stop(_, reply) => this.Stop(call);
      case Navigate(_, _) => this.Navigate(call);
    }

    /** A setter's signal, before its flush. */
    method Signal(handlers: seq<Call>, ghost start: State, ghost owed: set<Debt>)
      requires Good(Now()) && Owing(start, Now(), owed)
      requires forall o :: o in owed ==> Due(Now(), o.property, o.revision)
      modifies this
      ensures Good(Now()) && Owing(start, Now(), owed)
      ensures forall o :: o in owed ==> Due(Now(), o.property, o.revision)
      ensures AllLasting(old(Now()), Now())
      ensures Now() == AfterAll(handlers, old(Now()))
      ensures handlers == [] ==> Now() == old(Now())
      decreases WeightAll(handlers), 10
    {
      Emit(handlers);
      FollowsLasts(old(Now()), old(Now()), Now());
      forall o | o in owed ensures Due(Now(), o.property, o.revision) {
        StillDue(old(Now()), Now(), o.property, o.revision);
      }
      FollowsIsTransitive(start, old(Now()), Now(), owed);
    }

    /** mpvplayer.cpp, `SET_PROPERTY`: nothing for the value the member has;
        otherwise a new intent with that value, which only a newer one replaces. */
    method SetProperty(call: Call)
      requires Good(Now()) && call.SetProperty?
      modifies this
      ensures Good(Now()) && Follows(old(Now()), Now())
      ensures Promised(call, old(Now()), Now())
      ensures Now() == After(call, old(Now()))
      ensures Announces(call, old(Now())) && call.changed == [] && call.reply.Accepted? ==>
                Revision(Now(), call.property) == Revision(old(Now()), call.property) + 1
      decreases Weight(call), 7
    {
      var p, value := call.property, call.value;
      if p in members && members[p] == value { return; }
      var revision := IntendProperty(p, value);
      ghost var intended := Now();
      Signal(call.changed, old(Now()), {Debt(p, revision)});
      ghost var signalled := Now();
      FlushAfter(p, revision, call.reply, old(Now()), {Debt(p, revision)});
      assert {Debt(p, revision)} - {Debt(p, revision)} == {};
      SetterPromises(call, old(Now()), intended, signalled, Now());
    }

    /** The first two lines of a setter. */
    method IntendProperty(p: Property, value: Value) returns (revision: nat)
      requires Good(Now())
      modifies this`members, this`propertyRevisions, this`pendingProperties, this`dirtyProperties, this`newest
      ensures Good(Now()) && Owing(old(Now()), Now(), {Debt(p, revision)}) && Due(Now(), p, revision)
      ensures revision == Revision(Now(), p) == Revision(old(Now()), p) + 1
      ensures p in newest && newest[p] == value && p in members && members[p] == value
      ensures Now() == Registered(old(Now()), p, value)
    {
      SetterOwes(Now(), p, value);
      revision := RegisterProperty(p, value);
    }

    method RegisterProperty(p: Property, value: Value) returns (revision: nat)
      modifies this`members, this`propertyRevisions, this`pendingProperties, this`dirtyProperties, this`newest
      ensures Now() == Intended(old(Now()).(members := old(members)[p := value]), p, value)
      ensures revision == Revision(old(Now()), p) + 1
    {
      members := members[p := value];
      revision := Intend(p, value);
    }

    /** A setter's flush pays what it owes. */
    method FlushAfter(p: Property, revision: nat, reply: Reply, ghost start: State, ghost owed: set<Debt>)
      requires Good(Now()) && Owing(start, Now(), owed)
      requires Due(Now(), p, revision) && Revision(start, p) < revision
      modifies this
      ensures Good(Now()) && Owing(start, Now(), owed - {Debt(p, revision)})
      ensures forall q, r :: q != p && Due(old(Now()), q, r) ==> Due(Now(), q, r)
      ensures AllLasting(old(Now()), Now())
      ensures Now() == AfterFlush(p, revision, reply, old(Now()))
      ensures reply.Accepted? ==> Now() == Flushed(old(Now()), p, revision)
      decreases ReplyWeight(reply), 4
    {
      FlushPays(start, Now(), owed, p, revision);
      FlushProperty(p, revision, reply);
      FollowsLasts(old(Now()), Flushed(old(Now()), p, revision), Now());
      FollowsIsTransitive(start, Flushed(old(Now()), p, revision), Now(), owed - {Debt(p, revision)});
      forall q, r | q != p && Due(old(Now()), q, r) ensures Due(Now(), q, r) {
        StillDue(Flushed(old(Now()), p, revision), Now(), q, r);
      }
    }

    /** mpvplayer.cpp, `setFillMode`: two intents under one signal. */
    method SetFillMode(call: Call)
      requires Good(Now()) && call.SetFillMode?
      modifies this
      ensures Good(Now()) && Follows(old(Now()), Now())
      ensures Promised(call, old(Now()), Now())
      ensures Now() == After(call, old(Now()))
      decreases Weight(call), 7
    {
      if fillMode == call.mode { return; }
      var aspectRevision, scanRevision := IntendFillMode(call.mode);
      ghost var intended := Now();
      Signal(call.changed, old(Now()), {Debt(KeepAspect, aspectRevision), Debt(PanScan, scanRevision)});
      ghost var signalled := Now();
      FlushFillMode(aspectRevision, scanRevision, call.aspect, call.scan, old(Now()));
      FillModePromises(call, old(Now()), intended, signalled, Now());
    }

    method IntendFillMode(mode: string) returns (aspectRevision: nat, scanRevision: nat)
      requires Good(Now())
      modifies this`fillMode, this`propertyRevisions, this`pendingProperties, this`dirtyProperties, this`newest
      ensures Good(Now()) && Now() == FillModeRegistered(old(Now()), mode)
      ensures Owing(old(Now()), Now(), {Debt(KeepAspect, aspectRevision), Debt(PanScan, scanRevision)})
      ensures Due(Now(), KeepAspect, aspectRevision) && Due(Now(), PanScan, scanRevision)
      ensures aspectRevision == Revision(old(Now()), KeepAspect) + 1
      ensures scanRevision == Revision(old(Now()), PanScan) + 1
    {
      FillModeOwes(Now(), mode, Aspect(mode), Scan(mode));
      aspectRevision, scanRevision := RegisterFillMode(mode);
    }

    method RegisterFillMode(mode: string) returns (aspectRevision: nat, scanRevision: nat)
      modifies this`fillMode, this`propertyRevisions, this`pendingProperties, this`dirtyProperties, this`newest
      ensures Now() == FillModeRegistered(old(Now()), mode)
      ensures aspectRevision == Revision(old(Now()), KeepAspect) + 1
      ensures scanRevision == Revision(old(Now()), PanScan) + 1
    {
      fillMode := mode;
      aspectRevision := Intend(KeepAspect, Aspect(mode));
      scanRevision := Intend(PanScan, Scan(mode));
    }

    method FlushFillMode(aspectRevision: nat, scanRevision: nat, aspect: Reply, scan: Reply, ghost start: State)
      requires Good(Now()) && Owing(start, Now(), {Debt(KeepAspect, aspectRevision), Debt(PanScan, scanRevision)})
      requires Due(Now(), KeepAspect, aspectRevision) && Revision(start, KeepAspect) < aspectRevision
      requires Due(Now(), PanScan, scanRevision) && Revision(start, PanScan) < scanRevision
      modifies this
      ensures Good(Now()) && Follows(start, Now()) && AllLasting(old(Now()), Now())
      ensures Now() == AfterFlush(PanScan, scanRevision, scan,
                                  AfterFlush(KeepAspect, aspectRevision, aspect, old(Now())))
      decreases ReplyWeight(aspect) + ReplyWeight(scan), 5
    {
      ghost var owed := {Debt(KeepAspect, aspectRevision), Debt(PanScan, scanRevision)};
      FlushAfter(KeepAspect, aspectRevision, aspect, start, owed);
      ghost var middle := Now();
      FlushAfter(PanScan, scanRevision, scan, start, owed - {Debt(KeepAspect, aspectRevision)});
      assert owed - {Debt(KeepAspect, aspectRevision)} - {Debt(PanScan, scanRevision)} == {};
      LastingIsTransitive(old(Now()), middle, Now());
    }

    // ----- media intents and the deferred queue -----

    /** mpvplayer.cpp, `deferUntilRendererReady`. */
    method DeferUntilRendererReady(key: string, retry: Retry, reply: Reply) returns (handled: bool)
      requires Good(Now()) && Runnable(retry)
      modifies this
      ensures Good(Now())
      ensures handled <==> !Ready(old(Now()))
      ensures !handled ==> Now() == old(Now())
      ensures reply.Accepted? ==> propertyRevisions == old(propertyRevisions)
      ensures handled && old(available) ==>
                && deferrals == old(deferrals) + [Deferred(key, old(mediaRevision), retry)]
                && mediaRevision == old(mediaRevision)
      ensures Follows(old(Now()), Now())
      ensures handled ==> Now() == AfterDeferring(key, retry, reply, old(Now()))
      decreases ReplyWeight(reply), 2
    {
      if !available {
        FailOperation(reply);
        return true;
      }
      if initialized && renderError >= 0 { return false; }
      Enqueue(Deferred(key, mediaRevision, retry));
      return true;
    }

    /** The latest state follows any intervening commands. */
    method Enqueue(entry: Deferred)
      requires Good(Now()) && Runnable(entry.retry) && entry.revision == mediaRevision && available && !Ready(Now())
      modifies this`deferredInitActions, this`deferrals
      ensures Good(Now()) && Follows(old(Now()), Now())
      ensures Now() == old(Now()).(deferred := Enqueued(old(deferredInitActions), entry),
                                   deferrals := old(deferrals) + [entry])
    {
      QueueIsCompaction(deferrals, entry);
      if entry.key != "" { EraseFirst(entry.key); }
      deferredInitActions := deferredInitActions + [entry];
      deferrals := deferrals + [entry];
      forall p ensures Kept(old(Now()), Now(), {}, p) {}
    }

    /** The loop that removes the waiting entry of a key. */
    method EraseFirst(key: string)
      modifies this`deferredInitActions
      ensures deferredInitActions == Without(old(deferredInitActions), key)
    {
      ghost var queue := deferredInitActions;
      var i := 0;
      while i < |deferredInitActions|
        invariant 0 <= i <= |queue| && deferredInitActions == queue
        invariant queue[..i] + Without(queue[i..], key) == Without(queue, key)
      {
        WithoutPasses(queue, i, key);
        if deferredInitActions[i].key == key {
          deferredInitActions := deferredInitActions[..i] + deferredInitActions[i + 1..];
          return;
        }
        i := i + 1;
      }
    }

    /** A stop, a navigation or a new source: the queue starts over. */
    method Cancel()
      modifies this`mediaRevision, this`deferredInitActions, this`deferrals
      ensures Now() == Cancelled(old(Now()))
    {
      mediaRevision := mediaRevision + 1;
      deferredInitActions := [];
      deferrals := [];
    }

    /** mpvplayer.cpp, `setSource`: a cancelling call or another source in the
        handlers of `sourceChanged` keeps this source from being loaded; nothing
        happens after them then. `signalled` is the state when they are done. */
    method SetSource(call: Call) returns (ghost signalled: State)
      requires Good(Now()) && call.SetSource?
      modifies this
      ensures Good(Now()) && Follows(old(Now()), Now())
      ensures PromisedSource(old(Now()), Now(), call.url)
      ensures Follows(old(Now()), signalled)
      ensures old(mediaRevision) + 1 < signalled.mediaRevision ==> Now() == signalled
      ensures call.url != old(source) ==>
                signalled == AfterAll(call.changed, Cancelled(old(Now()).(source := call.url)))
      ensures Now() == After(call, old(Now()))
      decreases Weight(call), 7
    {
      signalled := Now();
      ChangesNothing(signalled);
      if source == call.url { return; }
      var revision := AnnounceSource(call.url, call.changed);
      signalled := Now();
      if revision == mediaRevision {
        this.Load(call.url, "replace", call.reply);
        FollowsIsTransitive(old(Now()), signalled, Now(), {});
      }
    }

    /** The new source, the media revision it was given, and its signal. */
    method AnnounceSource(url: string, changed: seq<Call>) returns (revision: nat)
      requires Good(Now()) && url != source
      modifies this
      ensures Good(Now()) && Follows(old(Now()), Now())
      ensures revision == old(mediaRevision) + 1 <= mediaRevision
      ensures mediaRevision == revision ==> source == url
      ensures Now() == AfterAll(changed, Cancelled(old(Now()).(source := url)))
      decreases WeightAll(changed), 10
    {
      CancelledFollows(Now(), url);
      revision := TakeSource(url);
      ghost var before := Now();
      Emit(changed);
      FollowsIsTransitive(old(Now()), before, Now(), {});
    }

    method TakeSource(url: string) returns (revision: nat)
      modifies this`source, this`mediaRevision, this`deferredInitActions, this`deferrals
      ensures Now() == Cancelled(old(Now()).(source := url)) && revision == mediaRevision
    {
      source := url;
      Cancel();
      revision := mediaRevision;
    }

    /** mpvplayer.cpp, `load`. */
    method Load(url: string, mode: string, reply: Reply)
      requires Good(Now())
      modifies this
      ensures Good(Now()) && Follows(old(Now()), Now())
      ensures url != "" && Ready(old(Now())) ==>
                old(submitted) + [Command(["loadfile", url, mode])] <= submitted
      ensures PromisedLoad(old(Now()), Now(), url, mode)
      ensures Now() == AfterLoad(url, mode, reply, old(Now()))
      ensures reply.Accepted? ==> propertyRevisions == old(propertyRevisions)
      decreases ReplyWeight(reply), 4
    {
      if url == "" { return; }
      var handled := DeferUntilRendererReady("", LoadAgain(url, mode), reply);
      if handled { return; }
      SubmitOther(Command(["loadfile", url, mode]), reply);
      assert submitted[|old(submitted)|] == Command(["loadfile", url, mode]);
    }

    /** A submission that is nobody's property intent. */
    method SubmitOther(submission: Submission, reply: Reply)
      requires Good(Now()) && !submission.Intent?
      modifies this
      ensures Good(Now()) && Follows(old(Now()), Now())
      ensures available ==> old(submitted) + [submission] <= submitted
      ensures Now() == AfterReply(reply, Handed(old(Now()), submission))
      ensures reply.Accepted? ==> propertyRevisions == old(propertyRevisions)
      decreases ReplyWeight(reply), 3
    {
      OtherFollows(Now(), submission);
      Submit(submission, reply);
      if available { FollowsIsTransitive(old(Now()), Handed(old(Now()), submission), Now(), {}); }
    }

    /** mpvplayer.cpp, `selectTrack`; a video track loads the source again. */
    method SelectTrack(name: string, id: int, first: Reply, second: Reply)
      requires Good(Now())
      modifies this
      ensures Good(Now()) && Follows(old(Now()), Now())
      ensures PromisedTrack(old(Now()), Now(), name, id)
      ensures Now() == After(Call.SelectTrack(name, id, first, second), old(Now()))
      ensures first.Accepted? && second.Accepted? ==> propertyRevisions == old(propertyRevisions)
      decreases ReplyWeight(first) + ReplyWeight(second), 6
    {
      ghost var start := Now();
      ChangesNothing(start);
      if name != "aid" && name != "vid" && name != "sid" { return; }
      var handled := DeferUntilRendererReady(name, TrackAgain(name, id), first);
      if handled { return; }
      ChooseTrack(name, id, first, second);
    }

    method ChooseTrack(name: string, id: int, first: Reply, second: Reply)
      requires Good(Now()) && Ready(Now()) && (name == "aid" || name == "vid" || name == "sid")
      modifies this
      ensures Good(Now()) && Follows(old(Now()), Now())
      ensures PromisedTrack(old(Now()), Now(), name, id)
      ensures Now() == AfterChoice(name, id, first, second, old(Now()))
      ensures first.Accepted? && second.Accepted? ==> propertyRevisions == old(propertyRevisions)
      decreases ReplyWeight(first) + ReplyWeight(second), 5
    {
      SubmitOther(Other(name, if id <= 0 then Text("no") else Amount(id as real)), first);
      if name == "vid" && source != "" {
        ghost var before := Now();
        this.Load(source, "replace", second);
        assert submitted[|before.submitted|] == Command(["loadfile", before.source, "replace"]);
        FollowsIsTransitive(old(Now()), before, Now(), {});
      }
    }

    /** mpvplayer.cpp, `sendMousePosition`. */
    method SendMousePosition(x: int, y: int, first: Reply, second: Reply)
      requires Good(Now())
      modifies this
      ensures Good(Now()) && Follows(old(Now()), Now())
      ensures PromisedMouse(old(Now()), Now(), x, y)
      ensures Now() == After(MoveMouse(x, y, first, second), old(Now()))
      ensures first.Accepted? && second.Accepted? ==> propertyRevisions == old(propertyRevisions)
      decreases ReplyWeight(first) + ReplyWeight(second), 5
    {
      var handled := DeferUntilRendererReady("mouse-pos", MouseAgain(x, y), first);
      if handled { return; }
      PlaceMouse(x, y, first, second);
    }

    method PlaceMouse(x: int, y: int, first: Reply, second: Reply)
      requires Good(Now()) && Ready(Now())
      modifies this
      ensures Good(Now()) && Follows(old(Now()), Now())
      ensures PromisedMouse(old(Now()), Now(), x, y)
      ensures Now() == AfterMouse(x, y, first, second, old(Now()))
      ensures first.Accepted? && second.Accepted? ==> propertyRevisions == old(propertyRevisions)
      decreases ReplyWeight(first) + ReplyWeight(second), 4
    {
      SubmitOther(Other("mouse-pos/x", Amount(x as real)), first);
      ghost var before := Now();
      SubmitOther(Other("mouse-pos/y", Amount(y as real)), second);
      assert submitted[|before.submitted|] == Other("mouse-pos/y", Amount(y as real));
      FollowsIsTransitive(old(Now()), before, Now(), {});
    }

    /** mpvplayer.cpp, `stop`. */
    method Stop(call: Call)
      requires Good(Now()) && call.Stop?
      modifies this
      ensures Good(Now()) && Follows(old(Now()), Now())
      ensures PromisedCommand(old(Now()), Now(), if call.keepPlaylist then ["stop", "keep-playlist"] else ["stop"])
      ensures Now() == After(call, old(Now()))
      decreases Weight(call), 7
    {
      CancelledFollows(Now(), source);
      Cancel();
      ghost var before := Now();
      SubmitOther(Command(if call.keepPlaylist then ["stop", "keep-playlist"] else ["stop"]), call.reply);
      FollowsIsTransitive(old(Now()), before, Now(), {});
    }

    /** mpvplayer.cpp, `next` and `previous`. */
    method Navigate(call: Call)
      requires Good(Now()) && call.Navigate?
      modifies this
      ensures Good(Now()) && Follows(old(Now()), Now())
      ensures PromisedCommand(old(Now()), Now(), [if call.forward then "playlist-next" else "playlist-prev", "force"])
      ensures Now() == After(call, old(Now()))
      decreases Weight(call), 7
    {
      CancelledFollows(Now(), source);
      Cancel();
      ghost var before := Now();
      SubmitOther(Command([if call.forward then "playlist-next" else "playlist-prev", "force"]), call.reply);
      FollowsIsTransitive(old(Now()), before, Now(), {});
    }

    // ----- what reaches the facade from outside -----

    /** A call from the application, with everything its handlers do. */
    method Invoke(call: Call)
      requires Quiet(Now())
      modifies this
      ensures Quiet(Now()) && Follows(old(Now()), Now())
      ensures Promised(call, old(Now()), Now())
      ensures Now() == After(call, old(Now()))
    {
      Execute(call);
      CallsStayQuiet(old(Now()), Now());
    }

    /** An observed value: while an intent waits for the renderer, the member
        keeps the intent. */
    method PropertyChanged(p: Property, value: Value, changed: seq<Call>)
      requires Quiet(Now())
      modifies this
      ensures Quiet(Now())
      ensures !Ready(old(Now())) && p in old(pendingProperties) ==> Now() == old(Now())
      ensures Ready(old(Now())) || p !in old(pendingProperties) ==>
                Follows(old(Now()).(members := old(members)[p := value]), Now())
      ensures Ready(old(Now())) || p !in old(pendingProperties) ==>
                Now() == (if p in old(members) && old(members)[p] == value then old(Now())
                          else AfterAll(changed, old(Now()).(members := old(members)[p := value])))
    {
      ChangesNothing(Now());
      if (!initialized || renderError < 0) && p in pendingProperties { return; }
      if p in members && members[p] == value {
        assert members == members[p := value];
        return;
      }
      members := members[p := value];
      ghost var observed := Now();
      MemberStaysQuiet(old(Now()), observed.members);
      Emit(changed);
      CallsStayQuiet(observed, Now());
    }

    /** mpvplayer.cpp, `rendererStatus` for the current generation; a renderer
        that failed is not ready. The error changes with its code or its message.
        `gate` is the state in which the facade becomes ready, `detached` the one
        in which the replay of its queue starts. */
    method RendererStatus(readyValue: bool, error: int, newMessage: bool, errorChanged: seq<Call>,
                          readyChanged: seq<Call>, failed: seq<Call>, replies: seq<Reply>, retries: seq<(Reply, Reply)>)
      returns (ghost gate: State, ghost detached: State, ghost ran: seq<Deferred>, ghost ends: seq<State>)
      requires Quiet(Now()) && (error < 0 ==> !readyValue)
      modifies this
      ensures Quiet(Now()) && renderError == error && available == old(available)
      ensures initialized <==> readyValue && (old(initialized) || available)
      ensures available && readyValue ==> Ready(Now()) && pendingProperties == map[]
      ensures AllLasting(old(Now()), Now())
      ensures var becomes := readyValue && !old(initialized) && available;
              && (!becomes ==> LogsKept(old(Now()), Now()))
              && (becomes ==>
                    && SyncLeaves(old(Now()), Now()) && (forall p :: DeliveredExactly(old(Now()), Now(), p))
                    && Follows(old(Now()).(renderError := error), gate)
                    && gate.submitted <= detached.submitted
                    && RanQueue(gate.mediaRevision, gate.deferred, detached, ran, ends, Now()))
      ensures gate == AfterError(error, newMessage, errorChanged, old(Now()))
      ensures Now() == (if readyValue && !old(initialized) && available
                        then AfterSync(replies, retries, AfterAll(readyChanged, gate.(initialized := true)))
                        else AfterLoss(readyValue, error, readyChanged, failed, gate))
      ensures errorChanged == readyChanged == failed == [] && replies == [] && retries == [] ==>
                propertyRevisions == old(propertyRevisions)
    {
      ghost var start := Now();
      if renderError != error || newMessage {
        renderError := error;
        ReportStatus(errorChanged);
      } else {
        ChangesNothing(Now());
      }
      gate := Now();
      StatusKeepsLogs(start, start.(renderError := error), gate);
      detached, ran, ends := gate, [], [];
      if readyValue && !initialized && available {
        detached, ran, ends := BecomeReady(readyChanged, replies, retries);
        ReadyLeaves(start, start.(renderError := error), gate, Now());
        return;
      }
      StayBehind(readyValue, error, readyChanged, failed);
      LogsKeptTogether(start, gate, Now());
    }

    /** The rest of a status that makes nothing ready. */
    method StayBehind(readyValue: bool, error: int, readyChanged: seq<Call>, failed: seq<Call>)
      requires Accounted(Now()) && renderError == error && (error < 0 ==> !readyValue)
      requires !readyValue || Quiet(Now())
      requires readyValue ==> initialized || !available
      modifies this
      ensures Quiet(Now()) && renderError == error && available == old(available)
      ensures initialized == (readyValue && old(initialized))
      ensures AllLasting(old(Now()), Now()) && LogsKept(old(Now()), Now())
      ensures Now() == AfterLoss(readyValue, error, readyChanged, failed, old(Now()))
      ensures readyChanged == failed == [] ==> propertyRevisions == old(propertyRevisions)
    {
      ghost var start := Now();
      ghost var lost := start.(initialized := initialized && readyValue);
      ChangesNothing(start);
      if !readyValue && initialized {
        initialized := false;
        ReportStatus(readyChanged);
      }
      ghost var before := Now();
      StatusKeepsLogs(start, lost, before);
      if error < 0 {
        ReportStatus(failed);
        StatusKeepsLogs(before, before, Now());
        LogsKeptTogether(start, before, Now());
      }
    }

    /** The handler of `ready`. */
    method BecomeReady(readyChanged: seq<Call>, replies: seq<Reply>, retries: seq<(Reply, Reply)>)
      returns (ghost detached: State, ghost ran: seq<Deferred>, ghost ends: seq<State>)
      requires Accounted(Now()) && available && renderError >= 0
      modifies this
      ensures Quiet(Now()) && Ready(Now()) && renderError == old(renderError)
      ensures SyncLeaves(old(Now()), Now()) && AllLasting(old(Now()), Now())
      ensures RanQueue(old(mediaRevision), old(deferredInitActions), detached, ran, ends, Now())
      ensures old(submitted) <= detached.submitted
      ensures Now() == AfterSync(replies, retries, AfterAll(readyChanged, old(Now()).(initialized := true)))
      ensures readyChanged == [] && replies == [] && retries == [] ==> propertyRevisions == old(propertyRevisions)
    {
      initialized := true;
      ghost var start := Now();
      ReportStatus(readyChanged);
      ghost var reported := Now();
      ghost var own, at;
      own, at, detached, ran, ends := SyncProperties(replies, retries);
      ReadyLeaves(old(Now()), start, reported, Now());
      QueueRanFrom(start, reported, detached, ran, ends, Now());
    }

    /** A signal in the middle of a status change: no intent is lost. */
    method ReportStatus(handlers: seq<Call>)
      requires Accounted(Now())
      modifies this
      ensures Accounted(Now()) && Follows(old(Now()), Now())
      ensures Quiet(old(Now())) ==> Quiet(Now())
      ensures Now() == AfterAll(handlers, old(Now()))
      ensures handlers == [] ==> Now() == old(Now())
    {
      Emit(handlers);
      CallsKeepAccounts(old(Now()), Now());
      if Quiet(old(Now())) { CallsStayQuiet(old(Now()), Now()); }
    }

    /** mpvplayer.cpp, `coreUnavailable`: nothing waits for a core that is gone. */
    method CoreUnavailable(changed: seq<Call>, reply: Reply)
      requires Quiet(Now())
      modifies this
      ensures Quiet(Now()) && !available && pendingProperties == map[] && deferredInitActions == []
      ensures Now() == AfterReply(reply, AfterAll(changed, old(Now()).(
                         available := false, deferred := [], deferrals := [], pending := map[], dirty := {})))
    {
      DroppingKeepsGood(Now());
      available := false;
      deferredInitActions, deferrals := [], [];
      pendingProperties, dirtyProperties := map[], {};
      Emit(changed);
      ghost var before := Now();
      FailOperation(reply);
    }

    // ----- synchronisation -----

    /** mpvplayer.cpp, `syncProperties`, called when the renderer is ready: first
        the dirty properties, then, from `detached` on, the deferred actions. */
    method SyncProperties(replies: seq<Reply>, retries: seq<(Reply, Reply)>)
      returns (ghost own: seq<Property>, ghost at: seq<nat>,
               ghost detached: State, ghost ran: seq<Deferred>, ghost ends: seq<State>)
      requires Accounted(Now()) && Ready(Now())
      modifies this
      ensures Synchronised(old(Now()), Now(), own, detached, ran, ends)
      ensures InTurn(own, at, old(Now()), detached.submitted, old(pendingProperties), PROPERTIES)
      ensures old(submitted) <= detached.submitted
      ensures Ready(Now()) && deferredInitActions == [] && renderError == old(renderError)
      ensures Now() == AfterSync(replies, retries, old(Now()))
      ensures replies == [] && retries == [] ==> propertyRevisions == old(propertyRevisions)
    {
      own, at := SubmitDirty(replies);
      ghost var before := Now();
      detached := before.(deferred := [], deferrals := []);
      ran, ends := ReplayDeferred(retries);
      SyncEnds(old(Now()), before, Now(), own, ran, ends);
    }

    /** The first loop of `syncProperties`. `own` are the properties it submits
        itself, each at its place in the log; a property with a newer intent by
        then was settled by its own setter. */
    method SubmitDirty(replies: seq<Reply>) returns (ghost own: seq<Property>, ghost at: seq<nat>)
      requires Accounted(Now()) && Ready(Now())
      modifies this
      ensures Accounted(Now()) && Ready(Now()) && pendingProperties == map[] && renderError == old(renderError)
      ensures InTurn(own, at, old(Now()), submitted, old(pendingProperties), PROPERTIES)
      ensures Covered(own, old(Now()), Now(), old(pendingProperties), PROPERTIES)
      ensures SyncLeaves(old(Now()), Now()) && AllLasting(old(Now()), Now())
      ensures forall p :: DeliveredExactly(old(Now()), Now(), p)
      ensures old(mediaRevision) <= mediaRevision && deferrals == Uncancelled(old(Now()), Now())
      ensures old(submitted) <= submitted
      ensures Now() == AfterDirty(replies, old(Now()))
      ensures replies == [] ==> propertyRevisions == old(propertyRevisions)
    {
      var dirty, pending := dirtyProperties, pendingProperties;
      SyncStarts(Now());
      dirtyProperties, pendingProperties := {}, map[];
      own, at := SubmitInOrder(dirty, pending, propertyRevisions, replies);
      SyncDelivers(old(Now()), Now());
      forall p { DeliveredExactlyWhen(old(Now()), Now(), p); }
    }

    method SubmitInOrder(dirty: set<Property>, pending: map<Property, Value>, revisions: map<Property, nat>,
                         replies: seq<Reply>)
      returns (ghost own: seq<Property>, ghost at: seq<nat>)
      requires dirty == pending.Keys && revisions == propertyRevisions
      requires SyncProgress([], [], Now(), Now(), pending, 0)
      modifies this
      ensures SyncProgress(own, at, old(Now()), Now(), pending, PROPERTIES) && renderError == old(renderError)
      ensures Now() == AfterTurns(PROPERTIES, pending, revisions, replies, old(Now()))
      ensures replies == [] ==> propertyRevisions == old(propertyRevisions)
    {
      ghost var start := Now();
      own, at := [], [];
      var k := 0;
      while k < PROPERTIES
        invariant 0 <= k <= PROPERTIES && SyncProgress(own, at, start, Now(), pending, k)
        invariant renderError == old(renderError) && (replies == [] ==> propertyRevisions == old(propertyRevisions))
        invariant Now() == AfterTurns(k, pending, revisions, replies, start)
      {
        var reply := if k < |replies| then replies[k] else Accepted;
        own, at := TakeTurn(k, dirty, pending, revisions, reply, own, at, start);
        k := k + 1;
      }
    }

    /** One property in its turn. */
    method TakeTurn(k: nat, dirty: set<Property>, pending: map<Property, Value>, revisions: map<Property, nat>,
                    reply: Reply, ghost was: seq<Property>, ghost wasAt: seq<nat>, ghost start: State)
      returns (ghost own: seq<Property>, ghost at: seq<nat>)
      requires k < PROPERTIES && SyncProgress(was, wasAt, start, Now(), pending, k) && start.available
      requires dirty == pending.Keys && revisions == start.revisions
      modifies this
      ensures SyncProgress(own, at, start, Now(), pending, k + 1) && renderError == old(renderError)
      ensures Now() == AfterTurn(k, pending, revisions, reply, old(Now()))
      ensures reply.Accepted? ==> propertyRevisions == old(propertyRevisions)
    {
      var p := At(k);
      own, at := was, wasAt;
      if p !in dirty || RevisionOf(revisions, p) != RevisionOf(propertyRevisions, p) || Skipped(p, pending[p]) {
        SkipInTurn(own, at, start, Now(), pending, k);
      } else {
        own, at := SubmitPending(k, pending, reply, own, at, start);
      }
    }

    /** The submission of one dirty property in its turn. */
    method SubmitPending(k: nat, pending: map<Property, Value>, reply: Reply,
                         ghost was: seq<Property>, ghost wasAt: seq<nat>, ghost start: State)
      returns (ghost own: seq<Property>, ghost at: seq<nat>)
      requires k < PROPERTIES && SyncProgress(was, wasAt, start, Now(), pending, k) && start.available
      requires At(k) in pending && !Skipped(At(k), pending[At(k)]) && Revision(start, At(k)) == Revision(Now(), At(k))
      modifies this
      ensures SyncProgress(own, at, start, Now(), pending, k + 1) && renderError == old(renderError)
      ensures own == was + [At(k)] && at == wasAt + [old(|submitted|)]
      ensures Now() == AfterReply(reply, Handed(old(Now()), Intent(At(k), pending[At(k)], Revision(old(Now()), At(k)))))
      ensures reply.Accepted? ==> propertyRevisions == old(propertyRevisions)
    {
      TurnIsThrifty(was, wasAt, start, Now(), pending, k);
      Submit(Intent(At(k), pending[At(k)], RevisionOf(propertyRevisions, At(k))), reply);
      SubmitInTurn(was, wasAt, start, old(Now()), Now(), pending, k);
      own, at := was + [At(k)], wasAt + [|old(submitted)|];
    }

    /** The second loop of `syncProperties`: the detached actions run in order
        until one of them, or a handler it set off, cancels; from then on each
        finds another media revision than it captured and does nothing. */
    method ReplayDeferred(retries: seq<(Reply, Reply)>) returns (ghost ran: seq<Deferred>, ghost ends: seq<State>)
      requires Good(Now()) && Ready(Now())
      modifies this
      ensures Good(Now()) && Follows(old(Now()).(deferred := [], deferrals := []), Now()) && deferredInitActions == []
      ensures RanQueue(old(mediaRevision), old(deferredInitActions), old(Now()).(deferred := [], deferrals := []),
                       ran, ends, Now())
      ensures Now() == AfterActions(old(deferredInitActions), |old(deferredInitActions)|, retries,
                                    old(Now()).(deferred := [], deferrals := []))
      ensures retries == [] ==> propertyRevisions == old(propertyRevisions)
    {
      var actions := deferredInitActions;
      CompactIsFromLog(deferrals);
      deferredInitActions := [];
      deferrals := [];
      ran, ends := ReplayActions(actions, retries);
    }

    method ReplayActions(actions: seq<Deferred>, retries: seq<(Reply, Reply)>)
      returns (ghost ran: seq<Deferred>, ghost ends: seq<State>)
      requires Good(Now()) && Ready(Now())
      requires forall d :: d in actions ==> d.revision == mediaRevision && Runnable(d.retry)
      modifies this
      ensures Replaying(old(Now()), actions, |actions|, ran, ends, Now())
      ensures Now() == AfterActions(actions, |actions|, retries, old(Now()))
      ensures retries == [] ==> propertyRevisions == old(propertyRevisions)
    {
      ghost var start := Now();
      ReplayStarts(start, actions);
      ran, ends := [], [];
      var i := 0;
      while i < |actions|
        invariant 0 <= i <= |actions| && Replaying(start, actions, i, ran, ends, Now())
        invariant retries == [] ==> propertyRevisions == old(propertyRevisions)
        invariant i > 0 ==> Now() == AfterActions(actions, i, retries, start)
      {
        ran, ends := ReplayOne(actions, i, retries, start, ran, ends);
        i := i + 1;
      }
    }

    /** A detached action runs if it finds the media revision it captured. */
    method ReplayOne(actions: seq<Deferred>, i: nat, retries: seq<(Reply, Reply)>, ghost start: State,
                     ghost was: seq<Deferred>, ghost wasEnds: seq<State>)
      returns (ghost ran: seq<Deferred>, ghost ends: seq<State>)
      requires i < |actions| && Replaying(start, actions, i, was, wasEnds, Now()) && Ready(start)
      requires forall d :: d in actions ==> d.revision == start.mediaRevision && Runnable(d.retry)
      modifies this
      ensures Replaying(start, actions, i + 1, ran, ends, Now())
      ensures old(Now()) == AfterActions(actions, i, retries, start) ==>
                Now() == AfterActions(actions, i + 1, retries, start)
      ensures retries == [] ==> propertyRevisions == old(propertyRevisions)
    {
      var replies := RetryReplies(retries, i);
      ran, ends := was, wasEnds;
      assert actions[i] in actions;
      if actions[i].revision != mediaRevision {
        ReplaySkips(start, actions, i, ran, ends, Now());
        return;
      }
      Run(actions[i], replies.0, replies.1);
      ReplayRuns(start, actions, i, ran, ends, old(Now()), Now());
      ran, ends := was + [actions[i]], wasEnds + [Now()];
    }

    /** A closure runs the call it was made from once more, which it may only
        while nothing has cancelled it. */
    method Run(d: Deferred, first: Reply, second: Reply)
      requires Good(Now()) && Ready(Now()) && Runnable(d.retry) && d.revision == mediaRevision
      modifies this
      ensures Good(Now()) && Follows(old(Now()), Now())
      ensures old(submitted) + [FirstOf(d.retry)] <= submitted
      ensures Now() == After(Again(d.retry, first, second), old(Now()))
      ensures first.Accepted? && second.Accepted? ==> propertyRevisions == old(propertyRevisions)
    {
      match d.retry
      case LoadAgain(url, mode) => this.Load(url, mode, first);
      case TrackAgain(name, id) => this.SelectTrack(name, id, first, second);
      case MouseAgain(x, y) => SendMousePosition(x, y, first, second);
    }
  }

  /** The newest shader list, and the one handed over last. */
  ghost predicate Lists(s: State, newest: string, sent: Option<Value>) {
    && s.available && s.renderError == 0 && Quiet(s)
    && GlslShaders in s.newest && s.newest[GlslShaders] == Text(newest)
    && GlslShaders in s.members && s.members[GlslShaders] == Text(newest)
    && LastSent(s.submitted, GlslShaders) == sent
  }

  /** The application sets another shader list, and nobody listens. */
  method SetList(player: MpvPlayer, list: string)
    requires Quiet(player.Now()) && player.available && player.renderError == 0
    requires GlslShaders in player.members && player.members[GlslShaders] != Text(list)
    modifies player
    ensures player.initialized == old(player.initialized)
    ensures Lists(player.Now(), list, if player.initialized then Some(Text(list))
                                      else LastSent(old(player.submitted), GlslShaders))
    ensures !player.initialized ==> GlslShaders in player.pendingProperties
  {
    player.SetProperty(Call.SetProperty(GlslShaders, Text(list), [], Accepted));
    CallsStayQuiet(old(player.Now()), player.Now());
    assert Kept(old(player.Now()), player.Now(), {}, GlslShaders);
  }

  /** The renderer comes or goes, and nobody listens. */
  method SetRenderer(player: MpvPlayer, ready: bool, ghost newest: string)
    requires Lists(player.Now(), newest, LastSent(player.submitted, GlslShaders))
    requires ready && !player.initialized && GlslShaders in player.pendingProperties ==> newest == ""
    modifies player
    ensures Lists(player.Now(), newest, LastSent(old(player.submitted), GlslShaders)) && player.initialized == ready
  {
    ghost var gate, detached, ran, ends := player.RendererStatus(ready, 0, false, [], [], [], [], []);
    assert Lasting(old(player.Now()), player.Now(), GlslShaders);
  }

  /** A new facade with its first renderer. */
  method FirstReady() returns (player: MpvPlayer)
    ensures fresh(player) && Quiet(player.Now()) && player.available && player.renderError == 0 && player.initialized
    ensures GlslShaders in player.members && player.members[GlslShaders] == Text("")
  {
    player := new MpvPlayer(true);
    ghost var created := player.Now();
    ghost var gate, detached, ran, ends := player.RendererStatus(true, 0, false, [], [], [], [], []);
    MemberLasts(created, player.Now(), GlslShaders);
  }

  /** Made while there is no renderer, an empty shader list never replaces the list
      handed over before: ready, "a", renderer lost, "", ready. */
  method EmptyListStaysBehind() returns (player: MpvPlayer)
    ensures fresh(player) && Ready(player.Now()) && Lists(player.Now(), "", Some(Text("a")))
  {
    player := FirstReady();
    assert |"a"| == 1 && Text("a") != Text("");
    SetList(player, "a");
    SetRenderer(player, false, "a");
    assert |"a"| == 1;
    SetList(player, "");
    SetRenderer(player, true, "");
  }
}
