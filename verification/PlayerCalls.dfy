/** What a call on the facade does, with everything its handlers do, as a value:
    the state after it. */
module PlayerCalls {
  import opened Native
  import opened Player

  /** The log, the media revision and the revision of every intent only grow, and
      no call moves the core or the renderer. */
  ghost predicate Grown(a: State, b: State) {
    && a.submitted <= b.submitted && a.mediaRevision <= b.mediaRevision
    && b.available == a.available && b.initialized == a.initialized && b.renderError == a.renderError
  }

  /** The queue starts over under a new media revision. */
  function Cancelled(s: State): State {
    s.(mediaRevision := s.mediaRevision + 1, deferred := [], deferrals := [])
  }

  function Aspect(mode: string): Value {
    Text(if mode == "stretch" then "no" else "yes")
  }

  function Scan(mode: string): Value {
    Amount(if mode == "preserveAspectCrop" then 1.0 else 0.0)
  }

  /** A setter's state when its signal is emitted. */
  function Registered(s: State, p: Property, value: Value): State {
    Intended(s.(members := s.members[p := value]), p, value)
  }

  function FillModeRegistered(s: State, mode: string): State {
    Intended(Intended(s.(fillMode := mode), KeepAspect, Aspect(mode)), PanScan, Scan(mode))
  }

  function StopCommand(keepPlaylist: bool): Submission {
    Command(if keepPlaylist then ["stop", "keep-playlist"] else ["stop"])
  }

  function NavigateCommand(forward: bool): Submission {
    Command([if forward then "playlist-next" else "playlist-prev", "force"])
  }

  function TrackChoice(name: string, id: int): Submission {
    Other(name, if id <= 0 then Text("no") else Amount(id as real))
  }

  predicate IsTrack(name: string) {
    name == "aid" || name == "vid" || name == "sid"
  }

  ghost function After(call: Call, s: State): (b: State)
    ensures Grown(s, b)
    decreases Weight(call), 0
  {
    match call
    case SetProperty(p, value, changed, reply) =>
      if p in s.members && s.members[p] == value then s
      else AfterFlush(p, Revision(s, p) + 1, reply, AfterAll(changed, Registered(s, p, value)))
    case SetFillMode(mode, changed, aspect, scan) =>
      if mode == s.fillMode then s
      else
        AfterFlush(PanScan, Revision(s, PanScan) + 1, scan,
          AfterFlush(KeepAspect, Revision(s, KeepAspect) + 1, aspect, AfterAll(changed, FillModeRegistered(s, mode))))
    case SetSource(url, changed, reply) =>
      if url == s.source then s
      else
        var signalled := AfterAll(changed, Cancelled(s.(source := url)));
        if signalled.mediaRevision != s.mediaRevision + 1 then signalled
        else AfterLoad(url, "replace", reply, signalled)
    case Load(url, mode, reply) => AfterLoad(url, mode, reply, s)
    case SelectTrack(name, id, first, second) =>
      if !IsTrack(name) then s
      else if !Ready(s) then AfterDeferring(name, TrackAgain(name, id), first, s)
      else AfterChoice(name, id, first, second, s)
    case MoveMouse(x, y, first, second) =>
      if !Ready(s) then AfterDeferring("mouse-pos", MouseAgain(x, y), first, s)
      else AfterMouse(x, y, first, second, s)
    case Stop(keepPlaylist, reply) => AfterReply(reply, Handed(Cancelled(s), StopCommand(keepPlaylist)))
    case Navigate(forward, reply) => AfterReply(reply, Handed(Cancelled(s), NavigateCommand(forward)))
  }

  /** A signal with these handlers. */
  ghost function AfterAll(handlers: seq<Call>, s: State): (b: State)
    ensures Grown(s, b)
    decreases WeightAll(handlers), 1, |handlers|
  {
    if handlers == [] then s else After(handlers[|handlers| - 1], AfterAll(handlers[..|handlers| - 1], s))
  }

  ghost function AfterReply(reply: Reply, s: State): (b: State)
    ensures Grown(s, b)
    decreases ReplyWeight(reply), 2
  {
    if reply.Refused? then AfterAll(reply.handlers, s) else s
  }

  ghost function AfterFlush(p: Property, revision: nat, reply: Reply, s: State): (b: State)
    ensures Grown(s, b)
    decreases ReplyWeight(reply), 3
  {
    if Revision(s, p) != revision then s
    else if !s.available then AfterReply(reply, s)
    else if !Ready(s) || p !in s.pending then s
    else
      AfterReply(reply, s.(pending := s.pending - {p}, dirty := s.dirty - {p},
                           submitted := s.submitted + [Intent(p, s.pending[p], revision)]))
  }

  ghost function AfterDeferring(key: string, retry: Retry, reply: Reply, s: State): (b: State)
    ensures Grown(s, b)
    decreases ReplyWeight(reply), 3
  {
    if !s.available then AfterReply(reply, s)
    else
      var entry := Deferred(key, s.mediaRevision, retry);
      s.(deferred := Enqueued(s.deferred, entry), deferrals := s.deferrals + [entry])
  }

  /** A track selected while the renderer is ready; a video track loads the source
      again. */
  ghost function AfterChoice(name: string, id: int, first: Reply, second: Reply, s: State): (b: State)
    ensures Grown(s, b)
    decreases ReplyWeight(first) + ReplyWeight(second), 5
  {
    var chosen := AfterReply(first, Handed(s, TrackChoice(name, id)));
    if name == "vid" && chosen.source != "" then AfterLoad(chosen.source, "replace", second, chosen) else chosen
  }

  ghost function AfterMouse(x: int, y: int, first: Reply, second: Reply, s: State): (b: State)
    ensures Grown(s, b)
    decreases ReplyWeight(first) + ReplyWeight(second), 5
  {
    AfterReply(second, Handed(AfterReply(first, Handed(s, Other("mouse-pos/x", Amount(x as real)))),
                              Other("mouse-pos/y", Amount(y as real))))
  }

  ghost function AfterLoad(url: string, mode: string, reply: Reply, s: State): (b: State)
    ensures Grown(s, b)
    decreases ReplyWeight(reply), 4
  {
    if url == "" then s
    else if !Ready(s) then AfterDeferring("", LoadAgain(url, mode), reply, s)
    else AfterReply(reply, Handed(s, Command(["loadfile", url, mode])))
  }

  lemma OneMoreAfter(handlers: seq<Call>, i: nat, s: State)
    requires i < |handlers|
    ensures AfterAll(handlers[..i + 1], s) == After(handlers[i], AfterAll(handlers[..i], s))
  {
    assert handlers[..i + 1][..i] == handlers[..i];
  }

  /** The call a deferred closure makes. */
  function Again(retry: Retry, first: Reply, second: Reply): Call {
    match retry
    case LoadAgain(url, mode) => Load(url, mode, first)
    case TrackAgain(name, id) => SelectTrack(name, id, first, second)
    case MouseAgain(x, y) => MoveMouse(x, y, first, second)
  }

  // ----- what a change of the renderer does -----

  /** A status with another error, or another message, tells so. */
  ghost function AfterError(error: int, newMessage: bool, errorChanged: seq<Call>, s: State): State {
    if s.renderError != error || newMessage then AfterAll(errorChanged, s.(renderError := error)) else s
  }

  /** A status that makes nothing ready: the renderer may be lost, and may have failed. */
  ghost function AfterLoss(readyValue: bool, error: int, readyChanged: seq<Call>, failed: seq<Call>, s: State): State {
    var lost := if !readyValue && s.initialized then AfterAll(readyChanged, s.(initialized := false)) else s;
    if error < 0 then AfterAll(failed, lost) else lost
  }

  /** The turn of one property in a synchronisation. */
  ghost function AfterTurn(k: nat, pending: map<Property, Value>, revisions: map<Property, nat>, reply: Reply,
                           s: State): State
    requires k < PROPERTIES
  {
    var p := At(k);
    if p !in pending || RevisionOf(revisions, p) != Revision(s, p) || Skipped(p, pending[p]) then s
    else AfterReply(reply, Handed(s, Intent(p, pending[p], Revision(s, p))))
  }

  ghost function AfterTurns(k: nat, pending: map<Property, Value>, revisions: map<Property, nat>, replies: seq<Reply>,
                            s: State): State
    requires k <= PROPERTIES
  {
    if k == 0 then s
    else
      AfterTurn(k - 1, pending, revisions, if k - 1 < |replies| then replies[k - 1] else Accepted,
                AfterTurns(k - 1, pending, revisions, replies, s))
  }

  ghost function AfterDirty(replies: seq<Reply>, s: State): State {
    AfterTurns(PROPERTIES, s.pending, s.revisions, replies, s.(pending := map[], dirty := {}))
  }

  /** A deferred action runs while the media revision is the one it captured. */
  ghost function AfterAction(d: Deferred, replies: (Reply, Reply), s: State): State {
    if d.revision == s.mediaRevision then After(Again(d.retry, replies.0, replies.1), s) else s
  }

  /** How the submissions of the i-th deferred action end at once. */
  function RetryReplies(retries: seq<(Reply, Reply)>, i: nat): (Reply, Reply) {
    if i < |retries| then retries[i] else (Accepted, Accepted)
  }

  ghost function AfterActions(actions: seq<Deferred>, i: nat, retries: seq<(Reply, Reply)>, s: State): State
    requires i <= |actions|
    decreases i
  {
    if i == 0 then s
    else
      AfterAction(actions[i - 1], RetryReplies(retries, i - 1), AfterActions(actions, i - 1, retries, s))
  }

  /** A whole synchronisation: the dirty properties, then the deferred actions. */
  ghost function AfterSync(replies: seq<Reply>, retries: seq<(Reply, Reply)>, s: State): State {
    var b := AfterDirty(replies, s);
    AfterActions(b.deferred, |b.deferred|, retries, b.(deferred := [], deferrals := []))
  }

  // ----- what each call promises -----

  /** The property took the value, and unless something newer replaced it since,
      the value was handed over, or waits for the renderer. */
  ghost predicate Holds(a: State, b: State, p: Property, value: Value) {
    && Took(a, b, p, value)
    && (Revision(b, p) == Revision(a, p) + 1 && a.available ==>
          if Ready(a) then LastSent(b.submitted, p) == Some(value) && p !in b.pending
          else p in b.pending && b.pending[p] == value)
  }

  lemma SetterHolds(a: State, b: State, p: Property, value: Value)
    requires Good(b) && Follows(a, b) && Took(a, b, p, value)
    ensures Holds(a, b, p, value)
  {
    assert Kept(a, b, {}, p);
  }

  /** The file was asked for at once, or its loading was deferred. */
  ghost predicate Loading(a: State, b: State, url: string, mode: string) {
    if Ready(a) then SentSince(b.submitted, |a.submitted|, Command(["loadfile", url, mode]))
    else a.available ==> Deferred("", b.mediaRevision, LoadAgain(url, mode)) in b.deferrals
  }

  ghost predicate PromisedSource(a: State, b: State, url: string) {
    if url == a.source then b == a
    else
      && a.mediaRevision < b.mediaRevision
      && (b.mediaRevision == a.mediaRevision + 1 ==>
            b.source == url && (url != "" ==> Loading(a, b, url, "replace")))
  }

  ghost predicate PromisedLoad(a: State, b: State, url: string, mode: string) {
    if url == "" then b == a
    else Ready(a) || b.mediaRevision == a.mediaRevision ==> Loading(a, b, url, mode)
  }

  /** While the renderer is away, the closure waits under the key. */
  ghost predicate Deferring(a: State, b: State, key: string, retry: Retry) {
    !Ready(a) && a.available ==>
      b.deferrals == a.deferrals + [Deferred(key, a.mediaRevision, retry)] && b.submitted == a.submitted
  }

  ghost predicate PromisedTrack(a: State, b: State, name: string, id: int) {
    if name != "aid" && name != "vid" && name != "sid" then b == a
    else
      && Deferring(a, b, name, TrackAgain(name, id))
      && (Ready(a) ==>
            && a.submitted + [Other(name, if id <= 0 then Text("no") else Amount(id as real))] <= b.submitted
            && (name == "vid" && b.mediaRevision == a.mediaRevision && b.source != "" ==>
                  SentSince(b.submitted, |a.submitted| + 1, Command(["loadfile", b.source, "replace"]))))
  }

  ghost predicate PromisedMouse(a: State, b: State, x: int, y: int) {
    && Deferring(a, b, "mouse-pos", MouseAgain(x, y))
    && (Ready(a) ==>
          && a.submitted + [Other("mouse-pos/x", Amount(x as real))] <= b.submitted
          && SentSince(b.submitted, |a.submitted| + 1, Other("mouse-pos/y", Amount(y as real))))
  }

  /** A call that cancels what waits, and is submitted at once while there is a core. */
  ghost predicate PromisedCommand(a: State, b: State, words: seq<string>) {
    && a.mediaRevision < b.mediaRevision
    && (a.available ==> a.submitted + [Command(words)] <= b.submitted)
  }

  /** What the call was made for was done, whatever its handlers did besides. */
  ghost predicate Promised(call: Call, a: State, b: State) {
    match call
    case SetProperty(p, value, _, _) =>
      if p in a.members && a.members[p] == value then b == a
      else
        && Holds(a, b, p, value)
        && (Revision(b, p) == Revision(a, p) + 1 ==> p in b.members && b.members[p] == value)
    case SetFillMode(mode, _, _, _) =>
      if mode == a.fillMode then b == a
      else
        && Holds(a, b, KeepAspect, Text(if mode == "stretch" then "no" else "yes"))
        && Holds(a, b, PanScan, Amount(if mode == "preserveAspectCrop" then 1.0 else 0.0))
    case SetSource(url, _, _) => PromisedSource(a, b, url)
    case Load(url, mode, _) => PromisedLoad(a, b, url, mode)
    case SelectTrack(name, id, _, _) => PromisedTrack(a, b, name, id)
    case MoveMouse(x, y, _, _) => PromisedMouse(a, b, x, y)
    case Stop(keepPlaylist, _) => PromisedCommand(a, b, if keepPlaylist then ["stop", "keep-playlist"] else ["stop"])
    case Navigate(forward, _) =>
      PromisedCommand(a, b, [if forward then "playlist-next" else "playlist-prev", "force"])
  }

  /** The call has a signal to emit: it asks for something else than there is. */
  predicate Announces(call: Call, s: State) {
    match call
    case SetProperty(p, value, _, _) => p !in s.members || s.members[p] != value
    case SetFillMode(mode, _, _, _) => s.fillMode != mode
    case SetSource(url, _, _) => s.source != url
    case _ => false
  }

  lemma SetterPromises(call: Call, a: State, intended: State, signalled: State, b: State)
    requires call.SetProperty? && Announces(call, a) && Good(b) && Follows(a, b)
    requires intended == Registered(a, call.property, call.value)
    requires signalled == AfterAll(call.changed, intended)
    requires b == AfterFlush(call.property, Revision(intended, call.property), call.reply, signalled)
    requires AllLasting(intended, signalled) && AllLasting(signalled, b)
    ensures Promised(call, a, b) && b == After(call, a)
  {
    LastingIsTransitive(intended, signalled, b);
    assert Lasting(intended, b, call.property);
    SetterHolds(a, b, call.property, call.value);
  }

  lemma FillModePromises(call: Call, a: State, intended: State, signalled: State, b: State)
    requires call.SetFillMode? && Announces(call, a) && Good(b) && Follows(a, b)
    requires intended == FillModeRegistered(a, call.mode)
    requires signalled == AfterAll(call.changed, intended)
    requires b == AfterFlush(PanScan, Revision(a, PanScan) + 1, call.scan,
                             AfterFlush(KeepAspect, Revision(a, KeepAspect) + 1, call.aspect, signalled))
    requires AllLasting(intended, signalled) && AllLasting(signalled, b)
    ensures Promised(call, a, b) && b == After(call, a)
  {
    LastingIsTransitive(intended, signalled, b);
    assert Lasting(intended, b, KeepAspect) && Lasting(intended, b, PanScan);
    SetterHolds(a, b, KeepAspect, Aspect(call.mode));
    SetterHolds(a, b, PanScan, Scan(call.mode));
  }

  /** A new source with the queue cancelled; with the old source, the cancellation
      alone. */
  lemma CancelledFollows(s: State, url: string)
    requires Good(s)
    ensures Good(Cancelled(s.(source := url))) && Follows(s, Cancelled(s.(source := url)))
  {
    var b := Cancelled(s.(source := url));
    forall p ensures Kept(s, b, {}, p) && Thrifty(b.submitted, b.pending, b.revisions, p) {
      assert Thrifty(s.submitted, s.pending, s.revisions, p);
    }
  }

  /** What the members hold is nobody's intent. */
  lemma MemberStaysQuiet(s: State, members: map<Property, Value>)
    requires Quiet(s)
    ensures Quiet(s.(members := members))
  {
    var b := s.(members := members);
    forall p ensures Thrifty(b.submitted, b.pending, b.revisions, p) {
      assert Thrifty(s.submitted, s.pending, s.revisions, p);
    }
  }

  // ----- handlers run, in order -----

  /** The states between the handlers: each handler begins in the one its
      predecessor left. */
  ghost predicate OneByOne(handlers: seq<Call>, states: seq<State>) {
    && |states| == |handlers| + 1
    && forall i :: 0 <= i < |handlers| ==> states[i + 1] == After(handlers[i], states[i])
  }

  /** Each handler runs once, in order, from the state its predecessor left, and
      nothing else happens. */
  lemma {:induction false} HandlersRunInOrder(handlers: seq<Call>, s: State) returns (states: seq<State>)
    ensures OneByOne(handlers, states) && states[0] == s && states[|handlers|] == AfterAll(handlers, s)
    decreases |handlers|
  {
    if handlers == [] { return [s]; }
    var before := HandlersRunInOrder(handlers[..|handlers| - 1], s);
    states := before + [AfterAll(handlers, s)];
    forall i | 0 <= i < |handlers| ensures states[i + 1] == After(handlers[i], states[i]) {
      assert i < |handlers| - 1 ==> handlers[..|handlers| - 1][i] == handlers[i];
    }
  }

  /** What the handlers of the signal find: the new value, mode or source, with its
      revision counted, and nothing submitted for it yet. */
  ghost predicate Announced(call: Call, s: State, t: State) {
    && t.submitted == s.submitted
    && match call
       case SetProperty(p, value, _, _) =>
         && p in t.members && t.members[p] == value && Revision(t, p) == Revision(s, p) + 1
         && (s.available ==> p in t.pending && t.pending[p] == value)
         && t.mediaRevision == s.mediaRevision && t.deferrals == s.deferrals
       case SetFillMode(mode, _, _, _) =>
         && t.fillMode == mode && Revision(t, KeepAspect) == Revision(s, KeepAspect) + 1
         && Revision(t, PanScan) == Revision(s, PanScan) + 1
         && t.mediaRevision == s.mediaRevision && t.deferrals == s.deferrals
       case SetSource(url, _, _) =>
         t.source == url && t.mediaRevision == s.mediaRevision + 1 && t.deferrals == t.deferred == []
       case _ => true
  }

  function Signalled(call: Call): seq<Call> {
    match call
    case SetProperty(_, _, changed, _) => changed
    case SetFillMode(_, changed, _, _) => changed
    case SetSource(_, changed, _) => changed
    case _ => []
  }

  /** The state in which the signal of the call is emitted. */
  lemma Begins(call: Call, s: State) returns (start: State)
    requires Announces(call, s)
    ensures Announced(call, s, start) && Grown(AfterAll(Signalled(call), start), After(call, s))
  {
    match call
    case SetProperty(p, value, changed, _) => start := Registered(s, p, value);
    case SetFillMode(mode, changed, _, _) => start := FillModeRegistered(s, mode);
    case SetSource(url, changed, _) => start := Cancelled(s.(source := url));
    case _ => start := s; assert false;
  }

  /** A call that changes something runs the handlers of its signal, one after the
      other, once it has changed it and before it submits anything. */
  lemma SignalRuns(call: Call, s: State) returns (states: seq<State>)
    requires Announces(call, s)
    ensures OneByOne(Signalled(call), states) && Announced(call, s, states[0])
    ensures Grown(states[|states| - 1], After(call, s))
  {
    var start := Begins(call, s);
    states := HandlersRunInOrder(Signalled(call), start);
  }

  /** The handler left the media revision as it found it. */
  predicate Uncancelling(states: seq<State>, i: nat) {
    i + 1 < |states| && states[i + 1].mediaRevision == states[i].mediaRevision
  }

  lemma {:induction false} CancellingCounts(handlers: seq<Call>, states: seq<State>, n: nat)
    requires OneByOne(handlers, states) && n <= |handlers|
    ensures states[0].mediaRevision <= states[n].mediaRevision
    ensures states[0].mediaRevision == states[n].mediaRevision <==> forall i :: 0 <= i < n ==> Uncancelling(states, i)
    decreases n
  {
    if n > 0 {
      CancellingCounts(handlers, states, n - 1);
      assert Grown(states[n - 1], After(handlers[n - 1], states[n - 1]));
      assert states[n].mediaRevision == states[n - 1].mediaRevision <==> Uncancelling(states, n - 1);
    }
  }

  /** The new source is asked for, or deferred, exactly when no handler of
      `sourceChanged` cancelled, at any depth: otherwise the setter does nothing
      after them. */
  lemma SourceIsLoadedExactlyWhen(url: string, changed: seq<Call>, s: State) returns (states: seq<State>)
    requires url != s.source && url != "" && s.available
    ensures OneByOne(changed, states)
    ensures states[0] == s.(source := url, mediaRevision := s.mediaRevision + 1, deferred := [], deferrals := [])
    ensures var last, b := states[|changed|], After(SetSource(url, changed, Accepted), s);
      if forall i :: 0 <= i < |changed| ==> Uncancelling(states, i) then
        if Ready(s) then b.submitted == last.submitted + [Command(["loadfile", url, "replace"])]
        else b.deferrals == last.deferrals + [Deferred("", s.mediaRevision + 1, LoadAgain(url, "replace"))]
      else b == last
  {
    states := HandlersRunInOrder(changed, Cancelled(s.(source := url)));
    CancellingCounts(changed, states, |changed|);
  }

  lemma CancellingGrows(call: Call, s: State)
    requires call.Stop? || call.Navigate?
    ensures s.mediaRevision < After(call, s).mediaRevision
  {
    match call
    case Stop(keepPlaylist, reply) => assert Grown(Cancelled(s), After(call, s));
    case Navigate(forward, reply) => assert Grown(Cancelled(s), After(call, s));
    case _ => assert false;
  }

  /** A stop or a navigation in a handler of `sourceChanged` is the newer wish:
      whatever the other handlers do, the setter itself neither submits nor defers
      the loading of its url. */
  lemma CancelledSourceStaysUnloaded(url: string, changed: seq<Call>, reply: Reply, s: State, k: nat)
    returns (states: seq<State>)
    requires url != s.source && k < |changed| && (changed[k].Stop? || changed[k].Navigate?)
    ensures OneByOne(changed, states)
    ensures states[0] == s.(source := url, mediaRevision := s.mediaRevision + 1, deferred := [], deferrals := [])
    ensures After(SetSource(url, changed, reply), s) == states[|changed|]
  {
    states := HandlersRunInOrder(changed, Cancelled(s.(source := url)));
    CancellingCounts(changed, states, |changed|);
    CancellingGrows(changed[k], states[k]);
    assert !Uncancelling(states, k);
  }

  /** A refusal only adds its handlers, after all that the accepted call does. */
  lemma RefusalAddsItsHandlers(call: Call, handlers: seq<Call>, s: State)
    requires s.available
    requires call.Stop? || call.Navigate? || (call.Load? && call.url != "" && Ready(s))
    ensures After(call.(reply := Refused(handlers)), s) == AfterAll(handlers, After(call.(reply := Accepted), s))
  {
    match call
    case Stop(keepPlaylist, _) => RefusedAfter(handlers, Handed(Cancelled(s), StopCommand(keepPlaylist)));
    case Navigate(forward, _) => RefusedAfter(handlers, Handed(Cancelled(s), NavigateCommand(forward)));
    case Load(url, mode, _) => RefusedAfter(handlers, Handed(s, Command(["loadfile", url, mode])));
    case _ => assert false;
  }

  lemma RefusedAfter(handlers: seq<Call>, s: State)
    ensures AfterReply(Refused(handlers), s) == AfterAll(handlers, AfterReply(Accepted, s))
  {
  }
}
