/** Render-loss recovery of the private controller (mpvcontroller.cpp), as
    functions from state to state, one per worker-thread event.

    The state carries, beside the controller's own fields, the two atomics of
    the core lease the worker uses (source intent, token counter), the requests
    libmpv has accepted and not yet answered, and a history of what was done.
    Native calls succeed or fail as the event's `native` code says; what
    `retiringContext` read is the event's `marker`. */
module Recovery {
  import opened Native

  datatype Playback = Playback(
    entryId: int, intent: nat, position: real, paused: bool, loaded: bool,
    pauseRevision: nat, seekRevision: nat)

  const NO_PLAYBACK := Playback(-1, 0, 0.0, false, false, 0, 0)

  datatype RecoveryState = RecoveryState(
    playback: Playback, retiredRenderer: nat, readyRenderer: nat, revision: nat,
    pauseRevision: nat, seekRevision: nat, valid: bool, terminated: bool,
    replaying: bool, replayAcknowledged: bool, pauseAcknowledged: bool,
    fileLoaded: bool, seekSubmitted: bool)

  const NO_RECOVERY := RecoveryState(NO_PLAYBACK, 0, 0, 0, 0, 0, false, false,
    false, false, false, false, false)

  datatype SeekIntent = SeekIntent(
    renderer: nat, intent: nat, revision: nat, position: real, valid: bool)

  const NO_SEEK := SeekIntent(0, 0, 0, 0.0, false)

  datatype Step = Pause | Replay | Seek

  datatype RecoveryRequest = RecoveryRequest(revision: nat, step: Step)

  /** The native request a recovery step sends, with its argument. */
  datatype Action = PauseTo(paused: bool) | ReplayAt(index: nat) | SeekTo(position: real)

  function StepOf(a: Action): Step {
    match a
    case PauseTo(_) => Pause
    case ReplayAt(_) => Replay
    case SeekTo(_) => Seek
  }

  /** What the worker reads from the retirement marker: nothing coherent, or
      the marked generation and intent. */
  datatype Marker = Incoherent | Marked(generation: nat, intent: nat)

  /** Who sent a native request that libmpv still has to answer. */
  datatype Sender = ForRecovery(request: RecoveryRequest) | ForCommand | ForPropertySet

  /** One entry of the history. The first group says what the worker was told,
      noted before anything is made of it; the second what it put on record; the
      third what the recovery did. A reported pause state is kept with a loaded
      playback; an entry that starts or is loaded copies the last one reported.
      A position is kept as libmpv reported it, or asked for by the user while
      the marker names a lost renderer. A recovery is opened with that renderer,
      the entry of its snapshot, and the history up to the note that put the
      snapshot's pause state on record. */
  datatype Note =
    | CommandGiven(words: seq<string>)
    | WriteGiven(name: string)
    | EntryStarted(entryId: int, marker: Marker)
    | EntryLoaded
    | RendererReady(renderer: nat)
    | VoLost
    | PauseReported(paused: bool)
    | PlaylistReported(entries: seq<int>)
    | IntentAdvanced(intent: nat)
    | UserSeek(revision: nat)
    | UserPause(revision: nat)
    | PositionKept(position: real)
    | PositionAsked(renderer: nat, position: real)
    | PauseKept(paused: bool)
    | PauseCopied(paused: bool)
    | EntryEnded(error: int)
    | Opened(revision: nat, retired: nat, entryId: int, kept: History)
    | Submitted(revision: nat, intent: nat, action: Action, token: nat, accepted: bool)
    | Answered(revision: nat, step: Step, token: nat, error: int)
    | Reloaded(revision: nat)
    | Recovered(revision: nat, renderer: nat, entryId: int)
    | Failed(revision: nat, error: int)
    | Delivered(token: nat, error: int)
    | Closed

  /** The history, newest note last. */
  datatype History = Start | Then(earlier: History, note: Note)

  /** The history up to the note that put the playing entry's pause state on record. */
  function KeptIn(h: History): History {
    match h
    case Start => Start
    case Then(earlier, note) => if note.PauseKept? || note.PauseCopied? then h else KeptIn(earlier)
  }

  /** The same for the entry that ended last. */
  function EndedIn(h: History): History {
    match h
    case Start => Start
    case Then(earlier, note) => if note.EntryEnded? then KeptIn(earlier) else EndedIn(earlier)
  }

  datatype Controller = Controller(
    available: bool,
    sourceIntent: nat,
    nextToken: nat,
    seekIntent: SeekIntent,
    playlist: seq<int>,
    playback: Playback,
    terminatedPlayback: Playback,
    terminationError: int,
    recovery: RecoveryState,
    recoveryRequests: map<nat, RecoveryRequest>,
    recoveryRevision: nat,
    pauseRevision: nat,
    seekRevision: nat,
    observedPause: bool,
    issued: set<nat>,
    pending: map<nat, Sender>,
    history: History)

  /** The controller right after a successful initialization. */
  const INITIAL := Controller(true, 0, 1, NO_SEEK, [], NO_PLAYBACK, NO_PLAYBACK, 0,
    NO_RECOVERY, map[], 0, 0, 0, false, {}, map[], Start)

  function RetiringContext(marker: Marker, intent: nat): nat {
    if marker.Marked? && marker.intent == intent then marker.generation else 0
  }

  function Log(s: Controller, note: Note): Controller {
    s.(history := Then(s.history, note))
  }

  // ----- the core lease's token counter -----

  function NoteNativeToken(next: nat, token: nat): nat {
    if next != 0 && token >= next then Following(token) else next
  }

  // ----- user intent -----

  /** A command as submitted, with what `toDouble` makes of its second word. */
  datatype Command = Command(words: seq<string>, amount: Option<Number>)

  predicate ChangesFile(words: seq<string>, loaded: bool) {
    words != [] && words[0] == "loadfile" &&
    var mode := if |words| > 2 then words[2] else "replace";
    mode != "append" && !(mode == "append-play" && loaded)
  }

  predicate Invalidates(words: seq<string>, loaded: bool) {
    words != [] &&
    (ChangesFile(words, loaded) || words[0] == "loadlist" || words[0] == "stop" || words[0] == "quit" ||
     words[0] == "playlist-next" || words[0] == "playlist-prev" || words[0] == "playlist-play-index")
  }

  function ForgetPlayback(s: Controller): Controller {
    s.(playback := NO_PLAYBACK, terminatedPlayback := NO_PLAYBACK, terminationError := 0, seekIntent := NO_SEEK)
  }

  function InvalidatePlaybackIntent(s: Controller): Controller {
    ForgetPlayback(Log(s.(sourceIntent := s.sourceIntent + 1, recovery := s.recovery.(valid := false)),
                       IntentAdvanced(s.sourceIntent + 1)))
  }

  function RememberSeekIntent(s: Controller, position: real, marker: Marker): Controller {
    var intent := s.sourceIntent;
    var renderer := RetiringContext(marker, intent);
    if renderer == 0 then s
    else
      var kept := Log(s.(seekIntent := SeekIntent(renderer, intent, s.seekRevision, position, true)),
                      PositionAsked(renderer, position));
      if s.recovery.valid && !s.recovery.seekSubmitted
         && s.recovery.retiredRenderer == renderer && s.recovery.playback.intent == intent then
        kept.(recovery := s.recovery.(playback := s.recovery.playback.(position := position),
                                      seekRevision := s.seekRevision))
      else kept
  }

  /** A new user seek: the remembered one no longer counts. */
  function BumpSeek(s: Controller): Controller {
    Log(s.(seekRevision := s.seekRevision + 1, seekIntent := s.seekIntent.(valid := false)),
        UserSeek(s.seekRevision + 1))
  }

  function SeekBase(s: Controller): real {
    if s.recovery.valid then s.recovery.playback.position
    else if s.playback.loaded then s.playback.position
    else s.terminatedPlayback.position
  }

  /** Where a seek command aims, when its target can be told. */
  function SeekTarget(s: Controller, c: Command): Option<real> {
    if c.words == [] || c.words[0] != "seek" || |c.words| <= 1 then None
    else
      var mode := if |c.words| > 2 then c.words[2] else "relative";
      var absolute := mode == "absolute" || mode == "absolute+exact";
      var relative := mode == "relative" || mode == "relative+exact";
      if c.amount.Some? && c.amount.value.Finite? && (absolute || relative) then
        var amount := c.amount.value.value;
        Some(Max(0.0, if absolute then amount else SeekBase(s) + amount))
      else None
  }

  predicate IsSeek(words: seq<string>) {
    words != [] && (words[0] == "seek" || words[0] == "revert-seek")
  }

  /** What the rejected or accepted native call leaves: a pending request, or
      an immediate reply. */
  function Submission(s: Controller, token: nat, sender: Sender, native: int): Controller {
    if native < 0 then Log(s, Delivered(token, native))
    else s.(pending := s.pending[token := sender])
  }

  function SeekIntended(s: Controller, c: Command, marker: Marker): Controller {
    var bumped := BumpSeek(s);
    match SeekTarget(bumped, c)
    case Some(position) => RememberSeekIntent(bumped, position, marker)
    case None => bumped
  }

  /** What a command's words say about the user's intent. */
  function CommandIntent(s: Controller, c: Command, marker: Marker): Controller {
    var s := if Invalidates(c.words, s.playback.loaded) then InvalidatePlaybackIntent(s) else s;
    if IsSeek(c.words) then SeekIntended(s, c, marker) else s
  }

  function SubmitCommand(s: Controller, token: nat, c: Command, marker: Marker, native: int): Controller {
    var s := s.(issued := s.issued - {token});
    if !s.available then Log(s, Delivered(token, UNINITIALIZED))
    else
      var s := Log(s.(nextToken := NoteNativeToken(s.nextToken, token)), CommandGiven(c.words));
      Submission(CommandIntent(s, c, marker), token, ForCommand, native)
  }

  /** A property write, with what `toDouble` makes of its value. */
  datatype PropertySet = PropertySet(name: string, number: Option<Number>)

  predicate Navigates(name: string) {
    name == "playlist-pos" || name == "playlist-current-pos" || name == "path"
  }

  function BumpPause(s: Controller): Controller {
    Log(s.(pauseRevision := s.pauseRevision + 1), UserPause(s.pauseRevision + 1))
  }

  function TimePosIntent(s: Controller, number: Option<Number>, marker: Marker): Controller {
    var bumped := BumpSeek(s);
    if number.Some? && number.value.Finite? && number.value.value >= 0.0
    then RememberSeekIntent(bumped, number.value.value, marker) else bumped
  }

  /** What a property write says about the user's intent. */
  function PropertyIntent(s: Controller, p: PropertySet, marker: Marker): Controller {
    var s := if p.name == "pause" then BumpPause(s) else s;
    var s := if p.name == "time-pos" then TimePosIntent(s, p.number, marker) else s;
    if Navigates(p.name) then InvalidatePlaybackIntent(s) else s
  }

  function SubmitPropertySet(s: Controller, token: nat, p: PropertySet, marker: Marker, native: int): Controller {
    var s := s.(issued := s.issued - {token});
    if !s.available then Log(s, Delivered(token, UNINITIALIZED))
    else
      var s := Log(s.(nextToken := NoteNativeToken(s.nextToken, token)), WriteGiven(p.name));
      Submission(PropertyIntent(s, p, marker), token, ForPropertySet, native)
  }

  // ----- driving the recovery -----

  function FailRecovery(s: Controller, error: int): Controller {
    if !s.recovery.valid then s
    else Log(s.(recovery := s.recovery.(valid := false)), Failed(s.recovery.revision, error))
  }

  function FinishRecovery(s: Controller): Controller {
    Log(s.(recovery := s.recovery.(valid := false)),
        Recovered(s.recovery.revision, s.recovery.readyRenderer, s.recovery.playback.entryId))
  }

  function SubmitRecovery(s: Controller, action: Action, native: int): Controller {
    var token := s.nextToken;
    if token == 0 then FailRecovery(s, NOMEM)
    else
      var request := RecoveryRequest(s.recovery.revision, StepOf(action));
      var sent := Log(s.(nextToken := Following(token)),
                      Submitted(s.recovery.revision, s.recovery.playback.intent, action, token, native >= 0));
      if native < 0 then
        FailRecovery(sent.(recoveryRequests := s.recoveryRequests - {token}), native)
      else
        sent.(recoveryRequests := s.recoveryRequests[token := request],
              pending := s.pending[token := ForRecovery(request)])
  }

  /** The first place of an entry in the playlist. */
  function Find(playlist: seq<int>, entryId: int): Option<nat> {
    FindFrom(playlist, entryId, 0)
  }

  function FindFrom(playlist: seq<int>, entryId: int, from: nat): Option<nat>
    requires from <= |playlist|
    decreases |playlist| - from
  {
    if from == |playlist| then None
    else if playlist[from] == entryId then Some(from)
    else FindFrom(playlist, entryId, from + 1)
  }

  /** The recovery waits for nothing that another event must bring first. */
  predicate CanAdvance(s: Controller) {
    s.available && s.recovery.valid && s.recovery.terminated && s.recovery.readyRenderer != 0
    && !s.recovery.replaying && s.recoveryRequests == map[]
  }

  function TryRecoverPlayback(s: Controller, native: int): Controller {
    if !CanAdvance(s) then s
    else if s.recovery.playback.intent != s.sourceIntent then
      s.(recovery := s.recovery.(valid := false))
    else
      match Find(s.playlist, s.recovery.playback.entryId)
      case None => FailRecovery(s, NOTHING_TO_PLAY)
      case Some(index) =>
        var s := if !s.recovery.pauseAcknowledged && s.recovery.pauseRevision != s.pauseRevision
                 then s.(recovery := s.recovery.(pauseAcknowledged := true)) else s;
        if !s.recovery.pauseAcknowledged then
          SubmitRecovery(s, PauseTo(s.recovery.playback.paused), native)
        else
          SubmitRecovery(s.(recovery := s.recovery.(replaying := true)), ReplayAt(index), native)
  }

  function TryRestorePosition(s: Controller, native: int): Controller {
    var r := s.recovery;
    if !r.valid || !r.replaying || r.seekSubmitted || !r.fileLoaded
       || !r.replayAcknowledged || !r.pauseAcknowledged then s
    else if r.playback.intent != s.sourceIntent then s.(recovery := r.(valid := false))
    else if r.seekRevision != s.seekRevision then FinishRecovery(s)
    else SubmitRecovery(s.(recovery := r.(seekSubmitted := true)), SeekTo(r.playback.position), native)
  }

  // ----- notices and native events -----

  function RenderContextRetiring(s: Controller, generation: nat, intent: nat): Controller {
    if !s.available || generation == 0 || intent != s.sourceIntent then s
    else if s.recovery.valid && s.recovery.retiredRenderer == generation
            && s.recovery.playback.intent == intent then s
    else
      var snapshot := if s.playback.loaded then s.playback else s.terminatedPlayback;
      if !snapshot.loaded || snapshot.entryId < 0 || snapshot.intent != intent then s
      else
        var sought := s.seekIntent.valid && s.seekIntent.renderer == generation
                      && s.seekIntent.intent == intent && s.seekIntent.revision == s.seekRevision;
        var revision := s.recoveryRevision + 1;
        Log(s.(recoveryRevision := revision,
               recovery := RecoveryState(
                 if sought then snapshot.(position := s.seekIntent.position) else snapshot,
                 generation, 0, revision, snapshot.pauseRevision,
                 if sought then s.seekIntent.revision else snapshot.seekRevision,
                 true,
                 s.terminationError == VO_INIT_FAILED
                 && s.terminatedPlayback.entryId == snapshot.entryId
                 && s.terminatedPlayback.intent == intent,
                 false, false, false, false, false)),
            Opened(revision, generation, snapshot.entryId,
                   if s.playback.loaded then KeptIn(s.history) else EndedIn(s.history)))
  }

  function RenderContextReady(s: Controller, generation: nat, native: int): Controller {
    var s := Log(s, RendererReady(generation));
    if !s.recovery.valid || generation <= s.recovery.retiredRenderer then s
    else TryRecoverPlayback(s.(recovery := s.recovery.(readyRenderer := generation)), native)
  }

  /** The recovery request a reply answers leaves the table before anything else happens. */
  function Answer(s: Controller, token: nat, error: int): Controller
    requires token in s.recoveryRequests
  {
    var request := s.recoveryRequests[token];
    Log(s.(recoveryRequests := s.recoveryRequests - {token}),
        Answered(request.revision, request.step, token, error))
  }

  /** What an answered recovery request leads to. */
  function Continue(s: Controller, request: RecoveryRequest, error: int, native: int): Controller {
    if !s.recovery.valid || request.revision != s.recovery.revision
       || s.recovery.playback.intent != s.sourceIntent then
      TryRecoverPlayback(s, native)
    else if error < 0 then FailRecovery(s, error)
    else
      match request.step
      case Pause => TryRecoverPlayback(s.(recovery := s.recovery.(pauseAcknowledged := true)), native)
      case Replay => TryRestorePosition(s.(recovery := s.recovery.(replayAcknowledged := true)), native)
      case Seek => FinishRecovery(s)
  }

  /** libmpv has answered: the request is no longer its to answer. */
  function TakeReply(s: Controller, token: nat): Controller {
    s.(pending := s.pending - {token})
  }

  /** A reply of libmpv: taken by the recovery that asked, or passed on. */
  function HandleReply(s: Controller, token: nat, error: int, native: int): Controller {
    var s := TakeReply(s, token);
    if token !in s.recoveryRequests then Log(s, Delivered(token, error))
    else Continue(Answer(s, token, error), s.recoveryRequests[token], error, native)
  }

  /** The observed properties the controller caches. */
  datatype Observation = PlaylistIs(entries: seq<int>) | PauseIs(paused: bool) | TimePosIs(position: Number)

  /** The playback takes the last reported pause state, at the pause revision of the moment. */
  function KeepPause(s: Controller, p: Playback, note: Note): Controller {
    Log(s.(playback := p.(paused := s.observedPause, pauseRevision := s.pauseRevision)), note)
  }

  function CacheProperty(s: Controller, o: Observation): Controller {
    match o
    case PlaylistIs(entries) => Log(s.(playlist := entries), PlaylistReported(entries))
    case PauseIs(paused) =>
      var s := Log(s.(observedPause := paused), PauseReported(paused));
      if s.playback.loaded then KeepPause(s, s.playback, PauseKept(paused)) else s
    case TimePosIs(position) =>
      if s.playback.loaded && position.Finite? && position.value >= 0.0 then
        Log(s.(playback := s.playback.(position := position.value, seekRevision := s.seekRevision)),
            PositionKept(position.value))
      else s
  }

  predicate Resumes(s: Controller, entryId: int) {
    s.recovery.valid && s.recovery.replaying && s.recovery.playback.entryId == entryId
    && s.recovery.playback.intent == s.sourceIntent
  }

  predicate RenderLossAdvance(s: Controller, marker: Marker) {
    s.recovery.valid && s.recovery.terminated && s.recovery.playback.intent == s.sourceIntent
    && RetiringContext(marker, s.recovery.playback.intent) == s.recovery.retiredRenderer
  }

  /** Another entry than the one that played began, and recovery did not cause it. */
  predicate StartsAnother(s: Controller, entryId: int, marker: Marker) {
    !Resumes(s, entryId) && !RenderLossAdvance(s, marker) && s.playback.entryId >= 0
    && entryId != s.playback.entryId
  }

  function Began(s: Controller, base: Playback, entryId: int): Controller {
    KeepPause(s, base.(entryId := entryId, intent := s.sourceIntent, loaded := false), PauseCopied(s.observedPause))
  }

  function StartFile(s: Controller, entryId: int, marker: Marker): Controller {
    var s := Log(s, EntryStarted(entryId, marker));
    var base := if Resumes(s, entryId) then s.recovery.playback else NO_PLAYBACK;
    Began(if StartsAnother(s, entryId, marker) then InvalidatePlaybackIntent(s) else s, base, entryId)
  }

  function FileLoaded(s: Controller, native: int): Controller {
    TryRestorePosition(Reloading(Log(s, EntryLoaded)), native)
  }

  function Reloading(s: Controller): Controller {
    var s := KeepPause(s, s.playback.(loaded := true), PauseCopied(s.observedPause));
    if s.recovery.valid && s.recovery.replaying && s.playback.entryId == s.recovery.playback.entryId
    then Log(s.(recovery := s.recovery.(fileLoaded := true)), Reloaded(s.recovery.revision)) else s
  }

  /** Why a file ended. libmpv reports an error code only with the error reason. */
  datatype EndReason = NoData | Eof | Stop | OtherReason | Error(code: int)

  function ErrorOf(reason: EndReason): int {
    if reason.Error? then reason.code else 0
  }

  predicate IsVoLoss(reason: EndReason) {
    reason == Error(VO_INIT_FAILED)
  }

  /** The worker may find the retirement marker before the notice of it. */
  function ClassifyLoss(s: Controller, marker: Marker): Controller {
    var retired := RetiringContext(marker, s.playback.intent);
    if s.playback.loaded && retired != 0 then RenderContextRetiring(s, retired, s.playback.intent) else s
  }

  function FileTerminated(s: Controller, error: int): Controller {
    if !s.playback.loaded then s
    else Log(s.(terminatedPlayback := s.playback, terminationError := error,
                playback := s.playback.(loaded := false)), EntryEnded(error))
  }

  predicate RecoversTerminated(s: Controller) {
    s.recovery.valid && s.recovery.playback.entryId == s.terminatedPlayback.entryId
    && s.recovery.playback.intent == s.terminatedPlayback.intent
  }

  function ConfirmLoss(s: Controller, native: int): Controller {
    if RecoversTerminated(s)
    then TryRecoverPlayback(s.(recovery := s.recovery.(terminated := true)), native) else s
  }

  function VoLossEnds(s: Controller, marker: Marker, native: int): Controller {
    ConfirmLoss(FileTerminated(ClassifyLoss(Log(s, VoLost), marker), VO_INIT_FAILED), native)
  }

  function EndFile(s: Controller, reason: EndReason, marker: Marker, native: int): Controller {
    if reason.NoData? then s
    else if IsVoLoss(reason) then VoLossEnds(s, marker, native)
    else FileTerminated(s, ErrorOf(reason))
  }

  function CoreLost(s: Controller): Controller {
    s.(available := false)
  }

  function Shutdown(s: Controller): Controller {
    Log(s.(available := false, recovery := s.recovery.(valid := false)), Closed)
  }

  /** The GUI thread takes the next native token for a request of its own. */
  function IssueToken(s: Controller): Controller {
    if s.nextToken == 0 then s
    else s.(issued := s.issued + {s.nextToken}, nextToken := Following(s.nextToken))
  }

  // ----- runs -----

  datatype Event =
    | TokenIssued
    | CommandSubmitted(token: nat, command: Command, marker: Marker, native: int)
    | PropertySubmitted(token: nat, property: PropertySet, marker: Marker, native: int)
    | RetiringNotice(generation: nat, intent: nat)
    | ReadyNotice(generation: nat, native: int)
    | ReplyArrived(token: nat, error: int, native: int)
    | PropertyObserved(observation: Observation)
    | FileStarted(entryId: int, marker: Marker)
    | FileWasLoaded(native: int)
    | FileEnded(reason: EndReason, marker: Marker, native: int)
    | CoreShutDown
    | ShutdownRequested

  /** What the environment may do: submissions carry a token issued for them,
      and libmpv answers only what it was asked, while the worker still listens. */
  predicate Possible(s: Controller, e: Event) {
    match e
    case CommandSubmitted(token, _, _, _) => token in s.issued
    case PropertySubmitted(token, _, _, _) => token in s.issued
    case ReplyArrived(token, _, _) => s.available && token in s.pending
    case PropertyObserved(_) => s.available
    case FileStarted(_, _) => s.available
    case FileWasLoaded(_) => s.available
    case FileEnded(_, _, _) => s.available
    case CoreShutDown => s.available
    case _ => true
  }

  function After(s: Controller, e: Event): Controller {
    match e
    case TokenIssued => IssueToken(s)
    case CommandSubmitted(token, command, marker, native) => SubmitCommand(s, token, command, marker, native)
    case PropertySubmitted(token, property, marker, native) => SubmitPropertySet(s, token, property, marker, native)
    case RetiringNotice(generation, intent) => RenderContextRetiring(s, generation, intent)
    case ReadyNotice(generation, native) => RenderContextReady(s, generation, native)
    case ReplyArrived(token, error, native) => HandleReply(s, token, error, native)
    case PropertyObserved(observation) => CacheProperty(s, observation)
    case FileStarted(entryId, marker) => StartFile(s, entryId, marker)
    case FileWasLoaded(native) => FileLoaded(s, native)
    case FileEnded(reason, marker, native) => EndFile(s, reason, marker, native)
    case CoreShutDown => CoreLost(s)
    case ShutdownRequested => Shutdown(s)
  }

  predicate Run(s: Controller, events: seq<Event>)
    decreases |events|
  {
    events == [] || (Possible(s, events[0]) && Run(After(s, events[0]), events[1..]))
  }

  function Outcome(s: Controller, events: seq<Event>): Controller
    decreases |events|
  {
    if events == [] then s else Outcome(After(s, events[0]), events[1..])
  }
}
