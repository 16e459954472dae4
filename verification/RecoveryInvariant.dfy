/** What every event of the recovery machine keeps. Three groups: native
    tokens, the protocol of the current recovery, and the link from the
    controller's fields to its history. Each group names the fields it is
    about, so that an event that leaves those alone keeps it. */
module RecoveryInvariant {
  import opened Native
  import opened Recovery
  import opened RecoveryHistory

  // ----- tokens -----

  ghost predicate Below(token: nat, next: nat) {
    0 < token && (next == 0 || token < next)
  }

  ghost predicate TokensFit(next: nat, issued: set<nat>, pending: map<nat, Sender>,
                            requests: map<nat, RecoveryRequest>) {
    && next <= UINT64_MAX
    && (forall t :: t in issued ==> Below(t, next) && t !in pending)
    && (forall t :: t in pending ==> Below(t, next))
    && (forall t :: t in requests ==> t in pending && pending[t] == ForRecovery(requests[t]))
    && (forall t :: t in pending && pending[t].ForRecovery? ==> t in requests)
  }

  ghost predicate Tokens(s: Controller) {
    TokensFit(s.nextToken, s.issued, s.pending, s.recoveryRequests)
  }

  // ----- protocol -----

  ghost predicate Waiting(requests: map<nat, RecoveryRequest>, revision: nat, step: Step) {
    exists t :: t in requests && requests[t] == RecoveryRequest(revision, step)
  }

  ghost predicate FlagsAgree(r: RecoveryState, requests: map<nat, RecoveryRequest>) {
    && (r.readyRenderer == 0 || r.readyRenderer > r.retiredRenderer)
    && (Waiting(requests, r.revision, Pause) ==> !r.replaying && !r.pauseAcknowledged)
    && (Waiting(requests, r.revision, Replay) <==> r.replaying && !r.replayAcknowledged)
    && (Waiting(requests, r.revision, Seek) <==> r.seekSubmitted)
    && (r.seekSubmitted ==> r.replayAcknowledged && r.fileLoaded)
    && (r.replayAcknowledged || r.fileLoaded ==> r.replaying)
    && (r.replaying ==> r.pauseAcknowledged)
    && (r.replaying ==> forall t :: t in requests ==> requests[t].revision == r.revision)
    && (r.replaying || r.pauseAcknowledged || Waiting(requests, r.revision, Pause)
        ==> r.terminated && r.readyRenderer != 0)
    && (r.pauseAcknowledged && !r.replaying ==> requests == map[])
  }

  ghost predicate PhaseAgrees(phase: Phase, r: RecoveryState, requests: map<nat, RecoveryRequest>) {
    if r.seekSubmitted then phase == Seeking
    else if r.replaying then phase == Replaying(r.replayAcknowledged, r.fileLoaded)
    else if r.pauseAcknowledged then phase == PauseDone
    else if Waiting(requests, r.revision, Pause) then phase == Pausing
    else phase == Fresh
  }

  /** The phases of all recoveries but the current one. */
  ghost predicate PhasesFit(h: History, r: RecoveryState, latest: nat) {
    && (forall q :: q == 0 || q > latest ==> PhaseOf(h, q).Unborn?)
    && (forall q :: !PhaseOf(h, q).Bad?)
    && (r.valid ==> 0 < r.revision == latest)
  }

  ghost predicate RequestsFit(h: History, r: RecoveryState, requests: map<nat, RecoveryRequest>, latest: nat) {
    && (forall t, u :: t in requests && u in requests ==> t == u)
    && (forall t :: t in requests ==>
          var q := requests[t].revision;
          0 < q <= latest && ((r.valid && q == r.revision) || PhaseOf(h, q).Over?))
  }

  ghost predicate CurrentFits(h: History, r: RecoveryState, requests: map<nat, RecoveryRequest>) {
    r.valid ==> FlagsAgree(r, requests) && PhaseAgrees(PhaseOf(h, r.revision), r, requests)
  }

  ghost predicate Protocol(s: Controller) {
    && PhasesFit(s.history, s.recovery, s.recoveryRevision)
    && RequestsFit(s.history, s.recovery, s.recoveryRequests, s.recoveryRevision)
    && CurrentFits(s.history, s.recovery, s.recoveryRequests)
  }

  /** Nothing is left that the controller should have done by itself. */
  ghost predicate Settled(s: Controller) {
    s.available && s.recovery.valid ==>
      && !CanAdvance(s)
      && (s.recovery.pauseAcknowledged ==> s.recovery.replaying)
      && (s.recovery.replayAcknowledged && s.recovery.fileLoaded ==> s.recovery.seekSubmitted)
  }

  // ----- history -----

  ghost predicate SeekPair(h: History, current: nat, revision: nat, position: real) {
    revision <= current && (revision == current ==> KeptSinceSeek(h, position))
  }

  ghost predicate PausePair(h: History, current: nat, revision: nat, paused: bool) {
    revision <= current && (revision == current ==> KeptSincePause(h, paused))
  }

  ghost predicate SeeksFit(h: History, current: nat, playback: Playback, terminated: Playback,
                           intent: SeekIntent, r: RecoveryState) {
    && SeekPair(h, current, 0, 0.0)
    && SeekPair(h, current, playback.seekRevision, playback.position)
    && SeekPair(h, current, terminated.seekRevision, terminated.position)
    && (intent.valid ==> SeekPair(h, current, intent.revision, intent.position))
    && (r.valid ==> SeekPair(h, current, r.seekRevision, r.playback.position)
                    && SeekPair(h, current, r.playback.seekRevision, r.playback.position))
  }

  ghost predicate PausesFit(h: History, current: nat, playback: Playback, terminated: Playback,
                            r: RecoveryState) {
    && PausePair(h, current, 0, false)
    && PausePair(h, current, playback.pauseRevision, playback.paused)
    && PausePair(h, current, terminated.pauseRevision, terminated.paused)
    && (r.valid ==> r.pauseRevision == r.playback.pauseRevision
                    && PausePair(h, current, r.pauseRevision, r.playback.paused))
  }

  ghost predicate LossFits(h: History, intent: nat, terminationError: int, r: RecoveryState) {
    && Orderly(h)
    && IntentOf(h) == intent
    && (terminationError == VO_INIT_FAILED ==> LostSinceIntent(h))
    && (r.valid ==> r.playback.intent == intent && (r.terminated ==> LostSinceIntent(h)))
  }

  ghost predicate Recorded(s: Controller) {
    && LossFits(s.history, s.sourceIntent, s.terminationError, s.recovery)
    && SeeksFit(s.history, s.seekRevision, s.playback, s.terminatedPlayback, s.seekIntent, s.recovery)
    && PausesFit(s.history, s.pauseRevision, s.playback, s.terminatedPlayback, s.recovery)
  }

  /** What holds between any two statements of an event. */
  ghost predicate Sound(s: Controller) {
    Tokens(s) && Protocol(s) && Recorded(s)
  }

  ghost predicate Invariant(s: Controller) {
    Sound(s) && Settled(s)
  }

  // ----- notes -----

  /** How one note moves the phase of every recovery. */
  lemma LogMoves(h: History, note: Note)
    ensures forall q {:trigger PhaseOf(Then(h, note), q)} ::
              PhaseOf(Then(h, note), q) == Advance(PhaseOf(h, q), note, q)
  {
  }

  ghost predicate Intervenes(note: Note) {
    note.IntentAdvanced? || note.UserSeek? || note.UserPause?
  }

  /** A note in order that is no intervention keeps every link to the history. */
  lemma NoteKeepsRecord(s: Controller, note: Note)
    requires Recorded(s) && !Intervenes(note) && InOrder(s.history, note)
    ensures Recorded(Log(s, note))
  {
    var h := Then(s.history, note);
    assert forall p :: KeptSinceSeek(s.history, p) ==> KeptSinceSeek(h, p);
    assert forall p :: KeptSincePause(s.history, p) ==> KeptSincePause(h, p);
    assert LostSinceIntent(s.history) ==> LostSinceIntent(h);
  }

  predicate Moves(note: Note) {
    note.Opened? || note.IntentAdvanced? || note.Closed? || note.Submitted? || note.Answered? || note.Reloaded?
    || note.Recovered? || note.Failed?
  }

  /** A note that moves no recovery keeps the protocol. */
  lemma NoteKeepsProtocol(s: Controller, note: Note)
    requires Protocol(s)
    requires !Moves(note)
    ensures Protocol(Log(s, note))
  {
    LogMoves(s.history, note);
    assert forall q :: PhaseOf(Then(s.history, note), q) == PhaseOf(s.history, q);
  }

  // ----- the recovery's own steps -----

  /** Sound, but for the current recovery's flags and phase: what holds while
      an event is changing them. */
  ghost predicate Apart(s: Controller) {
    && Tokens(s)
    && Recorded(s)
    && PhasesFit(s.history, s.recovery, s.recoveryRevision)
    && RequestsFit(s.history, s.recovery, s.recoveryRequests, s.recoveryRevision)
  }

  ghost predicate Ends(note: Note, s: Controller) {
    var phase := PhaseOf(s.history, s.recovery.revision);
    || (note == Closed && !phase.Unborn?)
    || (note.Failed? && note.revision == s.recovery.revision && !phase.Unborn? && !phase.Over?)
    || (note.Recovered? && note.revision == s.recovery.revision && phase in {Replaying(true, true), SeekDone})
  }

  function Dropped(s: Controller, note: Note): Controller {
    Log(s.(recovery := s.recovery.(valid := false)), note)
  }

  /** Dropping the current recovery for good makes the state sound again. */
  lemma DropSettles(s: Controller, note: Note)
    requires Apart(s) && s.recovery.valid && Ends(note, s)
    ensures Sound(Dropped(s, note)) && Settled(Dropped(s, note))
  {
    NoteKeepsRecord(s.(recovery := s.recovery.(valid := false)), note);
    LogMoves(s.history, note);
  }

  lemma FailSettles(s: Controller, error: int)
    requires Sound(s)
    ensures Sound(FailRecovery(s, error)) && Settled(FailRecovery(s, error))
  {
    if s.recovery.valid { DropSettles(s, Failed(s.recovery.revision, error)); }
  }

  function RequestFor(s: Controller, action: Action): RecoveryRequest {
    RecoveryRequest(s.recovery.revision, StepOf(action))
  }

  function NoteFor(s: Controller, action: Action, accepted: bool): Note {
    Submitted(s.recovery.revision, s.recovery.playback.intent, action, s.nextToken, accepted)
  }

  /** The step is the recovery's next one, and its flags already say so. */
  ghost predicate Due(s: Controller, action: Action) {
    var r := s.recovery;
    var requests := map[s.nextToken := RequestFor(s, action)];
    && r.valid && s.recoveryRequests == map[]
    && InOrder(s.history, NoteFor(s, action, true))
    && !PhaseOf(s.history, r.revision).Unborn?
    && !PhaseOf(s.history, r.revision).Over?
    && !Advance(PhaseOf(s.history, r.revision), NoteFor(s, action, true), r.revision).Bad?
    && FlagsAgree(r, requests)
    && PhaseAgrees(Advance(PhaseOf(s.history, r.revision), NoteFor(s, action, true), r.revision), r, requests)
    && (r.pauseAcknowledged ==> r.replaying)
    && (r.replayAcknowledged && r.fileLoaded ==> r.seekSubmitted)
  }

  lemma AcceptedSettles(s: Controller, action: Action)
    requires Apart(s) && Due(s, action) && s.nextToken != 0
    ensures var done := SubmitRecovery(s, action, 0);
      Sound(done) && Settled(done)
  {
    var t := s.nextToken;
    var done := SubmitRecovery(s, action, 0);
    assert done.recoveryRequests == map[t := RequestFor(s, action)];
    NoteKeepsRecord(s, NoteFor(s, action, true));
    LogMoves(s.history, NoteFor(s, action, true));
  }

  lemma RefusedSettles(s: Controller, action: Action, native: int)
    requires Apart(s) && Due(s, action) && s.nextToken != 0 && native < 0
    ensures var done := SubmitRecovery(s, action, native);
      Sound(done) && Settled(done)
  {
    var sent := Log(s.(nextToken := Following(s.nextToken)), NoteFor(s, action, false));
    NoteKeepsRecord(s, NoteFor(s, action, false));
    LogMoves(s.history, NoteFor(s, action, false));
    assert s.recoveryRequests - {s.nextToken} == s.recoveryRequests;
    DropSettles(sent, Failed(s.recovery.revision, native));
  }

  lemma SubmitSettles(s: Controller, action: Action, native: int)
    requires Apart(s) && Due(s, action)
    ensures var done := SubmitRecovery(s, action, native);
      Sound(done) && Settled(done)
  {
    if s.nextToken == 0 {
      DropSettles(s, Failed(s.recovery.revision, NOMEM));
    } else if native < 0 {
      RefusedSettles(s, action, native);
    } else {
      AcceptedSettles(s, action);
    }
  }

  /** `TryRecoverPlayback` leaves a settled state, from one where only the
      pause acknowledgement may be ahead of the replay. */
  lemma TryRecoverSettles(s: Controller, native: int)
    requires Sound(s) && (CanAdvance(s) || Settled(s))
    ensures var done := TryRecoverPlayback(s, native);
      Sound(done) && Settled(done)
  {
    if CanAdvance(s) {
      var found := Find(s.playlist, s.recovery.playback.entryId);
      var revision := s.recovery.revision;
      if found.None? {
        FailSettles(s, NOTHING_TO_PLAY);
      } else if !s.recovery.pauseAcknowledged && s.recovery.pauseRevision == s.pauseRevision {
        PauseIsDue(s);
        SubmitSettles(s, PauseTo(s.recovery.playback.paused), native);
      } else {
        ReplayIsDue(s, found.value);
        SubmitSettles(WithReplay(s), ReplayAt(found.value), native);
      }
    }
  }

  function WithReplay(s: Controller): Controller {
    s.(recovery := s.recovery.(pauseAcknowledged := true, replaying := true))
  }

  lemma PauseIsDue(s: Controller)
    requires Sound(s) && CanAdvance(s)
    requires !s.recovery.pauseAcknowledged && s.recovery.pauseRevision == s.pauseRevision
    ensures Due(s, PauseTo(s.recovery.playback.paused))
  {
    var requests := map[s.nextToken := RequestFor(s, PauseTo(s.recovery.playback.paused))];
    assert s.nextToken in requests;
  }

  lemma ReplayIsDue(s: Controller, index: nat)
    requires Sound(s) && CanAdvance(s)
    ensures Apart(WithReplay(s)) && Due(WithReplay(s), ReplayAt(index))
  {
    var requests := map[s.nextToken := RequestFor(s, ReplayAt(index))];
    assert s.nextToken in requests;
  }

  function WithSeek(s: Controller): Controller {
    s.(recovery := s.recovery.(seekSubmitted := true))
  }

  lemma TryRestoreSettles(s: Controller, native: int)
    requires Sound(s) && !CanAdvance(s)
    requires s.available && s.recovery.valid ==> s.recovery.pauseAcknowledged ==> s.recovery.replaying
    ensures var done := TryRestorePosition(s, native);
      Sound(done) && Settled(done)
  {
    var r := s.recovery;
    if r.valid && r.replaying && !r.seekSubmitted && r.fileLoaded && r.replayAcknowledged {
      if r.seekRevision != s.seekRevision {
        NothingAsked(s);
        DropSettles(s, Recovered(r.revision, r.readyRenderer, r.playback.entryId));
      } else {
        SeekIsDue(s);
        SubmitSettles(WithSeek(s), SeekTo(r.playback.position), native);
      }
    }
  }

  /** A replayed, acknowledged and reloaded recovery has no request out. */
  lemma NothingAsked(s: Controller)
    requires Protocol(s) && s.recovery.valid
    requires s.recovery.replaying && s.recovery.replayAcknowledged && !s.recovery.seekSubmitted
    ensures s.recoveryRequests == map[]
  {
    forall t | t in s.recoveryRequests {
      WaitingFor(s.recoveryRequests, t);
    }
  }

  lemma WaitingFor(requests: map<nat, RecoveryRequest>, t: nat)
    requires t in requests
    ensures var q := requests[t].revision;
      Waiting(requests, q, Pause) || Waiting(requests, q, Replay) || Waiting(requests, q, Seek)
  {
    var q := requests[t].revision;
    match requests[t].step
    case Pause => assert requests[t] == RecoveryRequest(q, Pause);
    case Replay => assert requests[t] == RecoveryRequest(q, Replay);
    case Seek => assert requests[t] == RecoveryRequest(q, Seek);
  }

  lemma SeekIsDue(s: Controller)
    requires Sound(s) && s.recovery.valid && s.recovery.seekRevision == s.seekRevision
    requires s.recovery.replaying && s.recovery.replayAcknowledged && s.recovery.fileLoaded
    requires !s.recovery.seekSubmitted
    ensures Apart(WithSeek(s)) && Due(WithSeek(s), SeekTo(s.recovery.playback.position))
  {
    NothingAsked(s);
    var requests := map[s.nextToken := RequestFor(s, SeekTo(s.recovery.playback.position))];
    assert s.nextToken in requests;
  }

  // ----- events -----

  /** Fields the protocol does not read may change freely. */
  lemma InvalidateSettles(s: Controller)
    requires Sound(s)
    ensures Invariant(InvalidatePlaybackIntent(s)) && SameTokens(s, InvalidatePlaybackIntent(s))
  {
    LogMoves(s.history, IntentAdvanced(s.sourceIntent + 1));
    InvalidatedRecord(s);
  }

  lemma InvalidatedRecord(s: Controller)
    requires Recorded(s)
    ensures Recorded(InvalidatePlaybackIntent(s))
  {
    var h := Then(s.history, IntentAdvanced(s.sourceIntent + 1));
    assert forall p :: KeptSinceSeek(s.history, p) ==> KeptSinceSeek(h, p);
    assert forall p :: KeptSincePause(s.history, p) ==> KeptSincePause(h, p);
  }

  predicate SameTokens(s: Controller, t: Controller) {
    t.available == s.available && t.issued == s.issued && t.pending == s.pending && t.nextToken == s.nextToken
  }

  lemma BumpSeekKeeps(s: Controller)
    requires Invariant(s)
    ensures Invariant(BumpSeek(s)) && SameTokens(s, BumpSeek(s))
  {
    NoteKeepsProtocol(s, UserSeek(s.seekRevision + 1));
  }

  /** A note of something told or put on record. */
  lemma PlainNoteKeeps(s: Controller, note: Note)
    requires Invariant(s) && !Moves(note) && !Intervenes(note)
    ensures Invariant(Log(s, note))
    ensures note.PositionKept? || note.PositionAsked? ==> KeptSinceSeek(Log(s, note).history, note.position)
  {
    NoteKeepsProtocol(s, note);
    NoteKeepsRecord(s, note);
  }

  lemma RememberKeeps(s: Controller, position: real, marker: Marker)
    requires Invariant(s)
    ensures Invariant(RememberSeekIntent(s, position, marker))
    ensures SameTokens(s, RememberSeekIntent(s, position, marker))
  {
    var renderer := RetiringContext(marker, s.sourceIntent);
    PlainNoteKeeps(s, PositionAsked(renderer, position));
    var noted := Log(s, PositionAsked(renderer, position));
    var intent := SeekIntent(renderer, s.sourceIntent, s.seekRevision, position, true);
    SeekIntentKeeps(noted, intent);
    AbsorbKeeps(noted.(seekIntent := intent), position);
    assert renderer == 0 ==> RememberSeekIntent(s, position, marker) == s;
  }

  lemma SeekIntentKeeps(s: Controller, intent: SeekIntent)
    requires Invariant(s) && intent.revision == s.seekRevision && KeptSinceSeek(s.history, intent.position)
    ensures Invariant(s.(seekIntent := intent))
  {
  }

  /** The recovery may take over a position just recorded. */
  lemma AbsorbKeeps(s: Controller, position: real)
    requires Invariant(s) && KeptSinceSeek(s.history, position)
    ensures Invariant(s.(recovery := s.recovery.(playback := s.recovery.playback.(position := position),
                                                 seekRevision := s.seekRevision)))
  {
  }

  lemma SubmissionKeeps(s: Controller, token: nat, sender: Sender, native: int)
    requires Invariant(s) && !sender.ForRecovery?
    requires Below(token, s.nextToken) && token !in s.issued && token !in s.pending
    ensures Invariant(Submission(s, token, sender, native))
  {
    if native < 0 {
      DeliveryKeeps(s, token, native);
    }
  }

  lemma DeliveryKeeps(s: Controller, token: nat, error: int)
    requires Invariant(s)
    ensures Invariant(Log(s, Delivered(token, error)))
  {
    PlainNoteKeeps(s, Delivered(token, error));
  }

  lemma SeekIntendedKeeps(s: Controller, c: Command, marker: Marker)
    requires Invariant(s)
    ensures Invariant(SeekIntended(s, c, marker)) && SameTokens(s, SeekIntended(s, c, marker))
  {
    var bumped := BumpSeek(s);
    BumpSeekKeeps(s);
    match SeekTarget(bumped, c)
    case Some(position) =>
      RememberKeeps(bumped, position, marker);
      assert SeekIntended(s, c, marker) == RememberSeekIntent(bumped, position, marker);
    case None =>
      assert SeekIntended(s, c, marker) == bumped;
  }

  lemma CommandIntentKeeps(s: Controller, c: Command, marker: Marker)
    requires Invariant(s)
    ensures Invariant(CommandIntent(s, c, marker)) && SameTokens(s, CommandIntent(s, c, marker))
  {
    var done := CommandIntent(s, c, marker);
    if Invalidates(c.words, s.playback.loaded) {
      InvalidateSettles(s);
      assert done == InvalidatePlaybackIntent(s);
    } else if IsSeek(c.words) {
      SeekIntendedKeeps(s, c, marker);
      assert done == SeekIntended(s, c, marker);
    } else {
      assert done == s;
    }
  }

  lemma CommandKeeps(s: Controller, token: nat, c: Command, marker: Marker, native: int)
    requires Invariant(s) && token in s.issued
    ensures Invariant(SubmitCommand(s, token, c, marker, native))
  {
    var s1 := s.(issued := s.issued - {token});
    assert Invariant(s1);
    if !s.available {
      DeliveryKeeps(s1, token, UNINITIALIZED);
    } else {
      assert NoteNativeToken(s.nextToken, token) == s.nextToken;
      var told := Log(s1, CommandGiven(c.words));
      PlainNoteKeeps(s1, CommandGiven(c.words));
      CommandIntentKeeps(told, c, marker);
      SubmissionKeeps(CommandIntent(told, c, marker), token, ForCommand, native);
    }
  }

  lemma BumpPauseKeeps(s: Controller)
    requires Invariant(s)
    ensures Invariant(BumpPause(s)) && SameTokens(s, BumpPause(s))
  {
    NoteKeepsProtocol(s, UserPause(s.pauseRevision + 1));
  }

  lemma TimePosKeeps(s: Controller, number: Option<Number>, marker: Marker)
    requires Invariant(s)
    ensures Invariant(TimePosIntent(s, number, marker)) && SameTokens(s, TimePosIntent(s, number, marker))
  {
    var done := TimePosIntent(s, number, marker);
    var bumped := BumpSeek(s);
    BumpSeekKeeps(s);
    if number.Some? && number.value.Finite? && number.value.value >= 0.0 {
      RememberKeeps(bumped, number.value.value, marker);
      assert done == RememberSeekIntent(bumped, number.value.value, marker);
    } else {
      assert done == bumped;
    }
  }

  lemma PropertyIntentKeeps(s: Controller, p: PropertySet, marker: Marker)
    requires Invariant(s)
    ensures Invariant(PropertyIntent(s, p, marker)) && SameTokens(s, PropertyIntent(s, p, marker))
  {
    var done := PropertyIntent(s, p, marker);
    if p.name == "pause" {
      BumpPauseKeeps(s);
      assert done == BumpPause(s);
    } else if p.name == "time-pos" {
      TimePosKeeps(s, p.number, marker);
      assert done == TimePosIntent(s, p.number, marker);
    } else if Navigates(p.name) {
      InvalidateSettles(s);
      assert done == InvalidatePlaybackIntent(s);
    } else {
      assert done == s;
    }
  }

  lemma PropertySetKeeps(s: Controller, token: nat, p: PropertySet, marker: Marker, native: int)
    requires Invariant(s) && token in s.issued
    ensures Invariant(SubmitPropertySet(s, token, p, marker, native))
  {
    var s1 := s.(issued := s.issued - {token});
    assert Invariant(s1);
    if !s.available {
      DeliveryKeeps(s1, token, UNINITIALIZED);
    } else {
      assert NoteNativeToken(s.nextToken, token) == s.nextToken;
      var told := Log(s1, WriteGiven(p.name));
      PlainNoteKeeps(s1, WriteGiven(p.name));
      PropertyIntentKeeps(told, p, marker);
      SubmissionKeeps(PropertyIntent(told, p, marker), token, ForPropertySet, native);
    }
  }

  lemma RetiringKeeps(s: Controller, generation: nat, intent: nat)
    requires Invariant(s)
    ensures Invariant(RenderContextRetiring(s, generation, intent))
  {
    var done := RenderContextRetiring(s, generation, intent);
    if done != s { OpeningKeeps(s, done.recovery, done.history.note); }
  }

  /** A fresh recovery of a position and a pause state on record. */
  lemma OpeningKeeps(s: Controller, r: RecoveryState, note: Note)
    requires Invariant(s) && note.Opened? && note.revision == r.revision == s.recoveryRevision + 1
    requires r == NO_RECOVERY.(playback := r.playback, retiredRenderer := r.retiredRenderer, revision := r.revision,
                               pauseRevision := r.playback.pauseRevision, seekRevision := r.seekRevision,
                               valid := true, terminated := r.terminated)
    requires LossFits(s.history, s.sourceIntent, s.terminationError, r)
    requires SeeksFit(s.history, s.seekRevision, s.playback, s.terminatedPlayback, s.seekIntent, r)
    requires PausesFit(s.history, s.pauseRevision, s.playback, s.terminatedPlayback, r)
    ensures Invariant(Log(s.(recoveryRevision := r.revision, recovery := r), note))
  {
    var done := Log(s.(recoveryRevision := r.revision, recovery := r), note);
    NoteKeepsRecord(s.(recoveryRevision := r.revision, recovery := r), note);
    LogMoves(s.history, note);
    assert Protocol(done);
  }

  lemma ReadyKeeps(s: Controller, generation: nat, native: int)
    requires Invariant(s)
    ensures Invariant(RenderContextReady(s, generation, native))
  {
    var told := Log(s, RendererReady(generation));
    PlainNoteKeeps(s, RendererReady(generation));
    if s.recovery.valid && generation > s.recovery.retiredRenderer {
      var s1 := told.(recovery := s.recovery.(readyRenderer := generation));
      assert Sound(s1);
      TryRecoverSettles(s1, native);
    }
  }

  lemma PauseRecordKeeps(s: Controller, note: Note)
    requires Invariant(s) && (note.PauseReported? || note.PauseKept? || note.PauseCopied?)
    ensures Invariant(Log(s, note))
    ensures !note.PauseReported? ==> KeptSincePause(Log(s, note).history, note.paused)
  {
    NoteKeepsProtocol(s, note);
    NoteKeepsRecord(s, note);
  }

  /** The cached playback may take any position and pause state on record. */
  lemma PlaybackKeeps(s: Controller, p: Playback)
    requires Invariant(s)
    requires SeekPair(s.history, s.seekRevision, p.seekRevision, p.position)
    requires PausePair(s.history, s.pauseRevision, p.pauseRevision, p.paused)
    ensures Invariant(s.(playback := p))
  {
  }

  lemma ObservedKeeps(s: Controller, o: Observation)
    requires Invariant(s)
    ensures Invariant(CacheProperty(s, o))
  {
    match o
    case PlaylistIs(entries) => PlaylistObservedKeeps(s, entries);
    case PauseIs(paused) => PauseObservedKeeps(s, paused);
    case TimePosIs(position) => PositionObservedKeeps(s, position);
  }

  lemma PlaylistObservedKeeps(s: Controller, entries: seq<int>)
    requires Invariant(s)
    ensures Invariant(CacheProperty(s, PlaylistIs(entries)))
  {
    PlainNoteKeeps(s, PlaylistReported(entries));
  }

  lemma PositionObservedKeeps(s: Controller, position: Number)
    requires Invariant(s)
    ensures Invariant(CacheProperty(s, TimePosIs(position)))
  {
    if s.playback.loaded && position.Finite? && position.value >= 0.0 {
      var p := s.playback.(position := position.value, seekRevision := s.seekRevision);
      PlainNoteKeeps(s, PositionKept(position.value));
      PlaybackKeeps(Log(s, PositionKept(position.value)), p);
      assert CacheProperty(s, TimePosIs(position)) == Log(s, PositionKept(position.value)).(playback := p);
    }
  }

  lemma PauseObservedKeeps(s: Controller, paused: bool)
    requires Invariant(s)
    ensures Invariant(CacheProperty(s, PauseIs(paused)))
  {
    var observed := Log(s.(observedPause := paused), PauseReported(paused));
    PauseRecordKeeps(s.(observedPause := paused), PauseReported(paused));
    if s.playback.loaded {
      PositionRecordKeeps(s, PauseReported(paused), s.playback);
      KeepPauseKeeps(observed, s.playback, PauseKept(paused));
    }
  }

  /** The playing entry takes the last reported pause state. */
  lemma KeepPauseKeeps(s: Controller, p: Playback, note: Note)
    requires Invariant(s) && SeekPair(s.history, s.seekRevision, p.seekRevision, p.position)
    requires note in {PauseKept(s.observedPause), PauseCopied(s.observedPause)}
    ensures Invariant(KeepPause(s, p, note))
  {
    PauseRecordKeeps(s, note);
    PositionRecordKeeps(s, note, p);
    var kept := p.(paused := s.observedPause, pauseRevision := s.pauseRevision);
    PlaybackKeeps(Log(s, note), kept);
    assert KeepPause(s, p, note) == Log(s, note).(playback := kept);
  }

  /** Answering takes a request out of both tables. */
  lemma AnswerKeepsTokens(s: Controller, token: nat)
    requires Tokens(s)
    ensures Tokens(s.(pending := s.pending - {token}, recoveryRequests := s.recoveryRequests - {token}))
  {
  }

  lemma ReplyKeeps(s: Controller, token: nat, error: int, native: int)
    requires Invariant(s) && s.available && token in s.pending
    ensures Invariant(HandleReply(s, token, error, native))
  {
    AnswerKeepsTokens(s, token);
    if token !in s.recoveryRequests {
      assert s.recoveryRequests - {token} == s.recoveryRequests;
      DeliveryKeeps(TakeReply(s, token), token, error);
    } else {
      var request := s.recoveryRequests[token];
      if s.recovery.valid && request.revision == s.recovery.revision {
        OwnReplyKeeps(s, token, error, native);
      } else {
        StaleReplyKeeps(s, token, error, native);
      }
    }
  }

  lemma AnswerMoves(s: Controller, token: nat, error: int)
    requires Invariant(s) && token in s.recoveryRequests
    ensures Tokens(Answer(TakeReply(s, token), token, error)) && Recorded(Answer(TakeReply(s, token), token, error))
    ensures Answer(TakeReply(s, token), token, error).recoveryRequests == map[]
    ensures forall q {:trigger PhaseOf(Answer(TakeReply(s, token), token, error).history, q)} ::
              PhaseOf(Answer(TakeReply(s, token), token, error).history, q)
              == Advance(PhaseOf(s.history, q), Answer(TakeReply(s, token), token, error).history.note, q)
  {
    var note := Answered(s.recoveryRequests[token].revision, s.recoveryRequests[token].step, token, error);
    LogMoves(s.history, note);
    NoteKeepsRecord(s, note);
    AnswerKeepsTokens(s, token);
  }

  /** A reply to a recovery that is gone only lets the current one move on. */
  lemma StaleReplyKeeps(s: Controller, token: nat, error: int, native: int)
    requires Invariant(s) && s.available && token in s.recoveryRequests
    requires !(s.recovery.valid && s.recoveryRequests[token].revision == s.recovery.revision)
    ensures Invariant(HandleReply(s, token, error, native))
  {
    AnswerMoves(s, token, error);
    var s1 := Answer(TakeReply(s, token), token, error);
    assert Protocol(s1);
    TryRecoverSettles(s1, native);
  }

  lemma OwnReplyKeeps(s: Controller, token: nat, error: int, native: int)
    requires Invariant(s) && s.available && token in s.recoveryRequests
    requires s.recovery.valid && s.recoveryRequests[token].revision == s.recovery.revision
    ensures Invariant(HandleReply(s, token, error, native))
  {
    AnswerMoves(s, token, error);
    WaitingFor(s.recoveryRequests, token);
    var s1 := Answer(TakeReply(s, token), token, error);
    if error < 0 {
      DropSettles(s1, Failed(s.recovery.revision, error));
    } else {
      match s.recoveryRequests[token].step
      case Pause => PauseAnswered(s, token, error, native);
      case Replay => ReplayAnswered(s, token, error, native);
      case Seek =>
        DropSettles(s1, Recovered(s.recovery.revision, s.recovery.readyRenderer, s.recovery.playback.entryId));
    }
  }

  lemma PauseAnswered(s: Controller, token: nat, error: int, native: int)
    requires Invariant(s) && s.available && token in s.recoveryRequests && error >= 0
    requires s.recovery.valid && s.recoveryRequests[token] == RecoveryRequest(s.recovery.revision, Pause)
    ensures var s1 := Answer(TakeReply(s, token), token, error);
      var done := TryRecoverPlayback(s1.(recovery := s1.recovery.(pauseAcknowledged := true)), native);
      Sound(done) && Settled(done)
  {
    AnswerMoves(s, token, error);
    WaitingFor(s.recoveryRequests, token);
    var s1 := Answer(TakeReply(s, token), token, error);
    var s2 := s1.(recovery := s1.recovery.(pauseAcknowledged := true));
    assert Protocol(s2);
    TryRecoverSettles(s2, native);
  }

  lemma ReplayAnswered(s: Controller, token: nat, error: int, native: int)
    requires Invariant(s) && s.available && token in s.recoveryRequests && error >= 0
    requires s.recovery.valid && s.recoveryRequests[token] == RecoveryRequest(s.recovery.revision, Replay)
    ensures var s1 := Answer(TakeReply(s, token), token, error);
      var done := TryRestorePosition(s1.(recovery := s1.recovery.(replayAcknowledged := true)), native);
      Sound(done) && Settled(done)
  {
    AnswerMoves(s, token, error);
    WaitingFor(s.recoveryRequests, token);
    var s1 := Answer(TakeReply(s, token), token, error);
    var s2 := s1.(recovery := s1.recovery.(replayAcknowledged := true));
    assert Protocol(s2);
    TryRestoreSettles(s2, native);
  }

  // ----- files -----

  lemma BeganKeeps(s: Controller, base: Playback, entryId: int)
    requires Invariant(s) && SeekPair(s.history, s.seekRevision, base.seekRevision, base.position)
    ensures Invariant(Began(s, base, entryId))
  {
    KeepPauseKeeps(s, base.(entryId := entryId, intent := s.sourceIntent, loaded := false),
                   PauseCopied(s.observedPause));
  }

  lemma PositionRecordKeeps(s: Controller, note: Note, p: Playback)
    requires SeekPair(s.history, s.seekRevision, p.seekRevision, p.position) && !note.UserSeek?
    ensures SeekPair(Then(s.history, note), s.seekRevision, p.seekRevision, p.position)
  {
  }

  lemma StartFileKeeps(s: Controller, entryId: int, marker: Marker)
    requires Invariant(s)
    ensures Invariant(StartFile(s, entryId, marker))
  {
    var told := Log(s, EntryStarted(entryId, marker));
    var base := if Resumes(told, entryId) then s.recovery.playback else NO_PLAYBACK;
    PlainNoteKeeps(s, EntryStarted(entryId, marker));
    if StartsAnother(told, entryId, marker) {
      InvalidateSettles(told);
      PositionRecordKeeps(told, IntentAdvanced(s.sourceIntent + 1), base);
      BeganKeeps(InvalidatePlaybackIntent(told), base, entryId);
    } else {
      BeganKeeps(told, base, entryId);
    }
  }

  lemma FileLoadedKeeps(s: Controller, native: int)
    requires Invariant(s) && s.available
    ensures Invariant(FileLoaded(s, native))
  {
    var told := Log(s, EntryLoaded);
    PlainNoteKeeps(s, EntryLoaded);
    var s1 := KeepPause(told, s.playback.(loaded := true), PauseCopied(s.observedPause));
    KeepPauseKeeps(told, s.playback.(loaded := true), PauseCopied(s.observedPause));
    if s.recovery.valid && s.recovery.replaying && s.playback.entryId == s.recovery.playback.entryId {
      ReloadedKeeps(s1);
      TryRestoreSettles(Log(s1.(recovery := s.recovery.(fileLoaded := true)), Reloaded(s.recovery.revision)), native);
    } else {
      TryRestoreSettles(s1, native);
    }
  }

  lemma ReloadedKeeps(s: Controller)
    requires Invariant(s) && s.recovery.valid && s.recovery.replaying
    ensures Sound(Log(s.(recovery := s.recovery.(fileLoaded := true)), Reloaded(s.recovery.revision)))
  {
    LogMoves(s.history, Reloaded(s.recovery.revision));
    NoteKeepsRecord(s, Reloaded(s.recovery.revision));
  }

  lemma VoLossKeeps(s: Controller)
    requires Invariant(s)
    ensures Invariant(Log(s, VoLost)) && LostSinceIntent(Log(s, VoLost).history)
  {
    PlainNoteKeeps(s, VoLost);
  }

  lemma ClassifyKeeps(s: Controller, marker: Marker)
    requires Invariant(s) && LostSinceIntent(s.history)
    ensures Invariant(ClassifyLoss(s, marker)) && LostSinceIntent(ClassifyLoss(s, marker).history)
  {
    RetiringKeeps(s, RetiringContext(marker, s.playback.intent), s.playback.intent);
  }

  lemma FiledKeeps(s: Controller, error: int)
    requires Invariant(s) && (error == VO_INIT_FAILED ==> LostSinceIntent(s.history))
    ensures Invariant(s.(terminatedPlayback := s.playback, terminationError := error,
                         playback := s.playback.(loaded := false)))
  {
  }

  lemma TerminatedKeeps(s: Controller, error: int)
    requires Invariant(s) && (error == VO_INIT_FAILED ==> LostSinceIntent(s.history))
    ensures Invariant(FileTerminated(s, error))
    ensures LostSinceIntent(s.history) ==> LostSinceIntent(FileTerminated(s, error).history)
  {
    if s.playback.loaded {
      var filed := s.(terminatedPlayback := s.playback, terminationError := error,
                      playback := s.playback.(loaded := false));
      FiledKeeps(s, error);
      PlainNoteKeeps(filed, EntryEnded(error));
      assert FileTerminated(s, error) == Log(filed, EntryEnded(error));
    }
  }

  lemma ConfirmKeeps(s: Controller, native: int)
    requires Invariant(s) && LostSinceIntent(s.history)
    ensures Invariant(ConfirmLoss(s, native))
  {
    if RecoversTerminated(s) {
      var s1 := s.(recovery := s.recovery.(terminated := true));
      assert Sound(s1);
      TryRecoverSettles(s1, native);
    }
  }

  lemma EndFileKeeps(s: Controller, reason: EndReason, marker: Marker, native: int)
    requires Invariant(s)
    ensures Invariant(EndFile(s, reason, marker, native))
  {
    if IsVoLoss(reason) {
      var lost := Log(s, VoLost);
      VoLossKeeps(s);
      ClassifyKeeps(lost, marker);
      TerminatedKeeps(ClassifyLoss(lost, marker), VO_INIT_FAILED);
      ConfirmKeeps(FileTerminated(ClassifyLoss(lost, marker), VO_INIT_FAILED), native);
    } else if !reason.NoData? {
      TerminatedKeeps(s, ErrorOf(reason));
    }
  }

  // ----- the whole machine -----

  lemma ShutdownKeeps(s: Controller)
    requires Invariant(s)
    ensures Invariant(Shutdown(s))
  {
    if s.recovery.valid { DropSettles(s, Closed); } else { IdleCloses(s); }
    assert Shutdown(s) == Dropped(s, Closed).(available := false);
  }

  lemma IdleCloses(s: Controller)
    requires Invariant(s) && !s.recovery.valid
    ensures Sound(Log(s, Closed))
  {
    NoteKeepsRecord(s, Closed);
    LogMoves(s.history, Closed);
  }

  lemma IssueKeeps(s: Controller)
    requires Invariant(s)
    ensures Invariant(IssueToken(s))
  {
  }

  lemma InitialHolds()
    ensures Invariant(INITIAL)
  {
  }

  lemma StepKeeps(s: Controller, e: Event)
    requires Invariant(s) && Possible(s, e)
    ensures Invariant(After(s, e))
  {
    match e
    case TokenIssued => IssueKeeps(s);
    case CommandSubmitted(token, command, marker, native) => CommandKeeps(s, token, command, marker, native);
    case PropertySubmitted(token, property, marker, native) => PropertySetKeeps(s, token, property, marker, native);
    case RetiringNotice(generation, intent) => RetiringKeeps(s, generation, intent);
    case ReadyNotice(generation, native) => ReadyKeeps(s, generation, native);
    case ReplyArrived(token, error, native) => ReplyKeeps(s, token, error, native);
    case PropertyObserved(observation) => ObservedKeeps(s, observation);
    case FileStarted(entryId, marker) => StartFileKeeps(s, entryId, marker);
    case FileWasLoaded(native) => FileLoadedKeeps(s, native);
    case FileEnded(reason, marker, native) => EndFileKeeps(s, reason, marker, native);
    case CoreShutDown =>
    case ShutdownRequested => ShutdownKeeps(s);
  }

  /** Every run of the machine keeps the invariant. */
  lemma {:induction false} RunKeeps(s: Controller, events: seq<Event>)
    requires Invariant(s) && Run(s, events)
    ensures Invariant(Outcome(s, events))
    decreases |events|
  {
    if events != [] {
      StepKeeps(s, events[0]);
      RunKeeps(After(s, events[0]), events[1..]);
    }
  }
}
