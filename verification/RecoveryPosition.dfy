/** Which position a recovery restores: the user's own target if the seek was
    made while its lost renderer was known, and otherwise what libmpv reported
    after the seek. */
module RecoveryPosition {
  import opened Native
  import opened Recovery
  import opened RecoveryHistory
  import opened RecoveryInvariant
  import opened RecoveryEntries

  datatype Target = Target(renderer: nat, position: real)

  /** Where the user's last seek aimed and which lost renderer the marker named,
      if it named one and the intent has not changed since. */
  function AskedIn(h: History): Option<Target> {
    match h
    case Start => None
    case Then(_, PositionAsked(renderer, position)) => Some(Target(renderer, position))
    case Then(_, UserSeek(_)) => None
    case Then(_, IntentAdvanced(_)) => None
    case Then(earlier, _) => AskedIn(earlier)
  }

  predicate AsksSeek(note: Note, revision: nat) {
    note.Submitted? && note.revision == revision && note.action.SeekTo?
  }

  /** The recovery has asked for its seek. */
  predicate SeekAsked(h: History, revision: nat) {
    h.Then? && (AsksSeek(h.note, revision) || (!Opens(h.note, revision) && SeekAsked(h.earlier, revision)))
  }

  /** The user's last seek was made for the renderer the recovery lost. */
  predicate AskedFor(h: History, revision: nat) {
    AskedIn(h).Some? && AskedIn(h).value.renderer == RetiredOf(h, revision)
  }

  /** A seek made for the lost renderer is what a recovery restores, and none is passed over. */
  predicate HeedsTheUser(past: History, note: Note) {
    && (note.Submitted? && note.action.SeekTo? && AskedFor(past, note.revision) ==>
          note.action.position == AskedIn(past).value.position)
    && (note.Recovered? && !SeekAsked(past, note.revision) ==> !AskedFor(past, note.revision))
  }

  predicate UserHeeded(h: History) {
    h.Then? ==> UserHeeded(h.earlier) && HeedsTheUser(h.earlier, h.note)
  }

  // ----- the invariant -----

  /** What the current recovery aims at. */
  datatype Aim = Aim(revision: nat, retired: nat, seeking: bool, upToDate: bool, position: real)

  function AskedOf(i: SeekIntent): Option<Target> {
    if i.valid then Some(Target(i.renderer, i.position)) else None
  }

  function AimOf(r: RecoveryState, current: nat): Option<Aim> {
    if !r.valid then None
    else Some(Aim(r.revision, r.retiredRenderer, r.seekSubmitted, r.seekRevision == current, r.playback.position))
  }

  predicate AimTold(h: History, a: Aim) {
    && a.retired == RetiredOf(h, a.revision)
    && a.seeking == SeekAsked(h, a.revision)
    && (!a.seeking && AskedFor(h, a.revision) ==> a.upToDate && a.position == AskedIn(h).value.position)
  }

  predicate AimsTold(h: History, asked: Option<Target>, aim: Option<Aim>) {
    && asked == AskedIn(h)
    && (aim.Some? ==> AimTold(h, aim.value))
    && UserHeeded(h)
  }

  /** What is remembered of a seek belongs to the last one and to the current intent. */
  predicate Fresh(s: Controller) {
    && (s.seekIntent.valid ==> s.seekIntent.revision == s.seekRevision && s.seekIntent.intent == s.sourceIntent)
    && (s.recovery.valid ==> s.recovery.playback.intent == s.sourceIntent)
  }

  predicate PositionsTold(s: Controller) {
    AimsTold(s.history, AskedOf(s.seekIntent), AimOf(s.recovery, s.seekRevision)) && Fresh(s)
  }

  // ----- notes -----

  predicate Beside(note: Note) {
    && !note.PositionAsked? && !note.UserSeek? && !note.IntentAdvanced? && !note.Opened? && !note.Recovered?
    && !(note.Submitted? && note.action.SeekTo?)
  }

  predicate BesideSince(past: History, h: History) {
    h == past || (h.Then? && Beside(h.note) && BesideSince(past, h.earlier))
  }

  lemma {:induction false} BesideTold(past: History, h: History, asked: Option<Target>, aim: Option<Aim>)
    requires AimsTold(past, asked, aim) && BesideSince(past, h)
    ensures AimsTold(h, asked, aim)
  {
    if h != past { BesideTold(past, h.earlier, asked, aim); }
  }

  /** The seek intent is that of before, and so is the recovery, or it is gone. */
  predicate AimsLeft(s: Controller, t: Controller) {
    && t.seekIntent == s.seekIntent && t.seekRevision == s.seekRevision && t.sourceIntent == s.sourceIntent
    && (t.recovery.valid ==> s.recovery.valid && t.recovery.playback.intent == s.recovery.playback.intent
                             && AimOf(t.recovery, t.seekRevision) == AimOf(s.recovery, s.seekRevision))
    && BesideSince(s.history, t.history)
  }

  lemma LeftAims(s: Controller, t: Controller)
    requires PositionsTold(s) && AimsLeft(s, t)
    ensures PositionsTold(t)
  {
    BesideTold(s.history, t.history, AskedOf(s.seekIntent), AimOf(s.recovery, s.seekRevision));
  }

  // ----- the user -----

  lemma BumpAims(s: Controller)
    requires PositionsTold(s)
    ensures PositionsTold(BumpSeek(s))
  {
  }

  lemma RememberAims(s: Controller, position: real, marker: Marker)
    requires PositionsTold(s)
    ensures PositionsTold(RememberSeekIntent(s, position, marker))
  {
  }

  lemma InvalidateAims(s: Controller)
    requires PositionsTold(s)
    ensures PositionsTold(InvalidatePlaybackIntent(s))
  {
  }

  lemma SubmissionAims(s: Controller, token: nat, sender: Sender, native: int)
    requires PositionsTold(s)
    ensures PositionsTold(Submission(s, token, sender, native))
  {
    LeftAims(s, Submission(s, token, sender, native));
  }

  lemma CommandAims(s: Controller, token: nat, c: Command, marker: Marker, native: int)
    requires PositionsTold(s)
    ensures PositionsTold(SubmitCommand(s, token, c, marker, native))
  {
    if !s.available {
      LeftAims(s, SubmitCommand(s, token, c, marker, native));
    } else {
      var told := Log(s.(issued := s.issued - {token}, nextToken := NoteNativeToken(s.nextToken, token)),
                      CommandGiven(c.words));
      LeftAims(s, told);
      CommandIntentAims(told, c, marker);
      SubmissionAims(CommandIntent(told, c, marker), token, ForCommand, native);
    }
  }

  lemma CommandIntentAims(s: Controller, c: Command, marker: Marker)
    requires PositionsTold(s)
    ensures PositionsTold(CommandIntent(s, c, marker))
  {
    if Invalidates(c.words, s.playback.loaded) {
      assert !IsSeek(c.words);
      InvalidateAims(s);
    } else if IsSeek(c.words) {
      var target := SeekTarget(BumpSeek(s), c);
      BumpAims(s);
      RememberAims(BumpSeek(s), if target.Some? then target.value else 0.0, marker);
      assert CommandIntent(s, c, marker) == SeekIntended(s, c, marker);
    }
  }

  lemma PropertyAims(s: Controller, token: nat, p: PropertySet, marker: Marker, native: int)
    requires PositionsTold(s)
    ensures PositionsTold(SubmitPropertySet(s, token, p, marker, native))
  {
    if !s.available {
      LeftAims(s, SubmitPropertySet(s, token, p, marker, native));
    } else {
      var told := Log(s.(issued := s.issued - {token}, nextToken := NoteNativeToken(s.nextToken, token)),
                      WriteGiven(p.name));
      LeftAims(s, told);
      PropertyIntentAims(told, p, marker);
      SubmissionAims(PropertyIntent(told, p, marker), token, ForPropertySet, native);
    }
  }

  lemma PropertyIntentAims(s: Controller, p: PropertySet, marker: Marker)
    requires PositionsTold(s)
    ensures PositionsTold(PropertyIntent(s, p, marker))
  {
    if p.name == "pause" {
      LeftAims(s, BumpPause(s));
      assert PropertyIntent(s, p, marker) == BumpPause(s);
    } else if p.name == "time-pos" {
      BumpAims(s);
      RememberAims(BumpSeek(s), if p.number.Some? && p.number.value.Finite? then p.number.value.value else 0.0, marker);
      assert PropertyIntent(s, p, marker) == TimePosIntent(s, p.number, marker);
    } else if Navigates(p.name) {
      InvalidateAims(s);
    }
  }

  // ----- the recovery's own steps -----

  /** A step of the recovery other than its seek. */
  lemma SubmitLeavesAims(s: Controller, action: Action, native: int)
    requires !action.SeekTo?
    ensures AimsLeft(s, SubmitRecovery(s, action, native))
  {
    var done := SubmitRecovery(s, action, native);
    var sent := Then(s.history, NoteFor(s, action, native >= 0));
    assert s.nextToken != 0 ==> BesideSince(s.history, sent);
    assert s.nextToken != 0 ==> done.history == sent || (done.history.note.Failed? && done.history.earlier == sent);
  }

  lemma TryRecoverAims(s: Controller, native: int)
    requires PositionsTold(s)
    ensures PositionsTold(TryRecoverPlayback(s, native))
  {
    if CanAdvance(s) {
      var found := Find(s.playlist, s.recovery.playback.entryId);
      if found.None? {
        LeftAims(s, FailRecovery(s, NOTHING_TO_PLAY));
      } else if !s.recovery.pauseAcknowledged && s.recovery.pauseRevision == s.pauseRevision {
        SubmitLeavesAims(s, PauseTo(s.recovery.playback.paused), native);
        LeftAims(s, SubmitRecovery(s, PauseTo(s.recovery.playback.paused), native));
      } else {
        SubmitLeavesAims(WithReplay(s), ReplayAt(found.value), native);
        LeftAims(WithReplay(s), SubmitRecovery(WithReplay(s), ReplayAt(found.value), native));
      }
    }
  }

  lemma SeekNoted(h: History, asked: Option<Target>, a: Aim, note: Note)
    requires AimsTold(h, asked, Some(a)) && !a.seeking
    requires note.Submitted? && note.revision == a.revision && note.action == SeekTo(a.position)
    ensures AimsTold(Then(h, note), asked, Some(a.(seeking := true)))
  {
  }

  /** The seek the recovery sends. */
  lemma SeekAims(s: Controller, native: int)
    requires PositionsTold(s) && s.recovery.valid && !s.recovery.seekSubmitted
    ensures PositionsTold(SubmitRecovery(WithSeek(s), SeekTo(s.recovery.playback.position), native))
  {
    var t := WithSeek(s);
    var action := SeekTo(s.recovery.playback.position);
    var note := NoteFor(s, action, native >= 0);
    if s.nextToken == 0 {
      LeftAims(s, FailRecovery(t, NOMEM));
    } else {
      SeekNoted(s.history, AskedOf(s.seekIntent), AimOf(s.recovery, s.seekRevision).value, note);
      var sent := Log(t, note);
      assert PositionsTold(sent);
      SentLeavesAims(t, action, native);
      LeftAims(sent, SubmitRecovery(t, action, native));
    }
  }

  lemma SentLeavesAims(s: Controller, action: Action, native: int)
    requires s.nextToken != 0
    ensures AimsLeft(Log(s, NoteFor(s, action, native >= 0)), SubmitRecovery(s, action, native))
  {
  }

  /** A recovery ends with its seek done, or with an older seek revision. */
  lemma FinishAims(s: Controller)
    requires PositionsTold(s) && s.recovery.valid
    requires s.recovery.seekSubmitted || s.recovery.seekRevision != s.seekRevision
    ensures PositionsTold(FinishRecovery(s))
  {
  }

  lemma TryRestoreAims(s: Controller, native: int)
    requires PositionsTold(s)
    ensures PositionsTold(TryRestorePosition(s, native))
  {
    var r := s.recovery;
    if r.valid && r.replaying && !r.seekSubmitted && r.fileLoaded && r.replayAcknowledged && r.pauseAcknowledged {
      if r.seekRevision == s.seekRevision { SeekAims(s, native); } else { FinishAims(s); }
    }
  }

  lemma OpeningAims(s: Controller, generation: nat, intent: nat)
    requires PositionsTold(s)
    ensures PositionsTold(RenderContextRetiring(s, generation, intent))
  {
  }

  lemma ReadyAims(s: Controller, generation: nat, native: int)
    requires PositionsTold(s)
    ensures PositionsTold(RenderContextReady(s, generation, native))
  {
    var told := Log(s, RendererReady(generation));
    LeftAims(s, told);
    if s.recovery.valid && generation > s.recovery.retiredRenderer {
      TryRecoverAims(told.(recovery := s.recovery.(readyRenderer := generation)), native);
    }
  }

  lemma ReplyAims(s: Controller, token: nat, error: int, native: int)
    requires PositionsTold(s) && Invariant(s)
    ensures PositionsTold(HandleReply(s, token, error, native))
  {
    var s1 := TakeReply(s, token);
    if token !in s.recoveryRequests {
      LeftAims(s, Log(s1, Delivered(token, error)));
    } else {
      var request := s.recoveryRequests[token];
      LeftAims(s, Answer(s1, token, error));
      if s.recovery.valid && request.revision == s.recovery.revision { WaitingFor(s.recoveryRequests, token); }
      ContinueAims(Answer(s1, token, error), request, error, native);
    }
  }

  lemma ContinueAims(s: Controller, request: RecoveryRequest, error: int, native: int)
    requires PositionsTold(s)
    requires s.recovery.valid && request == RecoveryRequest(s.recovery.revision, Step.Seek) ==> s.recovery.seekSubmitted
    ensures PositionsTold(Continue(s, request, error, native))
  {
    if !s.recovery.valid || request.revision != s.recovery.revision
       || s.recovery.playback.intent != s.sourceIntent {
      TryRecoverAims(s, native);
    } else if error < 0 {
      LeftAims(s, FailRecovery(s, error));
    } else {
      match request.step
      case Pause => TryRecoverAims(s.(recovery := s.recovery.(pauseAcknowledged := true)), native);
      case Replay => TryRestoreAims(s.(recovery := s.recovery.(replayAcknowledged := true)), native);
      case Seek => FinishAims(s);
    }
  }

  // ----- files and runs -----

  lemma StartAims(s: Controller, entryId: int, marker: Marker)
    requires PositionsTold(s)
    ensures PositionsTold(StartFile(s, entryId, marker))
  {
    var told := Log(s, EntryStarted(entryId, marker));
    var s1 := if StartsAnother(told, entryId, marker) then InvalidatePlaybackIntent(told) else told;
    LeftAims(s, told);
    InvalidateAims(told);
    LeftAims(s1, StartFile(s, entryId, marker));
  }

  lemma LoadedAims(s: Controller, native: int)
    requires PositionsTold(s)
    ensures PositionsTold(FileLoaded(s, native))
  {
    var told := Log(s, EntryLoaded);
    LeftAims(s, told);
    ReloadingAims(told);
    TryRestoreAims(Reloading(told), native);
  }

  lemma ReloadingAims(s: Controller)
    requires PositionsTold(s)
    ensures PositionsTold(Reloading(s))
  {
    LeftAims(s, Reloading(s));
  }

  lemma EndFileAims(s: Controller, reason: EndReason, marker: Marker, native: int)
    requires PositionsTold(s)
    ensures PositionsTold(EndFile(s, reason, marker, native))
  {
    if IsVoLoss(reason) {
      var lost := Log(s, VoLost);
      LeftAims(s, lost);
      OpeningAims(lost, RetiringContext(marker, s.playback.intent), s.playback.intent);
      TerminatedAims(ClassifyLoss(lost, marker), VO_INIT_FAILED);
      ConfirmAims(FileTerminated(ClassifyLoss(lost, marker), VO_INIT_FAILED), native);
    } else if !reason.NoData? {
      TerminatedAims(s, ErrorOf(reason));
    }
  }

  lemma TerminatedAims(s: Controller, error: int)
    requires PositionsTold(s)
    ensures PositionsTold(FileTerminated(s, error))
  {
    LeftAims(s, FileTerminated(s, error));
  }

  lemma ConfirmAims(s: Controller, native: int)
    requires PositionsTold(s)
    ensures PositionsTold(ConfirmLoss(s, native))
  {
    TryRecoverAims(s.(recovery := s.recovery.(terminated := true)), native);
  }

  lemma ObservedAims(s: Controller, o: Observation)
    requires PositionsTold(s)
    ensures PositionsTold(CacheProperty(s, o))
  {
    LeftAims(s, CacheProperty(s, o));
  }

  lemma AvailabilityAims(s: Controller)
    requires PositionsTold(s)
    ensures PositionsTold(IssueToken(s)) && PositionsTold(CoreLost(s)) && PositionsTold(Shutdown(s))
  {
    LeftAims(s, Shutdown(s));
  }

  lemma StepAims(s: Controller, e: Event)
    requires PositionsTold(s) && Invariant(s)
    ensures PositionsTold(After(s, e))
  {
    match e
    case TokenIssued => AvailabilityAims(s);
    case CommandSubmitted(token, command, marker, native) => CommandAims(s, token, command, marker, native);
    case PropertySubmitted(token, property, marker, native) => PropertyAims(s, token, property, marker, native);
    case RetiringNotice(generation, intent) => OpeningAims(s, generation, intent);
    case ReadyNotice(generation, native) => ReadyAims(s, generation, native);
    case ReplyArrived(token, error, native) => ReplyAims(s, token, error, native);
    case PropertyObserved(observation) => ObservedAims(s, observation);
    case FileStarted(entryId, marker) => StartAims(s, entryId, marker);
    case FileWasLoaded(native) => LoadedAims(s, native);
    case FileEnded(reason, marker, native) => EndFileAims(s, reason, marker, native);
    case CoreShutDown => AvailabilityAims(s);
    case ShutdownRequested => AvailabilityAims(s);
  }

  lemma {:induction false} RunAims(s: Controller, events: seq<Event>)
    requires PositionsTold(s) && Invariant(s) && Run(s, events)
    ensures PositionsTold(Outcome(s, events))
    decreases |events|
  {
    if events != [] {
      StepAims(s, events[0]);
      StepKeeps(s, events[0]);
      RunAims(After(s, events[0]), events[1..]);
    }
  }

  lemma {:induction false} HeededInThePast(past: History, note: Note, h: History)
    requires UserHeeded(h) && IsPast(Then(past, note), h)
    ensures HeedsTheUser(past, note)
  {
    if Then(past, note) != h { HeededInThePast(past, note, h.earlier); }
  }

  /** Over every run: if the user's last seek was made while the marker named
      the renderer a recovery lost, the seek the recovery sends goes there; any
      other seek it sends goes where libmpv reported the entry to be after that
      seek, or to a target asked for another renderer. A recovery that ends
      without a seek passes over no target asked for its renderer. */
  lemma SeekSentIsTheUsers(events: seq<Event>, past: History, note: Note)
    requires Run(INITIAL, events)
    requires IsPast(Then(past, note), Outcome(INITIAL, events).history)
    ensures note.Submitted? && note.action.SeekTo? ==>
              if AskedFor(past, note.revision) then note.action.position == AskedIn(past).value.position
              else KeptSinceSeek(past, note.action.position)
    ensures note.Recovered? && !SeekAsked(past, note.revision) ==> !AskedFor(past, note.revision)
  {
    InitialHolds();
    RunAims(INITIAL, events);
    HeededInThePast(past, note, Outcome(INITIAL, events).history);
    RunKeeps(INITIAL, events);
    OrderlyAt(past, note, Outcome(INITIAL, events).history);
  }
}
