/** Which pause state a recovery sends, and when that state is older than the
    user's own last pause. Everything is read off the history: what libmpv
    reported, what was put on record for the playing entry, which record the
    snapshot of a recovery was taken from, and where the user paused. */
module RecoveryPause {
  import opened Native
  import opened Recovery
  import opened RecoveryHistory
  import opened RecoveryInvariant

  /** The pause state libmpv reported last; playing before any report. */
  predicate LastReported(h: History) {
    h.Then? && if h.note.PauseReported? then h.note.paused else LastReported(h.earlier)
  }

  /** The history up to that report. */
  function ReportIn(h: History): History {
    match h
    case Start => Start
    case Then(earlier, note) => if note.PauseReported? then h else ReportIn(earlier)
  }

  /** The user's last pause change has not been followed by a report. */
  predicate ReportIsDue(h: History) {
    h.Then? && (h.note.UserPause? || (!h.note.PauseReported? && ReportIsDue(h.earlier)))
  }

  /** The user has not changed the pause state since `past`. */
  predicate NoPauseSince(past: History, h: History) {
    h == past || (h.Then? && !h.note.UserPause? && NoPauseSince(past, h.earlier))
  }

  /** The recovery was opened, and the user has not changed the pause state since. */
  predicate NoPauseSinceOpening(h: History, revision: nat) {
    h.Then? && ((h.note.Opened? && h.note.revision == revision)
                || (!h.note.UserPause? && NoPauseSinceOpening(h.earlier, revision)))
  }

  /** The record of the pause state the recovery was opened with. */
  function SnapshotOf(h: History, revision: nat): History {
    match h
    case Start => Start
    case Then(earlier, note) =>
      if note.Opened? && note.revision == revision then note.kept else SnapshotOf(earlier, revision)
  }

  /** A record holds the state libmpv reported last: at once, as the report
      came, or copied later, as the entry started or was loaded. */
  predicate IsRecord(kept: History, paused: bool) {
    && kept.Then? && kept.note in {PauseKept(paused), PauseCopied(paused)}
    && paused == LastReported(kept)
    && (kept.note.PauseKept? ==> kept.earlier.Then? && kept.earlier.note.PauseReported?)
  }

  /** What the past must say for the recovery to send this pause state. */
  predicate MaySend(past: History, revision: nat, paused: bool) {
    && IsRecord(SnapshotOf(past, revision), paused)
    && NoPauseSince(SnapshotOf(past, revision), past)
    && NoPauseSinceOpening(past, revision)
  }

  predicate SendsPause(note: Note) {
    note.Submitted? && note.action.PauseTo?
  }

  predicate PausesFollowRecords(h: History) {
    h.Then? ==> PausesFollowRecords(h.earlier)
                && (SendsPause(h.note) ==> MaySend(h.earlier, h.note.revision, h.note.action.paused))
  }

  // ----- the invariant -----

  /** A pause state kept under a revision was put on record at `kept`, after
      the user's last pause change if the revision is current. */
  predicate OnRecord(h: History, current: nat, revision: nat, paused: bool, kept: History) {
    revision <= current && IsRecord(kept, paused) && (revision == current ==> NoPauseSince(kept, h))
  }

  predicate RecoveryOnRecord(h: History, current: nat, r: RecoveryState) {
    && OnRecord(h, current, r.pauseRevision, r.playback.paused, SnapshotOf(h, r.revision))
    && (r.pauseRevision == current ==> NoPauseSinceOpening(h, r.revision))
  }

  predicate RecordsFit(h: History, current: nat, playback: Playback, terminated: Playback, r: RecoveryState) {
    && (playback.loaded ==> OnRecord(h, current, playback.pauseRevision, playback.paused, KeptIn(h)))
    && (terminated.loaded ==> OnRecord(h, current, terminated.pauseRevision, terminated.paused, EndedIn(h)))
    && (r.valid ==> RecoveryOnRecord(h, current, r))
  }

  predicate PauseTold(s: Controller) {
    && LastReported(s.history) == s.observedPause
    && PausesFollowRecords(s.history)
    && RecordsFit(s.history, s.pauseRevision, s.playback, s.terminatedPlayback, s.recovery)
  }

  // ----- notes that leave every record where it is -----

  predicate Aside(past: History, note: Note) {
    && !note.UserPause? && !note.PauseReported? && !note.PauseKept? && !note.PauseCopied?
    && !note.EntryEnded? && !note.Opened?
    && (SendsPause(note) ==> MaySend(past, note.revision, note.action.paused))
  }

  predicate AsideSince(past: History, h: History) {
    h == past || (h.Then? && Aside(h.earlier, h.note) && AsideSince(past, h.earlier))
  }

  predicate SamePause(p: Playback, q: Playback) {
    q.loaded ==> p.loaded && q.paused == p.paused && q.pauseRevision == p.pauseRevision
  }

  predicate SameRecovery(r: RecoveryState, q: RecoveryState) {
    q.valid ==> r.valid && q.revision == r.revision && q.pauseRevision == r.pauseRevision
                && q.playback.paused == r.playback.paused
  }

  /** The pause states are those of before, or gone. */
  predicate PausesLeft(s: Controller, t: Controller) {
    && t.pauseRevision == s.pauseRevision && t.observedPause == s.observedPause
    && SamePause(s.playback, t.playback)
    && SamePause(s.terminatedPlayback, t.terminatedPlayback)
    && SameRecovery(s.recovery, t.recovery)
    && AsideSince(s.history, t.history)
  }

  lemma {:induction false} AsideKeeps(past: History, h: History, current: nat, playback: Playback, terminated: Playback,
                                      r: RecoveryState)
    requires AsideSince(past, h) && PausesFollowRecords(past) && RecordsFit(past, current, playback, terminated, r)
    ensures PausesFollowRecords(h) && RecordsFit(h, current, playback, terminated, r)
    ensures LastReported(h) == LastReported(past)
  {
    if h != past { AsideKeeps(past, h.earlier, current, playback, terminated, r); }
  }

  lemma LeftKeeps(s: Controller, t: Controller)
    requires PauseTold(s) && PausesLeft(s, t)
    ensures PauseTold(t)
  {
    AsideKeeps(s.history, t.history, s.pauseRevision, s.playback, s.terminatedPlayback, s.recovery);
  }

  // ----- notes that move a record -----

  lemma BumpTells(s: Controller)
    requires PauseTold(s)
    ensures PauseTold(BumpPause(s))
  {
  }

  lemma ReportTells(s: Controller, paused: bool)
    requires PauseTold(s)
    ensures PauseTold(Log(s.(observedPause := paused), PauseReported(paused)))
  {
  }

  lemma KeepTells(s: Controller, p: Playback, note: Note)
    requires PauseTold(s) && note in {PauseKept(s.observedPause), PauseCopied(s.observedPause)}
    requires note.PauseKept? ==> s.history.Then? && s.history.note.PauseReported?
    ensures PauseTold(KeepPause(s, p, note))
  {
    var t := KeepPause(s, p, note);
    assert KeptIn(t.history) == t.history && IsRecord(t.history, s.observedPause);
  }

  lemma EndTells(s: Controller, error: int)
    requires PauseTold(s)
    ensures PauseTold(FileTerminated(s, error))
  {
  }

  lemma OpeningTells(s: Controller, generation: nat, intent: nat)
    requires PauseTold(s)
    ensures PauseTold(RenderContextRetiring(s, generation, intent))
  {
  }

  // ----- events -----

  lemma SubmitLeaves(s: Controller, action: Action, native: int)
    requires action.PauseTo? ==> MaySend(s.history, s.recovery.revision, action.paused)
    ensures PausesLeft(s, SubmitRecovery(s, action, native))
  {
    var done := SubmitRecovery(s, action, native);
    if s.nextToken == 0 {
      assert AsideSince(s.history, done.history);
    } else {
      var sent := Then(s.history, NoteFor(s, action, native >= 0));
      assert AsideSince(s.history, sent);
      assert done.history == sent || (done.history.note.Failed? && done.history.earlier == sent);
    }
  }

  lemma SnapshotMaySend(s: Controller)
    requires PauseTold(s) && s.recovery.valid && s.recovery.pauseRevision == s.pauseRevision
    ensures MaySend(s.history, s.recovery.revision, s.recovery.playback.paused)
  {
  }

  lemma TryRecoverLeaves(s: Controller, native: int)
    requires s.recovery.valid && s.recovery.pauseRevision == s.pauseRevision ==>
               MaySend(s.history, s.recovery.revision, s.recovery.playback.paused)
    ensures PausesLeft(s, TryRecoverPlayback(s, native))
  {
    if CanAdvance(s) && s.recovery.playback.intent == s.sourceIntent {
      var found := Find(s.playlist, s.recovery.playback.entryId);
      if found.Some? {
        if !s.recovery.pauseAcknowledged && s.recovery.pauseRevision == s.pauseRevision {
          SubmitLeaves(s, PauseTo(s.recovery.playback.paused), native);
        } else {
          SubmitLeaves(WithReplay(s), ReplayAt(found.value), native);
        }
      }
    }
  }

  lemma TryRecoverTells(s: Controller, native: int)
    requires PauseTold(s)
    ensures PauseTold(TryRecoverPlayback(s, native))
  {
    if s.recovery.valid && s.recovery.pauseRevision == s.pauseRevision { SnapshotMaySend(s); }
    TryRecoverLeaves(s, native);
    LeftKeeps(s, TryRecoverPlayback(s, native));
  }

  lemma EndLeaves(s: Controller, error: int)
    ensures PausesLeft(s, FailRecovery(s, error)) && PausesLeft(s, FinishRecovery(s))
  {
  }

  lemma TryRestoreLeaves(s: Controller, native: int)
    ensures PausesLeft(s, TryRestorePosition(s, native))
  {
    var r := s.recovery;
    if r.valid && r.replaying && !r.seekSubmitted && r.fileLoaded && r.replayAcknowledged && r.pauseAcknowledged
       && r.playback.intent == s.sourceIntent {
      if r.seekRevision != s.seekRevision {
        EndLeaves(s, SUCCESS);
      } else {
        SubmitLeaves(WithSeek(s), SeekTo(r.playback.position), native);
      }
    }
  }

  lemma TryRestoreTells(s: Controller, native: int)
    requires PauseTold(s)
    ensures PauseTold(TryRestorePosition(s, native))
  {
    TryRestoreLeaves(s, native);
    LeftKeeps(s, TryRestorePosition(s, native));
  }

  lemma CommandTells(s: Controller, token: nat, c: Command, marker: Marker, native: int)
    requires PauseTold(s)
    ensures PauseTold(SubmitCommand(s, token, c, marker, native))
  {
    var s1 := s.(issued := s.issued - {token}, nextToken := NoteNativeToken(s.nextToken, token));
    if !s.available {
      LeftKeeps(s, SubmitCommand(s, token, c, marker, native));
    } else {
      var told := Log(s1, CommandGiven(c.words));
      LeftKeeps(s, told);
      CommandLeaves(told, c, marker);
      LeftKeeps(told, CommandIntent(told, c, marker));
      SubmissionTells(CommandIntent(told, c, marker), token, ForCommand, native);
    }
  }

  lemma CommandLeaves(s: Controller, c: Command, marker: Marker)
    ensures PausesLeft(s, CommandIntent(s, c, marker))
  {
    if IsSeek(c.words) {
      var target := SeekTarget(BumpSeek(s), c);
      assert !Invalidates(c.words, s.playback.loaded);
      SeekLeaves(s, if target.Some? then target.value else 0.0, marker);
    }
  }

  lemma SeekLeaves(s: Controller, position: real, marker: Marker)
    ensures PausesLeft(s, BumpSeek(s)) && PausesLeft(s, RememberSeekIntent(BumpSeek(s), position, marker))
  {
    assert AsideSince(s.history, BumpSeek(s).history);
  }

  lemma PropertyTells(s: Controller, token: nat, p: PropertySet, marker: Marker, native: int)
    requires PauseTold(s)
    ensures PauseTold(SubmitPropertySet(s, token, p, marker, native))
  {
    var s1 := s.(issued := s.issued - {token}, nextToken := NoteNativeToken(s.nextToken, token));
    if !s.available {
      LeftKeeps(s, SubmitPropertySet(s, token, p, marker, native));
    } else {
      var told := Log(s1, WriteGiven(p.name));
      LeftKeeps(s, told);
      IntentTells(told, p, marker);
      SubmissionTells(PropertyIntent(told, p, marker), token, ForPropertySet, native);
    }
  }

  lemma SubmissionTells(s: Controller, token: nat, sender: Sender, native: int)
    requires PauseTold(s)
    ensures PauseTold(Submission(s, token, sender, native))
  {
    LeftKeeps(s, Submission(s, token, sender, native));
  }

  lemma IntentTells(s: Controller, p: PropertySet, marker: Marker)
    requires PauseTold(s)
    ensures PauseTold(PropertyIntent(s, p, marker))
  {
    if p.name == "pause" {
      BumpTells(s);
      assert PropertyIntent(s, p, marker) == BumpPause(s);
    } else {
      PropertyLeaves(s, p, marker);
      LeftKeeps(s, PropertyIntent(s, p, marker));
    }
  }

  lemma PropertyLeaves(s: Controller, p: PropertySet, marker: Marker)
    requires p.name != "pause"
    ensures PausesLeft(s, PropertyIntent(s, p, marker))
  {
    if p.name == "time-pos" {
      SeekLeaves(s, if p.number.Some? && p.number.value.Finite? then p.number.value.value else 0.0, marker);
      assert PropertyIntent(s, p, marker) == TimePosIntent(s, p.number, marker);
    }
  }

  lemma ReplyTells(s: Controller, token: nat, error: int, native: int)
    requires PauseTold(s)
    ensures PauseTold(HandleReply(s, token, error, native))
  {
    var s1 := TakeReply(s, token);
    if token !in s.recoveryRequests {
      LeftKeeps(s, Log(s1, Delivered(token, error)));
    } else {
      var s2 := Answer(s1, token, error);
      LeftKeeps(s, s2);
      ContinueTells(s2, s.recoveryRequests[token], error, native);
    }
  }

  lemma ContinueTells(s: Controller, request: RecoveryRequest, error: int, native: int)
    requires PauseTold(s)
    ensures PauseTold(Continue(s, request, error, native))
  {
    var paused := s.(recovery := s.recovery.(pauseAcknowledged := true));
    var replayed := s.(recovery := s.recovery.(replayAcknowledged := true));
    TryRecoverTells(s, native);
    assert PauseTold(paused);
    TryRecoverTells(paused, native);
    assert PauseTold(replayed);
    TryRestoreTells(replayed, native);
    EndedTells(s, error);
  }

  lemma EndedTells(s: Controller, error: int)
    requires PauseTold(s)
    ensures PauseTold(FailRecovery(s, error)) && PauseTold(FinishRecovery(s))
  {
    EndLeaves(s, error);
    LeftKeeps(s, FailRecovery(s, error));
    LeftKeeps(s, FinishRecovery(s));
  }

  lemma ObservedTells(s: Controller, o: Observation)
    requires PauseTold(s)
    ensures PauseTold(CacheProperty(s, o))
  {
    if o.PauseIs? {
      var reported := Log(s.(observedPause := o.paused), PauseReported(o.paused));
      ReportTells(s, o.paused);
      KeepTells(reported, s.playback, PauseKept(o.paused));
    } else {
      LeftKeeps(s, CacheProperty(s, o));
    }
  }

  lemma StartTells(s: Controller, entryId: int, marker: Marker)
    requires PauseTold(s)
    ensures PauseTold(StartFile(s, entryId, marker))
  {
    var told := Log(s, EntryStarted(entryId, marker));
    var base := if Resumes(told, entryId) then s.recovery.playback else NO_PLAYBACK;
    var s1 := if StartsAnother(told, entryId, marker) then InvalidatePlaybackIntent(told) else told;
    LeftKeeps(s, told);
    LeftKeeps(told, s1);
    KeepTells(s1, base.(entryId := entryId, intent := s1.sourceIntent, loaded := false), PauseCopied(s.observedPause));
  }

  lemma LoadedTells(s: Controller, native: int)
    requires PauseTold(s)
    ensures PauseTold(FileLoaded(s, native))
  {
    var told := Log(s, EntryLoaded);
    LeftKeeps(s, told);
    var s1 := KeepPause(told, s.playback.(loaded := true), PauseCopied(s.observedPause));
    KeepTells(told, s.playback.(loaded := true), PauseCopied(s.observedPause));
    LeftKeeps(s1, Reloading(told));
    TryRestoreTells(Reloading(told), native);
  }

  lemma EndFileTells(s: Controller, reason: EndReason, marker: Marker, native: int)
    requires PauseTold(s)
    ensures PauseTold(EndFile(s, reason, marker, native))
  {
    if IsVoLoss(reason) {
      var lost := Log(s, VoLost);
      LeftKeeps(s, lost);
      OpeningTells(lost, RetiringContext(marker, s.playback.intent), s.playback.intent);
      EndTells(ClassifyLoss(lost, marker), VO_INIT_FAILED);
      ConfirmTells(FileTerminated(ClassifyLoss(lost, marker), VO_INIT_FAILED), native);
    } else if !reason.NoData? {
      EndTells(s, ErrorOf(reason));
    }
  }

  lemma ConfirmTells(s: Controller, native: int)
    requires PauseTold(s)
    ensures PauseTold(ConfirmLoss(s, native))
  {
    TryRecoverTells(s.(recovery := s.recovery.(terminated := true)), native);
  }

  lemma ReadyTells(s: Controller, generation: nat, native: int)
    requires PauseTold(s)
    ensures PauseTold(RenderContextReady(s, generation, native))
  {
    var told := Log(s, RendererReady(generation));
    LeftKeeps(s, told);
    if s.recovery.valid && generation > s.recovery.retiredRenderer {
      var ready := told.(recovery := s.recovery.(readyRenderer := generation));
      LeftKeeps(told, ready);
      TryRecoverTells(ready, native);
    }
  }

  lemma AvailabilityTells(s: Controller)
    requires PauseTold(s)
    ensures PauseTold(IssueToken(s)) && PauseTold(CoreLost(s)) && PauseTold(Shutdown(s))
  {
    LeftKeeps(s, Shutdown(s));
  }

  lemma StepTells(s: Controller, e: Event)
    requires PauseTold(s)
    ensures PauseTold(After(s, e))
  {
    match e
    case TokenIssued => AvailabilityTells(s);
    case CommandSubmitted(token, command, marker, native) => CommandTells(s, token, command, marker, native);
    case PropertySubmitted(token, property, marker, native) => PropertyTells(s, token, property, marker, native);
    case RetiringNotice(generation, intent) => OpeningTells(s, generation, intent);
    case ReadyNotice(generation, native) => ReadyTells(s, generation, native);
    case ReplyArrived(token, error, native) => ReplyTells(s, token, error, native);
    case PropertyObserved(observation) => ObservedTells(s, observation);
    case FileStarted(entryId, marker) => StartTells(s, entryId, marker);
    case FileWasLoaded(native) => LoadedTells(s, native);
    case FileEnded(reason, marker, native) => EndFileTells(s, reason, marker, native);
    case CoreShutDown => AvailabilityTells(s);
    case ShutdownRequested => AvailabilityTells(s);
  }

  lemma {:induction false} RunTells(s: Controller, events: seq<Event>)
    requires PauseTold(s) && Run(s, events)
    ensures PauseTold(Outcome(s, events))
    decreases |events|
  {
    if events != [] {
      StepTells(s, events[0]);
      RunTells(After(s, events[0]), events[1..]);
    }
  }

  // ----- what it means over a run -----

  lemma {:induction false} SentInThePast(past: History, note: Note, h: History)
    requires PausesFollowRecords(h) && IsPast(Then(past, note), h) && SendsPause(note)
    ensures MaySend(past, note.revision, note.action.paused)
  {
    if Then(past, note) != h { SentInThePast(past, note, h.earlier); }
  }

  /** A recovery sends a pause only if the user has not paused since the
      recovery was opened, nor since its snapshot's pause state was put on
      record; and what it sends is what libmpv had reported last by then. */
  lemma PauseSentIsTheSnapshots(events: seq<Event>, past: History, note: Note)
    requires Run(INITIAL, events)
    requires IsPast(Then(past, note), Outcome(INITIAL, events).history) && SendsPause(note)
    ensures NoPauseSinceOpening(past, note.revision)
    ensures var kept := SnapshotOf(past, note.revision);
      && NoPauseSince(kept, past)
      && kept.Then? && kept.note in {PauseKept(note.action.paused), PauseCopied(note.action.paused)}
      && note.action.paused == LastReported(kept)
  {
    RunTells(INITIAL, events);
    SentInThePast(past, note, Outcome(INITIAL, events).history);
  }

  /** The state sent was reported after the user's last pause change, if and
      only if the snapshot's record is no copy that an entry made, as it started
      or was loaded, between that change and the report of it. */
  lemma PauseSentIsCurrentExactlyWhen(events: seq<Event>, past: History, note: Note)
    requires Run(INITIAL, events)
    requires IsPast(Then(past, note), Outcome(INITIAL, events).history) && SendsPause(note)
    ensures var kept := SnapshotOf(past, note.revision);
      && kept.Then?
      && (NoPauseSince(ReportIn(kept), past) <==> !(kept.note.PauseCopied? && ReportIsDue(kept.earlier)))
  {
    RunTells(INITIAL, events);
    SentInThePast(past, note, Outcome(INITIAL, events).history);
    var kept := SnapshotOf(past, note.revision);
    ReportIsPast(kept);
    NoPauseSplits(ReportIn(kept), kept, past);
    ReportedExactlyWhen(kept);
  }

  function Length(h: History): nat {
    if h.Start? then 0 else 1 + Length(h.earlier)
  }

  lemma {:induction false} PastIsShorter(past: History, h: History)
    requires IsPast(past, h)
    ensures Length(past) <= Length(h)
  {
    if past != h { PastIsShorter(past, h.earlier); }
  }

  lemma {:induction false} ReportIsPast(h: History)
    ensures IsPast(ReportIn(h), h)
  {
    if h.Then? && !h.note.PauseReported? { ReportIsPast(h.earlier); }
  }

  /** For three moments in order, the whole is quiet if its later part is and its earlier part is. */
  lemma {:induction false} NoPauseSplits(a: History, b: History, c: History)
    requires IsPast(a, b) && NoPauseSince(b, c)
    ensures NoPauseSince(a, c) <==> NoPauseSince(a, b)
  {
    if c != b {
      NoPauseSplits(a, b, c.earlier);
      NoPauseIsPast(b, c.earlier);
      PastIsShorter(a, b);
      PastIsShorter(b, c.earlier);
    }
  }

  lemma {:induction false} NoPauseIsPast(past: History, h: History)
    requires NoPauseSince(past, h)
    ensures IsPast(past, h)
  {
    if h != past { NoPauseIsPast(past, h.earlier); }
  }

  /** No pause change since the last report means that none waits for a report. */
  lemma {:induction false} ReportedExactlyWhen(h: History)
    ensures NoPauseSince(ReportIn(h), h) <==> !ReportIsDue(h)
  {
    if h.Then? && !h.note.PauseReported? {
      ReportedExactlyWhen(h.earlier);
      ReportIsPast(h.earlier);
      PastIsShorter(ReportIn(h.earlier), h.earlier);
    }
  }
}
