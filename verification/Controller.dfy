/** The controller's recovery code as it is written: methods that change the
    object's fields one after the other. Each is proved to do what the
    transition of the same name says, so what is proved of the transitions
    holds of the object. */
module ControllerObject {
  import opened Native
  import R = Recovery
  import opened RecoveryInvariant

  class MpvController {
    var available: bool
    var sourceIntent: nat
    var nextToken: nat
    var seekIntent: R.SeekIntent
    var playlist: seq<int>
    var playback: R.Playback
    var terminatedPlayback: R.Playback
    var terminationError: int
    var recovery: R.RecoveryState
    var recoveryRequests: map<nat, R.RecoveryRequest>
    var recoveryRevision: nat
    var pauseRevision: nat
    var seekRevision: nat
    var observedPause: bool
    ghost var issued: set<nat>
    ghost var pending: map<nat, R.Sender>
    ghost var history: R.History

    ghost function State(): R.Controller
      reads this
    {
      R.Controller(available, sourceIntent, nextToken, seekIntent, playlist, playback, terminatedPlayback,
        terminationError, recovery, recoveryRequests, recoveryRevision, pauseRevision, seekRevision,
        observedPause, issued, pending, history)
    }

    constructor ()
      ensures State() == R.INITIAL && Invariant(State())
    {
      available := true;
      sourceIntent, nextToken := 0, 1;
      seekIntent, playlist := R.NO_SEEK, [];
      playback, terminatedPlayback, terminationError := R.NO_PLAYBACK, R.NO_PLAYBACK, 0;
      recovery, recoveryRequests := R.NO_RECOVERY, map[];
      recoveryRevision, pauseRevision, seekRevision := 0, 0, 0;
      observedPause := false;
      issued, pending, history := {}, map[], R.Start;
    }

    method InvalidatePlaybackIntent()
      modifies this
      ensures State() == R.InvalidatePlaybackIntent(old(State()))
    {
      sourceIntent := sourceIntent + 1;
      recovery := recovery.(valid := false);
      history := R.Then(history, R.IntentAdvanced(sourceIntent));
      ForgetPlayback();
    }

    method ForgetPlayback()
      modifies this
      ensures State() == R.ForgetPlayback(old(State()))
    {
      playback := R.NO_PLAYBACK;
      terminatedPlayback := R.NO_PLAYBACK;
      terminationError := 0;
      seekIntent := R.NO_SEEK;
    }

    method RememberSeekIntent(position: real, marker: R.Marker)
      modifies this
      ensures State() == R.RememberSeekIntent(old(State()), position, marker)
    {
      var intent := sourceIntent;
      var renderer := R.RetiringContext(marker, intent);
      if renderer == 0 { return; }
      seekIntent := R.SeekIntent(renderer, intent, seekRevision, position, true);
      history := R.Then(history, R.PositionAsked(renderer, position));
      if recovery.valid && !recovery.seekSubmitted
         && recovery.retiredRenderer == renderer && recovery.playback.intent == intent {
        recovery := recovery.(playback := recovery.playback.(position := position));
        recovery := recovery.(seekRevision := seekRevision);
      }
    }

    method BumpSeek()
      modifies this
      ensures State() == R.BumpSeek(old(State()))
    {
      seekRevision := seekRevision + 1;
      seekIntent := seekIntent.(valid := false);
      history := R.Then(history, R.UserSeek(seekRevision));
    }

    /** A refused submission is answered at once. */
    method SubmissionResult(token: nat, ghost sender: R.Sender, error: int)
      modifies this
      ensures State() == R.Submission(old(State()), token, sender, error)
    {
      if error < 0 {
        history := R.Then(history, R.Delivered(token, error));
      } else {
        pending := pending[token := sender];
      }
    }

    method SubmitCommand(token: nat, c: R.Command, marker: R.Marker, native: int)
      modifies this
      ensures State() == R.SubmitCommand(old(State()), token, c, marker, native)
    {
      issued := issued - {token};
      var error := UNINITIALIZED;
      if available {
        nextToken := R.NoteNativeToken(nextToken, token);
        history := R.Then(history, R.CommandGiven(c.words));
        ghost var told := State();
        CommandIntent(c, marker);
        assert State() == R.CommandIntent(told, c, marker);
        error := native;
      }
      SubmissionResult(token, R.ForCommand, error);
    }

    method CommandIntent(c: R.Command, marker: R.Marker)
      modifies this
      ensures State() == R.CommandIntent(old(State()), c, marker)
    {
      if R.Invalidates(c.words, playback.loaded) { InvalidatePlaybackIntent(); }
      if c.words != [] && (c.words[0] == "seek" || c.words[0] == "revert-seek") {
        SeekIntended(c, marker);
      }
    }

    method SeekIntended(c: R.Command, marker: R.Marker)
      requires c.words != []
      modifies this
      ensures State() == R.SeekIntended(old(State()), c, marker)
    {
      BumpSeek();
      ghost var bumped := State();
      if c.words[0] == "seek" && |c.words| > 1 {
        var mode := if |c.words| > 2 then c.words[2] else "relative";
        var absolute := mode == "absolute" || mode == "absolute+exact";
        var relative := mode == "relative" || mode == "relative+exact";
        if c.amount.Some? && c.amount.value.Finite? && (absolute || relative) {
          var amount := c.amount.value.value;
          var base := if recovery.valid then recovery.playback.position
                      else if playback.loaded then playback.position else terminatedPlayback.position;
          assert R.SeekTarget(bumped, c) == Some(Max(0.0, if absolute then amount else base + amount));
          RememberSeekIntent(Max(0.0, if absolute then amount else base + amount), marker);
        }
      }
    }

    method SubmitPropertySet(token: nat, p: R.PropertySet, marker: R.Marker, native: int)
      modifies this
      ensures State() == R.SubmitPropertySet(old(State()), token, p, marker, native)
    {
      issued := issued - {token};
      var error := UNINITIALIZED;
      if available {
        nextToken := R.NoteNativeToken(nextToken, token);
        history := R.Then(history, R.WriteGiven(p.name));
        ghost var told := State();
        PropertyIntent(p, marker);
        assert State() == R.PropertyIntent(told, p, marker);
        error := native;
      }
      SubmissionResult(token, R.ForPropertySet, error);
    }

    method PropertyIntent(p: R.PropertySet, marker: R.Marker)
      modifies this
      ensures State() == R.PropertyIntent(old(State()), p, marker)
    {
      if p.name == "pause" {
        pauseRevision := pauseRevision + 1;
        history := R.Then(history, R.UserPause(pauseRevision));
      }
      if p.name == "time-pos" {
        BumpSeek();
        if p.number.Some? && p.number.value.Finite? && p.number.value.value >= 0.0 {
          RememberSeekIntent(p.number.value.value, marker);
        }
      }
      if p.name == "playlist-pos" || p.name == "playlist-current-pos" || p.name == "path" {
        InvalidatePlaybackIntent();
      }
    }

    method FailRecovery(error: int)
      modifies this
      ensures State() == R.FailRecovery(old(State()), error)
    {
      if !recovery.valid { return; }
      recovery := recovery.(valid := false);
      history := R.Then(history, R.Failed(recovery.revision, error));
    }

    method SubmitRecovery(action: R.Action, native: int) returns (token: nat)
      modifies this
      ensures State() == R.SubmitRecovery(old(State()), action, native)
    {
      token := nextToken;
      if token == 0 {
        FailRecovery(NOMEM);
        return 0;
      }
      nextToken := Following(token);
      var request := R.RecoveryRequest(recovery.revision, R.StepOf(action));
      ghost var before := recoveryRequests;
      recoveryRequests := recoveryRequests[token := request];
      history := R.Then(history, R.Submitted(recovery.revision, recovery.playback.intent, action, token, native >= 0));
      if native < 0 {
        recoveryRequests := recoveryRequests - {token};
        assert recoveryRequests == before - {token};
        FailRecovery(native);
        return 0;
      }
      pending := pending[token := R.ForRecovery(request)];
    }

    /** The search of the playlist for the entry to replay. */
    method FindEntry(entryId: int) returns (index: int)
      ensures index == match R.Find(playlist, entryId) case None => -1 case Some(i) => i
    {
      var i := 0;
      while i < |playlist|
        invariant 0 <= i <= |playlist|
        invariant R.Find(playlist, entryId) == R.FindFrom(playlist, entryId, i)
      {
        if playlist[i] == entryId { return i; }
        i := i + 1;
      }
      return -1;
    }

    method TryRecoverPlayback(native: int)
      modifies this
      ensures State() == R.TryRecoverPlayback(old(State()), native)
    {
      if !available || !recovery.valid || !recovery.terminated || recovery.readyRenderer == 0
         || recovery.replaying || recoveryRequests != map[] { return; }
      if recovery.playback.intent != sourceIntent {
        recovery := recovery.(valid := false);
        return;
      }
      var index := FindEntry(recovery.playback.entryId);
      if index < 0 {
        FailRecovery(NOTHING_TO_PLAY);
        return;
      }
      if !recovery.pauseAcknowledged && recovery.pauseRevision != pauseRevision {
        recovery := recovery.(pauseAcknowledged := true);
      }
      assert State() == old(State()).(recovery := recovery);
      if !recovery.pauseAcknowledged {
        var _ := SubmitRecovery(R.PauseTo(recovery.playback.paused), native);
        return;
      }
      recovery := recovery.(replaying := true);
      var _ := SubmitRecovery(R.ReplayAt(index), native);
    }

    method FinishRecovery()
      modifies this
      ensures State() == R.FinishRecovery(old(State()))
    {
      var completed := recovery;
      recovery := recovery.(valid := false);
      history := R.Then(history, R.Recovered(completed.revision, completed.readyRenderer, completed.playback.entryId));
    }

    method TryRestorePosition(native: int)
      modifies this
      ensures State() == R.TryRestorePosition(old(State()), native)
    {
      if !recovery.valid || !recovery.replaying || recovery.seekSubmitted || !recovery.fileLoaded
         || !recovery.replayAcknowledged || !recovery.pauseAcknowledged { return; }
      if recovery.playback.intent != sourceIntent {
        recovery := recovery.(valid := false);
        return;
      }
      if recovery.seekRevision != seekRevision {
        FinishRecovery();
        return;
      }
      recovery := recovery.(seekSubmitted := true);
      var _ := SubmitRecovery(R.SeekTo(recovery.playback.position), native);
    }

    method RenderContextRetiring(generation: nat, intent: nat)
      modifies this
      ensures State() == R.RenderContextRetiring(old(State()), generation, intent)
    {
      if !available || generation == 0 || intent != sourceIntent { return; }
      if recovery.valid && recovery.retiredRenderer == generation && recovery.playback.intent == intent { return; }
      var snapshot := if playback.loaded then playback else terminatedPlayback;
      if !snapshot.loaded || snapshot.entryId < 0 || snapshot.intent != intent { return; }
      recoveryRevision := recoveryRevision + 1;
      var r := R.NO_RECOVERY.(playback := snapshot, retiredRenderer := generation, revision := recoveryRevision,
                              pauseRevision := snapshot.pauseRevision, seekRevision := snapshot.seekRevision);
      if seekIntent.valid && seekIntent.renderer == generation && seekIntent.intent == intent
         && seekIntent.revision == seekRevision {
        r := r.(playback := r.playback.(position := seekIntent.position));
        r := r.(seekRevision := seekIntent.revision);
      }
      r := r.(valid := true);
      r := r.(terminated := terminationError == VO_INIT_FAILED
        && terminatedPlayback.entryId == snapshot.entryId && terminatedPlayback.intent == intent);
      recovery := r;
      history := R.Then(history, R.Opened(recoveryRevision, generation, snapshot.entryId,
        if playback.loaded then R.KeptIn(history) else R.EndedIn(history)));
    }

    method RenderContextReady(generation: nat, native: int)
      modifies this
      ensures State() == R.RenderContextReady(old(State()), generation, native)
    {
      history := R.Then(history, R.RendererReady(generation));
      if !recovery.valid || generation <= recovery.retiredRenderer { return; }
      recovery := recovery.(readyRenderer := generation);
      TryRecoverPlayback(native);
    }

    /** True if the reply was the recovery's; otherwise it goes to the application. */
    method HandleRecoveryReply(token: nat, error: int, native: int) returns (handled: bool)
      modifies this
      ensures handled == (token in old(recoveryRequests))
      ensures State() == if !handled then old(State())
        else R.Continue(R.Answer(old(State()), token, error), old(recoveryRequests)[token], error, native)
    {
      if token !in recoveryRequests { return false; }
      var request := recoveryRequests[token];
      recoveryRequests := recoveryRequests - {token};
      history := R.Then(history, R.Answered(request.revision, request.step, token, error));
      ghost var answered := State();
      assert answered == R.Answer(old(State()), token, error);
      if !recovery.valid || request.revision != recovery.revision || recovery.playback.intent != sourceIntent {
        TryRecoverPlayback(native);
        return true;
      }
      if error < 0 {
        FailRecovery(error);
        return true;
      }
      match request.step {
        case Pause =>
          recovery := recovery.(pauseAcknowledged := true);
          assert State() == answered.(recovery := recovery);
          TryRecoverPlayback(native);
          return true;
        case Replay =>
          recovery := recovery.(replayAcknowledged := true);
          assert State() == answered.(recovery := recovery);
        case Seek =>
          FinishRecovery();
          return true;
      }
      TryRestorePosition(native);
      return true;
    }

    // ----- the event cases of the drain loop -----

    method ReplyEvent(token: nat, error: int, native: int)
      modifies this
      ensures State() == R.HandleReply(old(State()), token, error, native)
    {
      pending := pending - {token};
      assert State() == R.TakeReply(old(State()), token);
      var handled := HandleRecoveryReply(token, error, native);
      if !handled {
        history := R.Then(history, R.Delivered(token, error));
      }
    }

    /** The playback takes the last reported pause state. */
    method KeepPause(p: R.Playback, ghost note: R.Note)
      modifies this
      ensures State() == R.KeepPause(old(State()), p, note)
    {
      playback := p.(paused := observedPause);
      playback := playback.(pauseRevision := pauseRevision);
      history := R.Then(history, note);
    }

    method CachePlaybackProperty(o: R.Observation)
      modifies this
      ensures State() == R.CacheProperty(old(State()), o)
    {
      match o {
        case PlaylistIs(entries) =>
          playlist := entries;
          history := R.Then(history, R.PlaylistReported(entries));
        case PauseIs(paused) =>
          observedPause := paused;
          history := R.Then(history, R.PauseReported(paused));
          if playback.loaded {
            KeepPause(playback, R.PauseKept(paused));
          }
        case TimePosIs(position) =>
          if playback.loaded && position.Finite? && position.value >= 0.0 {
            playback := playback.(position := position.value, seekRevision := seekRevision);
            history := R.Then(history, R.PositionKept(position.value));
          }
      }
    }

    method StartFileEvent(entryId: int, marker: R.Marker)
      modifies this
      ensures State() == R.StartFile(old(State()), entryId, marker)
    {
      history := R.Then(history, R.EntryStarted(entryId, marker));
      ghost var told := State();
      var resumed := recovery.valid && recovery.replaying && recovery.playback.entryId == entryId
        && recovery.playback.intent == sourceIntent;
      var renderLossAdvance := recovery.valid && recovery.terminated && recovery.playback.intent == sourceIntent
        && R.RetiringContext(marker, recovery.playback.intent) == recovery.retiredRenderer;
      var base := if resumed then recovery.playback else R.NO_PLAYBACK;
      if !resumed && !renderLossAdvance && playback.entryId >= 0 && entryId != playback.entryId {
        InvalidatePlaybackIntent();
      }
      assert State() == if R.StartsAnother(told, entryId, marker) then R.InvalidatePlaybackIntent(told) else told;
      Begin(base, entryId);
    }

    method Begin(base: R.Playback, entryId: int)
      modifies this
      ensures State() == R.Began(old(State()), base, entryId)
    {
      var p := base;
      p := p.(entryId := entryId);
      p := p.(intent := sourceIntent);
      p := p.(loaded := false);
      KeepPause(p, R.PauseCopied(observedPause));
    }

    method FileLoadedEvent(native: int)
      modifies this
      ensures State() == R.FileLoaded(old(State()), native)
    {
      history := R.Then(history, R.EntryLoaded);
      ghost var told := State();
      KeepPause(playback.(loaded := true), R.PauseCopied(observedPause));
      if recovery.valid && recovery.replaying && playback.entryId == recovery.playback.entryId {
        recovery := recovery.(fileLoaded := true);
        history := R.Then(history, R.Reloaded(recovery.revision));
      }
      assert State() == R.Reloading(told);
      TryRestorePosition(native);
    }

    method EndFileEvent(reason: R.EndReason, marker: R.Marker, native: int)
      modifies this
      ensures State() == R.EndFile(old(State()), reason, marker, native)
    {
      if reason.NoData? { return; }
      var lost := reason == R.Error(VO_INIT_FAILED);
      if lost {
        history := R.Then(history, R.VoLost);
        ClassifyLoss(marker);
      }
      FileTerminated(R.ErrorOf(reason));
      if lost {
        ConfirmLoss(native);
      }
    }

    method ClassifyLoss(marker: R.Marker)
      modifies this
      ensures State() == R.ClassifyLoss(old(State()), marker)
    {
      if playback.loaded {
        var retired := R.RetiringContext(marker, playback.intent);
        if retired != 0 { RenderContextRetiring(retired, playback.intent); }
      }
    }

    method FileTerminated(error: int)
      modifies this
      ensures State() == R.FileTerminated(old(State()), error)
    {
      if playback.loaded {
        terminatedPlayback := playback;
        terminationError := error;
        playback := playback.(loaded := false);
        history := R.Then(history, R.EntryEnded(error));
      }
    }

    method ConfirmLoss(native: int)
      modifies this
      ensures State() == R.ConfirmLoss(old(State()), native)
    {
      if recovery.valid && recovery.playback.entryId == terminatedPlayback.entryId
         && recovery.playback.intent == terminatedPlayback.intent {
        recovery := recovery.(terminated := true);
        TryRecoverPlayback(native);
      }
    }

    method CoreShutdownEvent()
      modifies this
      ensures State() == R.CoreLost(old(State()))
    {
      available := false;
    }

    method Shutdown()
      modifies this
      ensures State() == R.Shutdown(old(State()))
    {
      recovery := recovery.(valid := false);
      available := false;
      history := R.Then(history, R.Closed);
    }

    /** The next native token, taken by the GUI thread from the shared counter. */
    method AllocateNativeToken() returns (token: nat)
      modifies this
      ensures token == old(nextToken)
      ensures State() == R.IssueToken(old(State()))
    {
      token := nextToken;
      if token == 0 { return 0; }
      nextToken := Following(token);
      issued := issued + {token};
    }

    /** One turn of the worker: whatever it is handed, in any order the
        environment allows, it keeps what the theorems rest on. */
    method Dispatch(e: R.Event)
      requires R.Possible(State(), e) && Invariant(State())
      modifies this
      ensures State() == R.After(old(State()), e) && Invariant(State())
    {
      StepKeeps(State(), e);
      match e {
        case TokenIssued => var _ := AllocateNativeToken();
        case CommandSubmitted(token, command, marker, native) => SubmitCommand(token, command, marker, native);
        case PropertySubmitted(token, property, marker, native) => SubmitPropertySet(token, property, marker, native);
        case RetiringNotice(generation, intent) => RenderContextRetiring(generation, intent);
        case ReadyNotice(generation, native) => RenderContextReady(generation, native);
        case ReplyArrived(token, error, native) => ReplyEvent(token, error, native);
        case PropertyObserved(observation) => CachePlaybackProperty(observation);
        case FileStarted(entryId, marker) => StartFileEvent(entryId, marker);
        case FileWasLoaded(native) => FileLoadedEvent(native);
        case FileEnded(reason, marker, native) => EndFileEvent(reason, marker, native);
        case CoreShutDown => CoreShutdownEvent();
        case ShutdownRequested => Shutdown();
      }
    }
  }
}
