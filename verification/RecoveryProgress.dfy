/** With a cooperating environment a recovery replays the lost entry and puts
    back its pause state and its position. */
module RecoveryProgress {
  import opened Native
  import opened Recovery

  // ----- composing runs -----

  lemma Prepend(s: Controller, e: Event, rest: seq<Event>)
    requires Possible(s, e) && Run(After(s, e), rest)
    ensures Run(s, [e] + rest) && Outcome(s, [e] + rest) == Outcome(After(s, e), rest)
  {
    assert ([e] + rest)[1..] == rest;
  }

  lemma {:induction false} RunThenRun(s: Controller, first: seq<Event>, second: seq<Event>)
    requires Run(s, first) && Run(Outcome(s, first), second)
    ensures Run(s, first + second) && Outcome(s, first + second) == Outcome(Outcome(s, first), second)
    decreases |first|
  {
    if first == [] {
      assert first + second == second;
    } else {
      RunThenRun(After(s, first[0]), first[1..], second);
      assert (first + second)[1..] == first[1..] + second;
    }
  }

  // ----- a recovery that nothing disturbs -----

  /** A terminated recovery with nothing out and everything it will need. */
  predicate Poised(s: Controller, index: nat) {
    var r := s.recovery;
    && s.available && r.valid && r.terminated && r.retiredRenderer != 0
    && !r.replaying && !r.replayAcknowledged && !r.pauseAcknowledged && !r.fileLoaded && !r.seekSubmitted
    && r.playback.intent == s.sourceIntent
    && r.pauseRevision == s.pauseRevision && r.seekRevision == s.seekRevision
    && s.recoveryRequests == map[] && s.pending == map[]
    && 0 < s.nextToken <= UINT64_MAX - 3
    && Find(s.playlist, r.playback.entryId) == Some(index)
  }

  /** What the event has just done. */
  predicate Newest(s: Controller, note: Recovery.Note) {
    s.history.Then? && s.history.note == note
  }

  function Note(s: Controller, action: Action, token: nat): Recovery.Note {
    Submitted(s.recovery.revision, s.sourceIntent, action, token, true)
  }

  /** The state with one recovery request out, and the note of sending it. */
  function Waiting(s: Controller, r: RecoveryState, action: Action, h: History): Controller {
    var t := s.nextToken;
    var request := RecoveryRequest(s.recovery.revision, StepOf(action));
    s.(recovery := r, nextToken := t + 1, recoveryRequests := map[t := request],
       pending := map[t := ForRecovery(request)], history := Then(h, Note(s, action, t)))
  }

  /** What the ready renderer sets off. */
  function AskingForPause(s: Controller, renderer: nat): Controller {
    Waiting(s, s.recovery.(readyRenderer := renderer), PauseTo(s.recovery.playback.paused),
            Then(s.history, RendererReady(renderer)))
  }

  lemma ReadyAsksForPause(s: Controller, index: nat, renderer: nat)
    requires Poised(s, index) && renderer > s.recovery.retiredRenderer
    ensures After(s, ReadyNotice(renderer, SUCCESS)) == AskingForPause(s, renderer)
  {
    assert s.recoveryRequests[s.nextToken := RecoveryRequest(s.recovery.revision, Pause)]
           == map[s.nextToken := RecoveryRequest(s.recovery.revision, Pause)];
  }

  lemma PauseReplyAsksForReplay(s: Controller, index: nat, renderer: nat)
    requires Poised(s, index) && renderer > s.recovery.retiredRenderer
    ensures var s1 := AskingForPause(s, renderer);
      After(s1, ReplyArrived(s.nextToken, SUCCESS, SUCCESS))
      == Waiting(s.(nextToken := s.nextToken + 1),
                 s.recovery.(readyRenderer := renderer, pauseAcknowledged := true, replaying := true),
                 ReplayAt(index),
                 Then(s1.history, Answered(s.recovery.revision, Pause, s.nextToken, SUCCESS)))
  {
    var s1 := AskingForPause(s, renderer);
    assert s1.recoveryRequests - {s.nextToken} == map[];
    assert s1.pending - {s.nextToken} == map[];
  }

  /** The first place of the entry in the playlist, and no earlier one. */
  lemma {:induction false} FindIsFirst(playlist: seq<int>, entryId: int, from: nat)
    requires from <= |playlist|
    ensures match FindFrom(playlist, entryId, from)
      case None => forall i :: from <= i < |playlist| ==> playlist[i] != entryId
      case Some(index) => from <= index < |playlist| && playlist[index] == entryId
                          && forall i :: from <= i < index ==> playlist[i] != entryId
    decreases |playlist| - from
  {
    if from < |playlist| && playlist[from] != entryId { FindIsFirst(playlist, entryId, from + 1); }
  }

  /** The replay is on its way: the entry restarts, is loaded, and only then
      the position is put back. */
  lemma ReloadAsksForSeek(s: Controller, marker: Marker)
    requires s.available && s.recovery.valid && s.recovery.replaying && s.recovery.pauseAcknowledged
    requires s.recovery.replayAcknowledged && !s.recovery.fileLoaded && !s.recovery.seekSubmitted
    requires s.recovery.playback.intent == s.sourceIntent && s.recovery.seekRevision == s.seekRevision
    requires s.recoveryRequests == map[] && s.pending == map[] && 0 < s.nextToken < UINT64_MAX
    ensures var started := After(s, FileStarted(s.recovery.playback.entryId, marker));
      var loaded := After(started, FileWasLoaded(SUCCESS));
      && started.recovery == s.recovery && started.playback.position == s.recovery.playback.position
      && Newest(loaded, Note(s, SeekTo(s.recovery.playback.position), s.nextToken))
      && loaded.recovery == s.recovery.(fileLoaded := true, seekSubmitted := true)
      && loaded.recoveryRequests == map[s.nextToken := RecoveryRequest(s.recovery.revision, Seek)]
      && loaded.pending.Keys == {s.nextToken} && loaded.seekIntent == s.seekIntent
      && loaded.available && loaded.sourceIntent == s.sourceIntent
  {
    var started := After(s, FileStarted(s.recovery.playback.entryId, marker));
    var told := Log(s, EntryStarted(s.recovery.playback.entryId, marker));
    assert Resumes(told, s.recovery.playback.entryId);
    assert started == Began(told, s.recovery.playback, s.recovery.playback.entryId);
  }

  lemma ReplayReplyWaits(s: Controller, token: nat)
    requires s.recovery.valid && !s.recovery.fileLoaded && s.recovery.playback.intent == s.sourceIntent
    requires s.recoveryRequests == map[token := RecoveryRequest(s.recovery.revision, Replay)]
    requires s.pending.Keys == {token}
    ensures var t := After(s, ReplyArrived(token, SUCCESS, SUCCESS));
      t == s.(recovery := s.recovery.(replayAcknowledged := true), recoveryRequests := map[], pending := map[],
              history := Then(s.history, Answered(s.recovery.revision, Replay, token, SUCCESS)))
  {
    assert s.recoveryRequests - {token} == map[];
    assert s.pending - {token} == map[];
  }

  lemma SeekReplyFinishes(s: Controller, token: nat)
    requires s.available && s.recovery.valid && s.recovery.playback.intent == s.sourceIntent
    requires s.recoveryRequests == map[token := RecoveryRequest(s.recovery.revision, Seek)] && token in s.pending
    ensures var finishes := [ReplyArrived(token, SUCCESS, SUCCESS)];
      && Run(s, finishes) && !Outcome(s, finishes).recovery.valid
      && Newest(Outcome(s, finishes),
                Recovered(s.recovery.revision, s.recovery.readyRenderer, s.recovery.playback.entryId))
  {
    Prepend(s, ReplyArrived(token, SUCCESS, SUCCESS), []);
  }

  // ----- the whole recovery -----

  function AssistReplay(t: nat, renderer: nat): seq<Event> {
    [ReadyNotice(renderer, SUCCESS)] + [ReplyArrived(t, SUCCESS, SUCCESS)]
  }

  function AssistSeek(t: nat, entryId: int, marker: Marker): seq<Event> {
    [ReplyArrived(t, SUCCESS, SUCCESS)] + ([FileStarted(entryId, marker)] + [FileWasLoaded(SUCCESS)])
  }

  /** What libmpv and the renderer do for a recovery, up to the seek; `t` is the next token. */
  function Assists(t: nat, renderer: nat, entryId: int, marker: Marker): seq<Event> {
    AssistReplay(t, renderer) + AssistSeek(t + 1, entryId, marker)
  }

  lemma AsksForReplay(s: Controller, index: nat, renderer: nat)
    requires Poised(s, index) && renderer > s.recovery.retiredRenderer
    ensures var t := s.nextToken;
      var s1 := After(s, ReadyNotice(renderer, SUCCESS));
      var s2 := After(s1, ReplyArrived(t, SUCCESS, SUCCESS));
      && Run(s, AssistReplay(t, renderer)) && Outcome(s, AssistReplay(t, renderer)) == s2
      && Newest(s1, Note(s, PauseTo(s.recovery.playback.paused), t))
      && Newest(s2, Note(s, ReplayAt(index), t + 1))
      && s2 == s.(recovery := s.recovery.(readyRenderer := renderer, pauseAcknowledged := true, replaying := true),
                  nextToken := t + 2, recoveryRequests := map[t + 1 := RecoveryRequest(s.recovery.revision, Replay)],
                  pending := map[t + 1 := ForRecovery(RecoveryRequest(s.recovery.revision, Replay))],
                  history := s2.history)
  {
    var t := s.nextToken;
    ReadyAsksForPause(s, index, renderer);
    PauseReplyAsksForReplay(s, index, renderer);
    var s1 := After(s, ReadyNotice(renderer, SUCCESS));
    Prepend(s1, ReplyArrived(t, SUCCESS, SUCCESS), []);
    Prepend(s, ReadyNotice(renderer, SUCCESS), [ReplyArrived(t, SUCCESS, SUCCESS)]);
  }

  /** The replay was asked for and nothing else is under way. */
  predicate AwaitsReplay(s: Controller, token: nat) {
    var r := s.recovery;
    && s.available && r.valid && r.replaying && r.pauseAcknowledged
    && !r.replayAcknowledged && !r.fileLoaded && !r.seekSubmitted
    && r.playback.intent == s.sourceIntent && r.seekRevision == s.seekRevision
    && s.recoveryRequests == map[token := RecoveryRequest(r.revision, Replay)] && s.pending.Keys == {token}
    && 0 < s.nextToken < UINT64_MAX
  }

  lemma ReloadRuns(s: Controller, entryId: int, marker: Marker)
    requires s.available
    ensures var reloads := [FileStarted(entryId, marker)] + [FileWasLoaded(SUCCESS)];
      Run(s, reloads)
      && Outcome(s, reloads) == After(After(s, FileStarted(entryId, marker)), FileWasLoaded(SUCCESS))
  {
    var started := After(s, FileStarted(entryId, marker));
    Prepend(started, FileWasLoaded(SUCCESS), []);
    Prepend(s, FileStarted(entryId, marker), [FileWasLoaded(SUCCESS)]);
  }

  lemma AsksForSeek(s: Controller, token: nat, marker: Marker)
    requires AwaitsReplay(s, token)
    ensures var assists := AssistSeek(token, s.recovery.playback.entryId, marker);
      var t := Outcome(s, assists);
      && Run(s, assists)
      && Newest(t, Note(s, SeekTo(s.recovery.playback.position), s.nextToken))
      && t.recovery == s.recovery.(replayAcknowledged := true, fileLoaded := true, seekSubmitted := true)
      && t.recoveryRequests == map[s.nextToken := RecoveryRequest(s.recovery.revision, Seek)]
      && t.pending.Keys == {s.nextToken} && t.seekIntent == s.seekIntent
      && t.available && t.sourceIntent == s.sourceIntent
  {
    var entryId := s.recovery.playback.entryId;
    ReplayReplyWaits(s, token);
    var s1 := After(s, ReplyArrived(token, SUCCESS, SUCCESS));
    ReloadAsksForSeek(s1, marker);
    ReloadRuns(s1, entryId, marker);
    Prepend(s, ReplyArrived(token, SUCCESS, SUCCESS), [FileStarted(entryId, marker)] + [FileWasLoaded(SUCCESS)]);
  }

  lemma ReplayAwaited(s: Controller, index: nat, renderer: nat) returns (t: Controller)
    requires Poised(s, index) && renderer > s.recovery.retiredRenderer
    ensures Run(s, AssistReplay(s.nextToken, renderer)) && Outcome(s, AssistReplay(s.nextToken, renderer)) == t
    ensures AwaitsReplay(t, s.nextToken + 1) && t.nextToken == s.nextToken + 2
    ensures t.recovery == s.recovery.(readyRenderer := renderer, pauseAcknowledged := true, replaying := true)
    ensures t.seekIntent == s.seekIntent && t.sourceIntent == s.sourceIntent
  {
    AsksForReplay(s, index, renderer);
    t := Outcome(s, AssistReplay(s.nextToken, renderer));
  }

  /** The recovery asks for its pause, its replay and its seek. */
  lemma AsksInOrder(s: Controller, index: nat, renderer: nat, marker: Marker)
    requires Poised(s, index) && renderer > s.recovery.retiredRenderer
    ensures var t := s.nextToken;
      var assists := Assists(t, renderer, s.recovery.playback.entryId, marker);
      var done := Outcome(s, assists);
      && Run(s, assists)
      && Newest(done, Note(s, SeekTo(s.recovery.playback.position), t + 2))
      && done.recovery == s.recovery.(readyRenderer := renderer, pauseAcknowledged := true, replaying := true,
                                      replayAcknowledged := true, fileLoaded := true, seekSubmitted := true)
      && done.recoveryRequests == map[t + 2 := RecoveryRequest(s.recovery.revision, Seek)]
      && done.pending.Keys == {t + 2} && done.seekIntent == s.seekIntent
      && done.available && done.sourceIntent == s.sourceIntent
  {
    var t := s.nextToken;
    var s2 := ReplayAwaited(s, index, renderer);
    AsksForSeek(s2, t + 1, marker);
    RunThenRun(s, AssistReplay(t, renderer), AssistSeek(t + 1, s.recovery.playback.entryId, marker));
  }

  /** The whole recovery is a possible run: the pause state, the entry and the
      position of the snapshot are asked for in this order, and the recovery is
      announced. */
  lemma RestoresEntryPauseAndPosition(s: Controller, index: nat, renderer: nat, marker: Marker)
    requires Poised(s, index) && renderer > s.recovery.retiredRenderer
    ensures index < |s.playlist| && s.playlist[index] == s.recovery.playback.entryId
    ensures var t := s.nextToken;
      var assists := Assists(t, renderer, s.recovery.playback.entryId, marker);
      var s1 := After(s, ReadyNotice(renderer, SUCCESS));
      var s2 := After(s1, ReplyArrived(t, SUCCESS, SUCCESS));
      && Run(s, assists + [ReplyArrived(t + 2, SUCCESS, SUCCESS)])
      && Newest(s1, Note(s, PauseTo(s.recovery.playback.paused), t))
      && Newest(s2, Note(s, ReplayAt(index), t + 1))
      && Newest(Outcome(s, assists), Note(s, SeekTo(s.recovery.playback.position), t + 2))
      && Newest(Outcome(s, assists + [ReplyArrived(t + 2, SUCCESS, SUCCESS)]),
                Recovered(s.recovery.revision, renderer, s.recovery.playback.entryId))
  {
    var t := s.nextToken;
    var assists := Assists(t, renderer, s.recovery.playback.entryId, marker);
    FindIsFirst(s.playlist, s.recovery.playback.entryId, 0);
    AsksForReplay(s, index, renderer);
    AsksInOrder(s, index, renderer, marker);
    var s5 := Outcome(s, assists);
    SeekReplyFinishes(s5, t + 2);
    RunThenRun(s, assists, [ReplyArrived(t + 2, SUCCESS, SUCCESS)]);
  }
}
