/** Which entry plays, which ended, what a recovery was opened for, and what
    ends it: everything read off what the worker was told (commands and writes,
    START_FILE and FILE_LOADED, ready renderers, lost outputs) and off the
    openings and ends of recoveries. The controller's own fields are proved to
    say the same, in every run. */
module RecoveryEntries {
  import opened Native
  import opened Recovery
  import opened RecoveryHistory
  import opened RecoveryInvariant
  import RecoveryProgress

  /** The entry of the last START_FILE. */
  function StartedIn(h: History): int {
    match h
    case Start => -1
    case Then(earlier, note) => if note.EntryStarted? then note.entryId else StartedIn(earlier)
  }

  /** The entry at play: a change of intent forgets it, but for the entry whose
      start made the change. */
  function EntryIn(h: History): int {
    match h
    case Start => -1
    case Then(_, EntryStarted(entryId, _)) => entryId
    case Then(earlier, IntentAdvanced(_)) =>
      if earlier.Then? && earlier.note.EntryStarted? then earlier.note.entryId else -1
    case Then(earlier, _) => EntryIn(earlier)
  }

  predicate LoadedIn(h: History) {
    h.Then? && (h.note.EntryLoaded?
                || (!h.note.EntryStarted? && !h.note.IntentAdvanced? && !h.note.EntryEnded? && LoadedIn(h.earlier)))
  }

  /** The entry that ended last under the current intent, and whether for lack of an output. */
  function EndedEntryIn(h: History): int {
    match h
    case Start => -1
    case Then(earlier, note) =>
      if note.EntryEnded? then EntryIn(earlier) else if note.IntentAdvanced? then -1 else EndedEntryIn(earlier)
  }

  predicate EndedByLoss(h: History) {
    h.Then? && !h.note.IntentAdvanced?
    && if h.note.EntryEnded? then h.note.error == VO_INIT_FAILED else EndedByLoss(h.earlier)
  }

  /** The playlist libmpv reported last. */
  function PlaylistIn(h: History): seq<int> {
    match h
    case Start => []
    case Then(earlier, note) => if note.PlaylistReported? then note.entries else PlaylistIn(earlier)
  }

  // ----- recoveries -----

  predicate Opens(note: Note, revision: nat) {
    note.Opened? && note.revision == revision
  }

  /** The entry a recovery was opened for, and the renderer it lost. */
  function EntryOf(h: History, revision: nat): int {
    match h
    case Start => -1
    case Then(earlier, note) => if Opens(note, revision) then note.entryId else EntryOf(earlier, revision)
  }

  function RetiredOf(h: History, revision: nat): nat {
    match h
    case Start => 0
    case Then(earlier, note) => if Opens(note, revision) then note.retired else RetiredOf(earlier, revision)
  }

  /** The recovery under way: the one opened last, until it fails, succeeds, the
      intent changes or the controller closes. */
  function LiveIn(h: History): nat {
    match h
    case Start => 0
    case Then(_, Opened(revision, _, _, _)) => revision
    case Then(_, IntentAdvanced(_)) => 0
    case Then(_, Closed) => 0
    case Then(earlier, Failed(revision, _)) => if LiveIn(earlier) == revision then 0 else LiveIn(earlier)
    case Then(earlier, Recovered(revision, _, _)) => if LiveIn(earlier) == revision then 0 else LiveIn(earlier)
    case Then(earlier, _) => LiveIn(earlier)
  }

  predicate AsksReplay(note: Note, revision: nat) {
    note.Submitted? && note.revision == revision && note.action.ReplayAt?
  }

  /** The recovery's replay was asked for. */
  predicate ReplayAsked(h: History, revision: nat) {
    h.Then? && (AsksReplay(h.note, revision) || (!Opens(h.note, revision) && ReplayAsked(h.earlier, revision)))
  }

  /** The recovery's entry ended for lack of an output: just before the opening
      or after it. An end reported while nothing is loaded counts for the entry
      that ended last. */
  predicate LossKnown(h: History, revision: nat) {
    h.Then? &&
    match h.note
    case Opened(q, _, entryId, _) =>
      if q == revision then EndedByLoss(h.earlier) && EndedEntryIn(h.earlier) == entryId
      else LossKnown(h.earlier, revision)
    case VoLost =>
      LossKnown(h.earlier, revision)
      || (!LoadedIn(h.earlier) && EndedEntryIn(h.earlier) == EntryOf(h.earlier, revision))
    case EntryEnded(error) =>
      LossKnown(h.earlier, revision)
      || (error == VO_INIT_FAILED && EntryIn(h.earlier) == EntryOf(h.earlier, revision))
    case _ => LossKnown(h.earlier, revision)
  }

  /** A renderer newer than the lost one was announced after the opening. */
  predicate ReadySince(h: History, revision: nat) {
    h.Then? && !Opens(h.note, revision)
    && ((h.note.RendererReady? && h.note.renderer > RetiredOf(h.earlier, revision)) || ReadySince(h.earlier, revision))
  }

  /** After the replay was asked for, a file was loaded, and the entry started
      last by then was the one the recovery was opened for. */
  predicate EntryReloaded(h: History, revision: nat) {
    h.Then? && !AsksReplay(h.note, revision)
    && ((h.note.EntryLoaded? && StartedIn(h.earlier) == EntryOf(h.earlier, revision))
        || EntryReloaded(h.earlier, revision))
  }

  // ----- the source intent -----

  /** START_FILE of an entry that is not the one at play, not the one whose
      replay was asked for, and not libmpv's own advance after the loss. */
  predicate Foreign(h: History, entryId: int, marker: Marker) {
    var live := LiveIn(h);
    && 0 <= EntryIn(h) != entryId
    && !(live != 0 && ReplayAsked(h, live) && EntryOf(h, live) == entryId)
    && !(live != 0 && LossKnown(h, live) && marker == Marked(RetiredOf(h, live), IntentOf(h)))
  }

  /** The commands that change what plays. */
  predicate PlaysAnother(words: seq<string>, loaded: bool) {
    words != [] &&
    (words[0] in {"loadlist", "stop", "quit", "playlist-next", "playlist-prev", "playlist-play-index"}
     || (words[0] == "loadfile" &&
         var mode := if |words| <= 2 then "replace" else words[2];
         mode != "append" && (loaded ==> mode != "append-play")))
  }

  /** What was told last changes the intent. */
  predicate HasCause(h: History) {
    h.Then? &&
    match h.note
    case CommandGiven(words) => PlaysAnother(words, LoadedIn(h.earlier))
    case WriteGiven(name) => name in {"playlist-pos", "playlist-current-pos", "path"}
    case EntryStarted(entryId, marker) => Foreign(h.earlier, entryId, marker)
    case _ => false
  }

  // ----- the invariant -----

  /** The first place of the entry in the playlist. */
  predicate FirstPlace(playlist: seq<int>, entryId: int, index: nat) {
    index < |playlist| && playlist[index] == entryId && forall i :: 0 <= i < index ==> playlist[i] != entryId
  }

  /** Why a recovery fails: its entry is gone from the playlist, tokens or memory
      are used up, or libmpv refused its last step or answered it with an error. */
  predicate FailsFor(past: History, revision: nat, error: int) {
    || (error == NOTHING_TO_PLAY && EntryOf(past, revision) !in PlaylistIn(past))
    || error == NOMEM
    || (error < 0 && past.Then? && past.note.Submitted? && past.note.revision == revision && !past.note.accepted)
    || (error < 0 && past.Then? && past.note.Answered? && past.note.revision == revision && past.note.error == error)
  }

  /** What a note says of its past. */
  predicate Follows(past: History, note: Note) {
    && (note.IntentAdvanced? <==> HasCause(past))
    && (note.Opened? ==>
          0 <= note.entryId == (if LoadedIn(past) then EntryIn(past) else EndedEntryIn(past)) && note.retired != 0)
    && (note.Submitted? ==> ReadySince(past, note.revision))
    && (note.Submitted? && note.action.ReplayAt? ==>
          FirstPlace(PlaylistIn(past), EntryOf(past, note.revision), note.action.index))
    && (note.Submitted? && note.action.SeekTo? ==> EntryReloaded(past, note.revision))
    && (note.Failed? ==> FailsFor(past, note.revision, note.error))
  }

  predicate InSequence(h: History) {
    h.Then? ==> InSequence(h.earlier) && Follows(h.earlier, h.note)
  }

  /** What the fields of the current recovery say. */
  datatype Rescue = Rescue(revision: nat, entryId: int, retired: nat, lossKnown: bool, replaying: bool,
                           ready: bool, reloaded: bool)

  /** What the controller's fields say. */
  datatype View = View(intent: nat, playlist: seq<int>, entryId: int, loaded: bool, ended: int, byLoss: bool,
                       rescue: Option<Rescue>)

  function RescueOf(r: RecoveryState): Option<Rescue> {
    if !r.valid then None
    else Some(Rescue(r.revision, r.playback.entryId, r.retiredRenderer, r.terminated, r.replaying,
                     r.readyRenderer != 0, r.fileLoaded))
  }

  function ViewOf(s: Controller): View {
    View(s.sourceIntent, s.playlist, s.playback.entryId, s.playback.loaded, s.terminatedPlayback.entryId,
         s.terminationError == VO_INIT_FAILED, RescueOf(s.recovery))
  }

  predicate RescueTold(h: History, x: Rescue) {
    && x.revision != 0
    && 0 <= x.entryId == EntryOf(h, x.revision)
    && 0 != x.retired == RetiredOf(h, x.revision)
    && x.lossKnown == LossKnown(h, x.revision)
    && x.replaying == ReplayAsked(h, x.revision)
    && (x.ready ==> ReadySince(h, x.revision))
    && (x.reloaded ==> EntryReloaded(h, x.revision))
    && (x.reloaded ==> x.replaying) && (x.replaying ==> x.ready)
  }

  predicate Told(h: History, v: View) {
    && v.intent == IntentOf(h) && v.playlist == PlaylistIn(h)
    && v.entryId == EntryIn(h) && v.loaded == LoadedIn(h)
    && v.ended == EndedEntryIn(h) && v.byLoss == EndedByLoss(h)
    && LiveIn(h) == (if v.rescue.Some? then v.rescue.value.revision else 0)
    && (v.rescue.Some? ==> RescueTold(h, v.rescue.value))
    && InSequence(h)
  }

  /** Whatever is remembered belongs to the current intent. */
  predicate Current(s: Controller) {
    && (s.playback.entryId >= 0 ==> s.playback.intent == s.sourceIntent)
    && (s.terminatedPlayback.entryId >= 0 ==> s.terminatedPlayback.intent == s.sourceIntent)
    && (s.recovery.valid ==> s.recovery.playback.intent == s.sourceIntent)
  }

  predicate EntriesTold(s: Controller) {
    Told(s.history, ViewOf(s)) && Current(s) && !HasCause(s.history)
  }

  // ----- notes -----

  /** A note that changes nothing of all this. */
  predicate Aside(past: History, note: Note) {
    && !note.CommandGiven? && !note.WriteGiven? && !note.PlaylistReported?
    && !note.EntryStarted? && !note.EntryLoaded? && !note.EntryEnded?
    && !note.VoLost? && !note.IntentAdvanced? && !note.Opened? && !note.Failed? && !note.Recovered? && !note.Closed?
    && !(note.Submitted? && note.action.ReplayAt?) && Follows(past, note)
  }

  predicate AsideSince(past: History, h: History) {
    h == past || (h.Then? && Aside(h.earlier, h.note) && AsideSince(past, h.earlier))
  }

  lemma {:induction false} AsideTold(past: History, h: History, v: View)
    requires Told(past, v) && AsideSince(past, h)
    ensures Told(h, v) && (HasCause(h) ==> HasCause(past))
  {
    if h != past { AsideTold(past, h.earlier, v); }
  }

  lemma LeftTold(s: Controller, t: Controller)
    requires EntriesTold(s) && ViewOf(t) == ViewOf(s) && Current(t) && AsideSince(s.history, t.history)
    ensures EntriesTold(t)
  {
    AsideTold(s.history, t.history, ViewOf(s));
  }

  /** The recovery ends, whatever its other flags were set to meanwhile. */
  lemma DropTold(h: History, v: View, note: Note)
    requires Told(h, v) && v.rescue.Some? && !HasCause(h)
    requires || note == Closed
             || (note.Failed? && note.revision == v.rescue.value.revision && FailsFor(h, note.revision, note.error))
             || (note.Recovered? && note.revision == v.rescue.value.revision)
    ensures Told(Then(h, note), v.(rescue := None))
  {
  }

  /** A step the recovery sends. */
  lemma SentTold(h: History, v: View, x: Rescue, note: Note)
    requires Told(h, v) && v.rescue == Some(x) && x.ready && !HasCause(h)
    requires note.Submitted? && note.revision == x.revision
    requires (note.action.SeekTo? ==> x.reloaded) && (note.action.ReplayAt? ==> !x.replaying)
    requires note.action.ReplayAt? ==> FirstPlace(v.playlist, x.entryId, note.action.index)
    ensures Told(Then(h, note), v.(rescue := Some(x.(replaying := x.replaying || note.action.ReplayAt?))))
  {
  }

  lemma {:induction false} EntryIsStarted(h: History)
    ensures EntryIn(h) >= 0 ==> EntryIn(h) == StartedIn(h)
  {
    if h.Then? { EntryIsStarted(h.earlier); }
  }

  // ----- the recovery's own steps -----

  lemma FailTold(s: Controller, error: int)
    requires EntriesTold(s) && (s.recovery.valid ==> FailsFor(s.history, s.recovery.revision, error))
    ensures EntriesTold(FailRecovery(s, error))
  {
    if s.recovery.valid { DropTold(s.history, ViewOf(s), Failed(s.recovery.revision, error)); }
  }

  lemma FinishTold(s: Controller)
    requires EntriesTold(s) && s.recovery.valid
    ensures EntriesTold(FinishRecovery(s))
  {
    var r := s.recovery;
    DropTold(s.history, ViewOf(s), Recovered(r.revision, r.readyRenderer, r.playback.entryId));
  }

  /** The recovery in `s` sends its next step; `r` is `s.recovery` with the flags of that step already set. */
  lemma SubmitTold(s: Controller, r: RecoveryState, action: Action, native: int)
    requires EntriesTold(s) && s.recovery.valid && s.recovery.readyRenderer != 0
    requires r == s.recovery.(replaying := r.replaying, pauseAcknowledged := r.pauseAcknowledged,
                              seekSubmitted := r.seekSubmitted)
    requires r.replaying == (s.recovery.replaying || action.ReplayAt?)
    requires (action.SeekTo? ==> r.fileLoaded) && (action.ReplayAt? ==> !s.recovery.replaying)
    requires action.ReplayAt? ==> FirstPlace(s.playlist, s.recovery.playback.entryId, action.index)
    ensures EntriesTold(SubmitRecovery(s.(recovery := r), action, native))
  {
    var t := s.(recovery := r);
    var note := NoteFor(s, action, native >= 0);
    if s.nextToken == 0 {
      assert SubmitRecovery(t, action, native) == FailRecovery(t, NOMEM);
      DropTold(s.history, ViewOf(s), Failed(r.revision, NOMEM));
      Shows(SubmitRecovery(t, action, native), ViewOf(s).(rescue := None));
    } else {
      SentTold(s.history, ViewOf(s), RescueOf(s.recovery).value, note);
      if native < 0 {
        RefusedShows(t, action, native);
        RefusedTold(Then(s.history, note), ViewOf(t), native);
        Shows(SubmitRecovery(t, action, native), ViewOf(t).(rescue := None));
      } else {
        AcceptedShows(t, action, native);
        Shows(SubmitRecovery(t, action, native), ViewOf(t));
      }
    }
  }

  lemma Shows(s: Controller, v: View)
    requires Told(s.history, v) && ViewOf(s) == v && Current(s) && !HasCause(s.history)
    ensures EntriesTold(s)
  {
  }

  lemma RefusedTold(h: History, v: View, native: int)
    requires Told(h, v) && !HasCause(h) && v.rescue.Some? && native < 0
    requires h.Then? && h.note.Submitted? && h.note.revision == v.rescue.value.revision && !h.note.accepted
    ensures Told(Then(h, Failed(v.rescue.value.revision, native)), v.(rescue := None))
  {
    DropTold(h, v, Failed(v.rescue.value.revision, native));
  }

  lemma RefusedShows(s: Controller, action: Action, native: int)
    requires s.recovery.valid && s.nextToken != 0 && native < 0
    ensures var done := SubmitRecovery(s, action, native);
      && done.history == Then(Then(s.history, NoteFor(s, action, false)), Failed(s.recovery.revision, native))
      && ViewOf(done) == ViewOf(s).(rescue := None) && (Current(s) ==> Current(done))
  {
  }

  lemma AcceptedShows(s: Controller, action: Action, native: int)
    requires s.recovery.valid && s.nextToken != 0 && native >= 0
    ensures var done := SubmitRecovery(s, action, native);
      && done.history == Then(s.history, NoteFor(s, action, true))
      && ViewOf(done) == ViewOf(s) && (Current(s) ==> Current(done))
  {
  }

  lemma TryRecoverTold(s: Controller, native: int)
    requires EntriesTold(s)
    ensures EntriesTold(TryRecoverPlayback(s, native))
  {
    if CanAdvance(s) {
      var found := Find(s.playlist, s.recovery.playback.entryId);
      RecoveryProgress.FindIsFirst(s.playlist, s.recovery.playback.entryId, 0);
      if found.None? {
        FailTold(s, NOTHING_TO_PLAY);
      } else if !s.recovery.pauseAcknowledged && s.recovery.pauseRevision == s.pauseRevision {
        SubmitTold(s, s.recovery, PauseTo(s.recovery.playback.paused), native);
      } else {
        SubmitTold(s, WithReplay(s).recovery, ReplayAt(found.value), native);
      }
    }
  }

  lemma TryRestoreTold(s: Controller, native: int)
    requires EntriesTold(s)
    ensures EntriesTold(TryRestorePosition(s, native))
  {
    var r := s.recovery;
    if r.valid && r.replaying && !r.seekSubmitted && r.fileLoaded && r.replayAcknowledged && r.pauseAcknowledged {
      if r.seekRevision != s.seekRevision {
        FinishTold(s);
      } else {
        SubmitTold(s, WithSeek(s).recovery, SeekTo(r.playback.position), native);
      }
    }
  }

  // ----- submissions -----

  lemma InvalidateTold(s: Controller)
    requires Told(s.history, ViewOf(s)) && Current(s) && HasCause(s.history) && !s.history.note.EntryStarted?
    ensures EntriesTold(InvalidatePlaybackIntent(s))
  {
  }

  lemma SeekTold(s: Controller, position: real, marker: Marker)
    requires EntriesTold(s)
    ensures EntriesTold(BumpSeek(s)) && EntriesTold(RememberSeekIntent(BumpSeek(s), position, marker))
  {
    LeftTold(s, BumpSeek(s));
    RememberTold(BumpSeek(s), position, marker);
  }

  lemma RememberTold(s: Controller, position: real, marker: Marker)
    requires EntriesTold(s)
    ensures EntriesTold(RememberSeekIntent(s, position, marker))
  {
    LeftTold(s, RememberSeekIntent(s, position, marker));
  }

  lemma SubmissionTold(s: Controller, token: nat, sender: Sender, native: int)
    requires EntriesTold(s)
    ensures EntriesTold(Submission(s, token, sender, native))
  {
    LeftTold(s, Submission(s, token, sender, native));
  }

  /** A submission is noted before anything is made of it. */
  lemma GivenTold(s: Controller, t: Controller, note: Note)
    requires EntriesTold(s) && (note.CommandGiven? || note.WriteGiven?)
    requires ViewOf(t) == ViewOf(s) && Current(t) && t.history == Then(s.history, note)
    ensures Told(t.history, ViewOf(t))
  {
  }

  lemma CommandTold(s: Controller, token: nat, c: Command, marker: Marker, native: int)
    requires EntriesTold(s)
    ensures EntriesTold(SubmitCommand(s, token, c, marker, native))
  {
    if !s.available {
      LeftTold(s, SubmitCommand(s, token, c, marker, native));
    } else {
      var told := Log(s.(issued := s.issued - {token}, nextToken := NoteNativeToken(s.nextToken, token)),
                      CommandGiven(c.words));
      GivenTold(s, told, CommandGiven(c.words));
      CommandIntentTold(told, c, marker);
      SubmissionTold(CommandIntent(told, c, marker), token, ForCommand, native);
    }
  }

  lemma PlaysAnotherInvalidates(words: seq<string>, loaded: bool)
    ensures Invalidates(words, loaded) == PlaysAnother(words, loaded)
  {
  }

  lemma CommandIntentTold(s: Controller, c: Command, marker: Marker)
    requires Told(s.history, ViewOf(s)) && Current(s)
    requires s.history.Then? && s.history.note == CommandGiven(c.words)
    ensures EntriesTold(CommandIntent(s, c, marker))
  {
    PlaysAnotherInvalidates(c.words, s.playback.loaded);
    if Invalidates(c.words, s.playback.loaded) {
      assert !IsSeek(c.words);
      InvalidateTold(s);
    } else if IsSeek(c.words) {
      var target := SeekTarget(BumpSeek(s), c);
      SeekTold(s, if target.Some? then target.value else 0.0, marker);
      assert CommandIntent(s, c, marker) == SeekIntended(s, c, marker);
    }
  }

  lemma PropertyTold(s: Controller, token: nat, p: PropertySet, marker: Marker, native: int)
    requires EntriesTold(s)
    ensures EntriesTold(SubmitPropertySet(s, token, p, marker, native))
  {
    if !s.available {
      LeftTold(s, SubmitPropertySet(s, token, p, marker, native));
    } else {
      var told := Log(s.(issued := s.issued - {token}, nextToken := NoteNativeToken(s.nextToken, token)),
                      WriteGiven(p.name));
      GivenTold(s, told, WriteGiven(p.name));
      PropertyIntentTold(told, p, marker);
      SubmissionTold(PropertyIntent(told, p, marker), token, ForPropertySet, native);
    }
  }

  lemma PropertyIntentTold(s: Controller, p: PropertySet, marker: Marker)
    requires Told(s.history, ViewOf(s)) && Current(s)
    requires s.history.Then? && s.history.note == WriteGiven(p.name)
    ensures EntriesTold(PropertyIntent(s, p, marker))
  {
    if p.name == "pause" {
      LeftTold(s, BumpPause(s));
      assert PropertyIntent(s, p, marker) == BumpPause(s);
    } else if p.name == "time-pos" {
      SeekTold(s, if p.number.Some? && p.number.value.Finite? then p.number.value.value else 0.0, marker);
      assert PropertyIntent(s, p, marker) == TimePosIntent(s, p.number, marker);
    } else if Navigates(p.name) {
      InvalidateTold(s);
    }
  }

  // ----- notices and replies -----

  lemma OpeningTold(s: Controller, generation: nat, intent: nat)
    requires EntriesTold(s)
    ensures EntriesTold(RenderContextRetiring(s, generation, intent))
  {
  }

  lemma ReadyTold(s: Controller, generation: nat, native: int)
    requires EntriesTold(s)
    ensures EntriesTold(RenderContextReady(s, generation, native))
  {
    var told := Log(s, RendererReady(generation));
    LeftTold(s, told);
    if s.recovery.valid && generation > s.recovery.retiredRenderer {
      TryRecoverTold(told.(recovery := s.recovery.(readyRenderer := generation)), native);
    }
  }

  lemma ReplyTold(s: Controller, token: nat, error: int, native: int)
    requires EntriesTold(s)
    ensures EntriesTold(HandleReply(s, token, error, native))
  {
    var s1 := TakeReply(s, token);
    if token !in s.recoveryRequests {
      LeftTold(s, Log(s1, Delivered(token, error)));
    } else {
      LeftTold(s, Answer(s1, token, error));
      ContinueTold(Answer(s1, token, error), s.recoveryRequests[token], error, native);
    }
  }

  lemma ContinueTold(s: Controller, request: RecoveryRequest, error: int, native: int)
    requires EntriesTold(s) && s.history.Then? && s.history.note.Answered?
    requires s.history.note.revision == request.revision && s.history.note.error == error
    ensures EntriesTold(Continue(s, request, error, native))
  {
    var paused := s.(recovery := s.recovery.(pauseAcknowledged := true));
    var replayed := s.(recovery := s.recovery.(replayAcknowledged := true));
    LeftTold(s, paused);
    LeftTold(s, replayed);
    TryRecoverTold(s, native);
    TryRecoverTold(paused, native);
    TryRestoreTold(replayed, native);
    if s.recovery.valid {
      if error < 0 && request.revision == s.recovery.revision { FailTold(s, error); }
      FinishTold(s);
    }
  }

  lemma ObservedTold(s: Controller, o: Observation)
    requires EntriesTold(s)
    ensures EntriesTold(CacheProperty(s, o))
  {
    if !o.PlaylistIs? { LeftTold(s, CacheProperty(s, o)); }
  }

  // ----- files -----

  lemma StartTold(s: Controller, entryId: int, marker: Marker)
    requires EntriesTold(s)
    ensures EntriesTold(StartFile(s, entryId, marker))
    ensures StartFile(s, entryId, marker).sourceIntent
            == s.sourceIntent + if Foreign(s.history, entryId, marker) then 1 else 0
  {
    var told := Log(s, EntryStarted(entryId, marker));
    assert StartsAnother(told, entryId, marker) == Foreign(s.history, entryId, marker);
    StartShows(s, entryId, marker);
    StartNoted(s.history, ViewOf(s), entryId, marker, s.observedPause);
  }

  function AfterStart(v: View, entryId: int, foreign: bool): View {
    if foreign then View(v.intent + 1, v.playlist, entryId, false, -1, false, None)
    else v.(entryId := entryId, loaded := false)
  }

  function StartNotes(h: History, intent: nat, entryId: int, marker: Marker, foreign: bool, paused: bool): History {
    var started := Then(h, EntryStarted(entryId, marker));
    Then(if foreign then Then(started, IntentAdvanced(intent + 1)) else started, PauseCopied(paused))
  }

  lemma StartShows(s: Controller, entryId: int, marker: Marker)
    requires Current(s)
    ensures var done := StartFile(s, entryId, marker);
      var foreign := StartsAnother(s, entryId, marker);
      && ViewOf(done) == AfterStart(ViewOf(s), entryId, foreign) && Current(done)
      && done.history == StartNotes(s.history, s.sourceIntent, entryId, marker, foreign, s.observedPause)
  {
  }

  lemma ForeignNoted(started: History, v: View)
    requires InSequence(started) && HasCause(started) && started.note.EntryStarted?
    requires PlaylistIn(started) == v.playlist && IntentOf(started) == v.intent
    ensures var told := Then(started, IntentAdvanced(v.intent + 1));
      Told(told, AfterStart(v, started.note.entryId, true)) && !HasCause(told)
  {
  }

  lemma StartNoted(h: History, v: View, entryId: int, marker: Marker, paused: bool)
    requires Told(h, v) && !HasCause(h)
    ensures var foreign := Foreign(h, entryId, marker);
      var done := StartNotes(h, v.intent, entryId, marker, foreign, paused);
      Told(done, AfterStart(v, entryId, foreign)) && !HasCause(done)
  {
    var started := Then(h, EntryStarted(entryId, marker));
    if Foreign(h, entryId, marker) {
      var told := Then(started, IntentAdvanced(v.intent + 1));
      ForeignNoted(started, v);
      AsideTold(told, Then(told, PauseCopied(paused)), AfterStart(v, entryId, true));
    } else {
      assert Told(started, AfterStart(v, entryId, false)) && !HasCause(started);
      AsideTold(started, Then(started, PauseCopied(paused)), AfterStart(v, entryId, false));
    }
  }

  lemma LoadedTold(s: Controller, native: int)
    requires EntriesTold(s)
    ensures EntriesTold(FileLoaded(s, native))
  {
    EntryIsStarted(s.history);
    ReloadingTold(s);
    TryRestoreTold(Reloading(Log(s, EntryLoaded)), native);
  }

  lemma ReloadingTold(s: Controller)
    requires EntriesTold(s) && (EntryIn(s.history) >= 0 ==> EntryIn(s.history) == StartedIn(s.history))
    ensures EntriesTold(Reloading(Log(s, EntryLoaded)))
  {
    var done := Reloading(Log(s, EntryLoaded));
    LoadNoted(s.history, ViewOf(s));
    ReloadingShows(s);
    AsideTold(Then(s.history, EntryLoaded), done.history, ViewOf(done));
  }

  lemma ReloadingShows(s: Controller)
    requires Current(s)
    ensures var done := Reloading(Log(s, EntryLoaded));
      var told := Then(s.history, EntryLoaded);
      && ViewOf(done) == AfterLoad(ViewOf(s)) && Current(done)
      && (!HasCause(told) ==> AsideSince(told, done.history))
  {
    ReloadingNotes(s);
    var done := Reloading(Log(s, EntryLoaded));
    var told := Then(s.history, EntryLoaded);
    var copied := Then(told, PauseCopied(s.observedPause));
    assert !HasCause(told) ==> AsideSince(told, copied);
    assert done.history == copied || (done.history.Then? && done.history.earlier == copied);
  }

  /** A loading notes the copied pause state, and the reload if it is one. */
  lemma ReloadingNotes(s: Controller)
    ensures var done := Reloading(Log(s, EntryLoaded));
      var copied := Then(Then(s.history, EntryLoaded), PauseCopied(s.observedPause));
      done.history == copied || done.history == Then(copied, Reloaded(s.recovery.revision))
  {
  }

  function AfterLoad(v: View): View {
    v.(loaded := true,
       rescue := match v.rescue
         case None => None
         case Some(x) => Some(x.(reloaded := x.reloaded || (x.replaying && x.entryId == v.entryId))))
  }

  lemma LoadNoted(h: History, v: View)
    requires Told(h, v) && !HasCause(h) && (EntryIn(h) >= 0 ==> EntryIn(h) == StartedIn(h))
    ensures Told(Then(h, EntryLoaded), AfterLoad(v))
  {
  }

  /** The loss is known to the recovery of the entry that ended with it. */
  function LossConfirmed(s: Controller): Controller {
    if RecoversTerminated(s) then s.(recovery := s.recovery.(terminated := true)) else s
  }

  lemma LossTold(s: Controller, marker: Marker)
    requires EntriesTold(s)
    ensures EntriesTold(LossConfirmed(FileTerminated(ClassifyLoss(Log(s, VoLost), marker), VO_INIT_FAILED)))
  {
    var lost := Log(s, VoLost);
    if s.playback.loaded {
      assert EntriesTold(lost);
      OpeningTold(lost, RetiringContext(marker, s.playback.intent), s.playback.intent);
      EndedTold(ClassifyLoss(lost, marker));
    } else {
      LateLossTold(s);
    }
  }

  /** The output was lost while nothing was loaded. */
  lemma LateLossTold(s: Controller)
    requires EntriesTold(s) && !s.playback.loaded
    ensures EntriesTold(LossConfirmed(Log(s, VoLost)))
  {
    LateLossNoted(s.history, ViewOf(s));
    LateLossShows(s);
  }

  function AfterLateLoss(v: View): View {
    v.(rescue := match v.rescue
         case None => None
         case Some(x) => Some(x.(lossKnown := x.lossKnown || x.entryId == v.ended)))
  }

  lemma LateLossNoted(h: History, v: View)
    requires Told(h, v) && !v.loaded && !HasCause(h)
    ensures Told(Then(h, VoLost), AfterLateLoss(v))
  {
  }

  lemma LateLossShows(s: Controller)
    requires Current(s) && (s.recovery.valid ==> s.recovery.playback.entryId >= 0)
    ensures var done := LossConfirmed(Log(s, VoLost));
      ViewOf(done) == AfterLateLoss(ViewOf(s)) && Current(done) && done.history == Then(s.history, VoLost)
  {
  }

  lemma EndedTold(s: Controller)
    requires EntriesTold(s) && s.playback.loaded
    ensures EntriesTold(LossConfirmed(FileTerminated(s, VO_INIT_FAILED)))
  {
    var done := LossConfirmed(FileTerminated(s, VO_INIT_FAILED));
    LossNoted(s.history, ViewOf(s));
    assert done.history == Then(s.history, EntryEnded(VO_INIT_FAILED));
    assert ViewOf(done) == AfterLoss(ViewOf(s));
  }

  function AfterLoss(v: View): View {
    v.(loaded := false, ended := v.entryId, byLoss := true,
       rescue := match v.rescue
         case None => None
         case Some(x) => Some(x.(lossKnown := x.lossKnown || x.entryId == v.entryId)))
  }

  lemma LossNoted(h: History, v: View)
    requires Told(h, v) && !HasCause(h)
    ensures Told(Then(h, EntryEnded(VO_INIT_FAILED)), AfterLoss(v))
  {
  }

  lemma EndFileTold(s: Controller, reason: EndReason, marker: Marker, native: int)
    requires EntriesTold(s)
    ensures EntriesTold(EndFile(s, reason, marker, native))
  {
    if IsVoLoss(reason) {
      var filed := FileTerminated(ClassifyLoss(Log(s, VoLost), marker), VO_INIT_FAILED);
      LossTold(s, marker);
      if RecoversTerminated(filed) { TryRecoverTold(LossConfirmed(filed), native); }
    }
  }

  // ----- runs -----

  lemma ShutdownTold(s: Controller)
    requires EntriesTold(s)
    ensures EntriesTold(Shutdown(s))
  {
    if s.recovery.valid { DropTold(s.history, ViewOf(s), Closed); }
  }

  lemma StepTold(s: Controller, e: Event)
    requires EntriesTold(s)
    ensures EntriesTold(After(s, e))
  {
    match e
    case TokenIssued => LeftTold(s, IssueToken(s));
    case CommandSubmitted(token, command, marker, native) => CommandTold(s, token, command, marker, native);
    case PropertySubmitted(token, property, marker, native) => PropertyTold(s, token, property, marker, native);
    case RetiringNotice(generation, intent) => OpeningTold(s, generation, intent);
    case ReadyNotice(generation, native) => ReadyTold(s, generation, native);
    case ReplyArrived(token, error, native) => ReplyTold(s, token, error, native);
    case PropertyObserved(observation) => ObservedTold(s, observation);
    case FileStarted(entryId, marker) => StartTold(s, entryId, marker);
    case FileWasLoaded(native) => LoadedTold(s, native);
    case FileEnded(reason, marker, native) => EndFileTold(s, reason, marker, native);
    case CoreShutDown => LeftTold(s, CoreLost(s));
    case ShutdownRequested => ShutdownTold(s);
  }

  lemma {:induction false} RunTold(s: Controller, events: seq<Event>)
    requires EntriesTold(s) && Run(s, events)
    ensures EntriesTold(Outcome(s, events))
    decreases |events|
  {
    if events != [] {
      StepTold(s, events[0]);
      RunTold(After(s, events[0]), events[1..]);
    }
  }

  // ----- what it means over a run -----

  lemma {:induction false} FollowsInThePast(past: History, note: Note, h: History)
    requires InSequence(h) && IsPast(Then(past, note), h)
    ensures Follows(past, note)
  {
    if Then(past, note) != h { FollowsInThePast(past, note, h.earlier); }
  }

  lemma {:induction false} NextNote(past: History, h: History) returns (note: Note)
    requires IsPast(past, h) && past != h
    ensures IsPast(Then(past, note), h)
  {
    if past == h.earlier { note := h.note; } else { note := NextNote(past, h.earlier); }
  }

  /** Over every run: the seek of a recovery follows a FILE_LOADED, after the
      replay was asked for, of the very entry the recovery was opened for. */
  lemma SeekWaitsForItsEntry(events: seq<Event>, past: History, note: Note)
    requires Run(INITIAL, events)
    requires IsPast(Then(past, note), Outcome(INITIAL, events).history)
    requires note.Submitted? && note.action.SeekTo?
    ensures EntryReloaded(past, note.revision)
  {
    RunTold(INITIAL, events);
    FollowsInThePast(past, note, Outcome(INITIAL, events).history);
  }

  /** A recovery sends nothing before a renderer newer than the lost one is ready. */
  lemma StepsWaitForNewerRenderer(events: seq<Event>, past: History, note: Note)
    requires Run(INITIAL, events)
    requires IsPast(Then(past, note), Outcome(INITIAL, events).history) && note.Submitted?
    ensures ReadySince(past, note.revision)
  {
    RunTold(INITIAL, events);
    FollowsInThePast(past, note, Outcome(INITIAL, events).history);
  }

  /** The source intent changes at once when there is a cause (a submission that
      changes the file, or the start of a foreign entry), and at no other time. */
  lemma IntentChangesExactlyWhen(events: seq<Event>, past: History, note: Note)
    requires Run(INITIAL, events)
    requires IsPast(Then(past, note), Outcome(INITIAL, events).history)
    ensures note.IntentAdvanced? <==> HasCause(past)
    ensures !HasCause(Outcome(INITIAL, events).history)
  {
    RunTold(INITIAL, events);
    FollowsInThePast(past, note, Outcome(INITIAL, events).history);
  }

  /** A recovery is valid exactly while it lives: opened last, and since then
      neither failed nor succeeded, nor was the intent changed or the
      controller closed. Its fields are those it was opened with. */
  lemma RecoveryLivesExactlyWhile(events: seq<Event>)
    requires Run(INITIAL, events)
    ensures var s := Outcome(INITIAL, events);
      && (s.recovery.valid <==> LiveIn(s.history) != 0)
      && (s.recovery.valid ==>
            && s.recovery.revision == LiveIn(s.history)
            && s.recovery.playback.entryId == EntryOf(s.history, s.recovery.revision)
            && s.recovery.retiredRenderer == RetiredOf(s.history, s.recovery.revision)
            && s.recovery.terminated == LossKnown(s.history, s.recovery.revision))
  {
    RunTold(INITIAL, events);
  }

  /** A replay names the place its entry has in the playlist reported last. */
  lemma ReplayNamesItsEntry(events: seq<Event>, past: History, note: Note)
    requires Run(INITIAL, events)
    requires IsPast(Then(past, note), Outcome(INITIAL, events).history)
    requires note.Submitted? && note.action.ReplayAt?
    ensures FirstPlace(PlaylistIn(past), EntryOf(past, note.revision), note.action.index)
  {
    RunTold(INITIAL, events);
    FollowsInThePast(past, note, Outcome(INITIAL, events).history);
  }

  /** A recovery is opened for the entry at play, or, with none loaded, for the
      one that ended last; and it fails for a reason the history shows. */
  lemma OpeningsAndFailures(events: seq<Event>, past: History, note: Note)
    requires Run(INITIAL, events)
    requires IsPast(Then(past, note), Outcome(INITIAL, events).history)
    ensures note.Opened? ==>
              0 <= note.entryId == (if LoadedIn(past) then EntryIn(past) else EndedEntryIn(past)) && note.retired != 0
    ensures note.Failed? ==> FailsFor(past, note.revision, note.error)
  {
    RunTold(INITIAL, events);
    FollowsInThePast(past, note, Outcome(INITIAL, events).history);
  }
}
