/** What the recovery machine promises over whole runs. */
module RecoveryTheorems {
  import opened Native
  import opened Recovery
  import opened RecoveryHistory
  import opened RecoveryInvariant
  import opened RecoveryEntries
  import opened RecoveryPause

  // ----- no stall -----

  /** A recovery that could go on, yet waits for nothing. */
  predicate Stalled(s: Controller) {
    && s.available && s.recovery.valid && s.recovery.terminated
    && s.recovery.readyRenderer != 0
    && s.recoveryRequests == map[]
    && !(s.recovery.replaying && s.recovery.replayAcknowledged && !s.recovery.fileLoaded)
  }

  /** No run ends in a stalled recovery, whatever the order of its events. */
  lemma NoStall(events: seq<Event>)
    requires Run(INITIAL, events)
    ensures !Stalled(Outcome(INITIAL, events))
  {
    InitialHolds();
    RunKeeps(INITIAL, events);
  }

  // ----- the grammar of submissions -----

  /** Each recovery sends a prefix of Pause? Replay Seek?, succeeds at most
      once, and at most one request of all recoveries is out at any time. */
  lemma SubmissionGrammar(events: seq<Event>, revision: nat)
    requires Run(INITIAL, events)
    ensures var s := Outcome(INITIAL, events);
      && IsPrefixOfGrammar(StepsOf(s.history, revision))
      && RecoveredCount(s.history, revision) <= 1
      && |s.recoveryRequests| <= 1
  {
    var s := Outcome(INITIAL, events);
    InitialHolds();
    RunKeeps(INITIAL, events);
    PhaseBoundsSteps(s.history, revision);
    AtMostOne(s.recoveryRequests);
  }

  lemma AtMostOne<V>(m: map<nat, V>)
    requires forall t, u :: t in m && u in m ==> t == u
    ensures |m| <= 1
  {
    if m != map[] {
      var t :| t in m;
      assert m.Keys == {t};
      assert |m| == |m.Keys|;
    }
  }

  /** What was asked and granted so far, read off the notes alone. */
  predicate Asked(h: History, revision: nat, step: Step) {
    h.Then? && (Asked(h.earlier, revision, step)
                || (h.note.Submitted? && h.note.revision == revision && StepOf(h.note.action) == step))
  }

  predicate Granted(h: History, revision: nat, step: Step) {
    h.Then? && (Granted(h.earlier, revision, step)
                || (h.note.Answered? && h.note.revision == revision && h.note.step == step && h.note.error >= 0))
  }

  predicate Witnessed(h: History, revision: nat, p: Phase) {
    match p
    case Unborn => !Asked(h, revision, Pause)
    case Fresh => !Asked(h, revision, Pause)
    case PauseDone => Granted(h, revision, Pause)
    case Replaying(acknowledged, _) => acknowledged ==> Granted(h, revision, Replay)
    case _ => true
  }

  lemma {:induction false} PhaseIsWitnessed(h: History, revision: nat)
    requires !PhaseOf(h, revision).Bad?
    ensures Witnessed(h, revision, PhaseOf(h, revision))
  {
    if h.Then? { PhaseIsWitnessed(h.earlier, revision); }
  }

  /** A phase that is not bad now never was. */
  lemma {:induction false} GoodBefore(past: History, h: History, revision: nat)
    requires IsPast(past, h) && !PhaseOf(h, revision).Bad?
    ensures !PhaseOf(past, revision).Bad?
  {
    if past != h { GoodBefore(past, h.earlier, revision); }
  }

  /** A replay that follows a pause request follows its success; a seek follows
      the replay's success and, after the replay was asked for, a FILE_LOADED of
      the entry the recovery was opened for. */
  lemma StepsWaitForReplies(events: seq<Event>, past: History, note: Note)
    requires Run(INITIAL, events)
    requires IsPast(Then(past, note), Outcome(INITIAL, events).history) && note.Submitted?
    ensures note.action.ReplayAt? && Asked(past, note.revision, Pause) ==> Granted(past, note.revision, Pause)
    ensures note.action.SeekTo? ==> Granted(past, note.revision, Replay) && EntryReloaded(past, note.revision)
  {
    var s := Outcome(INITIAL, events);
    InitialHolds();
    RunKeeps(INITIAL, events);
    GoodBefore(Then(past, note), s.history, note.revision);
    GoodBefore(past, Then(past, note), note.revision);
    PhaseIsWitnessed(past, note.revision);
    if note.action.SeekTo? { SeekWaitsForItsEntry(events, past, note); }
  }

  /** A recovery that ended, or was invalidated, sends nothing more. */
  lemma {:induction false} NeverRevived(past: History, h: History, revision: nat)
    requires IsPast(past, h) && PhaseOf(past, revision).Over? && !PhaseOf(h, revision).Bad?
    ensures PhaseOf(h, revision).Over?
    ensures StepsOf(h, revision) == StepsOf(past, revision)
    ensures RecoveredCount(h, revision) == RecoveredCount(past, revision)
  {
    if past != h {
      GoodBefore(h.earlier, h, revision);
      NeverRevived(past, h.earlier, revision);
    }
  }

  lemma InvalidatedStaysSilent(events: seq<Event>, past: History, note: Note, revision: nat)
    requires Run(INITIAL, events)
    requires IsPast(Then(past, note), Outcome(INITIAL, events).history)
    requires note.IntentAdvanced? || note.Closed? || (note.Opened? && note.revision != revision)
    requires !PhaseOf(past, revision).Unborn?
    ensures var h := Outcome(INITIAL, events).history;
      StepsOf(h, revision) == StepsOf(past, revision)
      && RecoveredCount(h, revision) == RecoveredCount(past, revision)
  {
    var h := Outcome(INITIAL, events).history;
    InitialHolds();
    RunKeeps(INITIAL, events);
    GoodBefore(Then(past, note), h, revision);
    GoodBefore(past, Then(past, note), revision);
    NeverRevived(Then(past, note), h, revision);
  }

  lemma ForeignStartAdvances(past: History, entryId: int, marker: Marker, h: History)
    requires InSequence(h) && Orderly(h) && !HasCause(h) && Foreign(past, entryId, marker)
    requires IsPast(Then(past, EntryStarted(entryId, marker)), h)
    ensures IsPast(Then(Then(past, EntryStarted(entryId, marker)), IntentAdvanced(IntentOf(past) + 1)), h)
  {
    var started := Then(past, EntryStarted(entryId, marker));
    var note := NextNote(started, h);
    FollowsInThePast(started, note, h);
    OrderlyAt(started, note, h);
  }

  /** The start of a foreign entry changes the intent at once, and from then on
      no recovery opened before it sends or announces anything. */
  lemma ForeignStartCancels(events: seq<Event>, past: History, entryId: int, marker: Marker, revision: nat)
    requires Run(INITIAL, events) && Foreign(past, entryId, marker)
    requires IsPast(Then(past, EntryStarted(entryId, marker)), Outcome(INITIAL, events).history)
    requires !PhaseOf(past, revision).Unborn?
    ensures var h := Outcome(INITIAL, events).history;
      && IsPast(Then(Then(past, EntryStarted(entryId, marker)), IntentAdvanced(IntentOf(past) + 1)), h)
      && StepsOf(h, revision) == StepsOf(past, revision)
      && RecoveredCount(h, revision) == RecoveredCount(past, revision)
  {
    var started := Then(past, EntryStarted(entryId, marker));
    RunTold(INITIAL, events);
    InitialHolds();
    RunKeeps(INITIAL, events);
    ForeignStartAdvances(past, entryId, marker, Outcome(INITIAL, events).history);
    InvalidatedStaysSilent(events, started, IntentAdvanced(IntentOf(past) + 1), revision);
  }

  // ----- newer user intent wins -----

  /** A valid recovery belongs to the source intent of the moment, and counts as
      terminated only after a loss of the video output under that intent. */
  lemma ValidRecoveryIsCurrent(events: seq<Event>)
    requires Run(INITIAL, events)
    ensures var s := Outcome(INITIAL, events);
      && IntentOf(s.history) == s.sourceIntent
      && (s.recovery.valid ==> s.recovery.playback.intent == s.sourceIntent)
      && (s.recovery.valid && s.recovery.terminated ==> LostSinceIntent(s.history))
  {
    InitialHolds();
    RunKeeps(INITIAL, events);
  }

  /** Whatever a recovery sends carries the source intent of that moment, which
      has never been larger before, and follows a loss of the video output
      under that intent. */
  lemma SubmissionsAreCurrent(events: seq<Event>, past: History, note: Note, before: History)
    requires Run(INITIAL, events)
    requires IsPast(Then(past, note), Outcome(INITIAL, events).history) && note.Submitted?
    requires IsPast(before, past)
    ensures note.intent == IntentOf(past) && IntentOf(before) <= note.intent
    ensures LostSinceIntent(past)
  {
    var s := Outcome(INITIAL, events);
    InitialHolds();
    RunKeeps(INITIAL, events);
    OrderlyAt(past, note, s.history);
    PastIsOrderly(Then(past, note), s.history);
    IntentGrows(before, past);
  }

  lemma {:induction false} PastIsOrderly(past: History, h: History)
    requires Orderly(h) && IsPast(past, h)
    ensures Orderly(past)
  {
    if past != h { PastIsOrderly(past, h.earlier); }
  }

  /** A seek the recovery sends restores a position recorded after the user's
      last seek; a pause it sends, a state recorded after the user's last pause,
      and the user has not paused since the recovery was opened. */
  lemma RestoresOnlyWhatIsNewest(events: seq<Event>, past: History, note: Note)
    requires Run(INITIAL, events)
    requires IsPast(Then(past, note), Outcome(INITIAL, events).history) && note.Submitted?
    ensures note.action.SeekTo? ==> KeptSinceSeek(past, note.action.position)
    ensures note.action.PauseTo? ==> KeptSincePause(past, note.action.paused)
                                     && NoPauseSinceOpening(past, note.revision)
  {
    InitialHolds();
    RunKeeps(INITIAL, events);
    OrderlyAt(past, note, Outcome(INITIAL, events).history);
    if note.action.PauseTo? { PauseSentIsTheSnapshots(events, past, note); }
  }

  /** A command advances the source intent, and ends the recovery, exactly when
      it changes what plays: by its first word, or as a `loadfile` that does not
      append. It counts as a user's seek exactly when its first word says so. */
  lemma CommandChangesIntentExactlyWhen(s: Controller, token: nat, c: Command, marker: Marker, native: int)
    requires s.available
    ensures var t := SubmitCommand(s, token, c, marker, native);
      var first := if c.words == [] then "" else c.words[0];
      var mode := if |c.words| > 2 then c.words[2] else "replace";
      var changes :=
        || first == "loadlist" || first == "stop" || first == "quit"
        || first == "playlist-next" || first == "playlist-prev" || first == "playlist-play-index"
        || (first == "loadfile" && mode != "append" && !(mode == "append-play" && s.playback.loaded));
      && t.sourceIntent == s.sourceIntent + (if changes then 1 else 0)
      && (t.recovery.valid <==> s.recovery.valid && !changes)
      && t.seekRevision == s.seekRevision + (if first == "seek" || first == "revert-seek" then 1 else 0)
      && t.pauseRevision == s.pauseRevision
  {
    var told := Log(s.(issued := s.issued - {token}, nextToken := NoteNativeToken(s.nextToken, token)),
                    CommandGiven(c.words));
    SubmissionLeaves(CommandIntent(told, c, marker), token, ForCommand, native);
    if !Invalidates(c.words, s.playback.loaded) && IsSeek(c.words) { SeekLeavesIntent(told, c, marker); }
  }

  lemma SeekLeavesIntent(s: Controller, c: Command, marker: Marker)
    ensures var t := SeekIntended(s, c, marker);
      && t.sourceIntent == s.sourceIntent && t.recovery.valid == s.recovery.valid
      && t.seekRevision == s.seekRevision + 1 && t.pauseRevision == s.pauseRevision
  {
  }

  /** A stop, replacing load or navigation drops the recovery and everything
      remembered for one. */
  lemma NavigationCancels(s: Controller, token: nat, c: Command, marker: Marker, native: int)
    requires s.available && PlaysAnother(c.words, s.playback.loaded)
    ensures var t := SubmitCommand(s, token, c, marker, native);
      && t.sourceIntent == s.sourceIntent + 1 && !t.recovery.valid && !t.seekIntent.valid
      && !t.playback.loaded && !t.terminatedPlayback.loaded && t.terminationError == 0
  {
    PlaysAnotherInvalidates(c.words, s.playback.loaded);
    assert !IsSeek(c.words);
  }

  /** A write advances the intent, and ends the recovery, exactly when it is one
      of the three that navigate; it counts as a user's pause or seek exactly
      when it is the write of that property. */
  lemma WriteChangesIntentExactlyWhen(s: Controller, token: nat, p: PropertySet, marker: Marker, native: int)
    requires s.available
    ensures var t := SubmitPropertySet(s, token, p, marker, native);
      var navigates := p.name == "playlist-pos" || p.name == "playlist-current-pos" || p.name == "path";
      && t.sourceIntent == s.sourceIntent + (if navigates then 1 else 0)
      && (t.recovery.valid <==> s.recovery.valid && !navigates)
      && t.pauseRevision == s.pauseRevision + (if p.name == "pause" then 1 else 0)
      && t.seekRevision == s.seekRevision + (if p.name == "time-pos" then 1 else 0)
  {
    var told := Log(s.(issued := s.issued - {token}, nextToken := NoteNativeToken(s.nextToken, token)),
                    WriteGiven(p.name));
    WriteMoves(told, p, marker);
    SubmissionLeaves(PropertyIntent(told, p, marker), token, ForPropertySet, native);
  }

  lemma WriteMoves(s: Controller, p: PropertySet, marker: Marker)
    ensures var t := PropertyIntent(s, p, marker);
      var navigates := p.name == "playlist-pos" || p.name == "playlist-current-pos" || p.name == "path";
      && t.sourceIntent == s.sourceIntent + (if navigates then 1 else 0)
      && (t.recovery.valid <==> s.recovery.valid && !navigates)
      && t.pauseRevision == s.pauseRevision + (if p.name == "pause" then 1 else 0)
      && t.seekRevision == s.seekRevision + (if p.name == "time-pos" then 1 else 0)
  {
    if p.name == "time-pos" {
      TimePosMoves(s, p.number, marker);
      assert PropertyIntent(s, p, marker) == TimePosIntent(s, p.number, marker);
    } else if p.name == "pause" {
      assert PropertyIntent(s, p, marker) == BumpPause(s);
    }
  }

  lemma TimePosMoves(s: Controller, number: Option<Number>, marker: Marker)
    ensures var t := TimePosIntent(s, number, marker);
      && t.sourceIntent == s.sourceIntent && t.recovery.valid == s.recovery.valid
      && t.pauseRevision == s.pauseRevision && t.seekRevision == s.seekRevision + 1
  {
  }

  /** A navigating write drops as much as a navigating command. */
  lemma NavigatingWriteCancels(s: Controller, token: nat, p: PropertySet, marker: Marker, native: int)
    requires s.available && p.name in {"playlist-pos", "playlist-current-pos", "path"}
    ensures var t := SubmitPropertySet(s, token, p, marker, native);
      && t.sourceIntent == s.sourceIntent + 1 && !t.recovery.valid && !t.seekIntent.valid
      && !t.playback.loaded && !t.terminatedPlayback.loaded && t.terminationError == 0
  {
    assert p.name != "pause" && p.name != "time-pos";
  }

  /** The user seeks while a recovery has not restored a position yet. The seek
      is absorbed exactly when its target can be told and the marker still
      names the lost renderer; otherwise the recovery is left with an older
      seek revision. */
  lemma SeekIsAbsorbedOrLeftOlder(s: Controller, token: nat, c: Command, marker: Marker, native: int)
    requires Invariant(s) && s.available && s.recovery.valid && !s.recovery.seekSubmitted
    requires s.recovery.retiredRenderer != 0 && c.words != [] && (c.words[0] == "seek" || c.words[0] == "revert-seek")
    ensures var t := SubmitCommand(s, token, c, marker, native);
      t.recovery == AfterSeek(s, c, marker)
      && (SeekTarget(s, c).Some? && marker == Marked(s.recovery.retiredRenderer, s.sourceIntent)
          <==> t.recovery.seekRevision == t.seekRevision)
  {
    OnRecord(s);
    SeekArrives(s, token, c, marker, native);
  }

  /** The recovery with the user's seek in place of the position it held, or as it was. */
  function AfterSeek(s: Controller, c: Command, marker: Marker): RecoveryState {
    AfterTarget(s, SeekTarget(s, c), marker)
  }

  function AfterTarget(s: Controller, target: Option<real>, marker: Marker): RecoveryState {
    if target.Some? && marker == Marked(s.recovery.retiredRenderer, s.sourceIntent)
    then s.recovery.(playback := s.recovery.playback.(position := target.value),
                     seekRevision := s.seekRevision + 1)
    else s.recovery
  }

  /** Where a write of the position aims. */
  function WriteTarget(number: Option<Number>): Option<real> {
    if number.Some? && number.value.Finite? && number.value.value >= 0.0 then Some(number.value.value) else None
  }

  /** A write of the position is absorbed or leaves the recovery older, like a seek. */
  lemma PositionWriteIsAbsorbedOrLeftOlder(s: Controller, token: nat, p: PropertySet, marker: Marker, native: int)
    requires Invariant(s) && s.available && s.recovery.valid && !s.recovery.seekSubmitted
    requires s.recovery.retiredRenderer != 0 && p.name == "time-pos"
    ensures var t := SubmitPropertySet(s, token, p, marker, native);
      t.recovery == AfterTarget(s, WriteTarget(p.number), marker)
      && (WriteTarget(p.number).Some? && marker == Marked(s.recovery.retiredRenderer, s.sourceIntent)
          <==> t.recovery.seekRevision == t.seekRevision)
  {
    OnRecord(s);
    var s1 := Log(s.(issued := s.issued - {token}, nextToken := NoteNativeToken(s.nextToken, token)),
                  WriteGiven(p.name));
    assert PropertyIntent(s1, p, marker) == TimePosIntent(s1, p.number, marker);
    SubmissionLeaves(TimePosIntent(s1, p.number, marker), token, ForPropertySet, native);
  }

  /** Where a seek absorbed by a recovery goes: to its amount, or as far from the
      position the recovery held, never below zero. Other modes have no target. */
  lemma AbsorbedSeekGoesWhereAsked(s: Controller, token: nat, c: Command, marker: Marker, native: int, amount: real)
    requires Invariant(s) && s.available && s.recovery.valid && !s.recovery.seekSubmitted
    requires s.recovery.retiredRenderer != 0 && marker == Marked(s.recovery.retiredRenderer, s.sourceIntent)
    requires |c.words| >= 2 && c.words[0] == "seek" && c.amount == Some(Finite(amount))
    ensures var t := SubmitCommand(s, token, c, marker, native).recovery;
      var held := s.recovery.playback.position;
      var mode := if |c.words| > 2 then c.words[2] else "relative";
      if mode == "absolute" || mode == "absolute+exact"
      then t.playback.position == (if amount < 0.0 then 0.0 else amount) && t.seekRevision == s.seekRevision + 1
      else if mode == "relative" || mode == "relative+exact"
      then t.playback.position == (if held + amount < 0.0 then 0.0 else held + amount)
           && t.seekRevision == s.seekRevision + 1
      else t == s.recovery
  {
    OnRecord(s);
    SeekArrives(s, token, c, marker, native);
  }

  /** Without a recovery, a relative seek is remembered as far from the position
      at play, or from where the entry ended. */
  lemma RememberedSeekGoesWhereAsked(s: Controller, token: nat, c: Command, marker: Marker, native: int, amount: real)
    requires s.available && !s.recovery.valid && marker.Marked? && marker.generation != 0
    requires marker.intent == s.sourceIntent
    requires |c.words| >= 2 && c.words[0] == "seek" && c.amount == Some(Finite(amount))
    ensures var t := SubmitCommand(s, token, c, marker, native).seekIntent;
      var from := if s.playback.loaded then s.playback.position else s.terminatedPlayback.position;
      var mode := if |c.words| > 2 then c.words[2] else "relative";
      if mode == "absolute" || mode == "absolute+exact"
      then t.valid && t.renderer == marker.generation && t.position == (if amount < 0.0 then 0.0 else amount)
      else if mode == "relative" || mode == "relative+exact"
      then t.valid && t.renderer == marker.generation
           && t.position == (if from + amount < 0.0 then 0.0 else from + amount)
      else !t.valid
  {
    var told := Log(s.(issued := s.issued - {token}, nextToken := NoteNativeToken(s.nextToken, token)),
                    CommandGiven(c.words));
    assert !Invalidates(c.words, s.playback.loaded);
    assert CommandIntent(told, c, marker) == SeekIntended(told, c, marker);
    SubmissionLeaves(SeekIntended(told, c, marker), token, ForCommand, native);
  }

  lemma OnRecord(s: Controller)
    requires Sound(s) && s.recovery.valid
    ensures s.recovery.seekRevision <= s.seekRevision && s.recovery.playback.intent == s.sourceIntent
  {
  }

  lemma SeekArrives(s: Controller, token: nat, c: Command, marker: Marker, native: int)
    requires s.available && s.recovery.valid && !s.recovery.seekSubmitted && s.recovery.retiredRenderer != 0
    requires s.recovery.playback.intent == s.sourceIntent && s.recovery.seekRevision <= s.seekRevision
    requires IsSeek(c.words)
    ensures var t := SubmitCommand(s, token, c, marker, native);
      t.recovery == AfterSeek(s, c, marker) && t.seekRevision == s.seekRevision + 1
  {
    var s1 := Log(s.(issued := s.issued - {token}, nextToken := NoteNativeToken(s.nextToken, token)),
                  CommandGiven(c.words));
    SeekReaches(s1, c, marker);
    SameAim(s, s1, c, marker);
    SubmissionLeaves(CommandIntent(s1, c, marker), token, ForCommand, native);
  }

  lemma SubmissionLeaves(s: Controller, token: nat, sender: Sender, native: int)
    ensures var t := Submission(s, token, sender, native);
      && t.recovery == s.recovery && t.seekRevision == s.seekRevision && t.pauseRevision == s.pauseRevision
      && t.sourceIntent == s.sourceIntent && t.seekIntent == s.seekIntent
  {
  }

  lemma SameAim(s: Controller, t: Controller, c: Command, marker: Marker)
    requires t.recovery == s.recovery && t.playback == s.playback && t.terminatedPlayback == s.terminatedPlayback
    requires t.sourceIntent == s.sourceIntent && t.seekRevision == s.seekRevision
    ensures AfterSeek(t, c, marker) == AfterSeek(s, c, marker)
  {
  }

  lemma SeekReaches(s: Controller, c: Command, marker: Marker)
    requires s.recovery.valid && !s.recovery.seekSubmitted && s.recovery.retiredRenderer != 0
    requires s.recovery.playback.intent == s.sourceIntent && s.recovery.seekRevision <= s.seekRevision
    requires IsSeek(c.words)
    ensures CommandIntent(s, c, marker).recovery == AfterSeek(s, c, marker)
    ensures CommandIntent(s, c, marker).seekRevision == s.seekRevision + 1
  {
    assert !Invalidates(c.words, s.playback.loaded);
    assert CommandIntent(s, c, marker) == SeekIntended(s, c, marker);
    var bumped := BumpSeek(s);
    assert SeekTarget(bumped, c) == SeekTarget(s, c);
  }

  /** Once the replayed entry is loaded and the replay acknowledged, a recovery
      with an older seek revision reports its success without seeking; before
      that it waits. */
  lemma OlderSeekIsNotRestored(s: Controller, native: int)
    requires Sound(s) && s.recovery.valid && s.recovery.seekRevision != s.seekRevision
    ensures var r := s.recovery;
      TryRestorePosition(s, native) ==
        if r.replayAcknowledged && r.fileLoaded && !r.seekSubmitted
        then Log(s.(recovery := r.(valid := false)), Recovered(r.revision, r.readyRenderer, r.playback.entryId)) else s
  {
    OnRecord(s);
    var r := s.recovery;
    assert FlagsAgree(r, s.recoveryRequests);
  }

  /** With a pause the user set since the snapshot, the recovery asks for
      nothing but its replay, whether it had asked for a pause before or not. */
  lemma NewerPauseIsNotOverridden(s: Controller, native: int)
    requires Sound(s) && s.recovery.valid && s.recovery.pauseRevision != s.pauseRevision
    ensures var r := s.recovery.revision;
      var sends := CanAdvance(s) && Find(s.playlist, s.recovery.playback.entryId).Some? && s.nextToken != 0;
      StepsOf(TryRecoverPlayback(s, native).history, r)
      == StepsOf(s.history, r) + if sends then [Replay] else []
  {
    OnRecord(s);
    var found := Find(s.playlist, s.recovery.playback.entryId);
    if CanAdvance(s) && found.Some? {
      assert TryRecoverPlayback(s, native) == SubmitRecovery(WithReplay(s), ReplayAt(found.value), native);
      SubmissionAddsStep(WithReplay(s), ReplayAt(found.value), native);
    }
  }

  lemma SubmissionAddsStep(s: Controller, action: Action, native: int)
    requires s.recovery.valid
    ensures StepsOf(SubmitRecovery(s, action, native).history, s.recovery.revision)
            == StepsOf(s.history, s.recovery.revision) + if s.nextToken != 0 then [StepOf(action)] else []
  {
    if s.nextToken != 0 {
      if native < 0 { RefusedShows(s, action, native); } else { AcceptedShows(s, action, native); }
    }
  }

  /** `time-pos` is reported, once for each position. */
  function Reported(s: Controller, reports: seq<real>): Controller
    decreases |reports|
  {
    if reports == [] then s else Reported(CacheProperty(s, TimePosIs(Finite(reports[0]))), reports[1..])
  }

  lemma {:induction false} ReportsCount(s: Controller, reports: seq<real>)
    requires s.playback.loaded && forall p :: p in reports ==> p >= 0.0
    ensures var t := Reported(s, reports);
      && t == s.(playback := t.playback, history := t.history)
      && t.playback == s.playback.(position := t.playback.position, seekRevision := t.playback.seekRevision)
      && (if reports == [] then t == s
          else t.playback.position == reports[|reports| - 1] && t.playback.seekRevision == s.seekRevision)
    decreases |reports|
  {
    if reports != [] {
      assert reports[0] in reports && forall p :: p in reports[1..] ==> p in reports;
      ReportsCount(CacheProperty(s, TimePosIs(Finite(reports[0]))), reports[1..]);
    }
  }

  /** A seek made while no renderer is known to be lost is not remembered. The
      recovery that a later loss opens starts with the seek revision of the
      moment if and only if libmpv reported a position in between, and then with
      the last one reported: a report counts when it arrives, whenever libmpv
      made it. */
  lemma LossRestoresWhatWasReported(s: Controller, token: nat, c: Command, marker: Marker, native: int,
                                    reports: seq<real>, generation: nat)
    requires Invariant(s) && s.available && IsSeek(c.words) && generation != 0
    requires RetiringContext(marker, s.sourceIntent) == 0
    requires s.playback.loaded && s.playback.entryId >= 0 && s.playback.intent == s.sourceIntent
    requires !(s.recovery.valid && s.recovery.retiredRenderer == generation)
    requires forall p :: p in reports ==> p >= 0.0
    ensures var seen := Reported(SubmitCommand(s, token, c, marker, native), reports);
      var lost := RenderContextRetiring(seen, generation, s.sourceIntent);
      && lost.recovery.valid && lost.recovery.revision == s.recoveryRevision + 1
      && (lost.recovery.seekRevision == lost.seekRevision <==> reports != [])
      && (reports != [] ==> lost.recovery.playback.position == reports[|reports| - 1])
  {
    assert SeekPair(s.history, s.seekRevision, s.playback.seekRevision, s.playback.position);
    SeekIsForgotten(s, token, c, marker, native);
    var sought := SubmitCommand(s, token, c, marker, native);
    ReportsCount(sought, reports);
    var seen := Reported(sought, reports);
    assert seen.playback.seekRevision == seen.seekRevision <==> reports != [];
  }

  lemma SeekIsForgotten(s: Controller, token: nat, c: Command, marker: Marker, native: int)
    requires s.available && IsSeek(c.words) && RetiringContext(marker, s.sourceIntent) == 0
    ensures var t := SubmitCommand(s, token, c, marker, native);
      && t.available && !t.seekIntent.valid && t.seekRevision == s.seekRevision + 1
      && t.recovery == s.recovery && t.recoveryRevision == s.recoveryRevision
      && t.playback == s.playback && t.sourceIntent == s.sourceIntent
  {
    var s1 := Log(s.(issued := s.issued - {token}, nextToken := NoteNativeToken(s.nextToken, token)),
                  CommandGiven(c.words));
    assert !Invalidates(c.words, s.playback.loaded);
    assert CommandIntent(s1, c, marker) == BumpSeek(s1);
  }

  // ----- the two loss notices -----

  /** The controller but for its history. */
  function Fields(s: Controller): Controller {
    s.(history := Start)
  }

  function EndThenNotice(s: Controller, generation: nat, intent: nat, native: int): Controller {
    RenderContextRetiring(EndFile(s, Error(VO_INIT_FAILED), Marked(generation, intent), native), generation, intent)
  }

  function NoticeThenEnd(s: Controller, generation: nat, intent: nat, native: int): Controller {
    EndFile(RenderContextRetiring(s, generation, intent), Error(VO_INIT_FAILED), Marked(generation, intent), native)
  }

  /** A recovery for this very renderer is already under way and free to start,
      and its first native step will fail. */
  predicate EndsInFailure(s: Controller, generation: nat, native: int) {
    && s.recovery.valid && s.recovery.retiredRenderer == generation
    && s.recovery.playback.intent == s.sourceIntent
    && s.recovery.playback.entryId == s.playback.entryId
    && s.recovery.readyRenderer != 0 && !s.recovery.replaying && s.recoveryRequests == map[]
    && (Find(s.playlist, s.playback.entryId).None? || s.nextToken == 0 || native < 0)
  }

  /** For a loaded entry under the current intent, the worker may see the end
      of the file or the notice first: the outcome is the same, unless the end
      of the file makes an earlier recovery of the same renderer fail at once. */
  lemma LossNoticesCommute(s: Controller, generation: nat, native: int)
    requires s.available && generation != 0
    requires s.playback.loaded && s.playback.entryId >= 0 && s.playback.intent == s.sourceIntent
    ensures Fields(EndThenNotice(s, generation, s.sourceIntent, native))
            == Fields(NoticeThenEnd(s, generation, s.sourceIntent, native))
            <==> !EndsInFailure(s, generation, native)
  {
    var i := s.sourceIntent;
    var marker := Marked(generation, i);
    if s.recovery.valid && s.recovery.retiredRenderer == generation && s.recovery.playback.intent == i {
      KnownLossCommutes(s, generation, native);
    } else {
      NewLossCommutes(s, generation, native);
    }
  }

  lemma NewLossCommutes(s: Controller, generation: nat, native: int)
    requires s.available && generation != 0
    requires s.playback.loaded && s.playback.entryId >= 0 && s.playback.intent == s.sourceIntent
    requires !(s.recovery.valid && s.recovery.retiredRenderer == generation
               && s.recovery.playback.intent == s.sourceIntent)
    ensures Fields(EndThenNotice(s, generation, s.sourceIntent, native))
            == Fields(NoticeThenEnd(s, generation, s.sourceIntent, native))
  {
    var i := s.sourceIntent;
    var marker := Marked(generation, i);
    var noticed := RenderContextRetiring(s, generation, i);
    var classified := ClassifyLoss(Log(s, VoLost), marker);
    assert Fields(classified) == Fields(noticed);
    assert ClassifyLoss(Log(noticed, VoLost), marker) == Log(noticed, VoLost);
    FreshLossWaits(classified, generation, native);
    FreshLossWaits(Log(noticed, VoLost), generation, native);
  }

  /** A recovery just opened has no ready renderer, so confirming its loss only
      marks it terminated; the notice that comes after it changes nothing. */
  lemma FreshLossWaits(s: Controller, generation: nat, native: int)
    requires s.available && s.playback.loaded
    requires s.recovery.valid && s.recovery.retiredRenderer == generation && s.recovery.readyRenderer == 0
    requires s.recovery.playback.intent == s.sourceIntent == s.playback.intent
    requires s.recovery.playback.entryId == s.playback.entryId
    ensures var filed := FileTerminated(s, VO_INIT_FAILED);
      ConfirmLoss(filed, native) == filed.(recovery := s.recovery.(terminated := true))
    ensures var done := ConfirmLoss(FileTerminated(s, VO_INIT_FAILED), native);
      RenderContextRetiring(done, generation, s.sourceIntent) == done
  {
  }

  lemma KnownLossCommutes(s: Controller, generation: nat, native: int)
    requires s.available && generation != 0
    requires s.playback.loaded && s.playback.entryId >= 0 && s.playback.intent == s.sourceIntent
    requires s.recovery.valid && s.recovery.retiredRenderer == generation
             && s.recovery.playback.intent == s.sourceIntent
    ensures Fields(EndThenNotice(s, generation, s.sourceIntent, native))
            == Fields(NoticeThenEnd(s, generation, s.sourceIntent, native))
            <==> !EndsInFailure(s, generation, native)
  {
    var i := s.sourceIntent;
    var marker := Marked(generation, i);
    assert RenderContextRetiring(s, generation, i) == s;
    var lost := Log(s, VoLost);
    assert ClassifyLoss(lost, marker) == lost;
    KnownLossEnds(lost, generation, native);
  }

  lemma KnownLossEnds(s: Controller, generation: nat, native: int)
    requires s.available && generation != 0
    requires s.playback.loaded && s.playback.entryId >= 0 && s.playback.intent == s.sourceIntent
    requires s.recovery.valid && s.recovery.retiredRenderer == generation
             && s.recovery.playback.intent == s.sourceIntent
    ensures var ended := ConfirmLoss(FileTerminated(s, VO_INIT_FAILED), native);
      RenderContextRetiring(ended, generation, s.sourceIntent) == ended <==> !EndsInFailure(s, generation, native)
    ensures var ended := ConfirmLoss(FileTerminated(s, VO_INIT_FAILED), native);
      EndsInFailure(s, generation, native) ==>
        !ended.recovery.valid && RenderContextRetiring(ended, generation, s.sourceIntent).recovery.valid
  {
    var filed := FileTerminated(s, VO_INIT_FAILED);
    if RecoversTerminated(filed) {
      AttemptOutcome(filed.(recovery := filed.recovery.(terminated := true)), native);
    }
  }

  /** The notice of the renderer's loss has not come yet. */
  predicate Unannounced(events: seq<Event>, generation: nat) {
    forall e :: e in events && e.RetiringNotice? ==> e.generation != generation
  }

  /** The destructor of a renderer posts one notice. Whatever came before it,
      its order with the end of the file makes no difference. */
  lemma OneNoticeCommutes(events: seq<Event>, generation: nat, native: int)
    requires Run(INITIAL, events) && Unannounced(events, generation)
    ensures var s := Outcome(INITIAL, events);
      s.available && generation != 0
      && s.playback.loaded && s.playback.entryId >= 0 && s.playback.intent == s.sourceIntent ==>
        Fields(EndThenNotice(s, generation, s.sourceIntent, native))
        == Fields(NoticeThenEnd(s, generation, s.sourceIntent, native))
  {
    var s := Outcome(INITIAL, events);
    InitialHolds();
    RunKeeps(INITIAL, events);
    UnannouncedIsConfirmed(INITIAL, events, generation);
    if s.available && generation != 0
       && s.playback.loaded && s.playback.entryId >= 0 && s.playback.intent == s.sourceIntent {
      LossNoticesCommute(s, generation, native);
    }
  }

  /** A recovery the worker opened by itself, at the end of the file, knows that end. */
  predicate Confirmed(r: RecoveryState, generation: nat) {
    r.valid && r.retiredRenderer == generation ==> r.terminated
  }

  lemma {:induction false} UnannouncedIsConfirmed(s: Controller, events: seq<Event>, generation: nat)
    requires Confirmed(s.recovery, generation) && Run(s, events) && Unannounced(events, generation)
    ensures Confirmed(Outcome(s, events).recovery, generation)
    decreases |events|
  {
    if events != [] {
      StepConfirms(s, events[0], generation);
      UnannouncedIsConfirmed(After(s, events[0]), events[1..], generation);
    }
  }

  /** The recovery is the one of before, and still knows what it knew; or it is gone. */
  predicate StaysConfirmed(r: RecoveryState, q: RecoveryState) {
    q.valid ==> r.valid && q.retiredRenderer == r.retiredRenderer && (r.terminated ==> q.terminated)
  }

  lemma StepConfirms(s: Controller, e: Event, generation: nat)
    requires Confirmed(s.recovery, generation) && (e.RetiringNotice? ==> e.generation != generation)
    ensures Confirmed(After(s, e).recovery, generation)
  {
    match e
    case TokenIssued => AvailabilityStays(s);
    case CommandSubmitted(token, c, marker, native) => CommandStays(s, token, c, marker, native);
    case PropertySubmitted(token, p, marker, native) => PropertyStays(s, token, p, marker, native);
    case RetiringNotice(g, intent) => NoticeConfirms(s, g, intent, generation);
    case ReadyNotice(g, native) => ReadyStays(s, g, native);
    case ReplyArrived(token, error, native) => ReplyStays(s, token, error, native);
    case PropertyObserved(observation) => ObservedStays(s, observation);
    case FileStarted(entryId, marker) => StartStays(s, entryId, marker);
    case FileWasLoaded(native) => LoadedStays(s, native);
    case FileEnded(reason, marker, native) => EndConfirms(s, reason, marker, native, generation);
    case CoreShutDown => AvailabilityStays(s);
    case ShutdownRequested => AvailabilityStays(s);
  }

  lemma AvailabilityStays(s: Controller)
    ensures IssueToken(s).recovery == s.recovery == CoreLost(s).recovery && !Shutdown(s).recovery.valid
  {
  }

  lemma ObservedStays(s: Controller, o: Observation)
    ensures CacheProperty(s, o).recovery == s.recovery
  {
  }

  lemma NoticeConfirms(s: Controller, g: nat, intent: nat, generation: nat)
    requires Confirmed(s.recovery, generation) && g != generation
    ensures Confirmed(RenderContextRetiring(s, g, intent).recovery, generation)
  {
  }

  lemma ReadyStays(s: Controller, g: nat, native: int)
    ensures StaysConfirmed(s.recovery, RenderContextReady(s, g, native).recovery)
  {
    AttemptStays(Log(s, RendererReady(g)).(recovery := s.recovery.(readyRenderer := g)), native);
  }

  lemma StartStays(s: Controller, entryId: int, marker: Marker)
    ensures StaysConfirmed(s.recovery, StartFile(s, entryId, marker).recovery)
  {
  }

  lemma LoadedStays(s: Controller, native: int)
    ensures StaysConfirmed(s.recovery, FileLoaded(s, native).recovery)
  {
    RestoreStays(Reloading(Log(s, EntryLoaded)), native);
  }

  lemma EndConfirms(s: Controller, reason: EndReason, marker: Marker, native: int, generation: nat)
    requires Confirmed(s.recovery, generation)
    ensures Confirmed(EndFile(s, reason, marker, native).recovery, generation)
  {
    if IsVoLoss(reason) { LossConfirms(s, marker, native, generation); }
  }

  lemma CommandStays(s: Controller, token: nat, c: Command, marker: Marker, native: int)
    ensures StaysConfirmed(s.recovery, SubmitCommand(s, token, c, marker, native).recovery)
  {
    if s.available {
      var s1 := Log(s.(issued := s.issued - {token}, nextToken := NoteNativeToken(s.nextToken, token)),
                    CommandGiven(c.words));
      CommandIntentStays(s1, c, marker);
      SubmissionLeaves(CommandIntent(s1, c, marker), token, ForCommand, native);
    }
  }

  lemma CommandIntentStays(s: Controller, c: Command, marker: Marker)
    ensures StaysConfirmed(s.recovery, CommandIntent(s, c, marker).recovery)
  {
    if Invalidates(c.words, s.playback.loaded) {
      assert !IsSeek(c.words);
    } else if IsSeek(c.words) {
      var target := SeekTarget(BumpSeek(s), c);
      if target.Some? { RememberStays(BumpSeek(s), target.value, marker); }
    }
  }

  lemma RememberStays(s: Controller, position: real, marker: Marker)
    ensures StaysConfirmed(s.recovery, RememberSeekIntent(s, position, marker).recovery)
  {
  }

  lemma PropertyStays(s: Controller, token: nat, p: PropertySet, marker: Marker, native: int)
    ensures StaysConfirmed(s.recovery, SubmitPropertySet(s, token, p, marker, native).recovery)
  {
    var s1 := Log(s.(issued := s.issued - {token}, nextToken := NoteNativeToken(s.nextToken, token)),
                  WriteGiven(p.name));
    SubmissionLeaves(PropertyIntent(s1, p, marker), token, ForPropertySet, native);
    if p.name == "time-pos" {
      assert PropertyIntent(s1, p, marker) == TimePosIntent(s1, p.number, marker);
      var target := WriteTarget(p.number);
      if target.Some? { RememberStays(BumpSeek(s1), target.value, marker); }
    }
  }

  lemma FailStays(s: Controller, error: int)
    ensures !FailRecovery(s, error).recovery.valid
  {
  }

  lemma SubmitStays(s: Controller, action: Action, native: int)
    ensures StaysConfirmed(s.recovery, SubmitRecovery(s, action, native).recovery)
  {
    FailStays(s, NOMEM);
  }

  lemma AttemptStays(s: Controller, native: int)
    ensures StaysConfirmed(s.recovery, TryRecoverPlayback(s, native).recovery)
  {
    if CanAdvance(s) && s.recovery.playback.intent == s.sourceIntent {
      var found := Find(s.playlist, s.recovery.playback.entryId);
      if found.Some? {
        SubmitStays(s, PauseTo(s.recovery.playback.paused), native);
        SubmitStays(WithReplay(s), ReplayAt(found.value), native);
      }
    }
  }

  lemma RestoreStays(s: Controller, native: int)
    ensures StaysConfirmed(s.recovery, TryRestorePosition(s, native).recovery)
  {
    if s.recovery.valid { SubmitStays(WithSeek(s), SeekTo(s.recovery.playback.position), native); }
  }

  lemma ReplyStays(s: Controller, token: nat, error: int, native: int)
    ensures StaysConfirmed(s.recovery, HandleReply(s, token, error, native).recovery)
  {
    if token in s.recoveryRequests {
      ContinueStays(Answer(TakeReply(s, token), token, error), s.recoveryRequests[token], error, native);
    }
  }

  lemma ContinueStays(s: Controller, request: RecoveryRequest, error: int, native: int)
    ensures StaysConfirmed(s.recovery, Continue(s, request, error, native).recovery)
  {
    if !s.recovery.valid || request.revision != s.recovery.revision
       || s.recovery.playback.intent != s.sourceIntent {
      AttemptStays(s, native);
    } else if error < 0 {
      FailStays(s, error);
    } else {
      GrantedStays(s, native);
    }
  }

  lemma GrantedStays(s: Controller, native: int)
    ensures StaysConfirmed(s.recovery,
      TryRecoverPlayback(s.(recovery := s.recovery.(pauseAcknowledged := true)), native).recovery)
    ensures StaysConfirmed(s.recovery,
      TryRestorePosition(s.(recovery := s.recovery.(replayAcknowledged := true)), native).recovery)
    ensures !FinishRecovery(s).recovery.valid
  {
    AttemptStays(s.(recovery := s.recovery.(pauseAcknowledged := true)), native);
    RestoreStays(s.(recovery := s.recovery.(replayAcknowledged := true)), native);
  }

  lemma LossConfirms(s: Controller, marker: Marker, native: int, generation: nat)
    requires Confirmed(s.recovery, generation)
    ensures Confirmed(VoLossEnds(s, marker, native).recovery, generation)
  {
    var classified := ClassifyLoss(Log(s, VoLost), marker);
    ClassifyOpens(Log(s, VoLost), marker);
    var filed := FileTerminated(classified, VO_INIT_FAILED);
    assert filed.recovery == classified.recovery;
    AttemptStays(filed.(recovery := filed.recovery.(terminated := true)), native);
  }

  /** The end of the file opens a recovery of the very entry that ended. */
  lemma ClassifyOpens(s: Controller, marker: Marker)
    ensures var t := ClassifyLoss(s, marker);
      && t.playback == s.playback && t.terminatedPlayback == s.terminatedPlayback
      && (t.recovery != s.recovery ==>
            s.playback.loaded && t.recovery.playback.entryId == s.playback.entryId
            && t.recovery.playback.intent == s.playback.intent)
  {
  }

  /** What an attempt to go on leaves of the recovery, by what can go wrong. */
  lemma AttemptOutcome(s: Controller, native: int)
    requires s.recovery.valid && s.recovery.playback.intent == s.sourceIntent
    ensures var t := TryRecoverPlayback(s, native);
      && (t.recovery.valid <==>
            !(CanAdvance(s) && (Find(s.playlist, s.recovery.playback.entryId).None?
                                || s.nextToken == 0 || native < 0)))
      && Untouched(s, t)
  {
    var found := Find(s.playlist, s.recovery.playback.entryId);
    if CanAdvance(s) && found.Some? {
      if !s.recovery.pauseAcknowledged && s.recovery.pauseRevision == s.pauseRevision {
        assert TryRecoverPlayback(s, native) == SubmitRecovery(s, PauseTo(s.recovery.playback.paused), native);
        SubmitOutcome(s, PauseTo(s.recovery.playback.paused), native);
      } else {
        assert TryRecoverPlayback(s, native) == SubmitRecovery(WithReplay(s), ReplayAt(found.value), native);
        SubmitOutcome(WithReplay(s), ReplayAt(found.value), native);
      }
    }
  }

  predicate Untouched(s: Controller, t: Controller) {
    && t.recovery.retiredRenderer == s.recovery.retiredRenderer
    && t.recovery.playback == s.recovery.playback
    && t.available == s.available && t.sourceIntent == s.sourceIntent
    && t.playback == s.playback && t.terminatedPlayback == s.terminatedPlayback
  }

  lemma SubmitOutcome(s: Controller, action: Action, native: int)
    requires s.recovery.valid
    ensures var t := SubmitRecovery(s, action, native);
      Untouched(s, t) && (t.recovery.valid <==> s.nextToken != 0 && native >= 0)
  {
    var t := SubmitRecovery(s, action, native);
    if s.nextToken == 0 {
      assert t == Dropped(s, Failed(s.recovery.revision, NOMEM));
    } else if native < 0 {
      assert t.recovery == s.recovery.(valid := false);
    } else {
      assert t.recovery == s.recovery;
    }
  }

  // ----- after the core is gone -----

  /** Once the core has shut down or the controller was closed, no recovery sends
      or announces anything, whatever else happens. */
  lemma {:induction false} UnavailableStaysSilent(s: Controller, events: seq<Event>, revision: nat)
    requires !s.available && Run(s, events)
    ensures var t := Outcome(s, events);
      && !t.available
      && StepsOf(t.history, revision) == StepsOf(s.history, revision)
      && RecoveredCount(t.history, revision) == RecoveredCount(s.history, revision)
    decreases |events|
  {
    if events != [] {
      UnavailableStepIsSilent(s, events[0], revision);
      UnavailableStaysSilent(After(s, events[0]), events[1..], revision);
    }
  }

  lemma UnavailableStepIsSilent(s: Controller, e: Event, revision: nat)
    requires !s.available && Possible(s, e)
    ensures var t := After(s, e);
      && !t.available
      && StepsOf(t.history, revision) == StepsOf(s.history, revision)
      && RecoveredCount(t.history, revision) == RecoveredCount(s.history, revision)
  {
  }

  lemma ShutdownIsFinal(s: Controller)
    ensures !After(s, CoreShutDown).available && !After(s, ShutdownRequested).available
  {
  }
}
