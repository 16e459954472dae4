/** Every native token is settled once and by the right party: a request of
    the recovery is answered to the recovery or refused on the spot, a request
    of the application is delivered to the application, and none is lost. */
module RecoveryLedger {
  import opened Native
  import opened Recovery
  import opened RecoveryHistory
  import opened RecoveryInvariant

  /** How often a token's request came to an end. */
  function Settlements(h: History, token: nat): nat {
    match h
    case Start => 0
    case Then(earlier, note) => Settlements(earlier, token) + if Settles(note, token) then 1 else 0
  }

  predicate Settles(note: Note, token: nat) {
    || (note.Delivered? && note.token == token)
    || (note.Answered? && note.token == token)
    || (note.Submitted? && note.token == token && !note.accepted)
  }

  /** The recovery step a token was taken for, if any. */
  function AskedBy(h: History, token: nat): Option<RecoveryRequest> {
    match h
    case Start => None
    case Then(earlier, note) =>
      if note.Submitted? && note.token == token
      then Some(RecoveryRequest(note.revision, StepOf(note.action))) else AskedBy(earlier, token)
  }

  /** The note ends or begins a request of the party it names. */
  predicate RoutedAt(past: History, note: Note) {
    match note
    case Answered(revision, step, token, _) => AskedBy(past, token) == Some(RecoveryRequest(revision, step))
    case Delivered(token, _) => AskedBy(past, token) == None
    case Submitted(_, _, _, token, _) => AskedBy(past, token) == None && Settlements(past, token) == 0
    case _ => true
  }

  predicate Routed(h: History) {
    h.Then? ==> Routed(h.earlier) && RoutedAt(h.earlier, h.note)
  }

  /** The token was given out and its request has come to an end. */
  ghost predicate Closed(t: nat, next: nat, issued: set<nat>, pending: map<nat, Sender>) {
    t <= UINT64_MAX && Below(t, next) && t !in issued && t !in pending
  }

  ghost predicate LedgerFits(h: History, next: nat, issued: set<nat>, pending: map<nat, Sender>) {
    && Routed(h)
    && (forall t: nat :: Settlements(h, t) == if Closed(t, next, issued, pending) then 1 else 0)
    && (forall t: nat :: AskedBy(h, t).Some? ==> t <= UINT64_MAX && Below(t, next) && t !in issued)
    && (forall t :: t in issued ==> t <= UINT64_MAX)
    && (forall t :: t in pending ==>
          t <= UINT64_MAX && AskedBy(h, t) == RequestOf(pending[t]))
  }

  function RequestOf(sender: Sender): Option<RecoveryRequest> {
    if sender.ForRecovery? then Some(sender.request) else None
  }

  ghost predicate Ledger(s: Controller) {
    LedgerFits(s.history, s.nextToken, s.issued, s.pending)
  }

  // ----- notes -----

  predicate Quiet(note: Note) {
    !note.Delivered? && !note.Answered? && !note.Submitted?
  }

  /** `h` is `past` with quiet notes on top. */
  predicate QuietSince(past: History, h: History) {
    h == past || (h.Then? && Quiet(h.note) && QuietSince(past, h.earlier))
  }

  /** One more note, and what it does to every token. */
  lemma NoteMoves(h: History, note: Note)
    ensures forall t {:trigger Settlements(Then(h, note), t)} ::
              Settlements(Then(h, note), t) == Settlements(h, t) + if Settles(note, t) then 1 else 0
    ensures forall t {:trigger AskedBy(Then(h, note), t)} ::
              AskedBy(Then(h, note), t) ==
                if note.Submitted? && note.token == t
                then Some(RecoveryRequest(note.revision, StepOf(note.action))) else AskedBy(h, t)
  {
  }

  lemma {:induction false} QuietKeeps(past: History, h: History, next: nat, issued: set<nat>, pending: map<nat, Sender>)
    requires QuietSince(past, h) && LedgerFits(past, next, issued, pending)
    ensures LedgerFits(h, next, issued, pending)
  {
    if h != past {
      QuietKeeps(past, h.earlier, next, issued, pending);
      NoteMoves(h.earlier, h.note);
      assert forall t: nat :: Settlements(h, t) == Settlements(h.earlier, t);
      assert forall t: nat :: AskedBy(h, t) == AskedBy(h.earlier, t);
    }
  }

  /** A request just taken from the issued tokens is refused on the spot. */
  lemma RefusalFits(h: History, next: nat, issued: set<nat>, pending: map<nat, Sender>, token: nat, error: int)
    requires LedgerFits(h, next, issued, pending)
    requires token in issued && token !in pending && Below(token, next)
    ensures LedgerFits(Then(h, Delivered(token, error)), next, issued - {token}, pending)
  {
    NoteMoves(h, Delivered(token, error));
  }

  lemma AcceptanceFits(h: History, next: nat, issued: set<nat>, pending: map<nat, Sender>, token: nat, sender: Sender)
    requires LedgerFits(h, next, issued, pending) && !sender.ForRecovery?
    requires token in issued && token !in pending
    ensures LedgerFits(h, next, issued - {token}, pending[token := sender])
  {
  }

  lemma ReplyFits(h: History, next: nat, issued: set<nat>, pending: map<nat, Sender>, token: nat, error: int)
    requires LedgerFits(h, next, issued, pending)
    requires token in pending && token !in issued && Below(token, next)
    ensures var note := if pending[token].ForRecovery?
        then Answered(pending[token].request.revision, pending[token].request.step, token, error)
        else Delivered(token, error);
      LedgerFits(Then(h, note), next, issued, pending - {token})
  {
    var note := if pending[token].ForRecovery?
      then Answered(pending[token].request.revision, pending[token].request.step, token, error)
      else Delivered(token, error);
    NoteMoves(h, note);
  }

  // ----- the recovery's own steps -----

  /** A token out of the counter has neither been asked for nor settled. */
  lemma FreshToken(s: Controller)
    requires Ledger(s) && Tokens(s) && s.nextToken != 0
    ensures AskedBy(s.history, s.nextToken) == None && Settlements(s.history, s.nextToken) == 0
    ensures s.nextToken !in s.issued && s.nextToken !in s.pending
  {
  }

  lemma AcceptedFits(s: Controller, action: Action)
    requires Ledger(s) && Tokens(s) && s.recovery.valid && s.nextToken != 0
    ensures LedgerFits(Then(s.history, NoteFor(s, action, true)), Following(s.nextToken), s.issued,
                       s.pending[s.nextToken := ForRecovery(RequestFor(s, action))])
  {
    FreshToken(s);
    NoteMoves(s.history, NoteFor(s, action, true));
  }

  lemma RefusedFits(s: Controller, action: Action)
    requires Ledger(s) && Tokens(s) && s.recovery.valid && s.nextToken != 0
    ensures LedgerFits(Then(s.history, NoteFor(s, action, false)), Following(s.nextToken), s.issued, s.pending)
  {
    FreshToken(s);
    NoteMoves(s.history, NoteFor(s, action, false));
  }

  lemma SubmitFits(s: Controller, action: Action, native: int)
    requires Ledger(s) && Tokens(s) && s.recovery.valid
    ensures Ledger(SubmitRecovery(s, action, native))
  {
    var done := SubmitRecovery(s, action, native);
    if s.nextToken == 0 {
      QuietFits(s, done);
    } else if native >= 0 {
      AcceptedFits(s, action);
    } else {
      RefusedFits(s, action);
      QuietKeeps(Then(s.history, NoteFor(s, action, false)), done.history, done.nextToken, s.issued, s.pending);
    }
  }

  lemma TryRecoverFits(s: Controller, native: int)
    requires Ledger(s) && Tokens(s)
    ensures Ledger(TryRecoverPlayback(s, native))
  {
    if CanAdvance(s) {
      var r := s.recovery;
      var found := Find(s.playlist, r.playback.entryId);
      if r.playback.intent != s.sourceIntent {
      } else if found.None? {
        QuietKeeps(s.history, TryRecoverPlayback(s, native).history, s.nextToken, s.issued, s.pending);
      } else if !r.pauseAcknowledged && r.pauseRevision == s.pauseRevision {
        SubmitFits(s, PauseTo(r.playback.paused), native);
      } else {
        SubmitFits(WithReplay(s), ReplayAt(found.value), native);
      }
    }
  }

  lemma TryRestoreFits(s: Controller, native: int)
    requires Ledger(s) && Tokens(s)
    ensures Ledger(TryRestorePosition(s, native))
  {
    var r := s.recovery;
    if r.valid && r.replaying && !r.seekSubmitted && r.fileLoaded && r.replayAcknowledged && r.pauseAcknowledged
       && r.playback.intent == s.sourceIntent {
      if r.seekRevision != s.seekRevision {
        QuietKeeps(s.history, FinishRecovery(s).history, s.nextToken, s.issued, s.pending);
      } else {
        SubmitFits(WithSeek(s), SeekTo(r.playback.position), native);
      }
    }
  }

  // ----- events -----

  lemma SeekIsQuiet(s: Controller, position: real, marker: Marker)
    ensures QuietSince(s.history, BumpSeek(s).history)
    ensures QuietSince(s.history, RememberSeekIntent(BumpSeek(s), position, marker).history)
  {
  }

  lemma CommandIsQuiet(s: Controller, c: Command, marker: Marker)
    ensures QuietSince(s.history, CommandIntent(s, c, marker).history)
  {
    if IsSeek(c.words) {
      var target := SeekTarget(BumpSeek(s), c);
      SeekIsQuiet(s, if target.Some? then target.value else 0.0, marker);
    }
  }

  lemma PropertyIsQuiet(s: Controller, p: PropertySet, marker: Marker)
    ensures QuietSince(s.history, PropertyIntent(s, p, marker).history)
  {
    if p.name == "time-pos" {
      SeekIsQuiet(s, if p.number.Some? && p.number.value.Finite? then p.number.value.value else 0.0, marker);
      assert PropertyIntent(s, p, marker) == TimePosIntent(s, p.number, marker);
    }
  }

  lemma SubmissionFits(s: Controller, h: History, token: nat, sender: Sender, native: int)
    requires Ledger(s) && Tokens(s) && token in s.issued && !sender.ForRecovery?
    requires QuietSince(s.history, h)
    ensures native < 0 ==> LedgerFits(Then(h, Delivered(token, native)), s.nextToken, s.issued - {token}, s.pending)
    ensures LedgerFits(h, s.nextToken, s.issued - {token}, s.pending[token := sender])
  {
    QuietKeeps(s.history, h, s.nextToken, s.issued, s.pending);
    RefusalFits(h, s.nextToken, s.issued, s.pending, token, native);
    AcceptanceFits(h, s.nextToken, s.issued, s.pending, token, sender);
  }

  /** A submission in a state that has only quiet notes since, and the token's
      owner about to hand it over. */
  lemma SubmittingFits(s: Controller, t: Controller, token: nat, sender: Sender, native: int)
    requires Ledger(s) && Tokens(s) && token in s.issued && !sender.ForRecovery?
    requires QuietSince(s.history, t.history)
    requires t.nextToken == s.nextToken && t.issued == s.issued - {token} && t.pending == s.pending
    ensures Ledger(Submission(t, token, sender, native))
  {
    SubmissionFits(s, t.history, token, sender, native);
  }

  lemma CommandFits(s: Controller, token: nat, c: Command, marker: Marker, native: int)
    requires Ledger(s) && Invariant(s) && token in s.issued
    ensures Ledger(SubmitCommand(s, token, c, marker, native))
  {
    var s1 := s.(issued := s.issued - {token});
    if !s.available {
      SubmissionFits(s, s.history, token, ForCommand, UNINITIALIZED);
    } else {
      assert s1.(nextToken := NoteNativeToken(s.nextToken, token)) == s1;
      assert Invariant(s1);
      var told := Log(s1, CommandGiven(c.words));
      PlainNoteKeeps(s1, CommandGiven(c.words));
      CommandIsQuiet(told, c, marker);
      QuietTrans(s.history, told.history, CommandIntent(told, c, marker).history);
      CommandIntentKeeps(told, c, marker);
      SubmittingFits(s, CommandIntent(told, c, marker), token, ForCommand, native);
    }
  }

  lemma PropertyFits(s: Controller, token: nat, p: PropertySet, marker: Marker, native: int)
    requires Ledger(s) && Invariant(s) && token in s.issued
    ensures Ledger(SubmitPropertySet(s, token, p, marker, native))
  {
    var s1 := s.(issued := s.issued - {token});
    if !s.available {
      SubmissionFits(s, s.history, token, ForPropertySet, UNINITIALIZED);
    } else {
      assert s1.(nextToken := NoteNativeToken(s.nextToken, token)) == s1;
      assert Invariant(s1);
      var told := Log(s1, WriteGiven(p.name));
      PlainNoteKeeps(s1, WriteGiven(p.name));
      PropertyIsQuiet(told, p, marker);
      QuietTrans(s.history, told.history, PropertyIntent(told, p, marker).history);
      PropertyIntentKeeps(told, p, marker);
      SubmittingFits(s, PropertyIntent(told, p, marker), token, ForPropertySet, native);
    }
  }

  lemma HandleFits(s: Controller, token: nat, error: int, native: int)
    requires Ledger(s) && Invariant(s) && token in s.pending
    ensures Ledger(HandleReply(s, token, error, native))
  {
    ReplyFits(s.history, s.nextToken, s.issued, s.pending, token, error);
    if token in s.recoveryRequests {
      AnswerKeepsTokens(s, token);
      var s1 := Answer(TakeReply(s, token), token, error);
      assert Ledger(s1) && Tokens(s1);
      AnswerContinues(s1, s.recoveryRequests[token], error, native);
    }
  }

  lemma AnswerContinues(s: Controller, request: RecoveryRequest, error: int, native: int)
    requires Ledger(s) && Tokens(s)
    ensures Ledger(Continue(s, request, error, native))
  {
    var r := s.recovery;
    TryRecoverFits(s, native);
    TryRecoverFits(s.(recovery := r.(pauseAcknowledged := true)), native);
    TryRestoreFits(s.(recovery := r.(replayAcknowledged := true)), native);
    QuietKeeps(s.history, FailRecovery(s, error).history, s.nextToken, s.issued, s.pending);
    QuietKeeps(s.history, FinishRecovery(s).history, s.nextToken, s.issued, s.pending);
  }

  lemma FileLoadedFits(s: Controller, native: int)
    requires Ledger(s) && Tokens(s)
    ensures Ledger(FileLoaded(s, native))
  {
    var told := Log(s, EntryLoaded);
    var s1 := KeepPause(told, s.playback.(loaded := true), PauseCopied(s.observedPause));
    var s2 := if s.recovery.valid && s.recovery.replaying && s.playback.entryId == s.recovery.playback.entryId
              then Log(s1.(recovery := s.recovery.(fileLoaded := true)), Reloaded(s.recovery.revision)) else s1;
    QuietTrans(s.history, s1.history, s2.history);
    QuietKeeps(s.history, s2.history, s.nextToken, s.issued, s.pending);
    TryRestoreFits(s2, native);
  }

  lemma VoLossFits(s: Controller, marker: Marker, native: int)
    requires Ledger(s) && Tokens(s)
    ensures Ledger(VoLossEnds(s, marker, native))
  {
    var s1 := FileTerminated(ClassifyLoss(Log(s, VoLost), marker), VO_INIT_FAILED);
    LossIsQuiet(s, marker);
    QuietKeeps(s.history, s1.history, s.nextToken, s.issued, s.pending);
    if RecoversTerminated(s1) {
      TryRecoverFits(s1.(recovery := s1.recovery.(terminated := true)), native);
    }
  }

  lemma LossIsQuiet(s: Controller, marker: Marker)
    ensures var s1 := FileTerminated(ClassifyLoss(Log(s, VoLost), marker), VO_INIT_FAILED);
      SameTokens(s, s1) && QuietSince(s.history, s1.history)
  {
    var lost := Log(s, VoLost);
    var classified := ClassifyLoss(lost, marker);
    RetiringIsQuiet(lost, RetiringContext(marker, s.playback.intent), s.playback.intent);
    assert SameTokens(s, classified);
    QuietTrans(s.history, lost.history, classified.history);
  }

  lemma {:induction false} QuietTrans(a: History, b: History, c: History)
    requires QuietSince(a, b) && QuietSince(b, c)
    ensures QuietSince(a, c)
  {
    if c != b { QuietTrans(a, b, c.earlier); }
  }

  predicate OnlyQuietNotes(s: Controller, t: Controller) {
    t.issued == s.issued && t.pending == s.pending && t.nextToken == s.nextToken
    && QuietSince(s.history, t.history)
  }

  lemma RetiringIsQuiet(s: Controller, generation: nat, intent: nat)
    ensures OnlyQuietNotes(s, RenderContextRetiring(s, generation, intent))
    ensures SameTokens(s, RenderContextRetiring(s, generation, intent))
  {
  }

  lemma ObservationIsQuiet(s: Controller, o: Observation)
    ensures OnlyQuietNotes(s, CacheProperty(s, o))
  {
  }

  lemma StartIsQuiet(s: Controller, entryId: int, marker: Marker)
    ensures OnlyQuietNotes(s, StartFile(s, entryId, marker))
  {
    var told := Log(s, EntryStarted(entryId, marker));
    QuietTrans(s.history, told.history, StartFile(s, entryId, marker).history);
  }

  lemma QuietFits(s: Controller, t: Controller)
    requires Ledger(s) && OnlyQuietNotes(s, t)
    ensures Ledger(t)
  {
    QuietKeeps(s.history, t.history, s.nextToken, s.issued, s.pending);
  }

  lemma IssueFits(s: Controller)
    requires Ledger(s) && Tokens(s)
    ensures Ledger(IssueToken(s))
  {
    if s.nextToken != 0 { FreshToken(s); }
  }

  lemma EventFits(s: Controller, e: Event)
    requires Ledger(s) && Invariant(s) && Possible(s, e)
    ensures Ledger(After(s, e))
  {
    match e
    case TokenIssued => IssueFits(s);
    case CommandSubmitted(token, command, marker, native) => CommandFits(s, token, command, marker, native);
    case PropertySubmitted(token, property, marker, native) => PropertyFits(s, token, property, marker, native);
    case ReadyNotice(generation, native) => ReadyFits(s, generation, native);
    case ReplyArrived(token, error, native) => HandleFits(s, token, error, native);
    case FileWasLoaded(native) => FileLoadedFits(s, native);
    case FileEnded(reason, marker, native) =>
      if IsVoLoss(reason) { VoLossFits(s, marker, native); }
    case RetiringNotice(generation, intent) =>
      RetiringIsQuiet(s, generation, intent);
      QuietFits(s, RenderContextRetiring(s, generation, intent));
    case PropertyObserved(o) =>
      ObservationIsQuiet(s, o);
      QuietFits(s, CacheProperty(s, o));
    case FileStarted(entryId, marker) =>
      StartIsQuiet(s, entryId, marker);
      QuietFits(s, StartFile(s, entryId, marker));
    case CoreShutDown => QuietFits(s, CoreLost(s));
    case ShutdownRequested => QuietFits(s, Shutdown(s));
  }

  lemma ReadyFits(s: Controller, generation: nat, native: int)
    requires Ledger(s) && Tokens(s)
    ensures Ledger(RenderContextReady(s, generation, native))
  {
    var told := Log(s, RendererReady(generation));
    QuietFits(s, told);
    TryRecoverFits(told.(recovery := s.recovery.(readyRenderer := generation)), native);
  }

  lemma {:induction false} RunFits(s: Controller, events: seq<Event>)
    requires Ledger(s) && Invariant(s) && Run(s, events)
    ensures Ledger(Outcome(s, events))
    decreases |events|
  {
    if events != [] {
      EventFits(s, events[0]);
      StepKeeps(s, events[0]);
      RunFits(After(s, events[0]), events[1..]);
    }
  }

  // ----- what it means over a run -----

  /** Every token given out is waiting with the application, waiting for
      libmpv, or settled; settled ones are settled exactly once. */
  lemma EveryTokenIsSettledOnce(events: seq<Event>, token: nat)
    requires Run(INITIAL, events) && token <= UINT64_MAX
    ensures var s := Outcome(INITIAL, events);
      Settlements(s.history, token)
      == if Below(token, s.nextToken) && token !in s.issued && token !in s.pending then 1 else 0
  {
    InitialHolds();
    RunFits(INITIAL, events);
  }

  /** An answer is taken by the recovery that asked for that very step; a
      delivery goes out only for a token no recovery ever used. */
  lemma RepliesReachTheirSender(events: seq<Event>, past: History, note: Note)
    requires Run(INITIAL, events)
    requires IsPast(Then(past, note), Outcome(INITIAL, events).history)
    ensures note.Answered? ==> AskedBy(past, note.token) == Some(RecoveryRequest(note.revision, note.step))
    ensures note.Delivered? ==> AskedBy(past, note.token) == None
  {
    InitialHolds();
    RunFits(INITIAL, events);
    RoutedInThePast(past, note, Outcome(INITIAL, events).history);
  }

  lemma {:induction false} RoutedInThePast(past: History, note: Note, h: History)
    requires Routed(h) && IsPast(Then(past, note), h)
    ensures RoutedAt(past, note)
  {
    if Then(past, note) != h { RoutedInThePast(past, note, h.earlier); }
  }

  /** A reply that is not the recovery's reaches the application with the error
      libmpv gave it. */
  lemma RepliesArePassedOn(s: Controller, token: nat, error: int, native: int)
    requires token !in s.recoveryRequests
    ensures After(s, ReplyArrived(token, error, native)).history == Then(s.history, Delivered(token, error))
  {
  }

  /** A submission is refused on the spot with libmpv's error, or for want of a
      core, and otherwise waits for libmpv. */
  lemma RefusalsArePassedOn(s: Controller, token: nat, c: Command, marker: Marker, native: int)
    requires token in s.issued
    ensures var t := SubmitCommand(s, token, c, marker, native);
      var error := if s.available then native else UNINITIALIZED;
      if error < 0 then t.history.Then? && t.history.note == Delivered(token, error) && t.pending == s.pending
      else t.pending == s.pending[token := ForCommand]
  {
    var told := Log(s.(issued := s.issued - {token}, nextToken := NoteNativeToken(s.nextToken, token)),
                    CommandGiven(c.words));
    CommandKeepsPending(told, c, marker);
  }

  lemma CommandKeepsPending(s: Controller, c: Command, marker: Marker)
    ensures CommandIntent(s, c, marker).pending == s.pending
  {
    if IsSeek(c.words) { assert !Invalidates(c.words, s.playback.loaded); }
  }
}
