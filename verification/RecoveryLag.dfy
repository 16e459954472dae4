/** Two runs in which a report of libmpv is older than what the user asked for,
    and the recovery restores what was reported. */
module RecoveryLag {
  import opened Native
  import opened Recovery
  import opened RecoveryInvariant
  import opened RecoveryPause
  import opened RecoveryPosition
  import opened RecoveryProgress

  const ENTRY := NO_PLAYBACK.(entryId := 7)

  const STARTS := [TokenIssued] + ([FileStarted(7, Incoherent)] + [PropertyObserved(PlaylistIs([7]))])

  const LOSS := FileEnded(Error(VO_INIT_FAILED), Marked(3, 0), SUCCESS)

  /** An entry at play, with nothing else under way. */
  function Playing(issued: set<nat>, pending: map<nat, Sender>, p: Playback, pauses: nat, seeks: nat, h: History)
    : Controller
  {
    INITIAL.(nextToken := 2, playlist := [7], playback := p, pauseRevision := pauses, seekRevision := seeks,
             issued := issued, pending := pending, history := h)
  }

  const BEGUN := Then(Then(Then(Start, EntryStarted(7, Incoherent)), PauseCopied(false)), PlaylistReported([7]))

  lemma EntryStarts()
    ensures Run(INITIAL, STARTS) && Outcome(INITIAL, STARTS) == Playing({1}, map[], ENTRY, 0, 0, BEGUN)
  {
    var s1 := After(INITIAL, TokenIssued);
    var s2 := After(s1, FileStarted(7, Incoherent));
    Prepend(s2, PropertyObserved(PlaylistIs([7])), []);
    Prepend(s1, FileStarted(7, Incoherent), [PropertyObserved(PlaylistIs([7]))]);
    Prepend(INITIAL, TokenIssued, [FileStarted(7, Incoherent)] + [PropertyObserved(PlaylistIs([7]))]);
  }

  /** The worker finds the marker and opens a recovery of the entry that ends. */
  lemma LossOpens(s: Controller)
    requires s == Playing({}, s.pending, s.playback, s.pauseRevision, s.seekRevision, s.history)
    requires s.playback == ENTRY.(loaded := true, position := s.playback.position,
                                  pauseRevision := s.playback.pauseRevision, seekRevision := s.playback.seekRevision)
    ensures Run(s, [LOSS])
    ensures Outcome(s, [LOSS]) == s.(
      playback := s.playback.(loaded := false), terminatedPlayback := s.playback, terminationError := VO_INIT_FAILED,
      recoveryRevision := 1,
      recovery := NO_RECOVERY.(playback := s.playback, retiredRenderer := 3, revision := 1,
                               pauseRevision := s.playback.pauseRevision, seekRevision := s.playback.seekRevision,
                               valid := true, terminated := true),
      history := Then(Then(Then(s.history, VoLost), Opened(1, 3, 7, KeptIn(s.history))), EntryEnded(VO_INIT_FAILED)))
  {
    var lost := ClassifyLoss(Log(s, VoLost), Marked(3, 0));
    assert lost.recovery == NO_RECOVERY.(playback := s.playback, retiredRenderer := 3, revision := 1,
                                         pauseRevision := s.playback.pauseRevision,
                                         seekRevision := s.playback.seekRevision, valid := true);
    Prepend(s, LOSS, []);
  }

  // ----- the pause -----

  const PAUSES := [PropertySubmitted(1, PropertySet("pause", None), Incoherent, SUCCESS)] + [FileWasLoaded(SUCCESS)]

  const PAUSED := Then(Then(Then(Then(BEGUN, WriteGiven("pause")), UserPause(1)), EntryLoaded), PauseCopied(false))

  lemma PauseThenLoad()
    ensures var s := Playing({1}, map[], ENTRY, 0, 0, BEGUN);
      && Run(s, PAUSES)
      && Outcome(s, PAUSES)
         == Playing({}, map[1 := ForPropertySet], ENTRY.(loaded := true, pauseRevision := 1), 1, 0, PAUSED)
  {
    var s := Playing({1}, map[], ENTRY, 0, 0, BEGUN);
    var pause := PropertySubmitted(1, PropertySet("pause", None), Incoherent, SUCCESS);
    var paused := After(s, pause);
    assert paused == Playing({}, map[1 := ForPropertySet], ENTRY, 1, 0,
                             Then(Then(BEGUN, WriteGiven("pause")), UserPause(1)));
    Prepend(paused, FileWasLoaded(SUCCESS), []);
    Prepend(s, pause, [FileWasLoaded(SUCCESS)]);
  }

  lemma ReadySendsPause(s: Controller, paused: bool)
    requires s.available && s.recovery == NO_RECOVERY.(playback := s.recovery.playback, retiredRenderer := 3,
      revision := 1, pauseRevision := s.pauseRevision, seekRevision := s.recovery.seekRevision,
      valid := true, terminated := true)
    requires s.recovery.playback.intent == s.sourceIntent == 0 && s.recovery.playback.paused == paused
    requires s.recovery.playback.entryId == 7 && s.playlist == [7] && s.recoveryRequests == map[] && s.nextToken == 2
    ensures Run(s, [ReadyNotice(4, SUCCESS)])
    ensures Outcome(s, [ReadyNotice(4, SUCCESS)]).history
            == Then(Then(s.history, RendererReady(4)), Submitted(1, 0, PauseTo(paused), 2, true))
  {
    assert Find([7], 7) == Some(0);
    Prepend(s, ReadyNotice(4, SUCCESS), []);
  }

  /** The pause state on record is the one libmpv last reported, so a file that
      loads between the user's pause and the report of it puts the old state on
      record: in this run the recovery sends the state from before the pause. */
  lemma ReportedPauseMayLag()
    ensures var events := STARTS + (PAUSES + ([LOSS] + [ReadyNotice(4, SUCCESS)]));
      var h := Outcome(INITIAL, events).history;
      && Run(INITIAL, events)
      && h.Then? && h.note == Submitted(1, 0, PauseTo(false), 2, true)
      && ReportIsDue(h.earlier) && SnapshotOf(h.earlier, 1).Then?
      && SnapshotOf(h.earlier, 1).note == PauseCopied(false) && ReportIsDue(SnapshotOf(h.earlier, 1).earlier)
  {
    var s := Playing({1}, map[], ENTRY, 0, 0, BEGUN);
    EntryStarts();
    PauseThenLoad();
    var loaded := Outcome(s, PAUSES);
    LossOpens(loaded);
    ReadySendsPause(Outcome(loaded, [LOSS]), false);
    RunThenRun(loaded, [LOSS], [ReadyNotice(4, SUCCESS)]);
    RunThenRun(s, PAUSES, [LOSS] + [ReadyNotice(4, SUCCESS)]);
    RunThenRun(INITIAL, STARTS, PAUSES + ([LOSS] + [ReadyNotice(4, SUCCESS)]));
    ReportLags();
  }

  /** The history of that run, up to the pause the recovery sends. */
  lemma ReportLags()
    ensures KeptIn(PAUSED) == PAUSED
    ensures var lost := Then(Then(Then(PAUSED, VoLost), Opened(1, 3, 7, PAUSED)), EntryEnded(VO_INIT_FAILED));
      var past := Then(lost, RendererReady(4));
      && ReportIsDue(past) && SnapshotOf(past, 1) == PAUSED && ReportIsDue(PAUSED.earlier)
  {
    var lost := Then(Then(Then(PAUSED, VoLost), Opened(1, 3, 7, PAUSED)), EntryEnded(VO_INIT_FAILED));
    assert ReportIsDue(PAUSED.earlier.earlier);
    assert ReportIsDue(lost.earlier) && SnapshotOf(lost.earlier, 1) == PAUSED;
  }

  // ----- the seek -----

  const SEEK := Command(["seek", "50", "absolute"], Some(Finite(50.0)))

  const SEEKS := [FileWasLoaded(SUCCESS)]
    + ([CommandSubmitted(1, SEEK, Incoherent, SUCCESS)]
       + ([ReplyArrived(1, SUCCESS, SUCCESS)] + [PropertyObserved(TimePosIs(Finite(10.0)))]))

  const SOUGHT := Then(Then(Then(Then(Then(Then(BEGUN, EntryLoaded), PauseCopied(false)), CommandGiven(SEEK.words)),
    UserSeek(1)), Delivered(1, SUCCESS)), PositionKept(10.0))

  lemma SeekThenReport()
    ensures var s := Playing({1}, map[], ENTRY, 0, 0, BEGUN);
      && Run(s, SEEKS)
      && Outcome(s, SEEKS)
         == Playing({}, map[], ENTRY.(loaded := true, position := 10.0, seekRevision := 1), 0, 1, SOUGHT)
  {
    var s := Playing({1}, map[], ENTRY, 0, 0, BEGUN);
    var s1 := After(s, FileWasLoaded(SUCCESS));
    var loaded := Then(Then(BEGUN, EntryLoaded), PauseCopied(false));
    assert s1 == Playing({1}, map[], ENTRY.(loaded := true), 0, 0, loaded);
    var s2 := SeekArrives(s1);
    var s3 := After(s2, ReplyArrived(1, SUCCESS, SUCCESS));
    assert s2.pending - {1} == map[];
    Prepend(s3, PropertyObserved(TimePosIs(Finite(10.0))), []);
    Prepend(s2, ReplyArrived(1, SUCCESS, SUCCESS), [PropertyObserved(TimePosIs(Finite(10.0)))]);
    Prepend(s1, CommandSubmitted(1, SEEK, Incoherent, SUCCESS),
            [ReplyArrived(1, SUCCESS, SUCCESS)] + [PropertyObserved(TimePosIs(Finite(10.0)))]);
    Prepend(s, FileWasLoaded(SUCCESS),
            [CommandSubmitted(1, SEEK, Incoherent, SUCCESS)]
            + ([ReplyArrived(1, SUCCESS, SUCCESS)] + [PropertyObserved(TimePosIs(Finite(10.0)))]));
  }

  /** The user seeks to 50. */
  lemma SeekArrives(s: Controller) returns (t: Controller)
    requires s == Playing({1}, map[], ENTRY.(loaded := true), 0, 0, s.history)
    ensures t == After(s, CommandSubmitted(1, SEEK, Incoherent, SUCCESS))
    ensures t == Playing({}, map[1 := ForCommand], ENTRY.(loaded := true), 0, 1,
                         Then(Then(s.history, CommandGiven(SEEK.words)), UserSeek(1)))
    ensures SeekTarget(s, SEEK) == Some(50.0)
  {
    t := After(s, CommandSubmitted(1, SEEK, Incoherent, SUCCESS));
    var told := Log(s.(issued := {}), CommandGiven(SEEK.words));
    assert !Invalidates(SEEK.words, true);
    assert CommandIntent(told, SEEK, Incoherent) == BumpSeek(told);
  }

  /** That run, up to the seek the recovery sends. */
  lemma SeekRuns()
    ensures var events := STARTS + (SEEKS + ([LOSS] + Assists(2, 4, 7, Incoherent)));
      var t := Outcome(INITIAL, events);
      Run(INITIAL, events) && Newest(t, Submitted(1, 0, SeekTo(10.0), 4, true)) && !t.seekIntent.valid
  {
    var s := Playing({1}, map[], ENTRY, 0, 0, BEGUN);
    EntryStarts();
    SeekThenReport();
    var sought := Outcome(s, SEEKS);
    LossOpens(sought);
    var lost := Outcome(sought, [LOSS]);
    assert Find([7], 7) == Some(0);
    AsksInOrder(lost, 0, 4, Incoherent);
    RunThenRun(sought, [LOSS], Assists(2, 4, 7, Incoherent));
    RunThenRun(s, SEEKS, [LOSS] + Assists(2, 4, 7, Incoherent));
    RunThenRun(INITIAL, STARTS, SEEKS + ([LOSS] + Assists(2, 4, 7, Incoherent)));
  }

  /** A position libmpv reported counts from when the report arrives. In this run
      the user seeks to 50 before any loss is known, a report of 10 arrives
      after the seek, and the recovery seeks to 10. */
  lemma ReportedPositionMayLag()
    ensures var events := STARTS + (SEEKS + ([LOSS] + Assists(2, 4, 7, Incoherent)));
      var h := Outcome(INITIAL, events).history;
      && Run(INITIAL, events)
      && h.Then? && h.note == Submitted(1, 0, SeekTo(10.0), 4, true) && !AskedFor(h.earlier, 1)
    ensures SeekTarget(Playing({1}, map[], ENTRY.(loaded := true), 0, 0, BEGUN), SEEK) == Some(50.0)
  {
    SeekRuns();
    InitialHolds();
    RunAims(INITIAL, STARTS + (SEEKS + ([LOSS] + Assists(2, 4, 7, Incoherent))));
    var _ := SeekArrives(Playing({1}, map[], ENTRY.(loaded := true), 0, 0, BEGUN));
  }
}
