/** What a history of the controller says, read on its own: the state each
    recovery has reached in its protocol, the current source intent, and what
    was recorded since the user last intervened. Nothing here looks at the
    controller's fields. */
module RecoveryHistory {
  import opened Recovery

  /** The protocol of one recovery: Pause? Replay Seek?, with the answers and
      the reload in between. */
  datatype Phase =
    | Unborn
    | Fresh
    | Pausing
    | PauseDone
    | Replaying(acknowledged: bool, loaded: bool)
    | Seeking
    | SeekDone
    | Broken
    | Over
    | Bad

  function Advance(p: Phase, note: Note, revision: nat): Phase {
    match note
    case Opened(r, _, _, _) =>
      if r == revision then (if p.Unborn? then Fresh else Bad)
      else if p.Unborn? || p.Bad? then p else Over
    case IntentAdvanced(_) => if p.Unborn? || p.Bad? then p else Over
    case Closed => if p.Unborn? || p.Bad? then p else Over
    case Submitted(r, _, action, _, accepted) =>
      if r != revision then p
      else
        var next := match action
          case PauseTo(_) => if p.Fresh? then Pausing else Bad
          case ReplayAt(_) => if p.Fresh? || p.PauseDone? then Replaying(false, false) else Bad
          case SeekTo(_) => if p == Replaying(true, true) then Seeking else Bad;
        if next.Bad? || accepted then next else Broken
    case Answered(r, step, _, error) =>
      if r != revision || p.Over? then p
      else if step.Pause? && p.Pausing? then (if error < 0 then Broken else PauseDone)
      else if step.Replay? && p.Replaying? && !p.acknowledged then
        (if error < 0 then Broken else Replaying(true, p.loaded))
      else if step.Seek? && p.Seeking? then (if error < 0 then Broken else SeekDone)
      else Bad
    case Reloaded(r) =>
      if r != revision then p
      else if p.Replaying? then Replaying(p.acknowledged, true)
      else if p.Seeking? then p else Bad
    case Recovered(r, _, _) =>
      if r != revision then p
      else if p == Replaying(true, true) || p.SeekDone? then Over else Bad
    case Failed(r, _) =>
      if r != revision then p
      else if p.Unborn? || p.Over? then Bad else if p.Bad? then Bad else Over
    case _ => p
  }

  function PhaseOf(h: History, revision: nat): Phase {
    match h
    case Start => Unborn
    case Then(earlier, note) => Advance(PhaseOf(earlier, revision), note, revision)
  }

  /** The steps one recovery has sent to libmpv, oldest first. */
  function StepsOf(h: History, revision: nat): seq<Step> {
    match h
    case Start => []
    case Then(earlier, Submitted(r, _, action, _, _)) =>
      if r == revision then StepsOf(earlier, revision) + [StepOf(action)] else StepsOf(earlier, revision)
    case Then(earlier, _) => StepsOf(earlier, revision)
  }

  function RecoveredCount(h: History, revision: nat): nat {
    match h
    case Start => 0
    case Then(earlier, note) =>
      RecoveredCount(earlier, revision) + if note.Recovered? && note.revision == revision then 1 else 0
  }

  function IntentOf(h: History): nat {
    match h
    case Start => 0
    case Then(earlier, note) => if note.IntentAdvanced? then note.intent else IntentOf(earlier)
  }

  /** A file ended for lack of a video output since the source intent last changed. */
  predicate LostSinceIntent(h: History) {
    match h
    case Start => false
    case Then(earlier, note) => note.VoLost? || (!note.IntentAdvanced? && LostSinceIntent(earlier))
  }

  /** The position was observed or asked for after the user's last seek; before
      any seek, zero counts too. */
  predicate KeptSinceSeek(h: History, position: real) {
    match h
    case Start => position == 0.0
    case Then(earlier, note) =>
      note == PositionKept(position) || (note.PositionAsked? && note.position == position)
      || (!note.UserSeek? && KeptSinceSeek(earlier, position))
  }

  /** The pause state was recorded after the user's last own pause change. */
  predicate KeptSincePause(h: History, paused: bool) {
    match h
    case Start => !paused
    case Then(earlier, note) =>
      note == PauseKept(paused) || note == PauseCopied(paused) || (!note.UserPause? && KeptSincePause(earlier, paused))
  }

  /** What must hold of the past for a note to be in order. */
  predicate InOrder(past: History, note: Note) {
    match note
    case IntentAdvanced(intent) => intent == IntentOf(past) + 1
    case Submitted(_, intent, action, _, _) =>
      && intent == IntentOf(past)
      && LostSinceIntent(past)
      && (action.SeekTo? ==> KeptSinceSeek(past, action.position))
      && (action.PauseTo? ==> KeptSincePause(past, action.paused))
    case _ => true
  }

  predicate Orderly(h: History) {
    h.Then? ==> Orderly(h.earlier) && InOrder(h.earlier, h.note)
  }

  /** `past` is `h`, or what `h` was at some earlier time. */
  predicate IsPast(past: History, h: History) {
    past == h || (h.Then? && IsPast(past, h.earlier))
  }

  predicate IsPrefixOfGrammar(steps: seq<Step>) {
    steps <= [Pause, Replay, Seek] || steps <= [Replay, Seek]
  }

  predicate FitsPhase(steps: seq<Step>, p: Phase) {
    match p
    case Unborn => steps == []
    case Fresh => steps == []
    case Pausing => steps == [Pause]
    case PauseDone => steps == [Pause]
    case Replaying(_, _) => steps == [Replay] || steps == [Pause, Replay]
    case _ => IsPrefixOfGrammar(steps)
  }

  /** A recovery that has not misbehaved sent a prefix of Pause? Replay Seek?,
      and announced its success at most once. (`Bad` is never left.) */
  lemma {:induction false} PhaseBoundsSteps(h: History, revision: nat)
    requires !PhaseOf(h, revision).Bad?
    ensures FitsPhase(StepsOf(h, revision), PhaseOf(h, revision))
    ensures RecoveredCount(h, revision) <= if PhaseOf(h, revision).Over? then 1 else 0
  {
    if h.Then? {
      PhaseBoundsSteps(h.earlier, revision);
    }
  }

  /** In an orderly history every note is in order for its own past. */
  lemma {:induction false} OrderlyAt(past: History, note: Note, h: History)
    requires Orderly(h) && IsPast(Then(past, note), h)
    ensures InOrder(past, note)
  {
    if Then(past, note) != h { OrderlyAt(past, note, h.earlier); }
  }

  /** The intent never goes back. */
  lemma {:induction false} IntentGrows(past: History, h: History)
    requires Orderly(h) && IsPast(past, h)
    ensures IntentOf(past) <= IntentOf(h)
  {
    if past != h { IntentGrows(past, h.earlier); }
  }
}
