/** The player facade's property intents and deferred actions (mpvplayer.cpp),
    as values: what a state promises and what a finished call may change. */
module Player {
  import opened Native

  /** The properties that have a setter, in the order of their mpv names. */
  datatype Property =
    | AudioDelay | AudioDevice | AudioPitchCorrection | Brightness | Contrast | GlslShaders | Hwdec
    | Interpolation | KeepAspect | LoopFile | LoopPlaylist | Mute | PanScan | Pause | ScreenshotDirectory
    | Speed | SubDelay | SubVisibility | Tscale | VideoPanX | VideoPanY | VideoSync | VideoZoom | Volume | Ytdl

  datatype Value = Text(text: string) | Amount(amount: real)

  /** What goes to the controller; an intent's revision is history that nothing
      reads. */
  datatype Submission =
    | Intent(property: Property, value: Value, revision: nat)
    | Other(name: string, value: Value)
    | Command(words: seq<string>)

  /** What the deferred closures do when they are called again. */
  datatype Retry =
    | LoadAgain(url: string, mode: string)
    | TrackAgain(name: string, id: int)
    | MouseAgain(x: int, y: int)

  /** An entry of the queue: its key, the media revision it captured, its action. */
  datatype Deferred = Deferred(key: string, revision: nat, retry: Retry)

  /** How a submission ends at once: a refusal runs the handlers of
      `operationFailed`, `lastErrorChanged` and `errorOccurred`. */
  datatype Reply = Accepted | Refused(handlers: seq<Call>)

  /** A call on the facade with all that the handlers of its signals do, nested
      to any depth. */
  datatype Call =
    | SetProperty(property: Property, value: Value, changed: seq<Call>, reply: Reply)
    | SetFillMode(mode: string, changed: seq<Call>, aspect: Reply, scan: Reply)
    | SetSource(url: string, changed: seq<Call>, reply: Reply)
    | Load(url: string, mode: string, reply: Reply)
    | SelectTrack(name: string, id: int, first: Reply, second: Reply)
    | MoveMouse(x: int, y: int, first: Reply, second: Reply)
    | Stop(keepPlaylist: bool, reply: Reply)
    | Navigate(forward: bool, reply: Reply)

  /** The values the members start with. */
  const DEFAULTS: map<Property, Value> := map[
    Pause := Text("no"), Speed := Amount(1.0), Mute := Text("no"), ScreenshotDirectory := Text(""),
    Volume := Amount(100.0), LoopFile := Text("no"), LoopPlaylist := Text("no"), AudioDevice := Text("auto"),
    Hwdec := Text("auto"), VideoSync := Text("audio"), Interpolation := Text("no"), Tscale := Text("mitchell"),
    GlslShaders := Text(""), Ytdl := Text("yes"), AudioDelay := Amount(0.0), SubDelay := Amount(0.0),
    VideoZoom := Amount(0.0), VideoPanX := Amount(0.0), VideoPanY := Amount(0.0),
    AudioPitchCorrection := Text("yes"), SubVisibility := Text("yes"), Brightness := Amount(0.0),
    Contrast := Amount(0.0)]

  // ----- the size of a call tree -----

  function Weight(call: Call): nat {
    match call
    case SetProperty(_, _, changed, reply) => 1 + WeightAll(changed) + ReplyWeight(reply)
    case SetFillMode(_, changed, aspect, scan) => 1 + WeightAll(changed) + ReplyWeight(aspect) + ReplyWeight(scan)
    case SetSource(_, changed, reply) => 1 + WeightAll(changed) + ReplyWeight(reply)
    case Load(_, _, reply) => 1 + ReplyWeight(reply)
    case SelectTrack(_, _, first, second) => 1 + ReplyWeight(first) + ReplyWeight(second)
    case MoveMouse(_, _, first, second) => 1 + ReplyWeight(first) + ReplyWeight(second)
    case Stop(_, reply) => 1 + ReplyWeight(reply)
    case Navigate(_, reply) => 1 + ReplyWeight(reply)
  }

  function ReplyWeight(reply: Reply): nat {
    if reply.Refused? then 1 + WeightAll(reply.handlers) else 0
  }

  function WeightAll(calls: seq<Call>): nat {
    if calls == [] then 0 else WeightAll(calls[..|calls| - 1]) + Weight(calls[|calls| - 1])
  }

  lemma {:induction false} PartWeighsLess(calls: seq<Call>, i: nat)
    requires i < |calls|
    ensures Weight(calls[i]) <= WeightAll(calls)
  {
    if i < |calls| - 1 { PartWeighsLess(calls[..|calls| - 1], i); }
  }

  /** The facade's fields; `newest`, `submitted` and `deferrals` are history: the
      value of the latest intent per property, every submission handed to the
      controller, and every deferral since the last cancellation. The controller
      may still refuse a submission; the facade reports that and does not repeat
      it, so a refused one stays in the log like any other. */
  datatype State = State(
    available: bool, initialized: bool, renderError: int,
    source: string, fillMode: string, members: map<Property, Value>,
    revisions: map<Property, nat>, pending: map<Property, Value>, dirty: set<Property>,
    newest: map<Property, Value>, submitted: seq<Submission>,
    mediaRevision: nat, deferred: seq<Deferred>, deferrals: seq<Deferred>)

  predicate Ready(s: State) {
    s.available && s.initialized && s.renderError >= 0
  }

  function RevisionOf(revisions: map<Property, nat>, p: Property): nat {
    if p in revisions then revisions[p] else 0
  }

  function Revision(s: State, p: Property): nat {
    RevisionOf(s.revisions, p)
  }

  /** The last value submitted for a property. */
  function LastSent(log: seq<Submission>, p: Property): Option<Value> {
    if log == [] then None
    else
      var last := log[|log| - 1];
      if last.Intent? && last.property == p then Some(last.value) else LastSent(log[..|log| - 1], p)
  }

  /** The revision of the last intent submitted for a property. */
  function LastRevision(log: seq<Submission>, p: Property): nat {
    if log == [] then 0
    else
      var last := log[|log| - 1];
      if last.Intent? && last.property == p then last.revision else LastRevision(log[..|log| - 1], p)
  }

  /** The intents of a property are submitted in their order, none of them twice. */
  predicate Ascending(log: seq<Submission>, p: Property) {
    log == [] ||
    (var last := log[|log| - 1];
     Ascending(log[..|log| - 1], p)
     && (last.Intent? && last.property == p ==> LastRevision(log[..|log| - 1], p) < last.revision))
  }

  lemma {:induction false} LastIsLargest(log: seq<Submission>, p: Property, i: nat)
    requires Ascending(log, p) && i < |log| && log[i].Intent? && log[i].property == p
    ensures log[i].revision <= LastRevision(log, p)
  {
    if i < |log| - 1 { LastIsLargest(log[..|log| - 1], p, i); }
  }

  lemma {:induction false} NoIntentTwice(log: seq<Submission>, p: Property, i: nat, j: nat)
    requires Ascending(log, p) && i < j < |log|
    requires log[i].Intent? && log[i].property == p && log[j].Intent? && log[j].property == p
    ensures log[i].revision < log[j].revision
  {
    if j < |log| - 1 { NoIntentTwice(log[..|log| - 1], p, i, j); } else { LastIsLargest(log[..|log| - 1], p, i); }
  }

  /** The log has this submission at or after a place. */
  ghost predicate SentSince(log: seq<Submission>, n: nat, submission: Submission) {
    exists i :: n <= i < |log| && log[i] == submission
  }

  // ----- the order of one synchronisation -----

  const PROPERTIES: nat := 25

  /** Fill mode first, pause last, the others in the order of their names. */
  function At(k: nat): Property
    requires k < PROPERTIES
  {
    match k
    case 0 => KeepAspect case 1 => PanScan
    case 2 => AudioDelay case 3 => AudioDevice case 4 => AudioPitchCorrection case 5 => Brightness
    case 6 => Contrast case 7 => GlslShaders case 8 => Hwdec case 9 => Interpolation
    case 10 => LoopFile case 11 => LoopPlaylist case 12 => Mute case 13 => ScreenshotDirectory
    case 14 => Speed case 15 => SubDelay case 16 => SubVisibility case 17 => Tscale
    case 18 => VideoPanX case 19 => VideoPanY case 20 => VideoSync case 21 => VideoZoom
    case 22 => Volume case 23 => Ytdl
    case _ => Pause
  }

  function Position(p: Property): nat {
    match p
    case KeepAspect => 0 case PanScan => 1
    case AudioDelay => 2 case AudioDevice => 3 case AudioPitchCorrection => 4 case Brightness => 5
    case Contrast => 6 case GlslShaders => 7 case Hwdec => 8 case Interpolation => 9
    case LoopFile => 10 case LoopPlaylist => 11 case Mute => 12 case ScreenshotDirectory => 13
    case Speed => 14 case SubDelay => 15 case SubVisibility => 16 case Tscale => 17
    case VideoPanX => 18 case VideoPanY => 19 case VideoSync => 20 case VideoZoom => 21
    case Volume => 22 case Ytdl => 23
    case Pause => 24
  }

  /** Every property has exactly one place in the order; fill mode comes before
      all others and pause after them. */
  lemma OnePlaceEach(p: Property, k: nat)
    ensures Position(p) < PROPERTIES && At(Position(p)) == p
    ensures k < PROPERTIES ==> Position(At(k)) == k
    ensures !p.KeepAspect? && !p.PanScan? ==> Position(KeepAspect) < Position(PanScan) < Position(p) <= Position(Pause)
  {
  }

  /** An empty directory or shader list is not submitted by a synchronisation. */
  predicate Skipped(p: Property, v: Value) {
    (p.ScreenshotDirectory? || p.GlslShaders?) && v == Text("")
  }

  // ----- the deferred queue as a log -----

  predicate KeyRecurs(log: seq<Deferred>, key: string) {
    exists i :: 0 <= i < |log| && log[i].key == key
  }

  /** The log with each keyed entry kept only where its key occurs last, and
      every entry without a key. */
  function Compact(log: seq<Deferred>): seq<Deferred> {
    if log == [] then []
    else if log[0].key != "" && KeyRecurs(log[1..], log[0].key) then Compact(log[1..])
    else [log[0]] + Compact(log[1..])
  }

  /** The queue without its first entry of that key. */
  function Without(queue: seq<Deferred>, key: string): seq<Deferred> {
    if queue == [] then []
    else if queue[0].key == key then queue[1..]
    else [queue[0]] + Without(queue[1..], key)
  }

  function Enqueued(queue: seq<Deferred>, d: Deferred): seq<Deferred> {
    (if d.key != "" then Without(queue, d.key) else queue) + [d]
  }

  lemma {:induction false} CompactIsFromLog(log: seq<Deferred>)
    ensures forall d :: d in Compact(log) ==> d in log
  {
    if log != [] { CompactIsFromLog(log[1..]); }
  }

  lemma CompactKeepsKeys(log: seq<Deferred>, key: string)
    ensures KeyRecurs(Compact(log), key) ==> KeyRecurs(log, key)
  {
    CompactIsFromLog(log);
    if KeyRecurs(Compact(log), key) {
      var i :| 0 <= i < |Compact(log)| && Compact(log)[i].key == key;
      assert Compact(log)[i] in log;
    }
  }

  lemma WithoutPasses(queue: seq<Deferred>, i: nat, key: string)
    requires i < |queue|
    ensures queue[i].key == key ==> Without(queue[i..], key) == queue[i + 1..]
    ensures queue[i].key != key ==>
              queue[..i] + Without(queue[i..], key) == queue[..i + 1] + Without(queue[i + 1..], key)
  {
    assert queue[i..][0] == queue[i] && queue[i..][1..] == queue[i + 1..];
    if queue[i].key != key {
      assert queue[..i] + ([queue[i]] + Without(queue[i + 1..], key)) == queue[..i + 1] + Without(queue[i + 1..], key);
    }
  }

  lemma {:induction false} NothingWithout(queue: seq<Deferred>, key: string)
    requires !KeyRecurs(queue, key)
    ensures Without(queue, key) == queue
  {
    if queue != [] {
      assert queue[0].key != key;
      forall i | 0 <= i < |queue[1..]| ensures queue[1..][i].key != key {
        assert queue[1..][i] == queue[i + 1];
      }
      NothingWithout(queue[1..], key);
    }
  }

  /** The incremental queue is the compaction of the whole log: dropping the
      entry of the same key and appending does what compacting afresh would. */
  lemma {:induction false} QueueIsCompaction(log: seq<Deferred>, d: Deferred)
    ensures Compact(log + [d]) == Enqueued(Compact(log), d)
  {
    if log == [] {
      assert log + [d] == [d];
      assert Compact([d]) == [d] + Compact([d][1..]);
    } else {
      var rest := log[1..];
      assert (log + [d])[0] == log[0] && (log + [d])[1..] == rest + [d];
      QueueIsCompaction(rest, d);
      RecursIn(rest, d, log[0].key);
      if log[0].key != "" && log[0].key == d.key && !KeyRecurs(rest, d.key) {
        CompactKeepsKeys(rest, d.key);
        NothingWithout(Compact(rest), d.key);
      }
      assert log[0].key == d.key
             || Without([log[0]] + Compact(rest), d.key) == [log[0]] + Without(Compact(rest), d.key);
    }
  }

  lemma RecursIn(rest: seq<Deferred>, d: Deferred, key: string)
    ensures KeyRecurs(rest + [d], key) <==> KeyRecurs(rest, key) || d.key == key
  {
    assert (rest + [d])[|rest|] == d;
    if KeyRecurs(rest, key) {
      var i :| 0 <= i < |rest| && rest[i].key == key;
      assert (rest + [d])[i].key == key;
    }
  }

  /** At most one entry of a key waits. */
  lemma {:induction false} KeysWaitOnce(log: seq<Deferred>, i: nat, j: nat)
    requires i < j < |Compact(log)| && Compact(log)[i].key != ""
    ensures Compact(log)[i].key != Compact(log)[j].key
  {
    var rest := log[1..];
    if Compact(log) == Compact(rest) && log[0].key != "" && KeyRecurs(rest, log[0].key) {
      KeysWaitOnce(rest, i, j);
    } else if i > 0 {
      KeysWaitOnce(rest, i - 1, j - 1);
    } else if Compact(log)[j].key == log[0].key {
      assert Compact(rest)[j - 1].key == log[0].key;
      CompactKeepsKeys(rest, log[0].key);
    }
  }

  /** A closure that submits something when it runs. */
  predicate Runnable(retry: Retry) {
    && (retry.LoadAgain? ==> retry.url != "")
    && (retry.TrackAgain? ==> retry.name == "aid" || retry.name == "vid" || retry.name == "sid")
  }

  /** The first submission of a call, with the renderer ready. */
  function FirstOf(retry: Retry): Submission {
    match retry
    case LoadAgain(url, mode) => Command(["loadfile", url, mode])
    case TrackAgain(name, id) => Other(name, if id <= 0 then Text("no") else Amount(id as real))
    case MouseAgain(x, y) => Other("mouse-pos/x", Amount(x as real))
  }

  // ----- what every state and every finished call promise -----

  /** No intent is submitted twice: a pending one still has its submission to come. */
  ghost predicate Thrifty(submitted: seq<Submission>, pending: map<Property, Value>, revisions: map<Property, nat>,
                          p: Property) {
    Ascending(submitted, p) && LastRevision(submitted, p) + Bit(p in pending) <= RevisionOf(revisions, p)
  }

  ghost predicate Good(s: State) {
    && s.dirty == s.pending.Keys
    && (forall p :: Thrifty(s.submitted, s.pending, s.revisions, p))
    && (forall p :: p in s.pending ==> p in s.newest && s.newest[p] == s.pending[p])
    && s.deferred == Compact(s.deferrals)
    && (forall d :: d in s.deferrals ==> d.revision == s.mediaRevision && Runnable(d.retry))
    && (!s.available ==> s.pending == map[] && s.deferrals == [])
  }

  /** The newest intent was handed over, or is pending until the renderer is ready. */
  ghost predicate Settled(s: State, p: Property) {
    p in s.newest
    && if Ready(s) then p !in s.pending && LastSent(s.submitted, p) == Some(s.newest[p])
       else p in s.pending
  }

  /** Nothing about the property changed. */
  ghost predicate Same(a: State, b: State, p: Property) {
    && (p in b.pending <==> p in a.pending)
    && (p in b.newest <==> p in a.newest)
    && (p in a.newest ==> b.newest[p] == a.newest[p])
    && (p in b.members <==> p in a.members)
    && (p in a.members ==> b.members[p] == a.members[p])
    && (p.KeepAspect? ==> b.fillMode == a.fillMode)
    && Unsent(a.submitted, b.submitted, p)
  }

  /** A flush still to come, by the setter of that revision. */
  datatype Debt = Debt(property: Property, revision: nat)

  /** A property has no new intent, and is left alone, or its newest intent is
      settled, or that intent is pending and its own setter will flush it. */
  ghost predicate Kept(a: State, b: State, owed: set<Debt>, p: Property) {
    && Revision(a, p) <= Revision(b, p)
    && (p in a.newest ==> p in b.newest)
    && (Revision(a, p) == Revision(b, p) ==> Same(a, b, p))
    && (a.available && Revision(a, p) < Revision(b, p) ==> Settled(b, p) || Owed(b, p, owed))
    && (!Ready(a) ==> Unsent(a.submitted, b.submitted, p))
  }

  ghost predicate Unsent(log: seq<Submission>, now: seq<Submission>, p: Property) {
    LastSent(now, p) == LastSent(log, p) && LastRevision(now, p) == LastRevision(log, p)
  }

  /** What may have changed while setters that owe a flush are still running.
      The source changed and the queue was cancelled, or the queue only got new
      entries; with the renderer ready, it got none. */
  ghost predicate Owing(a: State, b: State, owed: set<Debt>) {
    && (forall p :: Kept(a, b, owed, p))
    && b.available == a.available && b.initialized == a.initialized && b.renderError == a.renderError
    && a.submitted <= b.submitted
    && a.mediaRevision <= b.mediaRevision
    && (a.mediaRevision == b.mediaRevision ==> a.deferrals <= b.deferrals && a.source == b.source)
    && (Ready(a) ==> b.deferrals == Uncancelled(a, b))
  }

  /** What is left of the deferrals of `a`, when no new ones are made. */
  function Uncancelled(a: State, b: State): seq<Deferred> {
    if a.mediaRevision == b.mediaRevision then a.deferrals else []
  }

  ghost predicate Owed(s: State, p: Property, owed: set<Debt>) {
    Debt(p, Revision(s, p)) in owed && p in s.pending && p in s.newest
  }

  /** What a finished call, with everything its handlers did, may have changed. */
  ghost predicate Follows(a: State, b: State) {
    Owing(a, b, {})
  }

  /** The state with a new intent. */
  function Intended(s: State, p: Property, value: Value): State {
    s.(revisions := s.revisions[p := Revision(s, p) + 1],
       pending := if s.available then s.pending[p := value] else s.pending,
       dirty := if s.available then s.dirty + {p} else s.dirty,
       newest := s.newest[p := value])
  }

  /** The state once the setter of that revision flushed, before any handler of
      a refusal runs. */
  function Flushed(s: State, p: Property, revision: nat): State
    requires p in s.newest
  {
    if Revision(s, p) != revision || !Ready(s) then s
    else s.(pending := s.pending - {p}, dirty := s.dirty - {p},
            submitted := s.submitted + [Intent(p, s.newest[p], revision)])
  }

  /** A submission is handed over only while there is a core. */
  function Handed(s: State, submission: Submission): State {
    if s.available then s.(submitted := s.submitted + [submission]) else s
  }

  lemma ChangesNothing(s: State)
    ensures Follows(s, s)
  {
    forall p ensures Kept(s, s, {}, p) {}
  }

  lemma FollowsIsTransitive(a: State, b: State, c: State, owed: set<Debt>)
    requires Owing(a, b, owed) && Follows(b, c)
    ensures Owing(a, c, owed)
  {
    forall p ensures Kept(a, c, owed, p) {
      assert Kept(a, b, owed, p) && Kept(b, c, {}, p);
    }
  }

  /** What a setter of that revision finds when it comes to flush: a newer
      intent, or its own still pending. */
  ghost predicate Due(s: State, p: Property, revision: nat) {
    p in s.newest && revision <= Revision(s, p) && (Revision(s, p) == revision && s.available ==> p in s.pending)
  }

  lemma StillDue(a: State, b: State, p: Property, revision: nat)
    requires Follows(a, b) && Due(a, p, revision)
    ensures Due(b, p, revision)
  {
    assert Kept(a, b, {}, p);
  }

  lemma DroppingKeepsGood(s: State)
    requires Good(s)
    ensures Good(s.(pending := map[], dirty := {}))
    ensures Good(s.(available := false, pending := map[], dirty := {}, deferred := [], deferrals := []))
  {
    forall p ensures Thrifty(s.submitted, map[], s.revisions, p) {
      assert Thrifty(s.submitted, s.pending, s.revisions, p);
    }
  }

  lemma IntentKeepsGood(s: State, p: Property, value: Value)
    requires Good(s)
    ensures Good(Intended(s, p, value))
  {
    var t := Intended(s, p, value);
    forall q ensures Thrifty(t.submitted, t.pending, t.revisions, q) {
      assert Thrifty(s.submitted, s.pending, s.revisions, q);
    }
  }

  /** A new intent touches no other property. */
  lemma IntentTouchesOne(s: State, p: Property, value: Value, q: Property)
    requires q != p
    ensures Revision(Intended(s, p, value), q) == Revision(s, q) && Same(s, Intended(s, p, value), q)
    ensures Settled(s, q) ==> Settled(Intended(s, p, value), q)
  {
  }

  /** A submission that is no intent leaves every property alone. */
  lemma OtherFollows(s: State, submission: Submission)
    requires !submission.Intent?
    ensures Follows(s, s.(submitted := s.submitted + [submission]))
    ensures Good(s) ==> Good(s.(submitted := s.submitted + [submission]))
  {
    var next := s.(submitted := s.submitted + [submission]);
    forall p
      ensures Kept(s, next, {}, p)
      ensures Thrifty(s.submitted, s.pending, s.revisions, p) ==> Thrifty(next.submitted, s.pending, s.revisions, p)
    {
      assert Unsent(s.submitted, next.submitted, p);
    }
  }

  /** A new intent is due, and so is what was due before. */
  lemma IntentIsDue(s: State, p: Property, value: Value)
    ensures Due(Intended(s, p, value), p, Revision(s, p) + 1)
    ensures forall q, r :: q != p && Due(s, q, r) ==> Due(Intended(s, p, value), q, r)
  {
    forall q, r | q != p && Due(s, q, r) ensures Due(Intended(s, p, value), q, r) {
      IntentTouchesOne(s, p, value, q);
    }
  }

  lemma IntentOwes(a: State, b: State, owed: set<Debt>, p: Property, value: Value)
    requires Owing(a, b, owed)
    ensures Owing(a, Intended(b, p, value), owed + {Debt(p, Revision(b, p) + 1)})
  {
    var c, more := Intended(b, p, value), owed + {Debt(p, Revision(b, p) + 1)};
    forall q ensures Kept(a, c, more, q) {
      assert Kept(a, b, owed, q);
      IntentKept(a, b, owed, p, value, q);
    }
  }

  lemma IntentKept(a: State, b: State, owed: set<Debt>, p: Property, value: Value, q: Property)
    requires Kept(a, b, owed, q) && b.available == a.available
    ensures Kept(a, Intended(b, p, value), owed + {Debt(p, Revision(b, p) + 1)}, q)
  {
    if q != p { IntentTouchesOne(b, p, value, q); }
  }

  lemma FlushPays(a: State, b: State, owed: set<Debt>, p: Property, revision: nat)
    requires Good(b) && Owing(a, b, owed) && Due(b, p, revision) && Revision(a, p) < revision
    ensures Good(Flushed(b, p, revision))
    ensures Owing(a, Flushed(b, p, revision), owed - {Debt(p, revision)})
  {
    var c := Flushed(b, p, revision);
    forall q ensures Kept(a, c, owed - {Debt(p, revision)}, q) && Thrifty(c.submitted, c.pending, c.revisions, q) {
      assert Kept(a, b, owed, q) && Thrifty(b.submitted, b.pending, b.revisions, q);
      if Revision(b, p) == revision && Ready(b) {
        FlushTouchesOne(b, p, q);
        FlushIsThrifty(b, p, q);
        if q == p {
          FlushedKept(a, b, c, owed - {Debt(p, revision)}, p);
        } else {
          KeptIfSame(a, b, c, owed, owed - {Debt(p, revision)}, q);
        }
      }
    }
  }

  /** A flush touches no other property, and settles its own. */
  lemma FlushTouchesOne(b: State, p: Property, q: Property)
    requires p in b.newest && Ready(b)
    ensures var c := Flushed(b, p, Revision(b, p));
      && Revision(c, q) == Revision(b, q)
      && (q != p ==> Same(b, c, q) && (Settled(b, q) ==> Settled(c, q)))
      && Settled(c, p)
  {
    var c := Flushed(b, p, Revision(b, p));
    assert q != p ==> Unsent(b.submitted, c.submitted, q);
  }

  /** What leaves a property alone keeps what held of it. */
  lemma KeptIfSame(a: State, b: State, c: State, owed: set<Debt>, less: set<Debt>, q: Property)
    requires Kept(a, b, owed, q) && Revision(c, q) == Revision(b, q) && Same(b, c, q)
    requires Settled(b, q) ==> Settled(c, q)
    requires Debt(q, Revision(b, q)) in owed ==> Debt(q, Revision(b, q)) in less
    ensures Kept(a, c, less, q)
  {
  }

  lemma FlushedKept(a: State, b: State, c: State, owed: set<Debt>, p: Property)
    requires Ready(a) && Revision(a, p) < Revision(b, p) == Revision(c, p)
    requires (p in a.newest ==> p in c.newest) && Settled(c, p)
    ensures Kept(a, c, owed, p)
  {
  }

  lemma FlushIsThrifty(b: State, p: Property, q: Property)
    requires Thrifty(b.submitted, b.pending, b.revisions, q) && p in b.newest && Ready(b)
    requires q == p ==> p in b.pending
    ensures var c := Flushed(b, p, Revision(b, p)); Thrifty(c.submitted, c.pending, c.revisions, q)
  {
    var c := Flushed(b, p, Revision(b, p));
    assert q != p ==> Unsent(b.submitted, c.submitted, q);
    assert c.submitted[..|c.submitted| - 1] == b.submitted;
  }

  /** Only a newer intent replaces what a property was last set to. */
  ghost predicate Lasting(a: State, b: State, p: Property) {
    && Revision(a, p) <= Revision(b, p)
    && (p in a.newest ==> p in b.newest)
    && (Revision(a, p) == Revision(b, p) ==>
          && (p in a.newest ==> b.newest[p] == a.newest[p])
          && (p in a.members ==> p in b.members && b.members[p] == a.members[p]))
  }

  ghost predicate AllLasting(a: State, b: State) {
    forall p :: Lasting(a, b, p)
  }

  lemma MemberLasts(a: State, b: State, p: Property)
    requires AllLasting(a, b) && Revision(a, p) == Revision(b, p) && p in a.members
    ensures p in b.members && b.members[p] == a.members[p]
  {
    assert Lasting(a, b, p);
  }

  lemma FollowsLasts(a: State, b: State, c: State)
    requires AllLasting(a, b) && Follows(b, c)
    ensures AllLasting(a, c)
  {
    forall p ensures Lasting(a, c, p) {
      assert Lasting(a, b, p) && Kept(b, c, {}, p);
    }
  }

  lemma LastingIsTransitive(a: State, b: State, c: State)
    requires AllLasting(a, b) && AllLasting(b, c)
    ensures AllLasting(a, c)
  {
    forall p ensures Lasting(a, c, p) {
      assert Lasting(a, b, p) && Lasting(b, c, p);
    }
  }

  /** A call set the property to this value, unless something newer did since. */
  ghost predicate Took(a: State, b: State, p: Property, value: Value) {
    && Revision(a, p) < Revision(b, p)
    && (Revision(b, p) == Revision(a, p) + 1 ==> p in b.newest && b.newest[p] == value)
  }

  /** A setter changes its member, registers its intent, and owes the flush. */
  lemma SetterOwes(s: State, p: Property, value: Value)
    requires Good(s)
    ensures var t := Intended(s.(members := s.members[p := value]), p, value);
      Good(t) && Owing(s, t, {Debt(p, Revision(t, p))}) && Due(t, p, Revision(t, p))
  {
    var plain := Intended(s, p, value);
    var t := Intended(s.(members := s.members[p := value]), p, value);
    ChangesNothing(s);
    IntentKeepsGood(s, p, value);
    IntentOwes(s, s, {}, p, value);
    forall q ensures Kept(s, t, {Debt(p, Revision(t, p))}, q) && Thrifty(t.submitted, t.pending, t.revisions, q) {
      assert Kept(s, plain, {} + {Debt(p, Revision(s, p) + 1)}, q);
      assert Thrifty(plain.submitted, plain.pending, plain.revisions, q);
    }
  }

  /** Two intents in a row are both due, and both flushes owed. */
  lemma TwoIntentsOwe(s: State, p: Property, value: Value, q: Property, other: Value)
    requires Good(s) && p != q
    ensures var t := Intended(Intended(s, p, value), q, other);
      Good(t) && Owing(s, t, {Debt(p, Revision(s, p) + 1), Debt(q, Revision(s, q) + 1)})
  {
    IntentKeepsGood(s, p, value);
    IntentKeepsGood(Intended(s, p, value), q, other);
    TwoDebts(s, p, value, q, other);
  }

  lemma TwoDebts(s: State, p: Property, value: Value, q: Property, other: Value)
    requires p != q
    ensures Owing(s, Intended(Intended(s, p, value), q, other),
                  {Debt(p, Revision(s, p) + 1), Debt(q, Revision(s, q) + 1)})
  {
    var first, second := Debt(p, Revision(s, p) + 1), Debt(q, Revision(s, q) + 1);
    OneDebt(s, p, value);
    IntentTouchesOne(s, p, value, q);
    IntentOwes(s, Intended(s, p, value), {first}, q, other);
    assert {first} + {second} == {first, second};
  }

  lemma OneDebt(s: State, p: Property, value: Value)
    ensures Owing(s, Intended(s, p, value), {Debt(p, Revision(s, p) + 1)})
  {
    ChangesNothing(s);
    IntentOwes(s, s, {}, p, value);
    assert {} + {Debt(p, Revision(s, p) + 1)} == {Debt(p, Revision(s, p) + 1)};
  }

  lemma TwoIntentsAreDue(s: State, p: Property, value: Value, q: Property, other: Value)
    requires p != q
    ensures var t := Intended(Intended(s, p, value), q, other);
      Due(t, p, Revision(s, p) + 1) && Due(t, q, Revision(s, q) + 1)
  {
    IntentTouchesOne(s, p, value, q);
    IntentIsDue(s, p, value);
    IntentIsDue(Intended(s, p, value), q, other);
  }

  /** The fill mode registers two intents and owes both flushes. */
  lemma FillModeOwes(s: State, mode: string, aspect: Value, scan: Value)
    requires Good(s)
    ensures var t := Intended(Intended(s.(fillMode := mode), KeepAspect, aspect), PanScan, scan);
      && Good(t) && Due(t, KeepAspect, Revision(s, KeepAspect) + 1) && Due(t, PanScan, Revision(s, PanScan) + 1)
      && Owing(s, t, {Debt(KeepAspect, Revision(s, KeepAspect) + 1), Debt(PanScan, Revision(s, PanScan) + 1)})
  {
    var plain := Intended(Intended(s, KeepAspect, aspect), PanScan, scan);
    TwoIntentsOwe(s, KeepAspect, aspect, PanScan, scan);
    TwoIntentsAreDue(s, KeepAspect, aspect, PanScan, scan);
    FillModeMoves(s, plain, mode,
                  {Debt(KeepAspect, Revision(s, KeepAspect) + 1), Debt(PanScan, Revision(s, PanScan) + 1)});
    assert Intended(Intended(s.(fillMode := mode), KeepAspect, aspect), PanScan, scan) == plain.(fillMode := mode);
  }

  lemma FillModeMoves(a: State, b: State, mode: string, owed: set<Debt>)
    requires Good(b) && Owing(a, b, owed) && Revision(a, KeepAspect) < Revision(b, KeepAspect)
    ensures Good(b.(fillMode := mode)) && Owing(a, b.(fillMode := mode), owed)
  {
    forall p ensures Kept(a, b.(fillMode := mode), owed, p) {
      assert Kept(a, b, owed, p);
    }
  }

  /** With the core, the newest intent was submitted last; the only exception is
      an empty directory or shader list that a synchronisation passed over. */
  ghost predicate Delivered(s: State, p: Property)
    requires p in s.newest
  {
    LastSent(s.submitted, p) == Some(s.newest[p]) || Skipped(p, s.newest[p])
  }

  /** No intent is lost: each is pending or delivered. */
  ghost predicate Accounted(s: State) {
    Good(s) && (s.available ==> forall p :: p in s.newest ==> p in s.pending || Delivered(s, p))
  }

  /** Between calls, and with the renderer ready none is pending. */
  ghost predicate Quiet(s: State) {
    Accounted(s) && (Ready(s) ==> s.pending == map[]) && (s.renderError < 0 ==> !s.initialized)
  }

  /** What a new facade asks for by itself. */
  const INITIAL_INTENTS: map<Property, Value> :=
    map[Hwdec := Text("auto"), Tscale := Text("mitchell"), KeepAspect := Text("yes"), PanScan := Amount(0.0)]

  lemma InitialIntents(s: State)
    requires s.revisions == map[] && s.pending == map[] && s.dirty == {} && s.newest == map[]
    requires s.submitted == [] && s.deferred == [] && s.deferrals == [] && !s.initialized
    ensures var t := Intended(Intended(Intended(Intended(s, Hwdec, Text("auto")), Tscale, Text("mitchell")),
                                       KeepAspect, Text("yes")), PanScan, Amount(0.0));
      Quiet(t) && t.newest == INITIAL_INTENTS && forall p :: Revision(t, p) == if p in INITIAL_INTENTS then 1 else 0
  {
    var a := Intended(s, Hwdec, Text("auto"));
    var b := Intended(a, Tscale, Text("mitchell"));
    var c := Intended(b, KeepAspect, Text("yes"));
    assert Good(s);
    IntentKeepsGood(s, Hwdec, Text("auto"));
    IntentKeepsGood(a, Tscale, Text("mitchell"));
    IntentKeepsGood(b, KeepAspect, Text("yes"));
    IntentKeepsGood(c, PanScan, Amount(0.0));
  }

  lemma CallsKeepAccounts(a: State, b: State)
    requires Accounted(a) && Good(b) && Follows(a, b)
    ensures Accounted(b)
  {
    forall p ensures (b.available && p in b.newest ==> p in b.pending || Delivered(b, p)) {
      assert Kept(a, b, {}, p);
    }
  }

  /** A finished call keeps a quiet facade quiet. */
  lemma CallsStayQuiet(a: State, b: State)
    requires Quiet(a) && Good(b) && Follows(a, b)
    ensures Quiet(b)
  {
    CallsKeepAccounts(a, b);
    forall p ensures Ready(b) ==> p !in b.pending {
      assert Kept(a, b, {}, p);
    }
  }

  // ----- one synchronisation -----

  /** How far a synchronisation of `pending` got with one property after the
      first `k` of the order. */
  ghost predicate Synced(start: State, now: State, pending: map<Property, Value>, k: nat, p: Property) {
    && Revision(start, p) <= Revision(now, p)
    && (Revision(start, p) == Revision(now, p) ==>
          && p !in now.pending
          && (p in now.newest <==> p in start.newest)
          && (p in start.newest ==> now.newest[p] == start.newest[p])
          && LastSent(now.submitted, p)
             == (if p in pending && Position(p) < k && !Skipped(p, pending[p]) then Some(pending[p])
                 else LastSent(start.submitted, p))
          && (p in start.members ==> p in now.members && now.members[p] == start.members[p])
          && LastRevision(now.submitted, p)
             == if p in pending && Position(p) < k && !Skipped(p, pending[p]) then Revision(start, p)
                else LastRevision(start.submitted, p))
    && (Revision(start, p) < Revision(now, p) ==> Settled(now, p))
  }

  ghost predicate SyncedAll(start: State, now: State, pending: map<Property, Value>, k: nat) {
    forall p :: Synced(start, now, pending, k, p)
  }

  /** What a synchronisation submits for a dirty property. */
  function InTurnSent(start: State, pending: map<Property, Value>, p: Property): Submission
    requires p in pending
  {
    Intent(p, pending[p], Revision(start, p))
  }

  /** The properties one synchronisation submits itself, in their order, each
      with its place in the log. */
  ghost predicate InTurn(own: seq<Property>, at: seq<nat>, start: State, log: seq<Submission>,
                         pending: map<Property, Value>, k: nat) {
    && |own| == |at|
    && (forall i, j :: 0 <= i < j < |own| ==> Position(own[i]) < Position(own[j]) && at[i] < at[j])
    && forall i :: 0 <= i < |own| ==>
                     && own[i] in pending && |start.submitted| <= at[i] < |log| && Position(own[i]) < k
                     && log[at[i]] == InTurnSent(start, pending, own[i])
  }

  lemma OneMoreInTurn(own: seq<Property>, at: seq<nat>, start: State, log: seq<Submission>, now: seq<Submission>,
                      pending: map<Property, Value>, k: nat)
    requires InTurn(own, at, start, log, pending, k) && k < PROPERTIES && At(k) in pending
    requires |start.submitted| <= |log| && log + [InTurnSent(start, pending, At(k))] <= now
    ensures InTurn(own + [At(k)], at + [|log|], start, now, pending, k + 1)
  {
    OnePlaceEach(At(k), k);
  }

  /** Every property among the first `k` was submitted, passed over, or overtaken
      by a newer intent. */
  ghost predicate Covered(own: seq<Property>, start: State, now: State, pending: map<Property, Value>, k: nat) {
    forall p :: p in pending && Position(p) < k ==>
                  p in own || Skipped(p, pending[p]) || Revision(start, p) < Revision(now, p)
  }

  // ----- the replay of the deferred actions -----

  /** The state the i-th action that ran began in: the one its predecessor left. */
  function BeganIn(start: State, ends: seq<State>, i: nat): State
    requires i <= |ends|
  {
    if i == 0 then start else ends[i - 1]
  }

  /** An action began while nothing had cancelled it, and submitted. */
  ghost predicate Ran(start: State, d: Deferred, b: State, c: State) {
    && b.mediaRevision == start.mediaRevision == d.revision
    && Follows(b, c) && b.submitted + [FirstOf(d.retry)] <= c.submitted
  }

  /** Nothing happened from `start` to `now` but the actions in `ran`, one after
      the other, each left in the state of `ends`. */
  ghost predicate Replayed(start: State, ran: seq<Deferred>, ends: seq<State>, now: State) {
    && |ends| == |ran| && now == BeganIn(start, ends, |ends|)
    && forall i :: 0 <= i < |ran| ==> Ran(start, ran[i], BeganIn(start, ends, i), ends[i])
  }

  lemma OneMoreRan(start: State, ran: seq<Deferred>, ends: seq<State>, b: State, d: Deferred, c: State)
    requires Replayed(start, ran, ends, b) && Ran(start, d, b, c)
    ensures Replayed(start, ran + [d], ends + [c], c)
  {
    var more, all := ends + [c], ran + [d];
    forall i | 0 <= i < |all| ensures Ran(start, all[i], BeganIn(start, more, i), more[i]) {
      if i < |ends| {
        assert BeganIn(start, more, i) == BeganIn(start, ends, i) && ran[i] == all[i];
        assert Ran(start, ran[i], BeganIn(start, ends, i), ends[i]);
      }
    }
  }

  /** A cancellation silences what comes after it: an action during which the
      media revision changed is the last one, and nothing happens after it. */
  lemma CancellationSilences(start: State, ran: seq<Deferred>, ends: seq<State>, now: State, i: nat)
    requires Replayed(start, ran, ends, now) && i < |ran|
    ensures i < |ran| - 1 ==> ends[i].mediaRevision == start.mediaRevision
    ensures ends[i].mediaRevision != start.mediaRevision ==> i == |ran| - 1 && now == ends[i]
  {
    if i < |ran| - 1 { assert Ran(start, ran[i + 1], BeganIn(start, ends, i + 1), ends[i + 1]); }
  }

  /** A queue, with the media revision it waited under, was replayed from
      `detached` on: all of it unless a cancellation came before or in between. */
  ghost predicate RanQueue(revision: nat, queue: seq<Deferred>, detached: State, ran: seq<Deferred>, ends: seq<State>,
                           now: State) {
    && revision <= detached.mediaRevision <= now.mediaRevision && detached.deferred == []
    && Replayed(detached, ran, ends, now) && ran <= queue
    && (now.mediaRevision == revision ==> ran == queue)
    && (detached.mediaRevision != revision ==> ran == [])
  }

  /** Calls before the replay may cancel the queue, and change it in no other way. */
  lemma QueueRanFrom(a: State, b: State, detached: State, ran: seq<Deferred>, ends: seq<State>, now: State)
    requires Good(a) && Good(b) && a.mediaRevision <= b.mediaRevision && b.deferrals == Uncancelled(a, b)
    requires RanQueue(b.mediaRevision, b.deferred, detached, ran, ends, now)
    ensures RanQueue(a.mediaRevision, a.deferred, detached, ran, ends, now)
  {
  }

  /** A replay in progress: the first `i` of the detached actions ran or found a
      newer media revision. */
  ghost predicate Replaying(start: State, actions: seq<Deferred>, i: nat, ran: seq<Deferred>, ends: seq<State>,
                            now: State) {
    && Good(now) && Follows(start, now) && Replayed(start, ran, ends, now)
    && ran <= actions && |ran| <= i <= |actions|
    && (now.mediaRevision == start.mediaRevision ==> |ran| == i)
  }

  lemma ReplayStarts(start: State, actions: seq<Deferred>)
    requires Good(start)
    ensures Replaying(start, actions, 0, [], [], start)
  {
    ChangesNothing(start);
  }

  lemma ReplaySkips(start: State, actions: seq<Deferred>, i: nat, ran: seq<Deferred>, ends: seq<State>, now: State)
    requires Replaying(start, actions, i, ran, ends, now) && i < |actions|
    requires actions[i].revision == start.mediaRevision != now.mediaRevision
    ensures Replaying(start, actions, i + 1, ran, ends, now)
  {
  }

  lemma ReplayRuns(start: State, actions: seq<Deferred>, i: nat, ran: seq<Deferred>, ends: seq<State>,
                   b: State, c: State)
    requires Replaying(start, actions, i, ran, ends, b) && i < |actions|
    requires actions[i].revision == start.mediaRevision == b.mediaRevision
    requires Good(c) && Follows(b, c) && b.submitted + [FirstOf(actions[i].retry)] <= c.submitted
    ensures Replaying(start, actions, i + 1, ran + [actions[i]], ends + [c], c)
  {
    FollowsIsTransitive(start, b, c, {});
    OneMoreRan(start, ran, ends, b, actions[i], c);
    OneMoreOf(actions, ran);
  }

  lemma OneMoreOf<T>(all: seq<T>, some: seq<T>)
    requires some <= all && |some| < |all|
    ensures some + [all[|some|]] <= all
  {
  }

  /** One synchronisation, after the first `k` properties of the order. */
  ghost predicate SyncProgress(own: seq<Property>, at: seq<nat>, start: State, now: State,
                               pending: map<Property, Value>, k: nat) {
    && Good(now) && Ready(now) && start.submitted <= now.submitted
    && (forall p :: p in pending ==> LastRevision(start.submitted, p) < Revision(start, p))
    && SyncedAll(start, now, pending, k)
    && InTurn(own, at, start, now.submitted, pending, k)
    && start.mediaRevision <= now.mediaRevision && now.deferrals == Uncancelled(start, now)
    && Covered(own, start, now, pending, k)
  }

  lemma SyncStarts(before: State)
    requires Good(before) && Ready(before)
    ensures var start := before.(pending := map[], dirty := {});
            SyncProgress([], [], start, start, before.pending, 0)
  {
    var start := before.(pending := map[], dirty := {});
    forall p
      ensures Thrifty(start.submitted, start.pending, start.revisions, p)
      ensures p in before.pending ==> LastRevision(start.submitted, p) < Revision(start, p)
    {
      assert Thrifty(before.submitted, before.pending, before.revisions, p);
    }
  }

  /** The submission in turn is the first of its intent. */
  lemma TurnIsThrifty(own: seq<Property>, at: seq<nat>, start: State, b: State, pending: map<Property, Value>, k: nat)
    requires k < PROPERTIES && SyncProgress(own, at, start, b, pending, k) && At(k) in pending
    requires Revision(start, At(k)) == Revision(b, At(k))
    ensures Good(b.(submitted := b.submitted + [InTurnSent(start, pending, At(k))]))
  {
    var sent := b.(submitted := b.submitted + [InTurnSent(start, pending, At(k))]);
    OnePlaceEach(At(k), k);
    assert Synced(start, b, pending, k, At(k));
    forall p ensures Thrifty(sent.submitted, sent.pending, sent.revisions, p) {
      assert Thrifty(b.submitted, b.pending, b.revisions, p);
      assert p != At(k) ==> Unsent(b.submitted, sent.submitted, p);
      assert sent.submitted[..|sent.submitted| - 1] == b.submitted;
    }
  }

  lemma SkipInTurn(own: seq<Property>, at: seq<nat>, start: State, b: State, pending: map<Property, Value>, k: nat)
    requires k < PROPERTIES && SyncProgress(own, at, start, b, pending, k)
    requires At(k) !in pending || Skipped(At(k), pending[At(k)]) || Revision(start, At(k)) != Revision(b, At(k))
    ensures SyncProgress(own, at, start, b, pending, k + 1)
  {
    assert Synced(start, b, pending, k, At(k));
    PassedOver(start, b, pending, k);
    StillCovered(own, start, b, pending, k);
  }

  lemma SubmitInTurn(own: seq<Property>, at: seq<nat>, start: State, b: State, c: State,
                     pending: map<Property, Value>, k: nat)
    requires k < PROPERTIES && SyncProgress(own, at, start, b, pending, k) && start.available
    requires At(k) in pending && !Skipped(At(k), pending[At(k)]) && Revision(start, At(k)) == Revision(b, At(k))
    requires Good(c) && Follows(b.(submitted := b.submitted + [InTurnSent(start, pending, At(k))]), c)
    ensures SyncProgress(own + [At(k)], at + [|b.submitted|], start, c, pending, k + 1)
  {
    SubmittedInTurn(start, b, c, pending, k);
    OneMoreInTurn(own, at, start, b.submitted, c.submitted, pending, k);
    OneMoreCovered(own, start, b, c, pending, k);
  }

  lemma StillCovered(own: seq<Property>, start: State, b: State, pending: map<Property, Value>, k: nat)
    requires k < PROPERTIES && Covered(own, start, b, pending, k)
    requires At(k) !in pending || Skipped(At(k), pending[At(k)]) || Revision(start, At(k)) < Revision(b, At(k))
    ensures Covered(own, start, b, pending, k + 1)
  {
    forall p | p in pending && Position(p) < k + 1
      ensures p in own || Skipped(p, pending[p]) || Revision(start, p) < Revision(b, p)
    {
      OnePlaceEach(p, k);
    }
  }

  lemma OneMoreCovered(own: seq<Property>, start: State, b: State, c: State, pending: map<Property, Value>, k: nat)
    requires k < PROPERTIES && Covered(own, start, b, pending, k)
    requires At(k) in pending && Follows(b.(submitted := b.submitted + [InTurnSent(start, pending, At(k))]), c)
    ensures Covered(own + [At(k)], start, c, pending, k + 1)
  {
    var sent := b.(submitted := b.submitted + [InTurnSent(start, pending, At(k))]);
    forall p | p in pending && Position(p) < k + 1
      ensures p in own + [At(k)] || Skipped(p, pending[p]) || Revision(start, p) < Revision(c, p)
    {
      OnePlaceEach(p, k);
      assert Kept(sent, c, {}, p);
    }
  }

  lemma CoverageStays(own: seq<Property>, start: State, b: State, c: State, pending: map<Property, Value>)
    requires Covered(own, start, b, pending, PROPERTIES)
    requires Follows(b.(deferred := [], deferrals := []), c)
    ensures Covered(own, start, c, pending, PROPERTIES)
  {
    forall p | p in pending ensures Revision(b, p) <= Revision(c, p) {
      assert Kept(b.(deferred := [], deferrals := []), c, {}, p);
    }
  }

  lemma SubmittedInTurn(start: State, b: State, c: State, pending: map<Property, Value>, k: nat)
    requires k < PROPERTIES && At(k) in pending && !Skipped(At(k), pending[At(k)])
    requires Ready(b) && start.available
    requires SyncedAll(start, b, pending, k)
    requires Revision(start, At(k)) == Revision(b, At(k))
    requires Follows(b.(submitted := b.submitted + [InTurnSent(start, pending, At(k))]), c)
    ensures SyncedAll(start, c, pending, k + 1)
  {
    var mine := At(k);
    var sent := b.(submitted := b.submitted + [InTurnSent(start, pending, mine)]);
    var next := k + 1;
    forall p ensures Synced(start, c, pending, next, p) {
      OnePlaceEach(p, k);
      assert Synced(start, b, pending, k, p);
      assert Kept(sent, c, {}, p);
      assert LastSent(sent.submitted, p) == if p == mine then Some(pending[mine]) else LastSent(b.submitted, p);
      assert LastRevision(sent.submitted, p)
             == if p == mine then Revision(start, mine) else LastRevision(b.submitted, p);
    }
  }

  lemma PassedOver(start: State, b: State, pending: map<Property, Value>, k: nat)
    requires k < PROPERTIES && SyncedAll(start, b, pending, k)
    requires At(k) !in pending || Skipped(At(k), pending[At(k)]) || Revision(start, At(k)) < Revision(b, At(k))
    ensures SyncedAll(start, b, pending, k + 1)
  {
    var next := k + 1;
    forall p ensures Synced(start, b, pending, next, p) {
      OnePlaceEach(p, k);
      assert Synced(start, b, pending, k, p);
    }
  }

  /** What was last handed over once a synchronisation is over: the pending
      value, or, for an empty directory or shader list, still the old one. */
  function SentBySync(s: State, p: Property): Option<Value> {
    if p in s.pending && !Skipped(p, s.pending[p]) then Some(s.pending[p]) else LastSent(s.submitted, p)
  }

  ghost predicate SyncLeaves(before: State, now: State) {
    forall p :: Revision(before, p) == Revision(now, p) ==> LastSent(now.submitted, p) == SentBySync(before, p)
  }

  /** For a property without a newer intent, the newest value was handed over last
      exactly when the synchronisation did not pass it over, or it had been before. */
  ghost predicate DeliveredExactly(before: State, now: State, p: Property) {
    p in before.pending && Revision(before, p) == Revision(now, p) ==>
      && p in now.newest && p in before.newest
      && (LastSent(now.submitted, p) == Some(now.newest[p]) <==>
          !((p.ScreenshotDirectory? || p.GlslShaders?) && before.newest[p] == Text(""))
          || LastSent(before.submitted, p) == Some(before.newest[p]))
  }

  lemma DeliveredExactlyWhen(before: State, now: State, p: Property)
    requires Good(before) && SyncLeaves(before, now) && AllLasting(before, now)
    ensures DeliveredExactly(before, now, p)
  {
    assert Lasting(before, now, p);
    if p in before.pending { assert before.newest[p] == before.pending[p]; }
  }

  /** What a signal before the synchronisation does, does not change what the
      synchronisation leaves of a property without a newer intent. */
  lemma SyncLeavesAfter(a: State, b: State, c: State)
    requires Good(a) && Good(b) && Follows(a, b) && SyncLeaves(b, c) && AllLasting(b, c)
    ensures SyncLeaves(a, c)
  {
    forall p | Revision(a, p) == Revision(c, p) ensures LastSent(c.submitted, p) == SentBySync(a, p) {
      assert Kept(a, b, {}, p) && Lasting(b, c, p);
    }
  }

  /** Nor does the replay after it. */
  lemma SyncLeavesBefore(a: State, b: State, c: State)
    requires SyncLeaves(a, b) && AllLasting(a, b) && Follows(b.(deferred := [], deferrals := []), c)
    ensures SyncLeaves(a, c) && AllLasting(a, c)
  {
    forall p
      ensures Lasting(a, c, p)
      ensures Revision(a, p) == Revision(c, p) ==> LastSent(c.submitted, p) == SentBySync(a, p)
    {
      assert Lasting(a, b, p) && Kept(b.(deferred := [], deferrals := []), c, {}, p);
    }
  }

  /** All of one synchronisation: `b` is the state after the dirty properties, `c`
      the one after the replay. */
  ghost predicate Synchronised(a: State, c: State, own: seq<Property>, detached: State, ran: seq<Deferred>,
                               ends: seq<State>) {
    && Quiet(c) && SyncLeaves(a, c) && AllLasting(a, c)
    && Covered(own, a, c, a.pending, PROPERTIES)
    && RanQueue(a.mediaRevision, a.deferred, detached, ran, ends, c)
  }

  lemma ReplayStaysQuiet(b: State, c: State)
    requires Accounted(b) && Ready(b) && b.pending == map[] && Good(c)
    requires Follows(b.(deferred := [], deferrals := []), c)
    ensures Quiet(c)
  {
    var detached := b.(deferred := [], deferrals := []);
    assert Good(detached) by { CompactIsFromLog([]); }
    assert Quiet(detached);
    CallsStayQuiet(detached, c);
  }

  lemma SyncEnds(a: State, b: State, c: State, own: seq<Property>, ran: seq<Deferred>, ends: seq<State>)
    requires Good(a) && Accounted(b) && Ready(b) && b.pending == map[] && Good(c)
    requires a.mediaRevision <= b.mediaRevision && b.deferrals == Uncancelled(a, b)
    requires SyncLeaves(a, b) && AllLasting(a, b) && Covered(own, a, b, a.pending, PROPERTIES)
    requires var detached := b.(deferred := [], deferrals := []);
             Follows(detached, c) && RanQueue(b.mediaRevision, b.deferred, detached, ran, ends, c)
    ensures Synchronised(a, c, own, b.(deferred := [], deferrals := []), ran, ends)
  {
    var detached := b.(deferred := [], deferrals := []);
    ReplayStaysQuiet(b, c);
    CoverageStays(own, a, b, c, a.pending);
    SyncLeavesBefore(a, b, c);
    QueueRanFrom(a, b, detached, ran, ends, c);
  }

  /** Without a newer intent, nothing was submitted for a property. */
  ghost predicate LogsKept(a: State, b: State) {
    forall p :: Revision(a, p) == Revision(b, p) ==> LastSent(b.submitted, p) == LastSent(a.submitted, p)
  }

  /** A status and its signal submit nothing that is not a newer intent. */
  lemma StatusKeepsLogs(a: State, changed: State, b: State)
    requires changed == a.(renderError := changed.renderError, initialized := changed.initialized)
    requires Follows(changed, b)
    ensures LogsKept(a, b) && AllLasting(a, b)
  {
    forall p
      ensures Lasting(a, b, p)
      ensures Revision(a, p) == Revision(b, p) ==> LastSent(b.submitted, p) == LastSent(a.submitted, p)
    {
      assert Kept(changed, b, {}, p);
    }
  }

  lemma LogsKeptTogether(a: State, b: State, c: State)
    requires LogsKept(a, b) && AllLasting(a, b) && LogsKept(b, c) && AllLasting(b, c)
    ensures LogsKept(a, c) && AllLasting(a, c)
  {
    forall p ensures Lasting(a, c, p) && (Revision(a, p) == Revision(c, p) ==>
                       LastSent(c.submitted, p) == LastSent(a.submitted, p)) {
      assert Lasting(a, b, p) && Lasting(b, c, p);
    }
  }

  lemma ReadyLeaves(a: State, changed: State, b: State, c: State)
    requires Good(a) && Good(b)
    requires changed == a.(renderError := changed.renderError, initialized := changed.initialized)
    requires Follows(changed, b) && SyncLeaves(b, c) && AllLasting(b, c)
    ensures SyncLeaves(a, c) && AllLasting(a, c) && forall p :: DeliveredExactly(a, c, p)
  {
    SyncLeavesAfter(changed, b, c);
    StatusKeepsLogs(a, changed, b);
    LastingIsTransitive(a, b, c);
    forall p ensures Revision(a, p) == Revision(c, p) ==> LastSent(c.submitted, p) == SentBySync(a, p) {
      assert SentBySync(changed, p) == SentBySync(a, p);
    }
    forall p { DeliveredExactlyWhen(a, c, p); }
  }

  /** After the whole order, every intent is delivered and none pending. */
  lemma SyncDelivers(before: State, now: State)
    requires Ready(before) && Ready(now) && Accounted(before) && Good(now)
    requires SyncedAll(before.(pending := map[], dirty := {}), now, before.pending, PROPERTIES)
    ensures Accounted(now) && now.pending == map[]
    ensures SyncLeaves(before, now) && AllLasting(before, now)
  {
    forall p
      ensures p !in now.pending && (p in now.newest ==> Delivered(now, p)) && Lasting(before, now, p)
      ensures Revision(before, p) == Revision(now, p) ==> LastSent(now.submitted, p) == SentBySync(before, p)
    {
      OnePlaceEach(p, 0);
      assert Synced(before.(pending := map[], dirty := {}), now, before.pending, PROPERTIES, p);
    }
  }
}
