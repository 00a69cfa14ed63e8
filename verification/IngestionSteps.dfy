/** The ingestion queue as steps over shared state. Every Redis command and every committed row update
    is one step; steps of different jobs interleave freely. A job's own steps follow the code, phase by
    phase. */
module IngestionSteps {
  import opened IngestionJob
  import opened Options
  import opened QueueRecovery

  // ----- State -----

  /** Who called for admission. */
  datatype Origin = AtEnqueue | AtDelivery | AtRetry

  datatype Error = Cancelled | Transient | Permanent

  datatype Outcome = Succeeded | WasCancelled | FailedForGood | FailedOnFull

  /** What a run does between its start and the write of "ready". */
  datatype Work =
    | FirstCollection | FirstDocument | MarkProcessing | Convert
    | SecondCollection | SecondDocument | ReplaceElements | Embed
    | ThirdCollection | ThirdDocument | WriteReady

  datatype Phase =
    | New | KnowsCollection | KnowsEpochs
    | Overfull(origin: Origin)       // counted above the limit; to be taken back
    | Admitted | Unsent | Rejected   // a place but no message; sending raised; never queued
    | Queued | Delivered | Deferred  // with the broker; with a worker; to be sent again without a place
    | Cleared                        // may be pushed to the processing list
    | Running(work: Work)
    | Raised(error: Error) | Cleaned(error: Error) | Buried
    | Marked(outcome: Outcome)       // the row says how the run ended; the place is still held
    | GaveBack | TookAgain | Resent | Refused
    | Leaving(ended: Option<Outcome>)  // only the list entry is left; None: a retry was sent
    | Ended(outcome: Outcome)
    | Crashed(death: Death) | Unlisted(death: Death) | Dropped(death: Death)

  /** What a dead worker leaves in the counter for the job: its place; a count above the limit that
      nobody takes back; nothing; or nothing, because the place went with the retry's message. */
  datatype Death = WithPlace | AboveLimit | WithoutPlace | AfterSending

  /** What a run does that others can see, in order. */
  datatype Effect =
    | SetProcessing | SetReady | SetFailed | SetPending
    | AskVectorDeletion | AddToDeadLetters | GivePlaceBack | TakePlace | SendAgain

  /** `listed` is the record as it was pushed; `taken` and `given` count admissions and releases, as far
      as they are this ticket's; `unbacked` how often recovery queued it again without a place; `strays`
      how often a worker died on it above the limit; `runs` the runs whose finalizer finished; `story` the
      effects of the current run; `family` the job that a retry left behind by a dead worker belongs to. */
  datatype Ticket = Ticket(
    job: Job, phase: Phase, listed: Job, taken: int, given: int, unbacked: nat, strays: nat,
    runs: nat, story: seq<Effect>, readyWrites: nat, family: nat)

  datatype Store = Store(
    counter: int,
    collections: map<string, nat>,
    documents: map<string, nat>,
    processing: multiset<Raw>,
    rows: map<string, Status>)

  datatype State = State(store: Store, tickets: seq<Ticket>)

  // ----- Redis and rows -----

  function Epoch(epochs: map<string, nat>, key: string): nat {
    if key in epochs then epochs[key] else 0
  }

  /** `release_inflight`: a counter below zero is put back to zero. */
  function Released(counter: int): int {
    if counter - 1 < 0 then 0 else counter - 1
  }

  /** `UPDATE ... WHERE id = ...`: the row that is there changes, and no other. */
  function SetRow(rows: map<string, Status>, id: string, status: Status): (r: map<string, Status>)
    ensures r.Keys == rows.Keys
    ensures forall d <- rows :: r[d] == if d == id then status else rows[d]
  {
    if id in rows then rows[id := status] else rows
  }

  predicate Current(s: Store, j: Job) {
    Epoch(s.collections, j.collection) == j.collectionEpoch && Epoch(s.documents, j.documentId) == j.documentEpoch
  }

  // ----- One step of one job -----

  datatype Move =
    | ReadCollectionEpoch | ReadDocumentEpoch
    | Admit | TakeBack             // INCR; DECR after a count above the limit
    | Send | FailToSend | GiveUp
    | Deliver | Defer | Pass
    | Push | Proceed | Raise(error: Error)
    | Clean | Bury | Mark | GiveBack | MarkPendingAgain | Unlist
    | Crash | TakeOff | Requeue

  function NextWork(w: Work): Work {
    match w
    case FirstCollection => FirstDocument
    case FirstDocument => MarkProcessing
    case MarkProcessing => Convert
    case Convert => SecondCollection
    case SecondCollection => SecondDocument
    case SecondDocument => ReplaceElements
    case ReplaceElements => Embed
    case Embed => ThirdCollection
    case ThirdCollection => ThirdDocument
    case ThirdDocument => WriteReady
    case WriteReady => WriteReady
  }

  /** A check compares what it reads with the job; other work is done or raises. */
  predicate Passes(s: Store, j: Job, w: Work) {
    match w
    case FirstCollection => Epoch(s.collections, j.collection) == j.collectionEpoch
    case SecondCollection => Epoch(s.collections, j.collection) == j.collectionEpoch
    case ThirdCollection => Epoch(s.collections, j.collection) == j.collectionEpoch
    case FirstDocument => Epoch(s.documents, j.documentId) == j.documentEpoch
    case SecondDocument => Epoch(s.documents, j.documentId) == j.documentEpoch
    case ThirdDocument => Epoch(s.documents, j.documentId) == j.documentEpoch
    case _ => true
  }

  /** Cancellation is raised by a failed check; conversion and embedding check too. */
  predicate MayRaise(s: Store, t: Ticket, e: Error) {
    t.phase.Running? && (e == Cancelled ==> t.phase.work in {Convert, Embed} && !Current(s, t.job))
  }

  /** The phases in which the job's entry is in the processing list. */
  predicate InList(p: Phase) {
    || p.Running? || p.Raised? || p.Cleaned? || p.Buried? || p.Marked? || p.GaveBack? || p == Overfull(AtRetry)
    || p.TookAgain? || p.Resent? || p.Refused? || p.Leaving? || p.Crashed?
  }

  /** A worker can die whenever its entry is in the list. */
  predicate MayCrash(p: Phase) {
    InList(p) && !p.Crashed?
  }

  function DeathIn(p: Phase): Death {
    match p
    case Overfull(_) => AboveLimit
    case GaveBack => WithoutPlace
    case Refused => WithoutPlace
    case Resent => AfterSending
    case Leaving(ended) => if ended.None? then AfterSending else WithoutPlace
    case _ => WithPlace
  }

  /** The counter still counts the job of a worker that died so. */
  predicate Backed(d: Death) {
    d.WithPlace? || d.AboveLimit?
  }

  predicate Enabled(s: Store, t: Ticket, m: Move) {
    match m
    case ReadCollectionEpoch => t.phase == New
    case ReadDocumentEpoch => t.phase == KnowsCollection
    case Admit => t.phase == KnowsEpochs || (t.phase == Delivered && t.job.released) || t.phase == GaveBack
    case TakeBack => t.phase.Overfull?
    case Send => t.phase in {Admitted, Deferred, TookAgain}
    case FailToSend => t.phase == Admitted
    case GiveUp => t.phase == Unsent
    case Deliver => t.phase == Queued
    case Defer => t.phase == Delivered
    case Pass => t.phase == Delivered && !t.job.released
    case Push => t.phase == Cleared
    case Proceed => t.phase.Running?
    case Raise(e) => MayRaise(s, t, e)
    case Clean => t.phase.Raised?
    case Bury => t.phase == Cleaned(Permanent)
    case Mark => t.phase in {Cleaned(Cancelled), Buried, Refused}
    case GiveBack => t.phase.Marked? || t.phase == Cleaned(Transient)
    case MarkPendingAgain => t.phase == Resent
    case Unlist => t.phase.Leaving?
    case Crash => MayCrash(t.phase)
    case TakeOff => t.phase.Crashed?
    case Requeue => t.phase.Unlisted?
  }

  /** The error a run ends with decides its finalizer; a last attempt that fails is permanent. */
  function Ending(j: Job, e: Error): Error {
    if e == Cancelled then Cancelled
    else if e == Transient && j.attempt < j.maxAttempts then Transient
    else Permanent
  }

  function Tell(t: Ticket, e: Effect, p: Phase): Ticket {
    t.(story := t.story + [e], phase := p)
  }

  function AdmitStep(s: Store, t: Ticket, maxDepth: int): (Store, Ticket) {
    var after := s.(counter := s.counter + 1);
    if s.counter + 1 > maxDepth then
      (after, t.(phase := Overfull(
        if t.phase == KnowsEpochs then AtEnqueue else if t.phase == Delivered then AtDelivery else AtRetry)))
    else if t.phase == KnowsEpochs then (after, t.(taken := t.taken + 1, phase := Admitted))
    else if t.phase == Delivered then (after, t.(taken := t.taken + 1, phase := Cleared, job := t.job.(released := false)))
    else (after, Tell(t.(taken := t.taken + 1), TakePlace, TookAgain))
  }

  function ProceedStep(s: Store, t: Ticket): (Store, Ticket)
    requires t.phase.Running?
  {
    var w := t.phase.work;
    if !Passes(s, t.job, w) then (s, t.(phase := Raised(Cancelled)))
    else if w == MarkProcessing then
      (s.(rows := SetRow(s.rows, t.job.documentId, Processing)), Tell(t, SetProcessing, Running(Convert)))
    else if w == WriteReady then
      var id := t.job.documentId;
      (s.(rows := if id in s.rows && s.rows[id] == Processing then s.rows[id := Ready] else s.rows),
       Tell(t.(readyWrites := t.readyWrites + 1), SetReady, Marked(Succeeded)))
    else (s, t.(phase := Running(NextWork(w))))
  }

  function MarkStep(s: Store, t: Ticket): (Store, Ticket) {
    (s.(rows := SetRow(s.rows, t.job.documentId, Failed)),
     Tell(t, SetFailed,
       if t.phase == Cleaned(Cancelled) then Marked(WasCancelled)
       else if t.phase == Buried then Marked(FailedForGood)
       else Leaving(Some(FailedOnFull))))
  }

  function GiveBackStep(s: Store, t: Ticket): (Store, Ticket) {
    (s.(counter := Released(s.counter)),
     Tell(t.(given := t.given + 1), GivePlaceBack,
       if t.phase.Marked? then Leaving(Some(t.phase.outcome)) else GaveBack))
  }

  /** The entry leaves the list; then the job is over, or its retry becomes visible. */
  function UnlistStep(s: Store, t: Ticket): (Store, Ticket)
    requires t.phase.Leaving?
  {
    (s.(processing := s.processing - multiset{Serialize(t.listed)}),
     t.(runs := t.runs + 1, phase := match t.phase.ended case Some(o) => Ended(o) case None => Queued))
  }

  /** A count above the limit stays where it is; the place of a retry goes with its message. */
  function CrashStep(t: Ticket): Ticket {
    var dead := t.(phase := Crashed(DeathIn(t.phase)));
    match DeathIn(t.phase)
    case AboveLimit => dead.(taken := t.taken + 1, strays := t.strays + 1)
    case AfterSending => dead.(taken := t.taken - 1)
    case _ => dead
  }

  /** The message that a worker had sent when it died: a retry with a place of its own. */
  function LeftBehind(t: Ticket, m: Move): seq<Ticket> {
    if m == Crash && DeathIn(t.phase) == AfterSending
    then [Ticket(t.job, Queued, t.listed, 1, 0, 0, 0, t.runs + 1, [], 0, t.family)]
    else []
  }

  /** Recovery sends the entry again, as it was pushed and without asking for a place, when the document
      still waits for it. */
  function RequeueStep(s: Store, t: Ticket): (Store, Ticket)
    requires t.phase.Unlisted?
  {
    if Open(s.rows, t.listed.documentId) then
      (s.(rows := s.rows[t.listed.documentId := Pending]),
       t.(job := t.listed, phase := Queued, unbacked := t.unbacked + (if Backed(t.phase.death) then 0 else 1)))
    else (s, t.(phase := Dropped(t.phase.death)))
  }

  function Step(s: Store, t: Ticket, m: Move, maxDepth: int): (Store, Ticket)
    requires Enabled(s, t, m)
  {
    match m
    case ReadCollectionEpoch =>
      (s, t.(job := t.job.(collectionEpoch := Epoch(s.collections, t.job.collection)), phase := KnowsCollection))
    case ReadDocumentEpoch =>
      (s, t.(job := t.job.(documentEpoch := Epoch(s.documents, t.job.documentId)), phase := KnowsEpochs))
    case Admit => AdmitStep(s, t, maxDepth)
    case TakeBack =>
      (s.(counter := s.counter - 1),
       t.(phase := match t.phase.origin case AtEnqueue => Rejected case AtDelivery => Deferred case AtRetry => Refused))
    case Send => (s, if t.phase == TookAgain then Tell(t, SendAgain, Resent) else t.(phase := Queued))
    case FailToSend => (s, t.(phase := Unsent))
    case GiveUp => (s.(counter := Released(s.counter)), t.(given := t.given + 1, phase := Rejected))
    case Deliver => (s, t.(phase := Delivered))
    case Defer =>
      if t.job.released then (s, t.(phase := Deferred))
      else (s.(counter := Released(s.counter)),
            t.(given := t.given + 1, job := t.job.(released := true), phase := Deferred))
    case Pass => (s, t.(phase := Cleared))
    case Push =>
      (s.(processing := s.processing + multiset{Serialize(t.job)}),
       t.(listed := t.job, job := t.job.(attempt := t.job.attempt + 1), story := [], phase := Running(FirstCollection)))
    case Proceed => ProceedStep(s, t)
    case Raise(e) => (s, t.(phase := Raised(Ending(t.job, e))))
    case Clean => (s, Tell(t, AskVectorDeletion, Cleaned(t.phase.error)))
    case Bury => (s, Tell(t, AddToDeadLetters, Buried))
    case Mark => MarkStep(s, t)
    case GiveBack => GiveBackStep(s, t)
    case MarkPendingAgain =>
      (s.(rows := SetRow(s.rows, t.job.documentId, Pending)), Tell(t, SetPending, Leaving(None)))
    case Unlist => UnlistStep(s, t)
    case Crash => (s, CrashStep(t))
    case TakeOff =>
      (s.(processing := s.processing - multiset{Serialize(t.listed)}), t.(phase := Unlisted(t.phase.death)))
    case Requeue => RequeueStep(s, t)
  }

  // ----- Runs of the whole system -----

  /** New jobs, cancellations, and whatever else changes document rows come from outside. */
  datatype Event =
    | Create(job: Job)
    | Do(who: nat, move: Move)
    | CancelCollection(collection: string)
    | CancelDocuments(documents: seq<string>)
    | ChangeRows(rows: map<string, Status>)

  function Created(job: Job, family: nat): Ticket {
    Ticket(job, New, job, 0, 0, 0, 0, 0, [], 0, family)
  }

  function Bumped(epochs: map<string, nat>, keys: seq<string>): map<string, nat>
    decreases |keys|
  {
    if keys == [] then epochs
    else Bumped(epochs[keys[0] := Epoch(epochs, keys[0]) + 1], keys[1..])
  }

  /** Each key named goes up by one for every time it is named; all others stay. */
  lemma {:induction false} BumpedCounts(epochs: map<string, nat>, keys: seq<string>, key: string)
    ensures Epoch(Bumped(epochs, keys), key) == Epoch(epochs, key) + multiset(keys)[key]
    decreases |keys|
  {
    if keys != [] {
      assert keys == [keys[0]] + keys[1..];
      BumpedCounts(epochs[keys[0] := Epoch(epochs, keys[0]) + 1], keys[1..], key);
    }
  }

  predicate Allowed(s: State, e: Event) {
    match e
    case Create(job) => job.attempt == 0 && !job.released
    case Do(who, move) => who < |s.tickets| && Enabled(s.store, s.tickets[who], move)
    case _ => true
  }

  function Apply(s: State, e: Event, maxDepth: int): State
    requires Allowed(s, e)
  {
    match e
    case Create(job) => s.(tickets := s.tickets + [Created(job, |s.tickets|)])
    case Do(who, move) =>
      var (store, ticket) := Step(s.store, s.tickets[who], move, maxDepth);
      State(store, s.tickets[who := ticket] + LeftBehind(s.tickets[who], move))
    case CancelCollection(c) => s.(store := s.store.(collections := Bumped(s.store.collections, [c])))
    case CancelDocuments(ds) => s.(store := s.store.(documents := Bumped(s.store.documents, ds)))
    case ChangeRows(rows) => s.(store := s.store.(rows := rows))
  }

  predicate Feasible(s: State, run: seq<Event>, maxDepth: int)
    decreases |run|
  {
    run == [] || (Allowed(s, run[0]) && Feasible(Apply(s, run[0], maxDepth), run[1..], maxDepth))
  }

  function After(s: State, run: seq<Event>, maxDepth: int): State
    requires Feasible(s, run, maxDepth)
    decreases |run|
  {
    if run == [] then s else After(Apply(s, run[0], maxDepth), run[1..], maxDepth)
  }

  function Initial(rows: map<string, Status>): State {
    State(Store(0, map[], map[], multiset{}, rows), [])
  }

  lemma {:induction false} RunAppend(s: State, run: seq<Event>, e: Event, maxDepth: int)
    requires Feasible(s, run, maxDepth) && Allowed(After(s, run, maxDepth), e)
    ensures Feasible(s, run + [e], maxDepth)
    ensures After(s, run + [e], maxDepth) == Apply(After(s, run, maxDepth), e, maxDepth)
    decreases |run|
  {
    hide Apply, Allowed;
    if run == [] {
      assert run + [e] == [e];
      assert [e][1..] == [];
    } else {
      assert (run + [e])[0] == run[0];
      assert (run + [e])[1..] == run[1..] + [e];
      RunAppend(Apply(s, run[0], maxDepth), run[1..], e, maxDepth);
    }
  }
}
