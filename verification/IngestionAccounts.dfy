/** What every step keeps: the admission counter, the processing list, attempts and flags. */
module IngestionAccounts {
  import opened IngestionJob
  import opened Options
  import opened QueueRecovery
  import opened IngestionSteps

  // ----- One job -----

  /** The phases in which a job goes on as the holder of a place. A job dropped by recovery keeps its
      place for good, if its worker died with one. */
  predicate HoldsPlace(t: Ticket) {
    match t.phase
    case Admitted => true
    case Unsent => true
    case Queued => !t.job.released
    case Delivered => !t.job.released
    case Cleared => true
    case Running(_) => true
    case Raised(_) => true
    case Cleaned(_) => true
    case Buried => true
    case Marked(_) => true
    case TookAgain => true
    case Resent => true
    case Leaving(ended) => ended.None?
    case Crashed(death) => Backed(death)
    case Unlisted(death) => Backed(death)
    case Dropped(death) => Backed(death)
    case _ => false
  }

  /** The phases on the way to a retry, or to finding the queue full for one. */
  predicate Retrying(p: Phase) {
    match p
    case Raised(e) => e == Transient
    case Cleaned(e) => e == Transient
    case GaveBack => true
    case Overfull(origin) => origin == AtRetry
    case TookAgain => true
    case Resent => true
    case Refused => true
    case Leaving(ended) => ended.None? || ended.value == FailedOnFull
    case _ => false
  }

  function Claim(t: Ticket): int {
    if HoldsPlace(t) then 1 else 0
  }

  /** Admissions (and unbacked returns to the queue) alternate with releases, and the flag of a job with
      the broker says which came last. */
  predicate PlaceKept(t: Ticket) {
    && t.taken + t.unbacked == t.given + Claim(t)
    && (t.phase in {Deferred, Overfull(AtDelivery)} ==> t.job.released)
    && (t.job.released ==> t.phase in {Queued, Delivered, Deferred, Overfull(AtDelivery)})
  }

  /** The attempt counts finished runs, plus the one going on; the list holds the record as it was
      before that one. */
  predicate AttemptKept(t: Ticket) {
    if MidRun(t.phase) then
      t.listed.attempt == t.runs && t.job == t.listed.(attempt := t.runs + 1)
    else
      t.job.attempt == t.runs
  }

  predicate NeverSent(p: Phase) {
    p.New? || p.KnowsCollection? || p.KnowsEpochs? || p == Overfull(AtEnqueue) || p.Admitted? || p.Unsent? || p.Rejected?
  }

  /** A job that is not over has runs left, or has not finished one. */
  predicate RunsLeft(t: Ticket) {
    && t.phase != Marked(FailedOnFull)
    && (if t.phase.Ended? then 1 <= t.runs && (t.runs == 1 || t.runs <= t.job.maxAttempts)
        else t.runs == 0 || t.runs < t.job.maxAttempts)
    && (Retrying(t.phase) ==> t.runs + 1 < t.job.maxAttempts)
    && (t.phase == Ended(FailedOnFull) ==> t.runs < t.job.maxAttempts)
    && (NeverSent(t.phase) ==> t.runs == 0 && t.unbacked == 0)
  }

  predicate Kept(t: Ticket) {
    PlaceKept(t) && AttemptKept(t) && RunsLeft(t)
  }

  lemma StepKeepsPlace(s: Store, t: Ticket, m: Move, maxDepth: int)
    requires Enabled(s, t, m) && PlaceKept(t)
    requires InList(t.phase) || t.phase.Unlisted? ==> !t.listed.released
    ensures PlaceKept(Step(s, t, m, maxDepth).1)
  {
    hide Serialize, Open, Passes, Current;
  }

  /** The phases in which a run has begun and is not finished. */
  predicate MidRun(p: Phase) {
    InList(p) || p.Unlisted? || p.Dropped?
  }

  predicate MovesTheJob(m: Move) {
    || m.ReadCollectionEpoch? || m.ReadDocumentEpoch? || m.Admit? || m.Defer?
    || m.Push? || m.Unlist? || m.Requeue?
  }

  lemma StepKeepsAttempt(s: Store, t: Ticket, m: Move, maxDepth: int)
    requires Enabled(s, t, m) && AttemptKept(t)
    ensures AttemptKept(Step(s, t, m, maxDepth).1)
  {
    if m.Push? || m.Unlist? || m.Requeue? {
      RunBoundsKeepAttempt(s, t, m, maxDepth);
    } else if m.Admit? {
      AdmissionKeepsAttempt(s, t, maxDepth);
    } else if MovesTheJob(m) {
      JobMovesKeepAttempt(s, t, m, maxDepth);
    } else {
      OtherStepsKeepTheJob(s, t, m, maxDepth);
      hide Step, InList, Enabled;
    }
  }

  lemma RunBoundsKeepAttempt(s: Store, t: Ticket, m: Move, maxDepth: int)
    requires Enabled(s, t, m) && AttemptKept(t) && (m.Push? || m.Unlist? || m.Requeue?)
    ensures AttemptKept(Step(s, t, m, maxDepth).1)
  {
    hide Serialize, Open, Passes, Current, AdmitStep, ProceedStep, MarkStep, GiveBackStep, CrashStep;
  }

  lemma AdmissionKeepsAttempt(s: Store, t: Ticket, maxDepth: int)
    requires Enabled(s, t, Admit) && AttemptKept(t)
    ensures AttemptKept(Step(s, t, Admit, maxDepth).1)
  {
    hide Serialize, Open, Passes, Current, ProceedStep, MarkStep, GiveBackStep, UnlistStep, RequeueStep, CrashStep;
  }

  lemma JobMovesKeepAttempt(s: Store, t: Ticket, m: Move, maxDepth: int)
    requires Enabled(s, t, m) && AttemptKept(t)
    requires m.ReadCollectionEpoch? || m.ReadDocumentEpoch? || m.Defer?
    ensures AttemptKept(Step(s, t, m, maxDepth).1)
  {
    hide Serialize, Open, Passes, Current, AdmitStep, ProceedStep, MarkStep, GiveBackStep, UnlistStep, RequeueStep, CrashStep;
  }

  lemma OtherStepsKeepTheJob(s: Store, t: Ticket, m: Move, maxDepth: int)
    requires Enabled(s, t, m) && !MovesTheJob(m)
    ensures var t1 := Step(s, t, m, maxDepth).1;
            t1.job == t.job && t1.listed == t.listed && t1.runs == t.runs && MidRun(t1.phase) == MidRun(t.phase)
  {
    hide Serialize, Open, Passes, Current, AdmitStep, UnlistStep, RequeueStep;
  }

  lemma StepKeepsRunsLeft(s: Store, t: Ticket, m: Move, maxDepth: int)
    requires Enabled(s, t, m) && AttemptKept(t) && RunsLeft(t)
    ensures RunsLeft(Step(s, t, m, maxDepth).1)
  {
    if MovesTheJob(m) {
      JobMovesKeepRunsLeft(s, t, m, maxDepth);
    } else if m.Proceed? || m.Raise? {
      WorkKeepsRunsLeft(s, t, m, maxDepth);
    } else {
      OtherStepsKeepRunsLeft(s, t, m, maxDepth);
    }
  }

  lemma WorkKeepsRunsLeft(s: Store, t: Ticket, m: Move, maxDepth: int)
    requires Enabled(s, t, m) && AttemptKept(t) && RunsLeft(t) && (m.Proceed? || m.Raise?)
    ensures RunsLeft(Step(s, t, m, maxDepth).1)
  {
    assert t.phase.Running? ==> t.job.attempt == t.runs + 1;
    hide Serialize, Open, Passes, Current, AttemptKept, InList, AdmitStep, MarkStep, GiveBackStep, UnlistStep, RequeueStep, CrashStep;
  }

  lemma OtherStepsKeepRunsLeft(s: Store, t: Ticket, m: Move, maxDepth: int)
    requires Enabled(s, t, m) && RunsLeft(t) && !MovesTheJob(m) && !m.Proceed? && !m.Raise?
    ensures RunsLeft(Step(s, t, m, maxDepth).1)
  {
    hide Serialize, Open, Passes, Current, AdmitStep, ProceedStep, UnlistStep, RequeueStep;
  }

  lemma JobMovesKeepRunsLeft(s: Store, t: Ticket, m: Move, maxDepth: int)
    requires Enabled(s, t, m) && AttemptKept(t) && RunsLeft(t) && MovesTheJob(m)
    ensures RunsLeft(Step(s, t, m, maxDepth).1)
  {
    assert t.phase.Unlisted? ==> t.listed.maxAttempts == t.job.maxAttempts;
    hide Serialize, Open, Passes, Current, AttemptKept, InList, ProceedStep, MarkStep, GiveBackStep, CrashStep;
  }

  lemma StepKeeps(s: Store, t: Ticket, m: Move, maxDepth: int)
    requires Enabled(s, t, m) && Kept(t)
    ensures Kept(Step(s, t, m, maxDepth).1)
  {
    StepKeepsPlace(s, t, m, maxDepth);
    StepKeepsAttempt(s, t, m, maxDepth);
    StepKeepsRunsLeft(s, t, m, maxDepth);
  }

  // ----- The counter and the list -----

  /** What the counter should count for the job: its place, or a count still to be taken back. */
  function Owed(t: Ticket): int {
    Claim(t) + (if t.phase.Overfull? then 1 else 0)
  }

  function EntryOf(t: Ticket): multiset<Raw> {
    if InList(t.phase) then multiset{Serialize(t.listed)} else multiset{}
  }

  /** The moves that give a place back. */
  predicate Releases(t: Ticket, m: Move) {
    m.GiveUp? || m.GiveBack? || (m.Defer? && !t.job.released)
  }

  function OwedBehind(t: Ticket, m: Move): int {
    if LeftBehind(t, m) == [] then 0 else 1
  }

  /** What a step from (s, t) to (s1, t1) does to the books, for every counter: the counter moves by what
      the job (and what it leaves behind) owes more or less than before, up to an unbacked return to the
      queue, and only the clamp at zero keeps it from going down; a place is only claimed while the counter
      stays within the limit, by a death above it, or unbacked. */
  predicate Booked(s: Store, t: Ticket, m: Move, s1: Store, t1: Ticket, maxDepth: int) {
    var change := Owed(t1) + OwedBehind(t, m) - Owed(t) - (t1.unbacked - t.unbacked);
    && s1.counter - s.counter >= change
    && (!(Releases(t, m) && s.counter <= 0) ==> s1.counter - s.counter == change)
    && (Claim(t1) + OwedBehind(t, m) > Claim(t) ==>
          s1.counter <= maxDepth || t1.strays > t.strays || t1.unbacked > t.unbacked)
    && Claim(t1) + OwedBehind(t, m) <= Claim(t) + 1
    && (Releases(t, m) ==> Owed(t) == 1)
    && t1.strays >= t.strays
    && t1.unbacked == t.unbacked + (if Unbacks(s, t, m) then 1 else 0)
  }

  lemma StepMovesCounter(s: Store, t: Ticket, m: Move, maxDepth: int)
    requires Enabled(s, t, m) && Kept(t)
    ensures var (s1, t1) := Step(s, t, m, maxDepth); Booked(s, t, m, s1, t1, maxDepth)
  {
    if m.Crash? || m.TakeOff? || m.Requeue? {
      DeathMovesCounter(s, t, m, maxDepth);
    } else if MovesTheJob(m) {
      JobMoveMovesCounter(s, t, m, maxDepth);
    } else {
      OtherStepMovesCounter(s, t, m, maxDepth);
    }
  }

  lemma DeathMovesCounter(s: Store, t: Ticket, m: Move, maxDepth: int)
    requires Enabled(s, t, m) && PlaceKept(t) && (m.Crash? || m.TakeOff? || m.Requeue?)
    requires !t.listed.released
    ensures var (s1, t1) := Step(s, t, m, maxDepth); Booked(s, t, m, s1, t1, maxDepth)
  {
    hide Serialize, Open, AdmitStep, ProceedStep, MarkStep, GiveBackStep, UnlistStep;
  }

  lemma JobMoveMovesCounter(s: Store, t: Ticket, m: Move, maxDepth: int)
    requires Enabled(s, t, m) && PlaceKept(t) && MovesTheJob(m) && !m.Requeue?
    ensures var (s1, t1) := Step(s, t, m, maxDepth); Booked(s, t, m, s1, t1, maxDepth)
  {
    hide Serialize, Open, ProceedStep, MarkStep, GiveBackStep, RequeueStep, CrashStep;
  }

  lemma OtherStepMovesCounter(s: Store, t: Ticket, m: Move, maxDepth: int)
    requires Enabled(s, t, m) && PlaceKept(t) && !MovesTheJob(m) && !m.Crash? && !m.TakeOff?
    ensures var (s1, t1) := Step(s, t, m, maxDepth); Booked(s, t, m, s1, t1, maxDepth)
  {
    hide Serialize, Open, Passes, Current, AdmitStep, UnlistStep, RequeueStep, CrashStep;
  }

  /** Recovery queues a job again whose worker had died without a place in the counter. */
  predicate Unbacks(s: Store, t: Ticket, m: Move) {
    m.Requeue? && t.phase.Unlisted? && !Backed(t.phase.death) && Open(s.rows, t.listed.documentId)
  }

  /** A step moves the list by the job's own entry. */
  lemma StepMovesList(s: Store, t: Ticket, m: Move, maxDepth: int)
    requires Enabled(s, t, m) && EntryOf(t) <= s.processing
    ensures var (s1, t1) := Step(s, t, m, maxDepth);
            s1.processing == s.processing - EntryOf(t) + EntryOf(t1)
  {
    if m == Push {
      hide Serialize;
      assert s.processing - multiset{} == s.processing;
    } else if m == Unlist || m == TakeOff {
      hide Serialize;
    } else {
      OtherStepsLeaveTheList(s, t, m, maxDepth);
      hide *;
      assert s.processing - EntryOf(t) + EntryOf(t) == s.processing;
    }
  }

  lemma OtherStepsLeaveTheList(s: Store, t: Ticket, m: Move, maxDepth: int)
    requires Enabled(s, t, m) && m !in {Push, Unlist, TakeOff}
    ensures var (s1, t1) := Step(s, t, m, maxDepth);
            s1.processing == s.processing && EntryOf(t1) == EntryOf(t)
  {
    PhaseKindsStay(s, t, m, maxDepth);
    EntryStays(s, t, m, maxDepth);
    hide Step, Enabled, InList;
  }

  lemma EntryStays(s: Store, t: Ticket, m: Move, maxDepth: int)
    requires Enabled(s, t, m) && m !in {Push, Unlist, TakeOff}
    ensures var (s1, t1) := Step(s, t, m, maxDepth); s1.processing == s.processing && t1.listed == t.listed
  {
    hide Serialize, Open, Passes, Current;
  }

  lemma PhaseKindsStay(s: Store, t: Ticket, m: Move, maxDepth: int)
    requires Enabled(s, t, m) && m !in {Push, Unlist, TakeOff}
    ensures InList(Step(s, t, m, maxDepth).1.phase) == InList(t.phase)
  {
    hide Serialize, Open, Passes, Current;
  }

  // ----- The whole system -----

  function Sum(ts: seq<Ticket>, weight: Ticket -> int): int {
    if ts == [] then 0 else Sum(ts[..|ts| - 1], weight) + weight(ts[|ts| - 1])
  }

  function Listed(ts: seq<Ticket>): multiset<Raw> {
    if ts == [] then multiset{} else Listed(ts[..|ts| - 1]) + EntryOf(ts[|ts| - 1])
  }

  function Unbacked(t: Ticket): int {
    t.unbacked
  }

  function Strays(t: Ticket): int {
    t.strays
  }

  /** The counter falls short of what jobs owe by no more than the unbacked returns; claimed places
      exceed the limit by no more than those and the deaths above it; the list is the jobs' entries. */
  predicate Sound(s: State, maxDepth: nat) {
    && (forall t <- s.tickets :: Kept(t))
    && Sum(s.tickets, Owed) <= s.store.counter + Sum(s.tickets, Unbacked)
    && Sum(s.tickets, Claim) <= maxDepth + Sum(s.tickets, Strays) + Sum(s.tickets, Unbacked)
    && s.store.processing == Listed(s.tickets)
  }

  lemma {:induction false} SumUpdate(ts: seq<Ticket>, i: nat, t: Ticket, weight: Ticket -> int)
    requires i < |ts|
    ensures Sum(ts[i := t], weight) == Sum(ts, weight) - weight(ts[i]) + weight(t)
    decreases |ts|
  {
    var n := |ts| - 1;
    if i < n {
      assert ts[i := t][..n] == ts[..n][i := t];
      SumUpdate(ts[..n], i, t, weight);
    } else {
      assert ts[i := t][..n] == ts[..n];
    }
  }

  lemma {:induction false} SumAtLeast(ts: seq<Ticket>, i: nat, weight: Ticket -> int)
    requires i < |ts| && forall t <- ts :: weight(t) >= 0
    ensures Sum(ts, weight) >= weight(ts[i])
    decreases |ts|
  {
    var n := |ts| - 1;
    if i < n {
      SumAtLeast(ts[..n], i, weight);
    } else if n > 0 {
      SumAtLeast(ts[..n], 0, weight);
    }
  }

  lemma {:induction false} ListedUpdate(ts: seq<Ticket>, i: nat, t: Ticket)
    requires i < |ts|
    ensures EntryOf(ts[i]) <= Listed(ts)
    ensures Listed(ts[i := t]) == Listed(ts) - EntryOf(ts[i]) + EntryOf(t)
    decreases |ts|
  {
    hide EntryOf;
    var n := |ts| - 1;
    if i < n {
      assert ts[i := t][..n] == ts[..n][i := t];
      ListedUpdate(ts[..n], i, t);
      Swap(Listed(ts[..n]), EntryOf(ts[i]), EntryOf(t), EntryOf(ts[n]));
    } else {
      assert ts[i := t][..n] == ts[..n];
      Rest(Listed(ts), EntryOf(ts[n]), Listed(ts[..n]));
    }
  }

  lemma Swap(a: multiset<Raw>, b: multiset<Raw>, c: multiset<Raw>, d: multiset<Raw>)
    requires b <= a
    ensures b <= a + d && a - b + c + d == a + d - b + c
  {}

  lemma ApplyIsSound(s: State, e: Event, maxDepth: nat)
    requires Sound(s, maxDepth) && Allowed(s, e)
    ensures Sound(Apply(s, e, maxDepth), maxDepth)
  {
    match e
    case Create(job) => AddedIsSound(s, Created(job, |s.tickets|), maxDepth);
    case Do(who, move) => DoIsSound(s, who, move, maxDepth);
    case _ =>
  }

  lemma Added(ts: seq<Ticket>, t: Ticket)
    ensures forall w: Ticket -> int :: Sum(ts + [t], w) == Sum(ts, w) + w(t)
    ensures Listed(ts + [t]) == Listed(ts) + EntryOf(t)
  {
    assert (ts + [t])[..|ts|] == ts;
  }

  lemma AddedIsSound(s: State, t: Ticket, maxDepth: nat)
    requires Sound(s, maxDepth) && Kept(t) && Owed(t) == 0 && EntryOf(t) == multiset{} && Unbacked(t) == Strays(t) == 0
    ensures Sound(s.(tickets := s.tickets + [t]), maxDepth)
  {
    Added(s.tickets, t);
    hide Kept, EntryOf, Sum, Listed;
  }

  /** What the step of one job does to the whole. */
  lemma DoIsSound(s: State, who: nat, move: Move, maxDepth: nat)
    requires Sound(s, maxDepth) && Allowed(s, Do(who, move))
    ensures Sound(Apply(s, Do(who, move), maxDepth), maxDepth)
  {
    var t := s.tickets[who];
    var (store, t1) := Step(s.store, t, move, maxDepth);
    var behind := LeftBehind(t, move);
    StepKeeps(s.store, t, move, maxDepth);
    StepMovesCounter(s.store, t, move, maxDepth);
    ListedUpdate(s.tickets, who, t1);
    StepMovesList(s.store, t, move, maxDepth);
    LeftBehindIsKept(s.store, t, move);
    ReplaceIsSound(s, who, store, t1, behind, maxDepth);
    hide *;
  }

  lemma LeftBehindIsKept(s: Store, t: Ticket, m: Move)
    requires Enabled(s, t, m) && Kept(t)
    ensures Companions(LeftBehind(t, m)) && |LeftBehind(t, m)| == OwedBehind(t, m)
  {
    hide Serialize, Open, Passes, Current;
  }

  /** At most one ticket, which holds a place and has no entry. */
  predicate Companions(ts: seq<Ticket>) {
    |ts| <= 1 && forall b <- ts :: Kept(b) && OnlyClaims(b)
  }

  predicate OnlyClaims(t: Ticket) {
    Owed(t) == Claim(t) == 1 && EntryOf(t) == multiset{} && Unbacked(t) == Strays(t) == 0
  }

  /** One ticket and the store change together, and another may be left behind. */
  lemma ReplaceIsSound(s: State, who: nat, store: Store, t1: Ticket, behind: seq<Ticket>, maxDepth: nat)
    requires Sound(s, maxDepth) && who < |s.tickets| && Kept(t1) && Companions(behind)
    requires var t := s.tickets[who];
             && store.counter - s.store.counter >=
                  Owed(t1) + |behind| - Owed(t) - (Unbacked(t1) - Unbacked(t))
             && (Claim(t1) + |behind| > Claim(t) ==>
                   store.counter <= maxDepth || Strays(t1) > Strays(t) || Unbacked(t1) > Unbacked(t))
             && Claim(t1) + |behind| <= Claim(t) + 1
             && Strays(t1) >= Strays(t) && Unbacked(t1) >= Unbacked(t)
             && store.processing == s.store.processing - EntryOf(t) + EntryOf(t1)
    ensures Sound(State(store, s.tickets[who := t1] + behind), maxDepth)
  {
    var ts := s.tickets[who := t1];
    KeptReplaced(s.tickets, who, t1);
    SumUpdate(s.tickets, who, t1, Owed);
    SumUpdate(s.tickets, who, t1, Claim);
    SumUpdate(s.tickets, who, t1, Unbacked);
    SumUpdate(s.tickets, who, t1, Strays);
    ListedUpdate(s.tickets, who, t1);
    WithCompanions(ts, behind);
    ClaimsAreOwed(ts + behind);
    hide Owed, Claim, Unbacked, Strays, EntryOf, Kept, Sum, Listed, OnlyClaims;
  }

  lemma WithCompanions(ts: seq<Ticket>, behind: seq<Ticket>)
    requires Companions(behind)
    ensures Sum(ts + behind, Owed) == Sum(ts, Owed) + |behind|
    ensures Sum(ts + behind, Claim) == Sum(ts, Claim) + |behind|
    ensures Sum(ts + behind, Unbacked) == Sum(ts, Unbacked)
    ensures Sum(ts + behind, Strays) == Sum(ts, Strays)
    ensures Listed(ts + behind) == Listed(ts)
    ensures (forall t <- ts :: Kept(t)) ==> forall t <- ts + behind :: Kept(t)
  {
    if behind == [] {
      assert ts + behind == ts;
    } else {
      assert behind == [behind[0]] && OnlyClaims(behind[0]);
      Added(ts, behind[0]);
    }
    hide Kept, Owed, Claim, Unbacked, Strays, EntryOf, Sum, Listed;
  }

  lemma {:induction false} ClaimsAreOwed(ts: seq<Ticket>)
    ensures Sum(ts, Claim) <= Sum(ts, Owed)
    ensures Sum(ts, Strays) >= 0 && Sum(ts, Unbacked) >= 0
  {
    if ts != [] {
      ClaimsAreOwed(ts[..|ts| - 1]);
    }
  }

  lemma KeptReplaced(ts: seq<Ticket>, who: nat, t1: Ticket)
    requires who < |ts| && Kept(t1) && forall t <- ts :: Kept(t)
    ensures forall t <- ts[who := t1] :: Kept(t)
  {
    hide Kept;
    forall t <- ts[who := t1]
      ensures Kept(t)
    {
      assert t == t1 || t in ts;
    }
  }
}
