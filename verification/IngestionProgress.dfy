/** A job's own steps run out: between crashes, deferrals and full queues, each brings it nearer to its
    end, and until the end there is always one to take. */
module IngestionProgress {
  import opened IngestionJob
  import opened Options
  import opened QueueRecovery
  import opened IngestionSteps
  import opened IngestionAccounts
  import opened IngestionRuns

  predicate Over(p: Phase) {
    p.Ended? || p.Rejected? || p.Dropped?
  }

  function WorkLeft(w: Work): nat {
    match w
    case FirstCollection => 11
    case FirstDocument => 10
    case MarkProcessing => 9
    case Convert => 8
    case SecondCollection => 7
    case SecondDocument => 6
    case ReplaceElements => 5
    case Embed => 4
    case ThirdCollection => 3
    case ThirdDocument => 2
    case WriteReady => 1
  }

  /** How far a phase is from the end of its run. */
  function Distance(p: Phase): nat {
    match p
    case New => 30
    case KnowsCollection => 29
    case KnowsEpochs => 28
    case Overfull(origin) => (match origin case AtEnqueue => 27 case AtDelivery => 27 case AtRetry => 6)
    case Admitted => 27
    case Unsent => 26
    case Deferred => 26
    case Queued => 25
    case Delivered => 24
    case Cleared => 23
    case Running(w) => 11 + WorkLeft(w)
    case Raised(_) => 10
    case Cleaned(_) => 9
    case Buried => 8
    case Marked(_) => 7
    case GaveBack => 7
    case TookAgain => 6
    case Refused => 5
    case Resent => 5
    case Leaving(_) => 4
    case Crashed(_) => 32
    case Unlisted(_) => 31
    case Ended(_) => 0
    case Rejected => 0
    case Dropped(_) => 0
  }

  const PER_RUN := 33

  function RunsToGo(t: Ticket): int {
    (if t.job.maxAttempts > 1 then t.job.maxAttempts else 1) - t.runs
  }

  function Rank(t: Ticket): int {
    RunsToGo(t) * PER_RUN + Distance(t.phase)
  }

  /** Nothing outside the job's own work sets it back: the worker lives, the system is not under
      maintenance, and the queue has room for a job that was deferred. */
  predicate Smooth(s: Store, t: Ticket, m: Move, maxDepth: int) {
    !m.Crash? && !m.Defer? && (m.Admit? && t.phase == Delivered ==> s.counter < maxDepth)
  }

  lemma StepsDescend(s: Store, t: Ticket, m: Move, maxDepth: int)
    requires Enabled(s, t, m) && Kept(t) && Smooth(s, t, m, maxDepth)
    ensures Rank(Step(s, t, m, maxDepth).1) < Rank(t)
  {
    assert MidRun(t.phase) ==> t.listed.maxAttempts == t.job.maxAttempts;
    assert RunsToGo(t) >= 0;
    if MovesTheJob(m) {
      JobMovesDescend(s, t, m, maxDepth);
    } else {
      OtherStepsKeepTheJob(s, t, m, maxDepth);
      OtherStepsComeCloser(s, t, m, maxDepth);
      hide Step, Enabled, Distance, PlaceKept, RunsLeft, AttemptKept;
    }
  }

  lemma JobMovesDescend(s: Store, t: Ticket, m: Move, maxDepth: int)
    requires Enabled(s, t, m) && Smooth(s, t, m, maxDepth) && MovesTheJob(m)
    requires (MidRun(t.phase) ==> t.listed.maxAttempts == t.job.maxAttempts) && RunsToGo(t) >= 0
    ensures Rank(Step(s, t, m, maxDepth).1) < Rank(t)
  {
    hide Serialize, Open, Current, Passes, ProceedStep, MarkStep, GiveBackStep, CrashStep;
  }

  lemma OtherStepsComeCloser(s: Store, t: Ticket, m: Move, maxDepth: int)
    requires Enabled(s, t, m) && Smooth(s, t, m, maxDepth) && !MovesTheJob(m)
    ensures Distance(Step(s, t, m, maxDepth).1.phase) < Distance(t.phase)
  {
    hide Serialize, Open, Passes, Current, AdmitStep, UnlistStep, RequeueStep;
  }

  lemma RankIsNatural(t: Ticket)
    requires Kept(t)
    ensures Rank(t) >= 0
  {
    hide PlaceKept, AttemptKept;
    assert RunsToGo(t) >= 0;
  }

  /** A job that is not over can take a step. */
  lemma SomeStepIsEnabled(s: Store, t: Ticket)
    requires Kept(t)
    ensures Over(t.phase) <==> forall m :: !Enabled(s, t, m)
  {
    hide PlaceKept, AttemptKept, RunsLeft;
    if !Over(t.phase) {
      assert Enabled(s, t, NextMove(t));
    }
  }

  function NextMove(t: Ticket): Move {
    match t.phase
    case New => ReadCollectionEpoch
    case KnowsCollection => ReadDocumentEpoch
    case KnowsEpochs => Admit
    case Overfull(_) => TakeBack
    case Admitted => Send
    case Unsent => GiveUp
    case Queued => Deliver
    case Delivered => if t.job.released then Admit else Pass
    case Deferred => Send
    case Cleared => Push
    case Running(_) => Proceed
    case Raised(_) => Clean
    case Cleaned(e) => (match e case Cancelled => Mark case Transient => GiveBack case Permanent => Bury)
    case Buried => Mark
    case Marked(_) => GiveBack
    case GaveBack => Admit
    case TookAgain => Send
    case Refused => Mark
    case Resent => MarkPendingAgain
    case Leaving(_) => Unlist
    case Crashed(_) => TakeOff
    case _ => Requeue
  }

  // ----- Over a run of the whole system -----

  predicate SmoothFor(s: State, run: seq<Event>, who: nat, maxDepth: int)
    requires Feasible(s, run, maxDepth) && who < |s.tickets|
    decreases |run|
  {
    run != [] ==>
      && (run[0].Do? && run[0].who == who ==> Smooth(s.store, s.tickets[who], run[0].move, maxDepth))
      && SmoothFor(Apply(s, run[0], maxDepth), run[1..], who, maxDepth)
  }

  function StepsOf(run: seq<Event>, who: nat): nat {
    if run == [] then 0 else (if run[0].Do? && run[0].who == who then 1 else 0) + StepsOf(run[1..], who)
  }

  /** However the others interleave: as long as a job is not set back, it takes no more steps than its
      rank, at most 33 for every attempt it has left and 32 more. */
  lemma {:induction false} StepsAreBounded(s: State, run: seq<Event>, who: nat, maxDepth: nat)
    requires Feasible(s, run, maxDepth) && Sound(s, maxDepth) && who < |s.tickets|
    requires SmoothFor(s, run, who, maxDepth)
    ensures StepsOf(run, who) <= Rank(s.tickets[who]) <= RunsToGo(s.tickets[who]) * PER_RUN + 32
    decreases |run|
  {
    assert Kept(s.tickets[who]);
    RankIsNatural(s.tickets[who]);
    if run != [] {
      ApplyIsSound(s, run[0], maxDepth);
      var s1 := Apply(s, run[0], maxDepth);
      if run[0].Do? && run[0].who == who {
        StepsDescend(s.store, s.tickets[who], run[0].move, maxDepth);
      } else {
        OthersLeaveIt(s, run[0], who, maxDepth);
      }
      hide Kept, Step, Sound, Rank, Enabled;
      StepsAreBounded(s1, run[1..], who, maxDepth);
    }
  }

  lemma OthersLeaveIt(s: State, e: Event, who: nat, maxDepth: int)
    requires Allowed(s, e) && who < |s.tickets| && !(e.Do? && e.who == who)
    ensures var s1 := Apply(s, e, maxDepth); who < |s1.tickets| && s1.tickets[who] == s.tickets[who]
  {
    hide Step, Enabled;
  }
}
