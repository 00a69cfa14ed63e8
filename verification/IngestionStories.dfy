/** What each run did by the time it ended, effect by effect. */
module IngestionStories {
  import opened IngestionJob
  import opened Options
  import opened QueueRecovery
  import opened IngestionSteps

  function Start(began: bool): seq<Effect> {
    if began then [SetProcessing] else []
  }

  predicate Began(w: Work) {
    !(w.FirstCollection? || w.FirstDocument? || w.MarkProcessing?)
  }

  /** The effects of a run up to a phase; `began` says whether the row was marked as processing. */
  function Tale(began: bool, p: Phase): seq<Effect> {
    match p
    case Cleaned(e) => Start(began) + [AskVectorDeletion]
    case Buried => Start(began) + [AskVectorDeletion] + [AddToDeadLetters]
    case Marked(o) => BeforeRelease(began, o)
    case GaveBack => Start(began) + [AskVectorDeletion] + [GivePlaceBack]
    case Overfull(_) => Start(began) + [AskVectorDeletion] + [GivePlaceBack]
    case Refused => Start(began) + [AskVectorDeletion] + [GivePlaceBack]
    case TookAgain => Start(began) + [AskVectorDeletion] + [GivePlaceBack] + [TakePlace]
    case Resent => Start(began) + [AskVectorDeletion] + [GivePlaceBack] + [TakePlace] + [SendAgain]
    case Leaving(ended) => (
      match ended
      case None => Start(began) + [AskVectorDeletion] + [GivePlaceBack] + [TakePlace] + [SendAgain] + [SetPending]
      case Some(o) => Whole(began, o))
    case Ended(o) => Whole(began, o)
    case _ => Start(began)
  }

  function BeforeRelease(began: bool, o: Outcome): seq<Effect> {
    match o
    case Succeeded => Start(began) + [SetReady]
    case WasCancelled => Start(began) + [AskVectorDeletion] + [SetFailed]
    case FailedForGood => Start(began) + [AskVectorDeletion] + [AddToDeadLetters] + [SetFailed]
    case FailedOnFull => []
  }

  function Whole(began: bool, o: Outcome): seq<Effect> {
    if o == FailedOnFull then Start(began) + [AskVectorDeletion] + [GivePlaceBack] + [SetFailed]
    else BeforeRelease(began, o) + [GivePlaceBack]
  }

  predicate Telling(p: Phase) {
    || p.Raised? || p.Cleaned? || p.Buried? || p.Marked? || p.GaveBack? || p == Overfull(AtRetry)
    || p.TookAgain? || p.Resent? || p.Refused? || p.Leaving? || p.Ended?
  }

  predicate Fits(t: Ticket) {
    && (t.phase.Running? ==> t.story == Start(Began(t.phase.work)))
    && (Telling(t.phase) ==> t.story == Tale(false, t.phase) || t.story == Tale(true, t.phase))
    && (t.phase == Marked(Succeeded) || t.phase == Leaving(Some(Succeeded)) || t.phase == Ended(Succeeded) ==>
          t.story == Tale(true, t.phase))
    && t.phase != Marked(FailedOnFull)
  }

  lemma StepKeepsTheStory(s: Store, t: Ticket, m: Move, maxDepth: int)
    requires Enabled(s, t, m) && Fits(t)
    ensures Fits(Step(s, t, m, maxDepth).1)
  {
    if m.Mark? {
      MarkKeepsTheStory(s, t, maxDepth);
    } else if m.GiveBack? {
      ReleaseKeepsTheStory(s, t, maxDepth);
    } else if m.Clean? || m.Bury? {
      FinalizerKeepsTheStory(s, t, m, maxDepth);
    } else if m.Admit? {
      AdmissionKeepsTheStory(s, t, maxDepth);
    } else if m.Send? || m.MarkPendingAgain? {
      SendingKeepsTheStory(s, t, m, maxDepth);
    } else if m.Proceed? {
      WorkKeepsTheStory(s, t, maxDepth);
    } else if m.TakeBack? || m.Raise? || m.Unlist? {
      TurnKeepsTheStory(s, t, m, maxDepth);
    } else {
      OtherStepsKeepTheStory(s, t, m, maxDepth);
    }
  }

  lemma MarkKeepsTheStory(s: Store, t: Ticket, maxDepth: int)
    requires Enabled(s, t, Mark) && Fits(t)
    ensures Fits(Step(s, t, Mark, maxDepth).1)
  {
    hide Serialize, Open, Current, Passes, Start;
    hide AdmitStep, ProceedStep, GiveBackStep, UnlistStep, RequeueStep, CrashStep;
  }

  lemma ReleaseKeepsTheStory(s: Store, t: Ticket, maxDepth: int)
    requires Enabled(s, t, GiveBack) && Fits(t)
    ensures Fits(Step(s, t, GiveBack, maxDepth).1)
  {
    hide Serialize, Open, Current, Passes, Start;
    hide AdmitStep, ProceedStep, MarkStep, UnlistStep, RequeueStep, CrashStep;
  }

  lemma FinalizerKeepsTheStory(s: Store, t: Ticket, m: Move, maxDepth: int)
    requires Enabled(s, t, m) && Fits(t) && (m.Clean? || m.Bury?)
    ensures Fits(Step(s, t, m, maxDepth).1)
  {
    hide Serialize, Open, Current, Passes, Start;
    hide AdmitStep, ProceedStep, MarkStep, GiveBackStep, UnlistStep, RequeueStep, CrashStep;
  }

  lemma AdmissionKeepsTheStory(s: Store, t: Ticket, maxDepth: int)
    requires Enabled(s, t, Admit) && Fits(t)
    ensures Fits(Step(s, t, Admit, maxDepth).1)
  {
    hide Serialize, Open, Current, Passes, Whole, BeforeRelease, Start;
    hide ProceedStep, MarkStep, GiveBackStep, UnlistStep, RequeueStep, CrashStep;
  }

  lemma SendingKeepsTheStory(s: Store, t: Ticket, m: Move, maxDepth: int)
    requires Enabled(s, t, m) && Fits(t) && (m.Send? || m.MarkPendingAgain?)
    ensures Fits(Step(s, t, m, maxDepth).1)
  {
    hide Serialize, Open, Current, Passes, Whole, BeforeRelease, Start;
    hide AdmitStep, ProceedStep, MarkStep, GiveBackStep, UnlistStep, RequeueStep, CrashStep;
  }

  lemma WorkKeepsTheStory(s: Store, t: Ticket, maxDepth: int)
    requires Enabled(s, t, Proceed) && Fits(t)
    ensures Fits(Step(s, t, Proceed, maxDepth).1)
  {
    hide Serialize, Open, Current, AdmitStep, MarkStep, GiveBackStep, UnlistStep, RequeueStep, CrashStep;
    assert [] + [SetProcessing] == [SetProcessing];
  }

  lemma TurnKeepsTheStory(s: Store, t: Ticket, m: Move, maxDepth: int)
    requires Enabled(s, t, m) && Fits(t) && (m.TakeBack? || m.Raise? || m.Unlist?)
    ensures Fits(Step(s, t, m, maxDepth).1)
  {
    hide Serialize, Open, Current, Passes, Whole, BeforeRelease, Start;
    hide AdmitStep, ProceedStep, MarkStep, GiveBackStep, RequeueStep, CrashStep;
  }

  /** The moves of a job whose run has not begun, or whose worker is dead. */
  lemma OtherStepsKeepTheStory(s: Store, t: Ticket, m: Move, maxDepth: int)
    requires Enabled(s, t, m) && Fits(t)
    requires !(m.Mark? || m.GiveBack? || m.MarkPendingAgain? || m.Admit? || m.Send? || m.Clean? || m.Bury? || m.Proceed?)
    requires !(m.TakeBack? || m.Raise? || m.Unlist?)
    ensures Fits(Step(s, t, m, maxDepth).1)
  {
    hide Serialize, Open, Current, Passes, Tale;
    hide AdmitStep, ProceedStep, MarkStep, GiveBackStep, UnlistStep;
  }

  lemma {:induction false} RunKeepsStories(s: State, run: seq<Event>, maxDepth: int)
    requires Feasible(s, run, maxDepth) && forall t <- s.tickets :: Fits(t)
    ensures forall t <- After(s, run, maxDepth).tickets :: Fits(t)
    decreases |run|
  {
    if run != [] {
      var s1 := Apply(s, run[0], maxDepth);
      if run[0].Do? {
        StepKeepsTheStory(s.store, s.tickets[run[0].who], run[0].move, maxDepth);
        assert forall t <- LeftBehind(s.tickets[run[0].who], run[0].move) :: Fits(t);
      }
      hide Step, LeftBehind, Fits, Enabled;
      assert forall t <- s1.tickets :: Fits(t);
      RunKeepsStories(s1, run[1..], maxDepth);
    }
  }

  /** The four endings, and the retry, effect by effect. A run that succeeds marks the document, writes
      "ready" and gives its place back; a cancelled one asks for the deletion of its vectors and writes
      "failed" before it gives its place back; one that fails for good is buried in between; one that
      finds the queue full for its retry has given its place back and writes "failed"; and a retry gives
      its place back, takes one again, and only then is sent and marked. Each releases once. */
  lemma HowRunsEnd(rows: map<string, Status>, run: seq<Event>, maxDepth: int)
    requires Feasible(Initial(rows), run, maxDepth)
    ensures forall t <- After(Initial(rows), run, maxDepth).tickets ::
              && (t.phase == Ended(Succeeded) ==> t.story == [SetProcessing, SetReady, GivePlaceBack])
              && (t.phase == Ended(WasCancelled) ==>
                    exists b :: t.story == Start(b) + [AskVectorDeletion, SetFailed, GivePlaceBack])
              && (t.phase == Ended(FailedForGood) ==>
                    exists b :: t.story == Start(b) + [AskVectorDeletion, AddToDeadLetters, SetFailed, GivePlaceBack])
              && (t.phase == Ended(FailedOnFull) ==>
                    exists b :: t.story == Start(b) + [AskVectorDeletion, GivePlaceBack, SetFailed])
              && (t.phase == Leaving(None) ==>
                    exists b :: t.story == Start(b) + [AskVectorDeletion, GivePlaceBack, TakePlace, SendAgain, SetPending])
  {
    RunKeepsStories(Initial(rows), run, maxDepth);
    forall t <- After(Initial(rows), run, maxDepth).tickets
      ensures t.phase == Ended(Succeeded) ==> t.story == [SetProcessing, SetReady, GivePlaceBack]
      ensures t.phase == Ended(WasCancelled) ==>
                exists b :: t.story == Start(b) + [AskVectorDeletion, SetFailed, GivePlaceBack]
      ensures t.phase == Ended(FailedForGood) ==>
                exists b :: t.story == Start(b) + [AskVectorDeletion, AddToDeadLetters, SetFailed, GivePlaceBack]
      ensures t.phase == Ended(FailedOnFull) ==>
                exists b :: t.story == Start(b) + [AskVectorDeletion, GivePlaceBack, SetFailed]
      ensures t.phase == Leaving(None) ==>
                exists b :: t.story == Start(b) + [AskVectorDeletion, GivePlaceBack, TakePlace, SendAgain, SetPending]
    {
      assert Fits(t);
      SuccessInFull();
      TalesInFull(false);
      TalesInFull(true);
      hide Tale, Whole, Start;
    }
  }

  lemma SuccessInFull()
    ensures Tale(true, Ended(Succeeded)) == [SetProcessing, SetReady, GivePlaceBack]
  {}

  lemma TalesInFull(b: bool)
    ensures Tale(b, Ended(WasCancelled)) == Start(b) + [AskVectorDeletion, SetFailed, GivePlaceBack]
    ensures Tale(b, Ended(FailedForGood)) == Start(b) + [AskVectorDeletion, AddToDeadLetters, SetFailed, GivePlaceBack]
    ensures Tale(b, Ended(FailedOnFull)) == Start(b) + [AskVectorDeletion, GivePlaceBack, SetFailed]
    ensures Tale(b, Leaving(None)) ==
            Start(b) + [AskVectorDeletion, GivePlaceBack, TakePlace, SendAgain, SetPending]
  {
    RetryInFull(Start(b));
    hide Start;
  }

  lemma RetryInFull(start: seq<Effect>)
    ensures start + [AskVectorDeletion] + [GivePlaceBack] + [TakePlace] + [SendAgain] + [SetPending]
         == start + [AskVectorDeletion, GivePlaceBack, TakePlace, SendAgain, SetPending]
  {}
}
