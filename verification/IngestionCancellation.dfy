/** Cancellation: a bumped epoch stops a job for good. */
module IngestionCancellation {
  import opened IngestionJob
  import opened Options
  import opened QueueRecovery
  import opened IngestionSteps
  import opened IngestionAccounts
  import opened IngestionRuns

  /** The collection's epoch has moved on since the job read it, and the job has not passed its last
      look at it. */
  predicate CollectionGone(s: Store, t: Ticket) {
    && t.phase != New && Epoch(s.collections, t.job.collection) > t.job.collectionEpoch
    && t.phase != Running(ThirdDocument) && t.phase != Running(WriteReady)
  }

  predicate DocumentGone(s: Store, t: Ticket) {
    && t.phase != New && t.phase != KnowsCollection
    && Epoch(s.documents, t.job.documentId) > t.job.documentEpoch
    && t.phase != Running(WriteReady)
  }

  predicate Stopped(s: Store, t: Ticket) {
    CollectionGone(s, t) || DocumentGone(s, t)
  }

  /** What a job captured is never ahead of the shared epochs. */
  predicate Behind(s: Store, t: Ticket) {
    && (t.phase != New ==> t.job.collectionEpoch <= Epoch(s.collections, t.job.collection))
    && (t.phase != New && t.phase != KnowsCollection ==> t.job.documentEpoch <= Epoch(s.documents, t.job.documentId))
  }

  lemma {:induction false} BumpedEpochs(epochs: map<string, nat>, keys: seq<string>, k: string)
    ensures Epoch(Bumped(epochs, keys), k) >= Epoch(epochs, k)
    ensures k in keys ==> Epoch(Bumped(epochs, keys), k) > Epoch(epochs, k)
    decreases |keys|
  {
    if keys != [] {
      BumpedEpochs(epochs[keys[0] := Epoch(epochs, keys[0]) + 1], keys[1..], k);
      assert keys == [keys[0]] + keys[1..];
    }
  }

  /** The row was set to "ready" by this run, or would have been. */
  predicate Won(p: Phase) {
    p == Marked(Succeeded) || p == Leaving(Some(Succeeded)) || p == Ended(Succeeded)
  }

  /** A stopped job does not get through a check, so it writes "ready" no more. */
  lemma StepOfAStoppedJob(s: Store, t: Ticket, m: Move, maxDepth: int)
    requires Enabled(s, t, m) && AttemptKept(t) && Stopped(s, t)
    ensures var (s1, t1) := Step(s, t, m, maxDepth);
            Stopped(s1, t1) && t1.readyWrites == t.readyWrites && (Won(t1.phase) ==> Won(t.phase))
  {
    if m.Proceed? {
      WorkOfAStoppedJob(s, t, maxDepth);
    } else if MovesTheJob(m) {
      JobMoveOfAStoppedJob(s, t, m, maxDepth);
    } else {
      OtherStepsKeepTheJob(s, t, m, maxDepth);
      StepsLeaveEpochs(s, t, m, maxDepth);
      OtherStepOfAStoppedJob(s, t, m, maxDepth);
      hide Step, Enabled;
    }
  }

  lemma JobMoveOfAStoppedJob(s: Store, t: Ticket, m: Move, maxDepth: int)
    requires Enabled(s, t, m) && AttemptKept(t) && Stopped(s, t) && MovesTheJob(m)
    ensures var (s1, t1) := Step(s, t, m, maxDepth);
            Stopped(s1, t1) && t1.readyWrites == t.readyWrites && (Won(t1.phase) ==> Won(t.phase))
  {
    hide Serialize, Open, Passes, ProceedStep, MarkStep, GiveBackStep, CrashStep;
  }

  lemma OtherStepOfAStoppedJob(s: Store, t: Ticket, m: Move, maxDepth: int)
    requires Enabled(s, t, m) && !MovesTheJob(m) && !m.Proceed?
    ensures var t1 := Step(s, t, m, maxDepth).1;
            && t1.readyWrites == t.readyWrites && (Won(t1.phase) ==> Won(t.phase))
            && t1.phase != New && t1.phase != KnowsCollection && !t1.phase.Running?
  {
    hide Serialize, Open, Passes, AdmitStep, ProceedStep, UnlistStep, RequeueStep;
  }

  lemma WorkOfAStoppedJob(s: Store, t: Ticket, maxDepth: int)
    requires Enabled(s, t, Proceed) && Stopped(s, t)
    ensures var (s1, t1) := Step(s, t, Proceed, maxDepth);
            Stopped(s1, t1) && t1.readyWrites == t.readyWrites && !Won(t1.phase)
  {
    hide Serialize, Open, AdmitStep, MarkStep, GiveBackStep, UnlistStep, RequeueStep, CrashStep;
  }

  lemma StepKeepsBehind(s: Store, t: Ticket, m: Move, maxDepth: int)
    requires Enabled(s, t, m) && AttemptKept(t) && Behind(s, t)
    ensures Behind(Step(s, t, m, maxDepth).0, Step(s, t, m, maxDepth).1)
  {
    StepsLeaveEpochs(s, t, m, maxDepth);
    if m.ReadCollectionEpoch? || m.ReadDocumentEpoch? {
      hide AdmitStep, ProceedStep, MarkStep, GiveBackStep, UnlistStep, RequeueStep, CrashStep;
    } else {
      CapturedEpochsStay(s, t, m, maxDepth);
      hide Step, Enabled;
    }
  }

  /** After `enqueue`, nothing changes what a job has captured. */
  lemma CapturedEpochsStay(s: Store, t: Ticket, m: Move, maxDepth: int)
    requires Enabled(s, t, m) && AttemptKept(t) && !m.ReadCollectionEpoch? && !m.ReadDocumentEpoch?
    ensures var t1 := Step(s, t, m, maxDepth).1;
            && t1.job.collection == t.job.collection && t1.job.collectionEpoch == t.job.collectionEpoch
            && t1.job.documentId == t.job.documentId && t1.job.documentEpoch == t.job.documentEpoch
            && t.phase != New && t.phase != KnowsCollection
  {
    if MovesTheJob(m) {
      JobMovesKeepCaptured(s, t, m, maxDepth);
    } else {
      OtherStepsKeepTheJob(s, t, m, maxDepth);
      hide Step;
    }
  }

  lemma JobMovesKeepCaptured(s: Store, t: Ticket, m: Move, maxDepth: int)
    requires Enabled(s, t, m) && AttemptKept(t) && MovesTheJob(m) && !m.ReadCollectionEpoch? && !m.ReadDocumentEpoch?
    ensures var t1 := Step(s, t, m, maxDepth).1;
            && t1.job.collection == t.job.collection && t1.job.collectionEpoch == t.job.collectionEpoch
            && t1.job.documentId == t.job.documentId && t1.job.documentEpoch == t.job.documentEpoch
  {
    hide Serialize, Open, ProceedStep, MarkStep, GiveBackStep, CrashStep;
  }

  /** Epochs only grow, whoever takes the step; and only its own steps change a job. */
  lemma EventsOnlyRaiseEpochs(s: State, e: Event, maxDepth: int, c: string, d: string, who: nat)
    requires Allowed(s, e) && who < |s.tickets|
    ensures var s1 := Apply(s, e, maxDepth);
            && Epoch(s1.store.collections, c) >= Epoch(s.store.collections, c)
            && Epoch(s1.store.documents, d) >= Epoch(s.store.documents, d)
            && who < |s1.tickets|
            && (!(e.Do? && e.who == who) ==> s1.tickets[who] == s.tickets[who])
  {
    match e
    case CancelCollection(k) => BumpedEpochs(s.store.collections, [k], c);
    case CancelDocuments(ks) => BumpedEpochs(s.store.documents, ks, d);
    case Do(w, m) => StepsLeaveEpochs(s.store, s.tickets[w], m, maxDepth); hide Step, Enabled;
    case _ =>
  }

  lemma StepsLeaveEpochs(s: Store, t: Ticket, m: Move, maxDepth: int)
    requires Enabled(s, t, m)
    ensures var s1 := Step(s, t, m, maxDepth).0; s1.collections == s.collections && s1.documents == s.documents
  {
    if m.Proceed? {
      WorkLeavesEpochs(s, t, maxDepth);
    } else {
      hide Serialize, Open, Passes, Current, ProceedStep;
    }
  }

  lemma WorkLeavesEpochs(s: Store, t: Ticket, maxDepth: int)
    requires Enabled(s, t, Proceed)
    ensures var s1 := Step(s, t, Proceed, maxDepth).0; s1.collections == s.collections && s1.documents == s.documents
  {
    hide Passes, Serialize, Open, AdmitStep, MarkStep, GiveBackStep, UnlistStep, RequeueStep, CrashStep;
  }

  // ----- Over whole runs -----

  predicate AllBehind(s: State) {
    forall t <- s.tickets :: Behind(s.store, t)
  }

  lemma ApplyKeepsBehind(s: State, e: Event, maxDepth: nat)
    requires Allowed(s, e) && Sound(s, maxDepth) && AllBehind(s)
    ensures AllBehind(Apply(s, e, maxDepth))
  {
    var s1 := Apply(s, e, maxDepth);
    forall i | 0 <= i < |s1.tickets|
      ensures Behind(s1.store, s1.tickets[i])
    {
      if i < |s.tickets| {
        var t := s.tickets[i];
        assert Kept(t) && Behind(s.store, t);
        if e.Do? && e.who == i {
          StepKeepsBehind(s.store, t, e.move, maxDepth);
        } else {
          EventsOnlyRaiseEpochs(s, e, maxDepth, t.job.collection, t.job.documentId, i);
        }
      } else if e.Do? {
        var t := s.tickets[e.who];
        assert Kept(t) && Behind(s.store, t);
        StepsLeaveEpochs(s.store, t, e.move, maxDepth);
        hide Step;
      }
    }
  }

  lemma {:induction false} RunKeepsBehind(s: State, run: seq<Event>, maxDepth: nat)
    requires Feasible(s, run, maxDepth) && Sound(s, maxDepth) && AllBehind(s)
    ensures AllBehind(After(s, run, maxDepth))
    decreases |run|
  {
    hide Sound, Apply, Allowed, AllBehind;
    if run != [] {
      ApplyIsSound(s, run[0], maxDepth);
      ApplyKeepsBehind(s, run[0], maxDepth);
      RunKeepsBehind(Apply(s, run[0], maxDepth), run[1..], maxDepth);
    }
  }

  // ----- A job and the retries it leaves behind -----

  /** Every ticket of a family is stopped. */
  predicate FamilyStopped(s: State, family: nat) {
    forall i | 0 <= i < |s.tickets| :: s.tickets[i].family == family ==> Stopped(s.store, s.tickets[i])
  }

  /** From `s` to `t` no ticket of the family wrote "ready", and none has come to success that was not
      there before. */
  predicate WroteNothing(s: State, t: State, family: nat) {
    && |s.tickets| <= |t.tickets|
    && (forall i | 0 <= i < |s.tickets| :: t.tickets[i].family == s.tickets[i].family)
    && forall i | 0 <= i < |t.tickets| :: t.tickets[i].family == family ==>
         && t.tickets[i].readyWrites == (if i < |s.tickets| then s.tickets[i].readyWrites else 0)
         && (Won(t.tickets[i].phase) ==> i < |s.tickets| && Won(s.tickets[i].phase))
  }

  lemma NoCheckPasses(s: Store, t: Ticket)
    requires Stopped(s, t)
    ensures !Current(s, t.job)
  {}

  lemma StepsKeepTheFamily(s: Store, t: Ticket, m: Move, maxDepth: int)
    requires Enabled(s, t, m)
    ensures Step(s, t, m, maxDepth).1.family == t.family
  {
    hide Serialize, Open, Passes, Current;
  }

  lemma TicketStaysStopped(s: State, e: Event, i: nat, maxDepth: nat)
    requires Allowed(s, e) && Sound(s, maxDepth) && i < |s.tickets| && Stopped(s.store, s.tickets[i])
    ensures var s1 := Apply(s, e, maxDepth);
            && i < |s1.tickets|
            && Stopped(s1.store, s1.tickets[i])
            && s1.tickets[i].readyWrites == s.tickets[i].readyWrites
            && (Won(s1.tickets[i].phase) ==> Won(s.tickets[i].phase))
  {
    var t := s.tickets[i];
    assert Kept(t);
    if e.Do? && e.who == i {
      StepOfAStoppedJob(s.store, t, e.move, maxDepth);
      hide Step, Enabled, Kept, Sound, Stopped, Won;
    } else {
      EventsOnlyRaiseEpochs(s, e, maxDepth, t.job.collection, t.job.documentId, i);
      hide Apply, Allowed, Kept, Sound;
    }
  }

  /** A retry left behind by a stopped job is stopped from the start. */
  lemma LeftBehindIsStopped(s: Store, t: Ticket, m: Move, maxDepth: int)
    requires Enabled(s, t, m) && Stopped(s, t)
    ensures forall b <- LeftBehind(t, m) ::
              Stopped(Step(s, t, m, maxDepth).0, b) && b.readyWrites == 0 && !Won(b.phase) && b.family == t.family
  {
    StepsLeaveEpochs(s, t, m, maxDepth);
    hide Step;
  }

  lemma Families(s: State, e: Event, i: nat, maxDepth: nat)
    requires Allowed(s, e) && i < |s.tickets|
    ensures Apply(s, e, maxDepth).tickets[i].family == s.tickets[i].family
  {
    if e.Do? {
      StepsKeepTheFamily(s.store, s.tickets[e.who], e.move, maxDepth);
      hide Step, LeftBehind;
    }
  }

  lemma FamilyStaysStopped(s: State, e: Event, family: nat, maxDepth: nat)
    requires Allowed(s, e) && Sound(s, maxDepth) && family < |s.tickets| && FamilyStopped(s, family)
    ensures var s1 := Apply(s, e, maxDepth); FamilyStopped(s1, family) && WroteNothing(s, s1, family)
  {
    var s1 := Apply(s, e, maxDepth);
    forall i | 0 <= i < |s.tickets|
      ensures i < |s1.tickets| && s1.tickets[i].family == s.tickets[i].family
      ensures s.tickets[i].family == family ==>
                && Stopped(s1.store, s1.tickets[i]) && s1.tickets[i].readyWrites == s.tickets[i].readyWrites
                && (Won(s1.tickets[i].phase) ==> Won(s.tickets[i].phase))
    {
      Families(s, e, i, maxDepth);
      if s.tickets[i].family == family {
        TicketStaysStopped(s, e, i, maxDepth);
      }
    }
    forall i | |s.tickets| <= i < |s1.tickets| && s1.tickets[i].family == family
      ensures Stopped(s1.store, s1.tickets[i]) && s1.tickets[i].readyWrites == 0 && !Won(s1.tickets[i].phase)
    {
      if e.Do? && Stopped(s.store, s.tickets[e.who]) {
        LeftBehindIsStopped(s.store, s.tickets[e.who], e.move, maxDepth);
      }
      hide Step, Enabled, Stopped, Sound;
    }
    hide *;
  }

  lemma WroteNothingOn(s: State, t: State, u: State, family: nat)
    requires WroteNothing(s, t, family) && WroteNothing(t, u, family)
    ensures WroteNothing(s, u, family)
  {
    hide Won;
  }

  /** Once stopped, a job and the retries it leaves behind stay stopped, in any interleaving, through
      retries, crashes and recovery: no later check finds both epochs as captured, and none of them writes
      "ready" again. */
  lemma {:induction false} StoppedForGood(s: State, run: seq<Event>, family: nat, maxDepth: nat)
    requires Feasible(s, run, maxDepth) && Sound(s, maxDepth)
    requires family < |s.tickets| && FamilyStopped(s, family)
    ensures var s1 := After(s, run, maxDepth);
            && WroteNothing(s, s1, family)
            && FamilyStopped(s1, family)
            && forall t <- s1.tickets :: t.family == family ==> !Current(s1.store, t.job)
    decreases |run|
  {
    if run == [] {
      forall t <- s.tickets | t.family == family
        ensures !Current(s.store, t.job)
      {
        NoCheckPasses(s.store, t);
      }
    } else {
      hide Sound, Apply, Allowed, FamilyStopped, WroteNothing, Current;
      ApplyIsSound(s, run[0], maxDepth);
      FamilyStaysStopped(s, run[0], family, maxDepth);
      var s1 := Apply(s, run[0], maxDepth);
      MoreTickets(s, s1, family);
      StoppedForGood(s1, run[1..], family, maxDepth);
      WroteNothingOn(s, s1, After(s1, run[1..], maxDepth), family);
    }
  }

  lemma MoreTickets(s: State, t: State, family: nat)
    requires WroteNothing(s, t, family)
    ensures |s.tickets| <= |t.tickets|
  {}

  /** The same of one ticket alone, whatever became of others of its family. */
  lemma {:induction false} TicketStoppedForGood(s: State, run: seq<Event>, i: nat, maxDepth: nat)
    requires Feasible(s, run, maxDepth) && Sound(s, maxDepth) && i < |s.tickets| && Stopped(s.store, s.tickets[i])
    ensures var s1 := After(s, run, maxDepth);
            && i < |s1.tickets|
            && s1.tickets[i].readyWrites == s.tickets[i].readyWrites
            && (Won(s1.tickets[i].phase) ==> Won(s.tickets[i].phase))
    decreases |run|
  {
    hide Sound, Apply, Allowed, Stopped, Won;
    if run != [] {
      ApplyIsSound(s, run[0], maxDepth);
      TicketStaysStopped(s, run[0], i, maxDepth);
      TicketStoppedForGood(Apply(s, run[0], maxDepth), run[1..], i, maxDepth);
    }
  }

  /** A cancellation reaches a job that has captured the epoch and has not read it for the last time. */
  predicate Reaches(cancel: Event, t: Ticket) {
    match cancel
    case CancelCollection(c) =>
      c == t.job.collection && t.phase != New && t.phase != Running(ThirdDocument) && t.phase != Running(WriteReady)
    case CancelDocuments(ds) =>
      t.job.documentId in ds && t.phase != New && t.phase != KnowsCollection && t.phase != Running(WriteReady)
    case _ => false
  }

  /** It reaches every ticket of the family. */
  predicate ReachesFamily(cancel: Event, s: State, family: nat) {
    (cancel.CancelCollection? || cancel.CancelDocuments?)
    && forall t <- s.tickets :: t.family == family ==> Reaches(cancel, t)
  }

  lemma CancelStops(s: State, cancel: Event, t: Ticket, maxDepth: int)
    requires Reaches(cancel, t) && Behind(s.store, t) && Allowed(s, cancel)
    ensures Stopped(Apply(s, cancel, maxDepth).store, t)
  {
    match cancel
    case CancelCollection(c) => BumpedEpochs(s.store.collections, [c], c);
    case CancelDocuments(ds) => BumpedEpochs(s.store.documents, ds, t.job.documentId);
  }

  lemma CancelStopsFamily(s: State, cancel: Event, family: nat, maxDepth: nat)
    requires AllBehind(s) && ReachesFamily(cancel, s, family) && Allowed(s, cancel)
    ensures Apply(s, cancel, maxDepth).tickets == s.tickets
    ensures FamilyStopped(Apply(s, cancel, maxDepth), family)
  {
    forall t <- s.tickets | t.family == family
      ensures Stopped(Apply(s, cancel, maxDepth).store, t)
    {
      CancelStops(s, cancel, t, maxDepth);
    }
    hide Stopped, Reaches, Behind;
  }

  lemma CancelledFrom(s: State, cancel: Event, later: seq<Event>, family: nat, maxDepth: nat)
    requires Sound(s, maxDepth) && AllBehind(s) && family < |s.tickets| && ReachesFamily(cancel, s, family)
    requires Allowed(s, cancel) && Feasible(Apply(s, cancel, maxDepth), later, maxDepth)
    ensures WroteNothing(s, After(Apply(s, cancel, maxDepth), later, maxDepth), family)
  {
    CancelStopsFamily(s, cancel, family, maxDepth);
    ApplyIsSound(s, cancel, maxDepth);
    var s1 := Apply(s, cancel, maxDepth);
    StoppedForGood(s1, later, family, maxDepth);
    SameTickets(s, s1, After(s1, later, maxDepth), family);
    hide *;
  }

  lemma SameTickets(s: State, s1: State, t: State, family: nat)
    requires s1.tickets == s.tickets
    ensures WroteNothing(s1, t, family) == WroteNothing(s, t, family)
  {
    hide Won;
  }

  /** Cancellation is final. After any history, a cancellation that reaches a job, and what it may have left
      behind, stops it: whatever happens next, it writes "ready" no more, and it ends in success only if it
      had already written it. */
  lemma CancellationIsFinal(
      rows: map<string, Status>, before: seq<Event>, cancel: Event, later: seq<Event>, family: nat, maxDepth: nat)
    requires Feasible(Initial(rows), before, maxDepth)
    requires var s := After(Initial(rows), before, maxDepth);
             && Allowed(s, cancel) && family < |s.tickets| && ReachesFamily(cancel, s, family)
             && Feasible(Apply(s, cancel, maxDepth), later, maxDepth)
    ensures var s := After(Initial(rows), before, maxDepth);
            WroteNothing(s, After(Apply(s, cancel, maxDepth), later, maxDepth), family)
  {
    Reachable(rows, before, maxDepth);
    RunKeepsBehind(Initial(rows), before, maxDepth);
    hide *;
    CancelledFrom(After(Initial(rows), before, maxDepth), cancel, later, family, maxDepth);
  }

  lemma CancelledTicket(s: State, cancel: Event, later: seq<Event>, i: nat, maxDepth: nat)
    requires Sound(s, maxDepth) && AllBehind(s) && i < |s.tickets| && Allowed(s, cancel) && Reaches(cancel, s.tickets[i])
    requires Feasible(Apply(s, cancel, maxDepth), later, maxDepth)
    ensures var end := After(Apply(s, cancel, maxDepth), later, maxDepth);
            && i < |end.tickets|
            && end.tickets[i].readyWrites == s.tickets[i].readyWrites
            && (Won(end.tickets[i].phase) ==> Won(s.tickets[i].phase))
  {
    assert Behind(s.store, s.tickets[i]);
    CancelStops(s, cancel, s.tickets[i], maxDepth);
    ApplyIsSound(s, cancel, maxDepth);
    assert Apply(s, cancel, maxDepth).tickets == s.tickets;
    TicketStoppedForGood(Apply(s, cancel, maxDepth), later, i, maxDepth);
    hide *;
  }

  /** A cancellation that reaches one of several messages of a job stops that one for good. */
  lemma CancellationIsFinalForOne(
      rows: map<string, Status>, before: seq<Event>, cancel: Event, later: seq<Event>, i: nat, maxDepth: nat)
    requires Feasible(Initial(rows), before, maxDepth)
    requires var s := After(Initial(rows), before, maxDepth);
             && Allowed(s, cancel) && i < |s.tickets| && Reaches(cancel, s.tickets[i])
             && Feasible(Apply(s, cancel, maxDepth), later, maxDepth)
    ensures var s := After(Initial(rows), before, maxDepth);
            var end := After(Apply(s, cancel, maxDepth), later, maxDepth);
            && i < |end.tickets|
            && end.tickets[i].readyWrites == s.tickets[i].readyWrites
            && (Won(end.tickets[i].phase) ==> Won(s.tickets[i].phase))
  {
    Reachable(rows, before, maxDepth);
    RunKeepsBehind(Initial(rows), before, maxDepth);
    hide *;
    CancelledTicket(After(Initial(rows), before, maxDepth), cancel, later, i, maxDepth);
  }

  // ----- Exactly when a collection's cancellation comes in time -----

  /** The job can still write "ready" once the event has happened. */
  ghost predicate CanWriteReady(s: State, i: nat, maxDepth: int)
    requires i < |s.tickets|
  {
    exists t :: Leads(s, t, maxDepth) && i < |t.tickets| && t.tickets[i].readyWrites > s.tickets[i].readyWrites
  }

  /** The job has read its collection's epoch for the last time, and will not fail the look at its
      document's. */
  predicate PastTheCheck(s: Store, t: Ticket) {
    || t.phase == Running(WriteReady)
    || (t.phase == Running(ThirdDocument) && Epoch(s.documents, t.job.documentId) == t.job.documentEpoch)
  }

  lemma WriteFollows(s: State, i: nat, maxDepth: int)
    requires i < |s.tickets| && PastTheCheck(s.store, s.tickets[i])
    ensures CanWriteReady(s, i, maxDepth)
  {
    LeadsNowhere(s, maxDepth);
    var s1 := s;
    hide Leads;
    if s.tickets[i].phase == Running(ThirdDocument) {
      OneEvent(s, s, Do(i, Proceed), maxDepth);
      s1 := Apply(s, Do(i, Proceed), maxDepth);
    }
    assert s1.tickets[i].phase == Running(WriteReady) && s1.tickets[i].readyWrites == s.tickets[i].readyWrites;
    OneEvent(s, s1, Do(i, Proceed), maxDepth);
    var s2 := Apply(s1, Do(i, Proceed), maxDepth);
    assert s2.tickets[i].readyWrites == s.tickets[i].readyWrites + 1;
  }

  lemma StoppedCannotWrite(s: State, i: nat, maxDepth: nat)
    requires Sound(s, maxDepth) && i < |s.tickets| && Stopped(s.store, s.tickets[i])
    ensures !CanWriteReady(s, i, maxDepth)
  {
    forall t | Leads(s, t, maxDepth)
      ensures i < |t.tickets| && t.tickets[i].readyWrites == s.tickets[i].readyWrites
    {
      var run :| Feasible(s, run, maxDepth) && After(s, run, maxDepth) == t;
      TicketStoppedForGood(s, run, i, maxDepth);
    }
  }

  /** In any reachable state, cancelling the collection of a job that has captured its epoch leaves the job
      able to write "ready" if and only if it was about to write it, or about to look at its document's epoch
      with that one still current. */
  lemma CancellationComesInTimeIff(rows: map<string, Status>, before: seq<Event>, i: nat, maxDepth: nat)
    requires Feasible(Initial(rows), before, maxDepth)
    requires var s := After(Initial(rows), before, maxDepth); i < |s.tickets| && s.tickets[i].phase != New
    ensures var s := After(Initial(rows), before, maxDepth);
            var t := s.tickets[i];
            var s1 := Apply(s, CancelCollection(t.job.collection), maxDepth);
            s1.tickets == s.tickets && (CanWriteReady(s1, i, maxDepth) <==> PastTheCheck(s.store, t))
  {
    Reachable(rows, before, maxDepth);
    RunKeepsBehind(Initial(rows), before, maxDepth);
    var s := After(Initial(rows), before, maxDepth);
    InTimeIff(s, i, maxDepth);
    hide *;
  }

  lemma InTimeIff(s: State, i: nat, maxDepth: nat)
    requires Sound(s, maxDepth) && AllBehind(s) && i < |s.tickets| && s.tickets[i].phase != New
    ensures var t := s.tickets[i];
            var s1 := Apply(s, CancelCollection(t.job.collection), maxDepth);
            s1.tickets == s.tickets && (CanWriteReady(s1, i, maxDepth) <==> PastTheCheck(s.store, t))
  {
    var t := s.tickets[i];
    var cancel := CancelCollection(t.job.collection);
    var s1 := Apply(s, cancel, maxDepth);
    assert Behind(s.store, t);
    ApplyIsSound(s, cancel, maxDepth);
    if PastTheCheck(s.store, t) {
      WriteFollows(s1, i, maxDepth);
    } else {
      BumpedEpochs(s.store.collections, [t.job.collection], t.job.collection);
      assert Stopped(s1.store, t);
      StoppedCannotWrite(s1, i, maxDepth);
    }
    hide CanWriteReady, Sound, AllBehind;
  }
}
