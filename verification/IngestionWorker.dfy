/** The queue's own code, run without interruption: enqueueing, delivery, the run of a job and its four
    finalizers. Every execution is a path of steps of the protocol. */
module IngestionWorker {
  import opened IngestionJob
  import opened Options
  import opened QueueRecovery
  import opened IngestionSteps

  /** `moves` lead one job from (s, t) to (s1, t1) with nobody in between. */
  ghost predicate Path(s: Store, t: Ticket, moves: seq<Move>, s1: Store, t1: Ticket, maxDepth: int)
    decreases |moves|
  {
    if moves == [] then s == s1 && t == t1
    else
      var n := |moves| - 1;
      exists s0, t0 :: Path(s, t, moves[..n], s0, t0, maxDepth)
        && Enabled(s0, t0, moves[n]) && Step(s0, t0, moves[n], maxDepth) == (s1, t1)
  }

  lemma OneMore(s: Store, t: Ticket, moves: seq<Move>, s0: Store, t0: Ticket, m: Move, maxDepth: int)
    requires Path(s, t, moves, s0, t0, maxDepth) && Enabled(s0, t0, m)
    ensures var (s1, t1) := Step(s0, t0, m, maxDepth); Path(s, t, moves + [m], s1, t1, maxDepth)
  {
    assert (moves + [m])[..|moves|] == moves;
  }

  function Moves(who: nat, moves: seq<Move>): seq<Event> {
    seq(|moves|, i requires 0 <= i < |moves| => Do(who, moves[i]))
  }

  /** A path is a run of the whole system, in which only this job moves: all that is proved of runs holds
      of what the code below does. */
  lemma {:induction false} PathsAreRuns(s: State, who: nat, moves: seq<Move>, s1: Store, t1: Ticket, maxDepth: int)
    requires who < |s.tickets| && Path(s.store, s.tickets[who], moves, s1, t1, maxDepth) && Crash !in moves
    ensures Feasible(s, Moves(who, moves), maxDepth)
    ensures After(s, Moves(who, moves), maxDepth) == State(s1, s.tickets[who := t1])
    decreases |moves|
  {
    if moves == [] {
      assert s.tickets[who := t1] == s.tickets;
    } else {
      var n := |moves| - 1;
      LastMove(moves);
      hide Step, Enabled;
      var s0, t0 :| Path(s.store, s.tickets[who], moves[..n], s0, t0, maxDepth)
        && Enabled(s0, t0, moves[n]) && Step(s0, t0, moves[n], maxDepth) == (s1, t1);
      hide Path;
      PathsAreRuns(s, who, moves[..n], s0, t0, maxDepth);
      OneMoreMove(s, who, moves[..n], s0, t0, moves[n], maxDepth);
    }
  }

  lemma LastMove(moves: seq<Move>)
    requires moves != [] && Crash !in moves
    ensures var n := |moves| - 1; moves == moves[..n] + [moves[n]] && Crash !in moves[..n] && moves[n] != Crash
  {}

  lemma OneMoreMove(s: State, who: nat, moves: seq<Move>, s0: Store, t0: Ticket, m: Move, maxDepth: int)
    requires who < |s.tickets| && Feasible(s, Moves(who, moves), maxDepth)
    requires After(s, Moves(who, moves), maxDepth) == State(s0, s.tickets[who := t0]) && Enabled(s0, t0, m)
    requires m != Crash
    ensures Feasible(s, Moves(who, moves + [m]), maxDepth)
    ensures var (s1, t1) := Step(s0, t0, m, maxDepth);
            After(s, Moves(who, moves + [m]), maxDepth) == State(s1, s.tickets[who := t1])
  {
    hide Step, Enabled, Feasible, After;
    assert Moves(who, moves + [m]) == Moves(who, moves) + [Do(who, m)];
    RunAppend(s, Moves(who, moves), Do(who, m), maxDepth);
    var t1 := Step(s0, t0, m, maxDepth).1;
    assert s.tickets[who := t0][who := t1] == s.tickets[who := t1];
    assert s.tickets[who := t1] + [] == s.tickets[who := t1];
  }

  /** What the code outside the queue does to a run: a step that raises, and what it raises. */
  datatype Fault = Fault(work: Work, error: Error)

  /** The steps that are not checks. */
  predicate NotACheck(w: Work) {
    w.MarkProcessing? || w.Convert? || w.ReplaceElements? || w.Embed? || w.WriteReady?
  }

  class IngestionQueue {
    const maxDepth: int
    var counter: int
    var collections: map<string, nat>
    var documents: map<string, nat>
    var processing: multiset<Raw>
    var rows: map<string, Status>
    var job: Job

    ghost const home: Store
    ghost const origin: Ticket
    ghost var ticket: Ticket
    ghost var trail: seq<Move>

    ghost function Seen(): Store
      reads this
    {
      Store(counter, collections, documents, processing, rows)
    }

    ghost predicate Valid()
      reads this
    {
      job == ticket.job && Path(home, origin, trail, Seen(), ticket, maxDepth) && Crash !in trail
    }

    /** A worker (or a caller of `enqueue`) with a job, as `t` describes it, over the shared state `s`. */
    constructor (maxDepth: int, s: Store, j: Job, ghost t: Ticket)
      requires t.job == j
      ensures Valid() && Seen() == s && ticket == t && trail == []
      ensures home == s && origin == t && this.maxDepth == maxDepth && job == j
    {
      this.maxDepth := maxDepth;
      counter, collections, documents, processing, rows :=
        s.counter, s.collections, s.documents, s.processing, s.rows;
      job := j;
      home, origin, ticket, trail := s, t, t, [];
    }

    /** Takes note of the step the code has just taken. */
    ghost method Note(before: Store, m: Move)
      requires Path(home, origin, trail, before, ticket, maxDepth) && Crash !in trail && m != Crash
      requires Enabled(before, ticket, m) && Step(before, ticket, m, maxDepth).0 == Seen()
      requires Step(before, ticket, m, maxDepth).1.job == job
      modifies this`ticket, this`trail
      ensures Valid() && ticket == Step(before, old(ticket), m, maxDepth).1 && trail == old(trail) + [m]
    {
      hide Step, Enabled, Path;
      OneMore(home, origin, trail, before, ticket, m, maxDepth);
      ticket := Step(before, ticket, m, maxDepth).1;
      trail := trail + [m];
    }

    /** Takes note of an admission that found the queue full: counted, and taken back. */
    ghost method NoteRefusal(before: Store)
      requires Path(home, origin, trail, before, ticket, maxDepth) && Crash !in trail
      requires Enabled(before, ticket, Admit) && before.counter + 1 > maxDepth && Seen() == before && job == ticket.job
      modifies this`ticket, this`trail
      ensures Valid() && trail == old(trail) + [Admit] + [TakeBack]
      ensures ticket == old(ticket).(phase :=
                if old(ticket).phase == KnowsEpochs then Rejected
                else if old(ticket).phase == Delivered then Deferred else Refused)
    {
      hide Path, Serialize, Open;
      OneMore(home, origin, trail, before, ticket, Admit, maxDepth);
      var (s1, t1) := Step(before, ticket, Admit, maxDepth);
      OneMore(home, origin, trail + [Admit], s1, t1, TakeBack, maxDepth);
      ticket := Step(s1, t1, TakeBack, maxDepth).1;
      trail := trail + [Admit] + [TakeBack];
    }

    // ----- Redis -----

    /** `admit_inflight`: a place when there is one; otherwise the counter ends where it was. */
    method AdmitInflight() returns (admitted: bool)
      modifies this`counter
      ensures admitted == (old(counter) < maxDepth)
      ensures counter == (if admitted then old(counter) + 1 else old(counter))
    {
      counter := counter + 1;
      if counter > maxDepth {
        counter := counter - 1;
        return false;
      }
      admitted := true;
    }

    method ReleaseInflight()
      modifies this`counter
      ensures counter == (if old(counter) >= 1 then old(counter) - 1 else 0)
    {
      counter := counter - 1;
      if counter < 0 {
        counter := 0;
      }
    }

    method UpdateRow(status: Status)
      modifies this`rows
      ensures rows.Keys == old(rows).Keys && (forall d <- rows | d != job.documentId :: rows[d] == old(rows)[d])
      ensures job.documentId in rows ==> rows[job.documentId] == status
      ensures rows == SetRow(old(rows), job.documentId, status)
    {
      if job.documentId in rows {
        rows := rows[job.documentId := status];
      }
    }

    // ----- Before a run -----

    method CaptureEpochs()
      requires Valid() && ticket.phase == New
      modifies this`job, this`ticket, this`trail
      ensures Valid() && ticket.phase == KnowsEpochs && Current(Seen(), job) && job.attempt == old(job.attempt)
    {
      hide Path, Serialize, Open;
      job := job.(collectionEpoch := Epoch(collections, job.collection));
      Note(Seen(), ReadCollectionEpoch);
      job := job.(documentEpoch := Epoch(documents, job.documentId));
      Note(Seen(), ReadDocumentEpoch);
    }

    /** `enqueue` of a new job: captures both epochs, then asks for a place, then sends. */
    method Enqueue(sendRaises: bool) returns (sent: bool)
      requires Valid() && ticket.phase == New && job.attempt == 0
      modifies this`counter, this`job, this`ticket, this`trail
      ensures Valid() && sent == (old(counter) < maxDepth && !sendRaises)
      ensures sent ==> ticket.phase == Queued && counter == old(counter) + 1 && Current(Seen(), job)
      ensures !sent && old(counter) >= 0 ==> ticket.phase == Rejected && counter == old(counter)
    {
      hide Path, Serialize, Open;
      CaptureEpochs();
      ghost var before := Seen();
      var admitted := AdmitInflight();
      if !admitted {
        NoteRefusal(before);
        return false;
      }
      Note(before, Admit);
      SendOrGiveUp(sendRaises);
      sent := !sendRaises;
    }

    method SendOrGiveUp(sendRaises: bool)
      requires Valid() && ticket.phase == Admitted
      modifies this`counter, this`ticket, this`trail
      ensures Valid() && ticket.phase == (if sendRaises then Rejected else Queued)
      ensures !sendRaises ==> counter == old(counter)
      ensures sendRaises && old(counter) >= 1 ==> counter == old(counter) - 1
    {
      hide Path, Serialize, Open;
      ghost var before := Seen();
      if sendRaises {
        Note(before, FailToSend);
        ReleaseInflight();
        Note(before, GiveUp);
      } else {
        Note(before, Send);
      }
    }

    /** `defer_admitted_job` and the resend, when a message arrives during maintenance. */
    method DeferAdmittedJob()
      requires Valid() && ticket.phase == Delivered
      modifies this`counter, this`job, this`ticket, this`trail
      ensures Valid() && ticket.phase == Queued && job == old(job).(released := true)
      ensures old(job.released) ==> counter == old(counter)
      ensures !old(job.released) && old(counter) >= 1 ==> counter == old(counter) - 1
    {
      hide Path, Serialize, Open;
      ghost var before := Seen();
      if !job.released {
        ReleaseInflight();
        job := job.(released := true);
      }
      Note(before, Defer);
      Note(Seen(), Send);
    }

    /** `restore_deferred_admission`, and the resend when the queue is full. */
    method RestoreDeferredAdmission() returns (restored: bool)
      requires Valid() && ticket.phase == Delivered
      modifies this`counter, this`job, this`ticket, this`trail
      ensures Valid() && restored == (!old(job.released) || old(counter) < maxDepth)
      ensures restored ==> ticket.phase == Cleared && job == old(job).(released := false)
      ensures restored ==> counter == old(counter) + (if old(job.released) then 1 else 0)
      ensures !restored ==> ticket.phase == Queued && job == old(job) && counter == old(counter)
    {
      hide Path, Serialize, Open;
      ghost var before := Seen();
      if !job.released {
        Note(before, Pass);
        return true;
      }
      var admitted := AdmitInflight();
      if !admitted {
        NoteRefusal(before);
        Note(Seen(), Send);
        return false;
      }
      job := job.(released := false);
      Note(before, Admit);
      restored := true;
    }

    // ----- A run -----

    /** `ensure_job_current`: one epoch, then the other. */
    method EnsureJobCurrent() returns (current: bool)
      requires Valid() && ticket.phase in {Running(FirstCollection), Running(SecondCollection), Running(ThirdCollection)}
      modifies this`ticket, this`trail
      ensures Valid() && current == Current(Seen(), job)
      ensures ticket.phase ==
              (if current then Running(NextWork(NextWork(old(ticket.phase.work)))) else Raised(Cancelled))
      ensures ticket.listed == old(ticket.listed)
    {
      hide Path, Serialize, Open;
      Note(Seen(), Proceed);
      if Epoch(collections, job.collection) != job.collectionEpoch {
        return false;
      }
      Note(Seen(), Proceed);
      current := Epoch(documents, job.documentId) == job.documentEpoch;
    }

    /** The body of `process_job`, up to its write of "ready" or the first thing that raises. */
    method DoTheWork(fault: Option<Fault>) returns (failure: Option<Error>)
      requires Valid() && ticket.phase == Running(FirstCollection)
      requires fault.Some? ==> NotACheck(fault.value.work) && fault.value.error != Cancelled
      modifies this`rows, this`ticket, this`trail
      ensures Valid()
      ensures failure ==
              if !Current(old(Seen()), job) then Some(Cancelled)
              else if fault.Some? then Some(fault.value.error) else None
      ensures failure == None ==>
                ticket.phase == Marked(Succeeded) && rows == SetRow(old(rows), job.documentId, Ready)
      ensures failure.Some? ==>
                && ticket.phase == Raised(Ending(job, failure.value))
                && (rows == old(rows) || rows == SetRow(old(rows), job.documentId, Processing))
      ensures ticket.listed == old(ticket.listed)
    {
      hide Path, Serialize, Open, SetRow, Step;
      var current := EnsureJobCurrent();
      if !current {
        return Some(Cancelled);
      }
      if fault.Some? && fault.value.work == MarkProcessing {
        RaiseError(fault.value.error);
        return Some(fault.value.error);
      }
      MarkAsProcessing();
      failure := ConvertAndEmbed(fault);
    }

    method RaiseError(error: Error)
      requires Valid() && ticket.phase.Running? && error != Cancelled
      modifies this`ticket, this`trail
      ensures Valid() && ticket.phase == Raised(Ending(job, error)) && ticket.listed == old(ticket.listed)
    {
      hide Path, Serialize, Open;
      Note(Seen(), Raise(error));
    }

    method MarkAsProcessing()
      requires Valid() && ticket.phase == Running(MarkProcessing)
      modifies this`rows, this`ticket, this`trail
      ensures Valid() && ticket.phase == Running(Convert) && ticket.listed == old(ticket.listed)
      ensures rows == SetRow(old(rows), job.documentId, Processing)
    {
      hide Path, Serialize, Open;
      ghost var before := Seen();
      UpdateRow(Processing);
      Note(before, Proceed);
    }

    /** A step outside the queue's code: it raises or it is done. */
    method Outside(work: Work, fault: Option<Fault>) returns (raised: bool)
      requires Valid() && ticket.phase == Running(work) && work in {Convert, ReplaceElements, Embed}
      requires fault.Some? ==> fault.value.error != Cancelled
      modifies this`ticket, this`trail
      ensures Valid() && raised == (fault.Some? && fault.value.work == work)
      ensures ticket.phase == (if raised then Raised(Ending(job, fault.value.error)) else Running(NextWork(work)))
      ensures ticket.listed == old(ticket.listed)
    {
      hide Path, Serialize, Open;
      raised := fault.Some? && fault.value.work == work;
      if raised {
        RaiseError(fault.value.error);
      } else {
        Note(Seen(), Proceed);
      }
    }

    /** Conversion, the second check, the replacement of elements, embedding and the third check. */
    method ConvertAndEmbed(fault: Option<Fault>) returns (failure: Option<Error>)
      requires Valid() && ticket.phase == Running(Convert) && Current(Seen(), job)
      requires job.documentId in rows ==> rows[job.documentId] == Processing
      requires fault.Some? ==>
                 NotACheck(fault.value.work) && fault.value.error != Cancelled && fault.value.work != MarkProcessing
      modifies this`rows, this`ticket, this`trail
      ensures Valid() && failure == if fault.Some? then Some(fault.value.error) else None
      ensures failure == None ==>
                ticket.phase == Marked(Succeeded) && rows == SetRow(old(rows), job.documentId, Ready)
      ensures failure.Some? ==> ticket.phase == Raised(Ending(job, failure.value)) && rows == old(rows)
      ensures ticket.listed == old(ticket.listed)
    {
      hide Path, Serialize, Open, Step, Enabled, Current;
      var raised := Outside(Convert, fault);
      if raised {
        return Some(fault.value.error);
      }
      var current := EnsureJobCurrent();
      raised := Outside(ReplaceElements, fault);
      if raised {
        return Some(fault.value.error);
      }
      failure := EmbedAndWrite(fault);
    }

    /** Embedding, the third check, and the write. */
    method EmbedAndWrite(fault: Option<Fault>) returns (failure: Option<Error>)
      requires Valid() && ticket.phase == Running(Embed) && Current(Seen(), job)
      requires job.documentId in rows ==> rows[job.documentId] == Processing
      requires fault.Some? ==> fault.value.error != Cancelled
      modifies this`rows, this`ticket, this`trail
      ensures Valid() && failure == if fault.Some? then Some(fault.value.error) else None
      ensures failure == None ==>
                ticket.phase == Marked(Succeeded) && rows == SetRow(old(rows), job.documentId, Ready)
      ensures failure.Some? ==> ticket.phase == Raised(Ending(job, failure.value)) && rows == old(rows)
      ensures ticket.listed == old(ticket.listed)
    {
      hide Path, Serialize, Open, Step, Enabled, Current;
      var raised := Outside(Embed, fault);
      if raised {
        return Some(fault.value.error);
      }
      var current := EnsureJobCurrent();
      failure := BecomeReady(fault);
    }

    /** The write of "ready", where the document is still being processed. */
    method BecomeReady(fault: Option<Fault>) returns (failure: Option<Error>)
      requires Valid() && ticket.phase == Running(WriteReady)
      requires job.documentId in rows ==> rows[job.documentId] == Processing
      requires fault.Some? ==> fault.value.error != Cancelled
      modifies this`rows, this`ticket, this`trail
      ensures Valid() && failure == if fault.Some? then Some(fault.value.error) else None
      ensures failure == None ==>
                ticket.phase == Marked(Succeeded) && rows == SetRow(old(rows), job.documentId, Ready)
      ensures failure.Some? ==> ticket.phase == Raised(Ending(job, failure.value)) && rows == old(rows)
      ensures ticket.listed == old(ticket.listed)
    {
      hide Path, Serialize, Open;
      if fault.Some? {
        RaiseError(fault.value.error);
        return Some(fault.value.error);
      }
      ghost var before := Seen();
      if job.documentId in rows && rows[job.documentId] == Processing {
        rows := rows[job.documentId := Ready];
      }
      Note(before, Proceed);
      failure := None;
    }

    // ----- Finalizers -----

    method ReleaseJob()
      requires Valid() && (ticket.phase.Marked? || ticket.phase == Cleaned(Transient)) && counter >= 1
      modifies this`counter, this`ticket, this`trail
      ensures Valid() && counter == old(counter) - 1 && ticket.listed == old(ticket.listed)
      ensures ticket.phase == (if old(ticket).phase.Marked? then Leaving(Some(old(ticket).phase.outcome)) else GaveBack)
    {
      hide Path, Serialize, Open;
      ghost var before := Seen();
      ReleaseInflight();
      Note(before, GiveBack);
    }

    method FailDocument()
      requires Valid() && (ticket.phase == Cleaned(Cancelled) || ticket.phase == Buried || ticket.phase == Refused)
      modifies this`rows, this`ticket, this`trail
      ensures Valid() && rows == SetRow(old(rows), job.documentId, Failed) && ticket.listed == old(ticket.listed)
      ensures rows.Keys == old(rows).Keys && (forall d <- rows | d != job.documentId :: rows[d] == old(rows)[d])
      ensures job.documentId in rows ==> rows[job.documentId] == Failed
      ensures ticket.phase ==
              (if old(ticket).phase == Buried then Marked(FailedForGood)
               else if old(ticket).phase == Refused then Leaving(Some(FailedOnFull)) else Marked(WasCancelled))
    {
      hide Path, Serialize, Open;
      ghost var before := Seen();
      UpdateRow(Failed);
      Note(before, Mark);
    }

    method DeleteVectorsAfterFailure()
      requires Valid() && ticket.phase.Raised?
      modifies this`ticket, this`trail
      ensures Valid() && ticket.phase == Cleaned(old(ticket).phase.error) && ticket.listed == old(ticket.listed)
    {
      hide Path, Serialize, Open;
      Note(Seen(), Clean);
    }

    method FinalizeSuccess()
      requires Valid() && ticket.phase == Marked(Succeeded) && counter >= 1
      modifies this`counter, this`ticket, this`trail
      ensures Valid() && ticket.phase == Leaving(Some(Succeeded)) && counter == old(counter) - 1
      ensures ticket.listed == old(ticket.listed)
    {
      hide Path, Serialize, Open;
      ReleaseJob();
    }

    method FinalizeCancelled()
      requires Valid() && ticket.phase == Raised(Cancelled) && counter >= 1
      modifies this`counter, this`rows, this`ticket, this`trail
      ensures Valid() && ticket.phase == Leaving(Some(WasCancelled)) && counter == old(counter) - 1
      ensures rows.Keys == old(rows).Keys && (forall d <- rows | d != job.documentId :: rows[d] == old(rows)[d])
      ensures job.documentId in rows ==> rows[job.documentId] == Failed
      ensures rows == SetRow(old(rows), job.documentId, Failed) && ticket.listed == old(ticket.listed)
    {
      hide *;
      DeleteVectorsAfterFailure();
      FailDocument();
      ReleaseJob();
    }

    method FinalizeRetry() returns (retried: bool)
      requires Valid() && ticket.phase == Raised(Transient) && counter >= 1
      modifies this`counter, this`rows, this`ticket, this`trail
      ensures Valid() && retried == (old(counter) <= maxDepth) && ticket.listed == old(ticket.listed)
      ensures retried ==> ticket.phase == Leaving(None) && counter == old(counter)
      ensures retried ==> rows == SetRow(old(rows), job.documentId, Pending)
      ensures !retried ==> ticket.phase == Leaving(Some(FailedOnFull)) && counter == old(counter) - 1
      ensures rows.Keys == old(rows).Keys && (forall d <- rows | d != job.documentId :: rows[d] == old(rows)[d])
      ensures job.documentId in rows ==> rows[job.documentId] == if retried then Pending else Failed
      ensures !retried ==> rows == SetRow(old(rows), job.documentId, Failed)
    {
      hide *;
      DeleteVectorsAfterFailure();
      ReleaseJob();
      retried := EnqueueRetry();
      if retried {
        MarkForRetry();
      } else {
        FailDocument();
      }
    }

    /** `enqueue_retry`: a place first, then the message. */
    method EnqueueRetry() returns (sent: bool)
      requires Valid() && ticket.phase == GaveBack
      modifies this`counter, this`ticket, this`trail
      ensures Valid() && sent == (old(counter) < maxDepth) && ticket.listed == old(ticket.listed)
      ensures sent ==> ticket.phase == Resent && counter == old(counter) + 1
      ensures !sent ==> ticket.phase == Refused && counter == old(counter)
    {
      hide Path, Serialize, Open;
      ghost var before := Seen();
      sent := AdmitInflight();
      if sent {
        Note(before, Admit);
        Note(Seen(), Send);
      } else {
        NoteRefusal(before);
      }
    }

    method MarkForRetry()
      requires Valid() && ticket.phase == Resent
      modifies this`rows, this`ticket, this`trail
      ensures Valid() && ticket.phase == Leaving(None) && ticket.listed == old(ticket.listed)
      ensures rows == SetRow(old(rows), job.documentId, Pending)
    {
      hide Path, Serialize, Open;
      ghost var before := Seen();
      UpdateRow(Pending);
      Note(before, MarkPendingAgain);
    }

    method BuryJob()
      requires Valid() && ticket.phase == Cleaned(Permanent)
      modifies this`ticket, this`trail
      ensures Valid() && ticket.phase == Buried && ticket.listed == old(ticket.listed)
    {
      hide Path, Serialize, Open;
      Note(Seen(), Bury);
    }

    method FinalizePermanent()
      requires Valid() && ticket.phase == Raised(Permanent) && counter >= 1
      modifies this`counter, this`rows, this`ticket, this`trail
      ensures Valid() && ticket.phase == Leaving(Some(FailedForGood)) && counter == old(counter) - 1
      ensures rows.Keys == old(rows).Keys && (forall d <- rows | d != job.documentId :: rows[d] == old(rows)[d])
      ensures job.documentId in rows ==> rows[job.documentId] == Failed
      ensures rows == SetRow(old(rows), job.documentId, Failed) && ticket.listed == old(ticket.listed)
    {
      hide *;
      DeleteVectorsAfterFailure();
      BuryJob();
      FailDocument();
      ReleaseJob();
    }

    // ----- The whole run -----

    /** `process_leased_job` from start to end. A stale epoch cancels the job; without one, a run that
        nothing disturbs succeeds; a transient error is retried while attempts are left and a place is
        to be had. The list ends as it was, whatever happened; the place is given back, except that a
        retry keeps one. */
    method ProcessLeasedJob(fault: Option<Fault>)
      requires Valid() && ticket.phase == Cleared && counter >= 1
      requires fault.Some? ==> NotACheck(fault.value.work) && fault.value.error != Cancelled
      modifies this`counter, this`processing, this`rows, this`job, this`ticket, this`trail
      ensures Valid() && job == old(job).(attempt := old(job.attempt) + 1)
      ensures processing == old(processing)
      ensures counter == (if ticket.phase == Queued then old(counter) else old(counter) - 1)
      ensures ticket.phase ==
              if !Current(old(Seen()), old(job)) then Ended(WasCancelled)
              else if fault == None then Ended(Succeeded)
              else if fault.value.error == Permanent || job.attempt >= job.maxAttempts then Ended(FailedForGood)
              else if old(counter) > maxDepth then Ended(FailedOnFull)
              else Queued
      ensures rows == SetRow(old(rows), job.documentId,
                if ticket.phase == Ended(Succeeded) then Ready else if ticket.phase == Queued then Pending else Failed)
      ensures rows.Keys == old(rows).Keys && (forall d <- rows | d != job.documentId :: rows[d] == old(rows)[d])
      ensures job.documentId in rows ==>
                (rows[job.documentId] ==
                 if ticket.phase == Ended(Succeeded) then Ready
                 else if ticket.phase == Queued then Pending else Failed)
    {
      hide Path, SetRow, Open, Current, Step, Serialize, Enabled;
      var raw := Serialize(job);
      Begin(raw);
      RunToTheEnd(fault);
      Leave(raw);
    }

    /** The work and its finalizer, with the entry in the list all the while. */
    method RunToTheEnd(fault: Option<Fault>)
      requires Valid() && ticket.phase == Running(FirstCollection) && counter >= 1
      requires fault.Some? ==> NotACheck(fault.value.work) && fault.value.error != Cancelled
      modifies this`counter, this`rows, this`ticket, this`trail
      ensures Valid() && ticket.listed == old(ticket.listed)
      ensures counter == (if ticket.phase == Leaving(None) then old(counter) else old(counter) - 1)
      ensures ticket.phase == Leaving(
                if !Current(old(Seen()), job) then Some(WasCancelled)
                else if fault == None then Some(Succeeded)
                else if fault.value.error == Permanent || job.attempt >= job.maxAttempts then Some(FailedForGood)
                else if old(counter) > maxDepth then Some(FailedOnFull)
                else None)
      ensures rows == SetRow(old(rows), job.documentId,
                if ticket.phase == Leaving(Some(Succeeded)) then Ready
                else if ticket.phase == Leaving(None) then Pending else Failed)
    {
      hide Path, SetRow, Open, Current, Step, Serialize, Enabled;
      OverwrittenRow(rows, job.documentId, Pending);
      OverwrittenRow(rows, job.documentId, Failed);
      var failure := DoTheWork(fault);
      Finalize(failure);
    }

    method Begin(raw: Raw)
      requires Valid() && ticket.phase == Cleared && raw == Serialize(job)
      modifies this`processing, this`job, this`ticket, this`trail
      ensures Valid() && ticket.phase == Running(FirstCollection) && ticket.listed == old(job)
      ensures processing == old(processing) + multiset{raw} && job == old(job).(attempt := old(job.attempt) + 1)
      ensures Current(Seen(), job) == Current(old(Seen()), old(job))
    {
      hide Path, Open;
      ghost var before := Seen();
      processing := processing + multiset{raw};
      job := job.(attempt := job.attempt + 1);
      Note(before, Push);
    }

    /** The choice of a finalizer. */
    method Finalize(failure: Option<Error>)
      requires Valid() && counter >= 1
      requires match failure
               case None => ticket.phase == Marked(Succeeded)
               case Some(e) => ticket.phase == Raised(Ending(job, e))
      modifies this`counter, this`rows, this`ticket, this`trail
      ensures Valid() && ticket.listed == old(ticket.listed)
      ensures ticket.phase == Leaving(
                if failure == None then Some(Succeeded)
                else if failure == Some(Cancelled) then Some(WasCancelled)
                else if failure == Some(Permanent) || job.attempt >= job.maxAttempts then Some(FailedForGood)
                else if old(counter) > maxDepth then Some(FailedOnFull)
                else None)
      ensures counter == (if ticket.phase == Leaving(None) then old(counter) else old(counter) - 1)
      ensures rows ==
              if ticket.phase == Leaving(Some(Succeeded)) then old(rows)
              else SetRow(old(rows), job.documentId, if ticket.phase == Leaving(None) then Pending else Failed)
    {
      hide Path, Serialize, Open, Step, Enabled, SetRow;
      match failure {
        case None => FinalizeSuccess();
        case Some(error) =>
          if error == Cancelled {
            FinalizeCancelled();
          } else if error == Transient && job.attempt < job.maxAttempts {
            var retried := FinalizeRetry();
          } else {
            FinalizePermanent();
          }
      }
    }

    method Leave(raw: Raw)
      requires Valid() && ticket.phase.Leaving? && raw == Serialize(ticket.listed)
      modifies this`processing, this`ticket, this`trail
      ensures Valid() && processing == old(processing) - multiset{raw}
      ensures ticket.phase == match old(ticket).phase.ended case Some(o) => Ended(o) case None => Queued
    {
      hide Path, Open;
      ghost var before := Seen();
      processing := processing - multiset{raw};
      Note(before, Unlist);
    }
  }

  lemma OverwrittenRow(rows: map<string, Status>, id: string, status: Status)
    ensures SetRow(SetRow(rows, id, Processing), id, status) == SetRow(rows, id, status)
  {}
}
