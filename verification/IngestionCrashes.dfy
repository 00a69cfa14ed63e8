/** A death at a bad moment, step by step: a worker dies after it sent its retry, recovery sends the entry
    again, and two messages share one place until the second release meets the clamp. */
module IngestionCrashes {
  import opened IngestionJob
  import opened Options
  import opened QueueRecovery
  import opened IngestionSteps
  import opened IngestionAccounts
  import opened IngestionRuns

  /** One move of one job, which leaves nothing behind. */
  lemma Go(s0: State, s: State, who: nat, m: Move, maxDepth: int) returns (s1: State)
    requires Leads(s0, s, maxDepth) && who < |s.tickets| && Enabled(s.store, s.tickets[who], m)
    requires LeftBehind(s.tickets[who], m) == []
    ensures Leads(s0, s1, maxDepth)
    ensures s1.store == Step(s.store, s.tickets[who], m, maxDepth).0
    ensures s1.tickets == s.tickets[who := Step(s.store, s.tickets[who], m, maxDepth).1]
  {
    hide Step, Enabled, LeftBehind, Leads;
    OneEvent(s0, s, Do(who, m), maxDepth);
    s1 := Apply(s, Do(who, m), maxDepth);
  }

  /** A queued job that holds a place runs into an error. */
  lemma RunIntoError(s0: State, s: State, who: nat, e: Error, maxDepth: int) returns (s1: State)
    requires Leads(s0, s, maxDepth) && who < |s.tickets|
    requires s.tickets[who].phase == Queued && !s.tickets[who].job.released && e != Cancelled
    ensures Leads(s0, s1, maxDepth)
    ensures s1.store.counter == s.store.counter && s1.store.rows == s.store.rows
    ensures |s1.tickets| == |s.tickets| && forall i | 0 <= i < |s.tickets| && i != who :: s1.tickets[i] == s.tickets[i]
    ensures var j := s.tickets[who].job;
            var next := j.(attempt := j.attempt + 1);
            && s1.tickets[who].job == next && s1.tickets[who].listed == j
            && s1.tickets[who].phase == Cleaned(Ending(next, e)) && s1.tickets[who].unbacked == s.tickets[who].unbacked
  {
    hide Leads, Serialize, Open, Passes, Current;
    s1 := Go(s0, s, who, Deliver, maxDepth);
    s1 := Go(s0, s1, who, Pass, maxDepth);
    s1 := Go(s0, s1, who, Push, maxDepth);
    s1 := Go(s0, s1, who, Raise(e), maxDepth);
    s1 := Go(s0, s1, who, Clean, maxDepth);
  }

  /** A queued job that holds a place fails for good, up to its release. */
  lemma FailForGood(s0: State, s: State, who: nat, maxDepth: int) returns (s1: State)
    requires Leads(s0, s, maxDepth) && who < |s.tickets|
    requires s.tickets[who].phase == Queued && !s.tickets[who].job.released
    ensures Leads(s0, s1, maxDepth)
    ensures s1.store.counter == s.store.counter
    ensures |s1.tickets| == |s.tickets| && forall i | 0 <= i < |s.tickets| && i != who :: s1.tickets[i] == s.tickets[i]
    ensures s1.tickets[who].phase == Marked(FailedForGood)
  {
    s1 := RunIntoError(s0, s, who, Permanent, maxDepth);
    hide Leads, Serialize, Open, Passes, Current;
    s1 := Go(s0, s1, who, Bury, maxDepth);
    s1 := Go(s0, s1, who, Mark, maxDepth);
  }

  lemma Enqueued(j: Job, rows: map<string, Status>, maxDepth: nat) returns (s: State)
    requires j.attempt == 0 && !j.released && maxDepth >= 1
    ensures Leads(Initial(rows), s, maxDepth)
    ensures s.store.counter == 1 && s.store.rows == rows && |s.tickets| == 1
    ensures var t := s.tickets[0];
            && t.phase == Queued && t.job.documentId == j.documentId && t.job.attempt == 0 && !t.job.released
            && t.job.maxAttempts == j.maxAttempts && t.unbacked == 0
  {
    var s0 := Initial(rows);
    LeadsNowhere(s0, maxDepth);
    OneEvent(s0, s0, Create(j), maxDepth);
    s := Apply(s0, Create(j), maxDepth);
    hide Leads;
    s := Go(s0, s, 0, ReadCollectionEpoch, maxDepth);
    s := Go(s0, s, 0, ReadDocumentEpoch, maxDepth);
    s := Go(s0, s, 0, Admit, maxDepth);
    s := Go(s0, s, 0, Send, maxDepth);
  }

  /** A run that failed gives its place back, takes one again, and sends the retry. */
  lemma SendRetry(s0: State, s: State, who: nat, maxDepth: int) returns (s1: State)
    requires Leads(s0, s, maxDepth) && who < |s.tickets|
    requires s.tickets[who].phase == Cleaned(Transient) && s.store.counter == 1 && maxDepth >= 1
    ensures Leads(s0, s1, maxDepth)
    ensures s1.store.counter == 1 && s1.store.rows == s.store.rows && |s1.tickets| == |s.tickets|
    ensures var t := s1.tickets[who];
            t.phase == Resent && t.job == s.tickets[who].job && t.listed == s.tickets[who].listed
  {
    hide Leads, Serialize, Open, Passes, Current;
    s1 := Go(s0, s, who, GiveBack, maxDepth);
    s1 := Go(s0, s1, who, Admit, maxDepth);
    s1 := Go(s0, s1, who, Send, maxDepth);
  }

  lemma Die(s0: State, s: State, maxDepth: int) returns (s1: State)
    requires Leads(s0, s, maxDepth) && |s.tickets| == 1
    requires s.tickets[0].phase == Resent && !s.tickets[0].job.released
    ensures Leads(s0, s1, maxDepth)
    ensures s1.store == s.store && |s1.tickets| == 2
    ensures s1.tickets[0].phase == Crashed(AfterSending) && s1.tickets[0].listed == s.tickets[0].listed
    ensures s1.tickets[1].phase == Queued && !s1.tickets[1].job.released
  {
    OneEvent(s0, s, Do(0, Crash), maxDepth);
    hide Leads;
    s1 := Apply(s, Do(0, Crash), maxDepth);
  }

  /** The worker dies there; recovery sends the entry again. */
  lemma DieAndRecover(s0: State, s: State, maxDepth: int) returns (s1: State)
    requires Leads(s0, s, maxDepth) && |s.tickets| == 1
    requires var t := s.tickets[0];
             t.phase == Resent && !t.job.released && !t.listed.released && Open(s.store.rows, t.listed.documentId)
    ensures Leads(s0, s1, maxDepth)
    ensures s1.store.counter == s.store.counter && |s1.tickets| == 2
    ensures forall t <- s1.tickets :: t.phase == Queued && !t.job.released
  {
    s1 := Die(s0, s, maxDepth);
    hide Leads, Serialize, Passes, Current;
    s1 := Go(s0, s1, 0, TakeOff, maxDepth);
    s1 := Go(s0, s1, 0, Requeue, maxDepth);
  }

  lemma TwoMessages(j: Job, rows: map<string, Status>, maxDepth: nat) returns (s: State)
    requires j.attempt == 0 && !j.released && j.maxAttempts > 1 && maxDepth >= 1 && Open(rows, j.documentId)
    ensures Leads(Initial(rows), s, maxDepth)
    ensures s.store.counter == 1 && |s.tickets| == 2
    ensures forall t <- s.tickets :: t.phase == Queued && !t.job.released
  {
    var s0 := Initial(rows);
    s := Enqueued(j, rows, maxDepth);
    s := RunIntoError(s0, s, 0, Transient, maxDepth);
    hide Leads, Open;
    s := SendRetry(s0, s, 0, maxDepth);
    s := DieAndRecover(s0, s, maxDepth);
  }

  /** For any job with an attempt to spare, on a queue with room for one: the two messages both run, one
      place is given back twice, and the second release finds the counter at zero. */
  lemma ClampIsReached(j: Job, rows: map<string, Status>, maxDepth: nat)
    requires j.attempt == 0 && !j.released && j.maxAttempts > 1 && maxDepth >= 1 && Open(rows, j.documentId)
    ensures exists run ::
              && Feasible(Initial(rows), run, maxDepth)
              && Allowed(After(Initial(rows), run, maxDepth), Do(0, GiveBack))
              && MeetsTheClamp(After(Initial(rows), run, maxDepth), Do(0, GiveBack))
  {
    var s0 := Initial(rows);
    var s := TwoMessages(j, rows, maxDepth);
    s := FailForGood(s0, s, 1, maxDepth);
    s := FailForGood(s0, s, 0, maxDepth);
    s := Go(s0, s, 1, GiveBack, maxDepth);
    assert s.store.counter == 0 && s.tickets[0].phase == Marked(FailedForGood);
    hide Feasible, After, Step;
    var run :| Feasible(s0, run, maxDepth) && After(s0, run, maxDepth) == s;
    assert Allowed(s, Do(0, GiveBack)) && MeetsTheClamp(s, Do(0, GiveBack));
  }

  // ----- A death above the limit -----

  /** Another job takes the only place. */
  lemma TakePlace(s0: State, s: State, k: Job) returns (s1: State)
    requires Leads(s0, s, 1) && |s.tickets| == 1 && s.store.counter == 0 && k.attempt == 0 && !k.released
    ensures Leads(s0, s1, 1)
    ensures s1.store.counter == 1 && s1.store.rows == s.store.rows && |s1.tickets| == 2
    ensures s1.tickets[0] == s.tickets[0] && s1.tickets[1].phase == Admitted && s1.tickets[1].unbacked == 0
  {
    OneEvent(s0, s, Create(k), 1);
    hide Leads, Serialize, Passes, Current, Open;
    s1 := Apply(s, Create(k), 1);
    s1 := Go(s0, s1, 1, ReadCollectionEpoch, 1);
    s1 := Go(s0, s1, 1, ReadDocumentEpoch, 1);
    s1 := Go(s0, s1, 1, Admit, 1);
  }

  /** With a limit of one: while a failed job waits to be admitted again, another takes the place. */
  lemma PlaceTaken(j: Job, k: Job, rows: map<string, Status>) returns (s: State)
    requires j.attempt == 0 && !j.released && j.maxAttempts > 1 && k.attempt == 0 && !k.released
    ensures Leads(Initial(rows), s, 1)
    ensures s.store.counter == 1 && s.store.rows == rows && |s.tickets| == 2
    ensures var t := s.tickets[0];
            t.phase == GaveBack && t.listed.documentId == j.documentId && !t.listed.released && t.unbacked == 0
    ensures s.tickets[1].phase == Admitted && s.tickets[1].unbacked == 0
  {
    var s0 := Initial(rows);
    s := Enqueued(j, rows, 1);
    s := RunIntoError(s0, s, 0, Transient, 1);
    hide Leads, Serialize, Passes, Current, Open;
    s := Go(s0, s, 0, GiveBack, 1);
    s := TakePlace(s0, s, k);
  }

  /** Its worker dies after it was counted above the limit; recovery sends it again. */
  lemma DieAboveTheLimit(s0: State, s: State) returns (s1: State)
    requires Leads(s0, s, 1) && |s.tickets| == 2 && s.store.counter == 1
    requires s.tickets[0].phase == GaveBack && Open(s.store.rows, s.tickets[0].listed.documentId)
    ensures Leads(s0, s1, 1)
    ensures |s1.tickets| == 2 && s1.tickets[1] == s.tickets[1] && s1.tickets[0].phase == Queued
    ensures s1.tickets[0].unbacked == s.tickets[0].unbacked && s1.tickets[0].job == s.tickets[0].listed
  {
    hide Leads, Serialize, Passes, Current;
    s1 := CountedAndDead(s0, s);
    s1 := Go(s0, s1, 0, TakeOff, 1);
    s1 := Go(s0, s1, 0, Requeue, 1);
  }

  lemma CountedAndDead(s0: State, s: State) returns (s1: State)
    requires Leads(s0, s, 1) && |s.tickets| == 2 && s.store.counter == 1 && s.tickets[0].phase == GaveBack
    ensures Leads(s0, s1, 1) && s1.store.rows == s.store.rows
    ensures |s1.tickets| == 2 && s1.tickets[1] == s.tickets[1] && s1.tickets[0].phase == Crashed(AboveLimit)
    ensures s1.tickets[0].unbacked == s.tickets[0].unbacked && s1.tickets[0].listed == s.tickets[0].listed
  {
    hide Leads, Serialize, Passes, Current, Open;
    s1 := Go(s0, s, 0, Admit, 1);
    s1 := Go(s0, s1, 0, Crash, 1);
  }

  /** Then two jobs hold a place where the limit is one, although every return to the queue was backed: the
      allowance for such deaths in the bound is needed. */
  lemma LimitIsExceeded(j: Job, k: Job, rows: map<string, Status>)
    requires j.attempt == 0 && !j.released && j.maxAttempts > 1 && k.attempt == 0 && !k.released
    requires Open(rows, j.documentId)
    ensures exists s :: Leads(Initial(rows), s, 1) && Count(s.tickets, Live) == 2 && Sum(s.tickets, Unbacked) == 0
  {
    var s0 := Initial(rows);
    var s := PlaceTaken(j, k, rows);
    s := DieAboveTheLimit(s0, s);
    Pair(s.tickets);
    assert Live(s.tickets[0]) && Live(s.tickets[1]);
    hide Leads, Count, Sum;
  }

  lemma Pair(ts: seq<Ticket>)
    requires |ts| == 2
    ensures Count(ts, Live) == (if Live(ts[0]) then 1 else 0) + (if Live(ts[1]) then 1 else 0)
    ensures Sum(ts, Unbacked) == ts[0].unbacked + ts[1].unbacked
  {
    hide Live;
    assert ts[..1][..0] == [];
    assert Count(ts[..1], Live) == Count([], Live) + (if Live(ts[0]) then 1 else 0);
    assert Sum(ts[..1], Unbacked) == Sum([], Unbacked) + Unbacked(ts[0]);
  }
}
