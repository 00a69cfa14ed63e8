/** What a run writes to its document's row, and what the row says when nobody else writes it. */
module IngestionRows {
  import opened IngestionJob
  import opened Options
  import opened QueueRecovery
  import opened IngestionSteps
  import opened IngestionStories

  /** Of all rows, a step changes at most that of its job's document. */
  lemma StepsWriteTheirOwnRow(s: Store, t: Ticket, m: Move, maxDepth: int)
    requires Enabled(s, t, m)
    ensures var s1 := Step(s, t, m, maxDepth).0;
            && s1.rows.Keys == s.rows.Keys
            && forall d <- s.rows | d != t.job.documentId && d != t.listed.documentId :: s1.rows[d] == s.rows[d]
  {
    hide Serialize, Current, Passes;
  }

  /** A step that tells of a write to the row has written just that, the write of "ready" only where the
      document was being processed; any other step of a run leaves all rows alone. */
  lemma EffectsNameTheirWrites(s: Store, t: Ticket, m: Move, maxDepth: int)
    requires Enabled(s, t, m) && m != Requeue
    ensures var (s1, t1) := Step(s, t, m, maxDepth);
            var d := t.job.documentId;
            && (t1.story == t.story + [SetProcessing] && d in s.rows ==> s1.rows[d] == Processing)
            && (t1.story == t.story + [SetReady] && d in s.rows ==>
                  s1.rows[d] == if s.rows[d] == Processing then Ready else s.rows[d])
            && (t1.story == t.story + [SetFailed] && d in s.rows ==> s1.rows[d] == Failed)
            && (t1.story == t.story + [SetPending] && d in s.rows ==> s1.rows[d] == Pending)
            && (s1.rows != s.rows ==>
                  || t1.story == t.story + [SetProcessing] || t1.story == t.story + [SetReady]
                  || t1.story == t.story + [SetFailed] || t1.story == t.story + [SetPending])
  {
    hide Serialize, Current, Passes, SetRow, RequeueStep;
    LastEffect(t.story, SetProcessing);
    LastEffect(t.story, SetReady);
    LastEffect(t.story, SetFailed);
    LastEffect(t.story, SetPending);
  }

  lemma LastEffect(story: seq<Effect>, e: Effect)
    ensures |story + [e]| == |story| + 1 && (story + [e])[|story|] == e
  {}

  /** What the row of a job says in the phases after a write, unless somebody else wrote it. */
  function Told(p: Phase): Option<Status> {
    match p
    case Running(w) => if Began(w) then Some(Processing) else None
    case Marked(o) => Some(if o == Succeeded then Ready else Failed)
    case Leaving(ended) => Some(if ended == None then Pending else if ended == Some(Succeeded) then Ready else Failed)
    case Ended(o) => Some(if o == Succeeded then Ready else Failed)
    case _ => None
  }

  predicate RowTells(rows: map<string, Status>, t: Ticket) {
    t.job.documentId in rows && Told(t.phase).Some? ==> rows[t.job.documentId] == Told(t.phase).value
  }

  /** The event leaves the row of job `who` to that job: rows do not change from outside, and no other job
      that takes a step is for the same document. */
  predicate LeavesRow(s: State, e: Event, who: nat)
    requires who < |s.tickets|
  {
    match e
    case ChangeRows(_) => false
    case Do(i, _) =>
      i == who || (i < |s.tickets| && s.tickets[who].job.documentId
                     !in {s.tickets[i].job.documentId, s.tickets[i].listed.documentId})
    case _ => true
  }

  predicate Undisturbed(s: State, run: seq<Event>, who: nat, maxDepth: int)
    requires Feasible(s, run, maxDepth) && who < |s.tickets|
    decreases |run|
  {
    run == [] || (LeavesRow(s, run[0], who) && Undisturbed(Apply(s, run[0], maxDepth), run[1..], who, maxDepth))
  }

  lemma OwnStepTells(s: Store, t: Ticket, m: Move, maxDepth: int)
    requires Enabled(s, t, m) && RowTells(s.rows, t)
    ensures var (s1, t1) := Step(s, t, m, maxDepth); RowTells(s1.rows, t1)
  {
    hide Serialize, Current, Passes, SetRow;
  }

  lemma EventTells(s: State, e: Event, who: nat, maxDepth: int)
    requires Allowed(s, e) && who < |s.tickets| && RowTells(s.store.rows, s.tickets[who]) && LeavesRow(s, e, who)
    ensures var s1 := Apply(s, e, maxDepth); who < |s1.tickets| && RowTells(s1.store.rows, s1.tickets[who])
  {
    hide Step, Enabled, RowTells, LeftBehind;
    if e.Do? {
      if e.who == who {
        OwnStepTells(s.store, s.tickets[who], e.move, maxDepth);
      } else {
        StepsWriteTheirOwnRow(s.store, s.tickets[e.who], e.move, maxDepth);
        SameRow(s.store.rows, Step(s.store, s.tickets[e.who], e.move, maxDepth).0.rows, s.tickets[who]);
      }
    }
  }

  lemma SameRow(rows: map<string, Status>, rows1: map<string, Status>, t: Ticket)
    requires RowTells(rows, t) && rows1.Keys == rows.Keys
    requires t.job.documentId in rows ==> rows1[t.job.documentId] == rows[t.job.documentId]
    ensures RowTells(rows1, t)
  {}

  lemma {:induction false} RowTellsOn(s: State, run: seq<Event>, who: nat, maxDepth: int)
    requires Feasible(s, run, maxDepth) && who < |s.tickets|
    requires RowTells(s.store.rows, s.tickets[who]) && Undisturbed(s, run, who, maxDepth)
    ensures var s1 := After(s, run, maxDepth); who < |s1.tickets| && RowTells(s1.store.rows, s1.tickets[who])
    decreases |run|
  {
    hide Apply, Allowed, RowTells, LeavesRow;
    if run != [] {
      EventTells(s, run[0], who, maxDepth);
      RowTellsOn(Apply(s, run[0], maxDepth), run[1..], who, maxDepth);
    }
  }

  /** From any moment at which a job is with the broker, through deaths, deferrals and retries, in any
      interleaving that leaves its document's row to it: when it has ended, the row reads "ready" if it
      succeeded and "failed" if it did not; while a retry is on its way out, the row reads "pending". */
  lemma RowSaysHowItEnded(s: State, run: seq<Event>, who: nat, maxDepth: int)
    requires Feasible(s, run, maxDepth) && who < |s.tickets| && s.tickets[who].phase == Queued
    requires Undisturbed(s, run, who, maxDepth)
    ensures var s1 := After(s, run, maxDepth);
            && who < |s1.tickets|
            && var (t, rows) := (s1.tickets[who], s1.store.rows);
               t.job.documentId in rows ==>
                 && (t.phase == Ended(Succeeded) ==> rows[t.job.documentId] == Ready)
                 && (t.phase.Ended? && t.phase != Ended(Succeeded) ==> rows[t.job.documentId] == Failed)
                 && (t.phase == Leaving(None) ==> rows[t.job.documentId] == Pending)
  {
    RowTellsOn(s, run, who, maxDepth);
    hide After, Feasible, Undisturbed;
  }
}
