/** What holds in every state the queue can reach: admission, attempts, the processing list, and what
    each ending did. */
module IngestionRuns {
  import opened IngestionJob
  import opened Options
  import opened QueueRecovery
  import opened IngestionSteps
  import opened IngestionAccounts

  lemma {:induction false} RunIsSound(s: State, run: seq<Event>, maxDepth: nat)
    requires Sound(s, maxDepth) && Feasible(s, run, maxDepth)
    ensures Sound(After(s, run, maxDepth), maxDepth)
    decreases |run|
  {
    hide Sound, Apply, Allowed;
    if run != [] {
      ApplyIsSound(s, run[0], maxDepth);
      RunIsSound(Apply(s, run[0], maxDepth), run[1..], maxDepth);
    }
  }

  lemma Reachable(rows: map<string, Status>, run: seq<Event>, maxDepth: nat)
    requires Feasible(Initial(rows), run, maxDepth)
    ensures Sound(After(Initial(rows), run, maxDepth), maxDepth)
  {
    RunIsSound(Initial(rows), run, maxDepth);
  }

  /** Some run leads from one state to another. */
  ghost predicate Leads(s0: State, s: State, maxDepth: int) {
    exists run :: Feasible(s0, run, maxDepth) && After(s0, run, maxDepth) == s
  }

  lemma OneEvent(s0: State, s: State, e: Event, maxDepth: int)
    requires Leads(s0, s, maxDepth) && Allowed(s, e)
    ensures Leads(s0, Apply(s, e, maxDepth), maxDepth)
  {
    hide Feasible, After, Apply, Allowed;
    var run :| Feasible(s0, run, maxDepth) && After(s0, run, maxDepth) == s;
    RunAppend(s0, run, e, maxDepth);
  }

  lemma LeadsNowhere(s0: State, maxDepth: int)
    ensures Leads(s0, s0, maxDepth)
  {
    assert Feasible(s0, [], maxDepth) && After(s0, [], maxDepth) == s0;
  }

  // ----- Admission -----

  function Count(ts: seq<Ticket>, p: Ticket -> bool): nat {
    if ts == [] then 0 else Count(ts[..|ts| - 1], p) + (if p(ts[|ts| - 1]) then 1 else 0)
  }

  predicate Live(t: Ticket) {
    HoldsPlace(t) && !t.phase.Dropped?
  }

  predicate Lost(t: Ticket) {
    HoldsPlace(t) && t.phase.Dropped?
  }

  predicate BeingTakenBack(t: Ticket) {
    t.phase.Overfull?
  }

  lemma {:induction false} SumsAreCounts(ts: seq<Ticket>)
    ensures Sum(ts, Owed) == Count(ts, Live) + Count(ts, BeingTakenBack) + Count(ts, Lost)
    ensures Sum(ts, Claim) == Count(ts, Live) + Count(ts, Lost)
  {
    if ts != [] {
      SumsAreCounts(ts[..|ts| - 1]);
      OneCounts(ts[|ts| - 1]);
      hide Owed, Claim, Live, Lost, BeingTakenBack;
    }
  }

  lemma OneCounts(t: Ticket)
    ensures Claim(t) == (if Live(t) then 1 else 0) + (if Lost(t) then 1 else 0)
    ensures Owed(t) == Claim(t) + (if BeingTakenBack(t) then 1 else 0)
  {}

  /** Through every interleaving and every death of a worker: the places that jobs hold and have lost
      exceed the limit by no more than the deaths between a refused count and its taking back, and the
      unbacked returns to the queue; and a job with the broker is flagged exactly when it holds none. */
  lemma AdmissionIsBounded(rows: map<string, Status>, run: seq<Event>, maxDepth: nat)
    requires Feasible(Initial(rows), run, maxDepth)
    ensures var s := After(Initial(rows), run, maxDepth);
            && Count(s.tickets, Live) + Count(s.tickets, Lost)
                 <= maxDepth + Sum(s.tickets, Strays) + Sum(s.tickets, Unbacked)
            && forall t <- s.tickets | t.phase in {Queued, Delivered, Deferred} ::
                 (t.job.released <==> t.taken + t.unbacked == t.given)
  {
    Reachable(rows, run, maxDepth);
    var s := After(Initial(rows), run, maxDepth);
    SumsAreCounts(s.tickets);
    forall t <- s.tickets | t.phase in {Queued, Delivered, Deferred}
      ensures t.job.released <==> t.taken + t.unbacked == t.given
    {
      assert Kept(t);
      FlagTellsThePlace(t);
    }
    hide After, Feasible, Sum, Count, Kept;
  }

  lemma FlagTellsThePlace(t: Ticket)
    requires Kept(t)
    ensures t.phase in {Queued, Delivered, Deferred} ==> (t.job.released <==> t.taken + t.unbacked == t.given)
  {}

  // ----- When the books are right -----

  /** The counter is the places that jobs hold, plus failed admissions not yet taken back, plus the places
      of jobs that recovery dropped. */
  predicate Balanced(s: State) {
    s.store.counter == Count(s.tickets, Live) + Count(s.tickets, BeingTakenBack) + Count(s.tickets, Lost)
  }

  /** A release that finds the counter at zero. */
  predicate MeetsTheClamp(s: State, e: Event)
    requires Allowed(s, e)
  {
    e.Do? && Releases(s.tickets[e.who], e.move) && s.store.counter <= 0
  }

  /** The counter is right in every state of the run, and no release in it meets the clamp. */
  predicate BooksAreRight(s: State, run: seq<Event>, maxDepth: int)
    requires Feasible(s, run, maxDepth)
    decreases |run|
  {
    && Balanced(s)
    && (run != [] ==> !MeetsTheClamp(s, run[0]) && BooksAreRight(Apply(s, run[0], maxDepth), run[1..], maxDepth))
  }

  /** Recovery sends an entry again whose worker died after a release (waiting for a new admission, refused
      one, or leaving) or after it had sent the retry. */
  predicate ReturnsUnbacked(s: State, e: Event)
    requires Allowed(s, e)
  {
    e.Do? && Unbacks(s.store, s.tickets[e.who], e.move)
  }

  predicate AllBacked(s: State, run: seq<Event>, maxDepth: int)
    requires Feasible(s, run, maxDepth)
    decreases |run|
  {
    run != [] ==> !ReturnsUnbacked(s, run[0]) && AllBacked(Apply(s, run[0], maxDepth), run[1..], maxDepth)
  }

  /** The phases of the unbacked deaths. */
  lemma UnbackedDeaths(p: Phase)
    requires MayCrash(p)
    ensures !Backed(DeathIn(p)) <==> p.GaveBack? || p.Refused? || p.Resent? || p.Leaving?
  {}

  predicate Exact(s: State) {
    s.store.counter == Sum(s.tickets, Owed) && Sum(s.tickets, Unbacked) == 0
  }

  /** How one job's step moves the counter and the sums. */
  lemma DoMovesSums(s: State, who: nat, move: Move, maxDepth: nat)
    requires Sound(s, maxDepth) && Allowed(s, Do(who, move))
    ensures var s1 := Apply(s, Do(who, move), maxDepth);
            var more := if ReturnsUnbacked(s, Do(who, move)) then 1 else 0;
            && Sum(s1.tickets, Unbacked) == Sum(s.tickets, Unbacked) + more
            && (!MeetsTheClamp(s, Do(who, move)) ==>
                  s1.store.counter - s.store.counter == Sum(s1.tickets, Owed) - Sum(s.tickets, Owed) - more)
            && (Releases(s.tickets[who], move) ==> Sum(s.tickets, Owed) >= 1)
  {
    var t := s.tickets[who];
    var (store, t1) := Step(s.store, t, move, maxDepth);
    StepKeeps(s.store, t, move, maxDepth);
    StepMovesCounter(s.store, t, move, maxDepth);
    LeftBehindIsKept(s.store, t, move);
    SumUpdate(s.tickets, who, t1, Owed);
    SumUpdate(s.tickets, who, t1, Unbacked);
    WithCompanions(s.tickets[who := t1], LeftBehind(t, move));
    SumAtLeast(s.tickets, who, Owed);
    hide Step, Enabled, Owed, Kept, Sum, Unbacks, Releases, LeftBehind, OwedBehind, Companions;
  }

  lemma BackedEventIsExact(s: State, e: Event, maxDepth: nat)
    requires Sound(s, maxDepth) && Exact(s) && Allowed(s, e) && !ReturnsUnbacked(s, e)
    ensures Exact(Apply(s, e, maxDepth)) && !MeetsTheClamp(s, e)
  {
    match e
    case Create(job) => Added(s.tickets, Created(job, |s.tickets|));
    case Do(who, move) =>
      DoMovesSums(s, who, move, maxDepth);
      hide Sum, Apply, Sound;
    case _ =>
  }

  lemma UnbackedEventIsNot(s: State, e: Event, maxDepth: nat)
    requires Sound(s, maxDepth) && Exact(s) && Allowed(s, e) && ReturnsUnbacked(s, e)
    ensures !Balanced(Apply(s, e, maxDepth))
  {
    DoMovesSums(s, e.who, e.move, maxDepth);
    SumsAreCounts(Apply(s, e, maxDepth).tickets);
    hide Sum, Count, Apply, Sound;
  }

  lemma {:induction false} BooksFrom(s: State, run: seq<Event>, maxDepth: nat)
    requires Sound(s, maxDepth) && Exact(s) && Feasible(s, run, maxDepth)
    ensures BooksAreRight(s, run, maxDepth) <==> AllBacked(s, run, maxDepth)
    decreases |run|
  {
    SumsAreCounts(s.tickets);
    hide Sound, Apply, Allowed, Sum, Count, MeetsTheClamp, ReturnsUnbacked;
    if run != [] {
      var s1 := Apply(s, run[0], maxDepth);
      ApplyIsSound(s, run[0], maxDepth);
      if ReturnsUnbacked(s, run[0]) {
        UnbackedEventIsNot(s, run[0], maxDepth);
      } else {
        BackedEventIsExact(s, run[0], maxDepth);
        BooksFrom(s1, run[1..], maxDepth);
      }
    }
  }

  /** The counter is right in every state of a run, and no release meets the clamp, if and only if recovery
      never sends again an entry whose worker died between its last release and a new place, while leaving,
      or after it had sent the retry. */
  lemma BooksAreRightIff(rows: map<string, Status>, run: seq<Event>, maxDepth: nat)
    requires Feasible(Initial(rows), run, maxDepth)
    ensures BooksAreRight(Initial(rows), run, maxDepth) <==> AllBacked(Initial(rows), run, maxDepth)
  {
    BooksFrom(Initial(rows), run, maxDepth);
  }

  lemma {:induction false} BackedRunIsExact(s: State, run: seq<Event>, maxDepth: nat)
    requires Sound(s, maxDepth) && Exact(s) && Feasible(s, run, maxDepth) && AllBacked(s, run, maxDepth)
    ensures Exact(After(s, run, maxDepth))
    decreases |run|
  {
    hide Sound, Apply, Allowed, Exact, ReturnsUnbacked;
    if run != [] {
      ApplyIsSound(s, run[0], maxDepth);
      BackedEventIsExact(s, run[0], maxDepth);
      BackedRunIsExact(Apply(s, run[0], maxDepth), run[1..], maxDepth);
    }
  }

  /** After such a run: the counter is exact, and the places held and lost exceed the limit by no more than
      the deaths between a refused count and its taking back; without those they do not exceed it. */
  lemma CounterIsExact(rows: map<string, Status>, run: seq<Event>, maxDepth: nat)
    requires Feasible(Initial(rows), run, maxDepth) && AllBacked(Initial(rows), run, maxDepth)
    ensures var s := After(Initial(rows), run, maxDepth);
            && Balanced(s)
            && Count(s.tickets, Live) + Count(s.tickets, Lost) <= maxDepth + Sum(s.tickets, Strays)
  {
    BackedRunIsExact(Initial(rows), run, maxDepth);
    AdmissionIsBounded(rows, run, maxDepth);
    SumsAreCounts(After(Initial(rows), run, maxDepth).tickets);
    hide After, Feasible, Sum, Count;
  }

  /** After such a run, whatever was admitted, deferred, retried, crashed or cancelled: a release finds the
      counter above zero, so putting it back to zero does not happen. */
  lemma NoReleaseMeetsTheClamp(rows: map<string, Status>, run: seq<Event>, who: nat, move: Move, maxDepth: nat)
    requires Feasible(Initial(rows), run, maxDepth) && AllBacked(Initial(rows), run, maxDepth)
    requires Allowed(After(Initial(rows), run, maxDepth), Do(who, move))
    ensures var s := After(Initial(rows), run, maxDepth);
            Releases(s.tickets[who], move) ==>
              s.store.counter >= 1 && Apply(s, Do(who, move), maxDepth).store.counter == s.store.counter - 1
  {
    Reachable(rows, run, maxDepth);
    BackedRunIsExact(Initial(rows), run, maxDepth);
    if Releases(After(Initial(rows), run, maxDepth).tickets[who], move) {
      ReleaseIsExact(After(Initial(rows), run, maxDepth), who, move, maxDepth);
    }
    hide After, Feasible, Sound, Exact, Apply;
  }

  lemma ReleaseIsExact(s: State, who: nat, move: Move, maxDepth: nat)
    requires Sound(s, maxDepth) && Exact(s) && Allowed(s, Do(who, move)) && Releases(s.tickets[who], move)
    ensures s.store.counter >= 1 && Apply(s, Do(who, move), maxDepth).store.counter == s.store.counter - 1
  {
    DoMovesSums(s, who, move, maxDepth);
    hide Sum, Sound;
  }

  // ----- The processing list -----

  /** The list is exactly the entries of the jobs between push and removal, dead workers' included,
      each with the attempt it had when it was pushed, and no entry says that its place was given back. */
  lemma ListHoldsWhatWasPushed(rows: map<string, Status>, run: seq<Event>, maxDepth: nat)
    requires Feasible(Initial(rows), run, maxDepth)
    ensures var s := After(Initial(rows), run, maxDepth);
            && s.store.processing == Listed(s.tickets)
            && forall t <- s.tickets | InList(t.phase) ::
                 t.listed == t.job.(attempt := t.runs) && t.job.attempt == t.runs + 1 && !t.listed.released
  {
    Reachable(rows, run, maxDepth);
    var s := After(Initial(rows), run, maxDepth);
    forall t <- s.tickets | InList(t.phase)
      ensures t.listed == t.job.(attempt := t.runs) && t.job.attempt == t.runs + 1 && !t.listed.released
    {
      assert Kept(t);
    }
  }

  // ----- How runs end -----

  /** A job, or a retry left behind by a dead worker, has no more finished runs than attempts (one at
      least); when it is over, each admission, and each unbacked return to the queue, was followed by one
      release; and a retry under way holds one place. */
  lemma AttemptsAndPlacesAddUp(rows: map<string, Status>, run: seq<Event>, maxDepth: nat)
    requires Feasible(Initial(rows), run, maxDepth)
    ensures forall t <- After(Initial(rows), run, maxDepth).tickets ::
              && t.runs <= (if t.job.maxAttempts > 1 then t.job.maxAttempts else 1)
              && (t.phase.Ended? ==> t.taken + t.unbacked == t.given && t.runs >= 1)
              && (t.phase == Rejected ==> t.taken == t.given && t.runs == 0)
              && (t.phase in {Resent, Leaving(None)} ==>
                    t.taken + t.unbacked == t.given + 1 && t.runs + 1 < t.job.maxAttempts)
  {
    Reachable(rows, run, maxDepth);
    forall t <- After(Initial(rows), run, maxDepth).tickets
      ensures t.runs <= (if t.job.maxAttempts > 1 then t.job.maxAttempts else 1)
      ensures t.phase.Ended? ==> t.taken + t.unbacked == t.given && t.runs >= 1
      ensures t.phase == Rejected ==> t.taken == t.given && t.runs == 0
      ensures t.phase in {Resent, Leaving(None)} ==>
                t.taken + t.unbacked == t.given + 1 && t.runs + 1 < t.job.maxAttempts
    {
      assert Kept(t);
    }
  }
}
