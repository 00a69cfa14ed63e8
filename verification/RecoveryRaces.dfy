/** Recovery passes that overlap with one another and with workers. `LRANGE`, each `TTL` and each `LREM` of a
    pass is a step; between them other passes, workers and the clock do what they like. Entries are the jobs
    that workers pushed, which serialization keeps apart. */
module RecoveryRaces {
  import opened IngestionJob
  import opened Options
  import opened QueueRecovery

  /** A pass since its `LRANGE`: the entries it saw; for the entries looked at so far, whether the lease was
      worth waiting for; how many entries are dealt with; and what it will return. */
  datatype Pass = Pass(items: seq<Job>, looks: seq<bool>, taken: nat, returned: seq<Job>)

  datatype State = State(list: seq<Job>, leases: map<string, int>, passes: seq<Pass>)

  datatype Step =
    | Begin                                    // a new pass reads the list
    | Look(pass: nat)                          // the next time to live
    | Take(pass: nat)                          // deals with the next entry, after all looks
    | Push(job: Job) | Pull(job: Job)          // a worker's push, and its own removal
    | Lease(jobId: string, ttl: Option<int>)   // set, renewed, run down or deleted

  predicate Done(p: Pass) {
    |p.looks| == p.taken == |p.items|
  }

  predicate Enabled(s: State, e: Step) {
    match e
    case Look(p) => p < |s.passes| && |s.passes[p].looks| < |s.passes[p].items|
    case Take(p) => p < |s.passes| && |s.passes[p].looks| == |s.passes[p].items| && s.passes[p].taken < |s.passes[p].items|
    case _ => true
  }

  /** The lease that the next look of a pass reads. */
  predicate LooksAlive(s: State, p: Pass)
    requires |p.looks| < |p.items|
  {
    Alive(s.leases, p.items[|p.looks|].jobId)
  }

  function AfterLook(s: State, p: Pass): Pass
    requires |p.looks| < |p.items|
  {
    p.(looks := p.looks + [LooksAlive(s, p)])
  }

  /** The reply of `LREM` is not read: the job is returned whether or not its entry was still there. */
  function AfterTake(p: Pass): Pass
    requires p.taken < |p.items| == |p.looks|
  {
    p.(taken := p.taken + 1, returned := if p.looks[p.taken] then p.returned else p.returned + [p.items[p.taken]])
  }

  function Do(s: State, e: Step): State
    requires Enabled(s, e)
  {
    match e
    case Begin => s.(passes := s.passes + [Pass(s.list, [], 0, [])])
    case Look(p) => s.(passes := s.passes[p := AfterLook(s, s.passes[p])])
    case Take(p) =>
      var pass := s.passes[p];
      s.(passes := s.passes[p := AfterTake(pass)],
         list := if pass.looks[pass.taken] then s.list else RemoveOne(s.list, pass.items[pass.taken]))
    case Push(job) => s.(list := [job] + s.list)
    case Pull(job) => s.(list := RemoveOne(s.list, job))
    case Lease(id, ttl) => s.(leases := match ttl case Some(t) => s.leases[id := t] case None => s.leases - {id})
  }

  predicate Possible(s: State, steps: seq<Step>)
    decreases |steps|
  {
    steps == [] || (Enabled(s, steps[0]) && Possible(Do(s, steps[0]), steps[1..]))
  }

  function After(s: State, steps: seq<Step>): State
    requires Possible(s, steps)
    decreases |steps|
  {
    if steps == [] then s else After(Do(s, steps[0]), steps[1..])
  }

  // ----- What a pass returns -----

  /** The entries whose lease was looked at and found stale. */
  function Stale(items: seq<Job>, looks: seq<bool>): seq<Job>
    requires |looks| <= |items|
  {
    if looks == [] then []
    else
      var n := |looks| - 1;
      Stale(items, looks[..n]) + (if looks[n] then [] else [items[n]])
  }

  predicate PassIsSound(p: Pass) {
    && p.taken <= |p.looks| <= |p.items|
    && p.returned == Stale(p.items, p.looks[..p.taken])
  }

  lemma LookIsSound(s: State, p: Pass)
    requires PassIsSound(p) && |p.looks| < |p.items|
    ensures PassIsSound(AfterLook(s, p))
  {
    hide Alive;
    assert AfterLook(s, p).looks[..p.taken] == p.looks[..p.taken];
  }

  lemma TakeIsSound(p: Pass)
    requires PassIsSound(p) && p.taken < |p.looks| == |p.items|
    ensures PassIsSound(AfterTake(p))
  {
    assert p.looks[..p.taken + 1][..p.taken] == p.looks[..p.taken];
  }

  predicate AllSound(passes: seq<Pass>) {
    forall p <- passes :: PassIsSound(p)
  }

  lemma StepIsSound(s: State, e: Step)
    requires AllSound(s.passes) && Enabled(s, e)
    ensures AllSound(Do(s, e).passes)
  {
    hide PassIsSound, AfterLook, AfterTake, RemoveOne, Alive;
    match e
    case Begin => FreshIsSound(s.list);
    case Look(p) => LookIsSound(s, s.passes[p]);
    case Take(p) => TakeEnds(s, p); TakeIsSound(s.passes[p]);
    case _ =>
  }

  lemma FreshIsSound(list: seq<Job>)
    ensures PassIsSound(Pass(list, [], 0, []))
  {}

  lemma TakeEnds(s: State, p: nat)
    requires Enabled(s, Take(p))
    ensures s.passes[p].taken < |s.passes[p].looks| == |s.passes[p].items|
  {}

  /** However passes, workers and the clock interleave: a pass that is through returns exactly the entries it
      saw whose lease was stale at its own look, each as often as it saw it, in list order. What became of
      the entry in the meantime makes no difference. */
  lemma {:induction false} LooksDecide(s: State, steps: seq<Step>)
    requires AllSound(s.passes) && Possible(s, steps)
    ensures AllSound(After(s, steps).passes)
    ensures forall p <- After(s, steps).passes | Done(p) :: p.returned == Stale(p.items, p.looks)
    decreases |steps|
  {
    if steps == [] {
      forall p <- s.passes | Done(p) ensures p.returned == Stale(p.items, p.looks) {
        assert PassIsSound(p) && p.looks[..p.taken] == p.looks;
      }
    } else {
      hide Do, Enabled, AllSound, Stale, Done;
      StepIsSound(s, steps[0]);
      LooksDecide(Do(s, steps[0]), steps[1..]);
    }
  }

  /** Where the leases stand still, that is what a pass alone returns. */
  lemma {:induction false} UndisturbedPass(items: seq<Job>, looks: seq<bool>, leases: map<string, int>)
    requires |looks| == |items| && forall i | 0 <= i < |items| :: looks[i] == Alive(leases, items[i].jobId)
    ensures Stale(items, looks) == Pick(items, leases, false)
  {
    hide Alive;
    if items != [] {
      var n := |items| - 1;
      UndisturbedPass(items[..n], looks[..n], leases);
      StaleOfPrefix(items, looks[..n], n);
    }
  }

  lemma {:induction false} StaleOfPrefix(items: seq<Job>, looks: seq<bool>, n: nat)
    requires |looks| <= n <= |items|
    ensures Stale(items[..n], looks) == Stale(items, looks)
  {
    if looks != [] {
      StaleOfPrefix(items, looks[..|looks| - 1], n);
    }
  }

  // ----- How often a stale job comes back -----

  /** How often `j` is returned, by all passes together. */
  function Returns(passes: seq<Pass>, j: Job): nat {
    if passes == [] then 0 else Returns(passes[..|passes| - 1], j) + multiset(passes[|passes| - 1].returned)[j]
  }

  /** How often passes saw `j` on the list. */
  function Seen(s: State, steps: seq<Step>, j: Job): nat
    requires Possible(s, steps)
    decreases |steps|
  {
    if steps == [] then 0
    else (if steps[0].Begin? then multiset(s.list)[j] else 0) + Seen(Do(s, steps[0]), steps[1..], j)
  }

  predicate FindsAlive(s: State, e: Step, j: Job)
    requires Enabled(s, e)
  {
    e.Look? && s.passes[e.pass].items[|s.passes[e.pass].looks|] == j && LooksAlive(s, s.passes[e.pass])
  }

  /** No look finds the lease of `j` alive. */
  predicate NeverAlive(s: State, steps: seq<Step>, j: Job)
    requires Possible(s, steps)
    decreases |steps|
  {
    steps == [] || (!FindsAlive(s, steps[0], j) && NeverAlive(Do(s, steps[0]), steps[1..], j))
  }

  /** What a pass has returned and will still return of `j`, if no look finds its lease alive. */
  function Due(p: Pass, j: Job): nat
    requires PassIsSound(p)
  {
    multiset(p.returned)[j] + multiset(p.items[p.taken..])[j]
  }

  function AllDue(passes: seq<Pass>, j: Job): nat
    requires AllSound(passes)
  {
    if passes == [] then 0 else AllDue(passes[..|passes| - 1], j) + Due(passes[|passes| - 1], j)
  }

  predicate SeenStale(p: Pass, j: Job) {
    |p.looks| <= |p.items| && forall i | 0 <= i < |p.looks| :: p.items[i] == j ==> !p.looks[i]
  }

  lemma {:induction false} AllDueUpdate(passes: seq<Pass>, i: nat, p: Pass, j: Job)
    requires AllSound(passes) && i < |passes| && PassIsSound(p) && Due(p, j) == Due(passes[i], j)
    ensures AllSound(passes[i := p]) && AllDue(passes[i := p], j) == AllDue(passes, j)
  {
    hide PassIsSound, Due;
    var n := |passes| - 1;
    if i < n {
      AllDueUpdate(passes[..n], i, p, j);
      assert passes[i := p][..n] == passes[..n][i := p];
    } else {
      assert passes[i := p][..n] == passes[..n];
    }
  }

  lemma LookKeepsDue(s: State, p: Pass, j: Job)
    requires PassIsSound(p) && SeenStale(p, j) && |p.looks| < |p.items|
    requires p.items[|p.looks|] == j ==> !LooksAlive(s, p)
    ensures PassIsSound(AfterLook(s, p)) && SeenStale(AfterLook(s, p), j) && Due(AfterLook(s, p), j) == Due(p, j)
  {
    hide Alive;
    LookIsSound(s, p);
  }

  lemma TakeKeepsDue(p: Pass, j: Job)
    requires PassIsSound(p) && SeenStale(p, j) && p.taken < |p.looks| == |p.items|
    ensures PassIsSound(AfterTake(p)) && SeenStale(AfterTake(p), j) && Due(AfterTake(p), j) == Due(p, j)
  {
    TakeIsSound(p);
    assert p.items[p.taken..] == [p.items[p.taken]] + p.items[p.taken + 1..];
    hide Stale;
  }

  predicate Ready(passes: seq<Pass>, j: Job) {
    AllSound(passes) && forall p <- passes :: SeenStale(p, j)
  }

  lemma StepKeepsDue(s: State, e: Step, j: Job)
    requires Ready(s.passes, j) && Enabled(s, e) && !FindsAlive(s, e, j)
    ensures Ready(Do(s, e).passes, j)
    ensures AllDue(Do(s, e).passes, j) == AllDue(s.passes, j) + (if e.Begin? then multiset(s.list)[j] else 0)
  {
    hide PassIsSound, SeenStale, AfterLook, AfterTake, RemoveOne, Alive, Due;
    match e
    case Begin =>
      FreshIsDue(s.list, j);
      assert Do(s, e).passes[..|s.passes|] == s.passes;
    case Look(p) =>
      LookKeepsDue(s, s.passes[p], j);
      AllDueUpdate(s.passes, p, AfterLook(s, s.passes[p]), j);
    case Take(p) =>
      TakeKeepsDue(s.passes[p], j);
      AllDueUpdate(s.passes, p, AfterTake(s.passes[p]), j);
    case _ =>
  }

  lemma FreshIsDue(list: seq<Job>, j: Job)
    ensures var p := Pass(list, [], 0, []);
            PassIsSound(p) && SeenStale(p, j) && Due(p, j) == multiset(list)[j]
  {
    assert list[0..] == list;
  }

  lemma {:induction false} DueAddsUp(s: State, steps: seq<Step>, j: Job)
    requires Ready(s.passes, j) && Possible(s, steps) && NeverAlive(s, steps, j)
    ensures Ready(After(s, steps).passes, j)
    ensures AllDue(After(s, steps).passes, j) == AllDue(s.passes, j) + Seen(s, steps, j)
    decreases |steps|
  {
    if steps != [] {
      hide Do, Enabled, Ready, AllDue, FindsAlive;
      StepKeepsDue(s, steps[0], j);
      DueAddsUp(Do(s, steps[0]), steps[1..], j);
    }
  }

  lemma {:induction false} NothingDue(passes: seq<Pass>, j: Job)
    requires AllSound(passes) && forall p <- passes :: Done(p)
    ensures AllDue(passes, j) == Returns(passes, j)
  {
    if passes != [] {
      NothingDue(passes[..|passes| - 1], j);
      var p := passes[|passes| - 1];
      assert Done(p) && p.items[p.taken..] == [];
    }
  }

  /** Once all passes are through, a job whose lease no look found alive has been returned exactly as often as
      passes saw it: once for every pass that began while it was listed. */
  lemma OncePerSighting(list: seq<Job>, leases: map<string, int>, steps: seq<Step>, j: Job)
    requires var s := State(list, leases, []);
             && Possible(s, steps) && NeverAlive(s, steps, j)
             && forall p <- After(s, steps).passes :: Done(p)
    ensures var s := State(list, leases, []);
            Returns(After(s, steps).passes, j) == Seen(s, steps, j)
  {
    var s := State(list, leases, []);
    DueAddsUp(s, steps, j);
    NothingDue(After(s, steps).passes, j);
    hide Possible, After, NeverAlive, Seen;
  }

  // ----- Exactly once -----

  /** The step at which some pass takes `j` off the list. */
  predicate Takes(s: State, e: Step, j: Job)
    requires Enabled(s, e)
  {
    e.Take? && var p := s.passes[e.pass]; !p.looks[p.taken] && p.items[p.taken] == j
  }

  /** How many passes begin before `j` is first taken. */
  function BegunBefore(s: State, steps: seq<Step>, j: Job): nat
    requires Possible(s, steps)
    decreases |steps|
  {
    if steps == [] || Takes(s, steps[0], j) then 0
    else (if steps[0].Begin? then 1 else 0) + BegunBefore(Do(s, steps[0]), steps[1..], j)
  }

  lemma StepMovesEntry(s: State, e: Step, j: Job)
    requires Enabled(s, e) && e != Push(j) && e != Pull(j)
    ensures multiset(Do(s, e).list)[j] == if Takes(s, e, j) && j in s.list then multiset(s.list)[j] - 1 else multiset(s.list)[j]
  {
    hide AfterLook, AfterTake, Alive;
    if e.Push? {
      assert multiset([e.job] + s.list) == multiset{e.job} + multiset(s.list);
    }
  }

  lemma {:induction false} UnseenOnceGone(s: State, steps: seq<Step>, j: Job)
    requires Possible(s, steps) && j !in s.list && Push(j) !in steps && Pull(j) !in steps
    ensures Seen(s, steps, j) == 0
    decreases |steps|
  {
    if steps != [] {
      hide Do, Enabled, Takes;
      StepMovesEntry(s, steps[0], j);
      UnseenOnceGone(Do(s, steps[0]), steps[1..], j);
    }
  }

  lemma {:induction false} SeenUntilTaken(s: State, steps: seq<Step>, j: Job)
    requires Possible(s, steps) && multiset(s.list)[j] == 1 && Push(j) !in steps && Pull(j) !in steps
    ensures Seen(s, steps, j) == BegunBefore(s, steps, j)
    decreases |steps|
  {
    if steps != [] {
      hide Do, Enabled, Takes;
      StepMovesEntry(s, steps[0], j);
      if Takes(s, steps[0], j) {
        assert !steps[0].Begin?;
        UnseenOnceGone(Do(s, steps[0]), steps[1..], j);
      } else {
        SeenUntilTaken(Do(s, steps[0]), steps[1..], j);
      }
    }
  }

  /** A dead worker's entry, listed once: it is returned by every pass that began before it was first taken, and
      so once if and only if exactly one did. */
  lemma ReturnedOnceIff(list: seq<Job>, leases: map<string, int>, steps: seq<Step>, j: Job)
    requires multiset(list)[j] == 1 && Push(j) !in steps && Pull(j) !in steps
    requires var s := State(list, leases, []);
             && Possible(s, steps) && NeverAlive(s, steps, j)
             && forall p <- After(s, steps).passes :: Done(p)
    ensures var s := State(list, leases, []);
            && Returns(After(s, steps).passes, j) == BegunBefore(s, steps, j)
            && (Returns(After(s, steps).passes, j) == 1 <==> BegunBefore(s, steps, j) == 1)
  {
    OncePerSighting(list, leases, steps, j);
    SeenUntilTaken(State(list, leases, []), steps, j);
    hide *;
  }

  // ----- A job that is not stuck -----

  /** A run that ends well between a pass's reading of the list and its look at the lease: the worker has
      removed its entry and deleted its lease, and the pass returns the job all the same; if its retry waits,
      with its row pending, it is sent again. */
  lemma FinishedJobComesBack(j: Job, leases: map<string, int>, rows: map<string, Status>)
    requires Alive(leases, j.jobId) && j.documentId in rows && rows[j.documentId] == Pending
    ensures var s := State([j], leases, []);
            var steps := [Begin, Pull(j), Lease(j.jobId, None), Look(0), Take(0)];
            && Possible(s, steps)
            && After(s, steps).list == [] && |After(s, steps).passes| == 1
            && After(s, steps).passes[0].returned == [j]
            && Requeued(rows, After(s, steps).passes[0].returned) == [j]
  {
    var s := State([j], leases, []);
    TheFive(j, leases);
    OneRequeued(rows, j);
    hide *;
    var gone := leases - {j.jobId};
    var seen, looked := [Pass([j], [], 0, [])], [Pass([j], [false], 0, [])];
    var end := State([], gone, [Pass([j], [false], 1, [j])]);
    NoStep(end);
    OneStep(State([], gone, looked), Take(0), []);
    OneStep(State([], gone, seen), Look(0), [Take(0)]);
    OneStep(State([], leases, seen), Lease(j.jobId, None), [Look(0)] + [Take(0)]);
    OneStep(State([j], leases, seen), Pull(j), [Lease(j.jobId, None)] + ([Look(0)] + [Take(0)]));
    OneStep(s, Begin, [Pull(j)] + ([Lease(j.jobId, None)] + ([Look(0)] + [Take(0)])));
    assert [Take(0)] + [] == [Take(0)];
    assert [Begin] + ([Pull(j)] + ([Lease(j.jobId, None)] + ([Look(0)] + [Take(0)])))
        == [Begin, Pull(j), Lease(j.jobId, None), Look(0), Take(0)];
  }

  lemma TheFive(j: Job, leases: map<string, int>)
    requires Alive(leases, j.jobId)
    ensures var gone := leases - {j.jobId};
            var seen, looked := [Pass([j], [], 0, [])], [Pass([j], [false], 0, [])];
            && Do(State([j], leases, []), Begin) == State([j], leases, seen)
            && Do(State([j], leases, seen), Pull(j)) == State([], leases, seen)
            && Do(State([], leases, seen), Lease(j.jobId, None)) == State([], gone, seen)
            && Enabled(State([], gone, seen), Look(0))
            && Do(State([], gone, seen), Look(0)) == State([], gone, looked)
            && Enabled(State([], gone, looked), Take(0))
            && Do(State([], gone, looked), Take(0)) == State([], gone, [Pass([j], [false], 1, [j])])
  {
    var gone := leases - {j.jobId};
    var seen, looked := Pass([j], [], 0, []), Pass([j], [false], 0, []);
    assert RemoveOne([j], j) == [];
    assert AfterLook(State([], gone, [seen]), seen) == looked;
    assert AfterTake(looked) == Pass([j], [false], 1, [j]);
  }

  lemma OneRequeued(rows: map<string, Status>, j: Job)
    requires j.documentId in rows && rows[j.documentId] == Pending
    ensures Requeued(rows, [j]) == [j]
  {
    assert [j][..0] == [];
    assert Requeued(rows, []) + [j] == [j];
  }

  lemma NoStep(s: State)
    ensures Possible(s, []) && After(s, []) == s
  {}

  lemma OneStep(s: State, e: Step, rest: seq<Step>)
    requires Enabled(s, e) && Possible(Do(s, e), rest)
    ensures Possible(s, [e] + rest) && After(s, [e] + rest) == After(Do(s, e), rest)
  {
    hide Enabled, Do;
    assert ([e] + rest)[1..] == rest;
  }
}
