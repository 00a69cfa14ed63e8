/** The in-process limiter. Tasks are counted by what they do: hold a place, wait on the condition
    without having been notified, or have been notified and not yet run. Every body under the
    condition's lock runs without interruption, so each is one step. */
module LocalLimiter {
  import opened Aimd

  // ----- The protocol -----

  datatype Gate = Gate(aimd: State, inflight: int, holders: nat, waiting: nat, notified: nat)

  datatype Action =
    | Arrive           // `acquire`, up to entering or to the first wait
    | Resume           // a notified waiter takes the lock again and re-checks
    | Release          // a holder leaves
    | Succeed          // `on_success`
    | Limited(now: real)

  predicate Enabled(g: Gate, a: Action) {
    match a
    case Resume => g.notified > 0
    case Release => g.holders > 0
    case _ => true
  }

  predicate HasRoom(g: Gate) {
    g.inflight < g.aimd.limit.Floor
  }

  /** `notify(1)`: the first waiter that has not been notified yet, if there is one. */
  function Notify(g: Gate): Gate {
    if g.waiting > 0 then g.(waiting := g.waiting - 1, notified := g.notified + 1) else g
  }

  function Try(g: Gate): Gate {
    if HasRoom(g) then g.(inflight := g.inflight + 1, holders := g.holders + 1)
    else g.(waiting := g.waiting + 1)
  }

  function Act(g: Gate, a: Action, ceiling: real): Gate
    requires Within(g.aimd, ceiling) && Enabled(g, a)
  {
    match a
    case Arrive => Try(g)
    case Resume => Try(g.(notified := g.notified - 1))
    case Release => Notify(g.(inflight := if g.inflight >= 1 then g.inflight - 1 else 0, holders := g.holders - 1))
    case Succeed => Notify(g.(aimd := Step(g.aimd, Success, ceiling)))
    case Limited(now) => g.(aimd := Step(g.aimd, RateLimited(now), ceiling))
  }

  /** Free places never outnumber the notified waiters on their way, as long as anyone waits; and
      the counter is exactly the number of holders, which never exceeds the ceiling. */
  predicate Sound(g: Gate, ceiling: real) {
    && Within(g.aimd, ceiling)
    && g.inflight == g.holders <= ceiling.Floor
    && (g.waiting > 0 ==> g.aimd.limit.Floor - g.inflight <= g.notified)
  }

  lemma ActIsSound(g: Gate, a: Action, ceiling: real)
    requires Sound(g, ceiling) && Enabled(g, a)
    ensures Sound(Act(g, a, ceiling), ceiling)
  {
    FloorOrder(g.aimd.limit, ceiling);
    match a
    case Succeed => RaisedByAtMostOne(g.aimd.limit, ceiling);
    case Limited(now) => FloorOrder(Step(g.aimd, RateLimited(now), ceiling).limit, g.aimd.limit);
    case _ =>
  }

  /** One body in plain terms: nobody is lost. A task that arrives or was woken takes a place exactly when there is one,
      and waits otherwise; a release frees one place and wakes one waiter, if there is one; so does a success. */
  lemma ActMeans(g: Gate, a: Action, ceiling: real)
    requires Sound(g, ceiling) && Enabled(g, a)
    ensures var t := Act(g, a, ceiling);
            var woken := if g.waiting > 0 then 1 else 0;
            && t.holders + t.waiting + t.notified ==
                 g.holders + g.waiting + g.notified + (if a == Arrive then 1 else if a == Release then -1 else 0)
            && (a == Arrive || a == Resume ==>
                  && t.holders == g.holders + (if g.inflight < g.aimd.limit.Floor then 1 else 0)
                  && t.notified == g.notified - (if a == Resume then 1 else 0))
            && (a == Release ==> t.inflight == g.inflight - 1 && t.holders == g.holders - 1)
            && (a == Release || a == Succeed ==> t.notified == g.notified + woken && t.waiting == g.waiting - woken)
            && (a == Succeed || a.Limited? ==> t.holders == g.holders && t.inflight == g.inflight)
            && (a.Limited? ==> t.notified == g.notified && t.waiting == g.waiting)
            && (a == Arrive || a == Resume || a == Release ==> t.aimd == g.aimd)
  {}

  // ----- Whole runs -----

  predicate Allowed(g: Gate, actions: seq<Action>, ceiling: real)
    requires Within(g.aimd, ceiling)
    decreases |actions|
  {
    actions == [] || (Enabled(g, actions[0]) && Allowed(Act(g, actions[0], ceiling), actions[1..], ceiling))
  }

  function After(g: Gate, actions: seq<Action>, ceiling: real): Gate
    requires Within(g.aimd, ceiling) && Allowed(g, actions, ceiling)
    decreases |actions|
  {
    if actions == [] then g else After(Act(g, actions[0], ceiling), actions[1..], ceiling)
  }

  function Fresh(ceiling: real): Gate {
    Gate(State(ceiling, 0.0), 0, 0, 0, 0)
  }

  lemma {:induction false} RunIsSound(g: Gate, actions: seq<Action>, ceiling: real)
    requires Sound(g, ceiling) && Allowed(g, actions, ceiling)
    ensures Sound(After(g, actions, ceiling), ceiling)
    decreases |actions|
  {
    if actions != [] {
      ActIsSound(g, actions[0], ceiling);
      RunIsSound(Act(g, actions[0], ceiling), actions[1..], ceiling);
    }
  }

  /** No lost wakeup. In every reachable state: when a task waits and no notification is pending,
      the gate is full and somebody holds a place; when nobody holds a place and no notification is
      pending, nobody waits. */
  lemma NoLostWakeup(actions: seq<Action>, ceiling: real)
    requires ceiling >= 1.0 && Allowed(Fresh(ceiling), actions, ceiling)
    ensures var g := After(Fresh(ceiling), actions, ceiling);
            && g.inflight == g.holders <= ceiling.Floor
            && (g.waiting > 0 && g.notified == 0 ==> g.inflight >= g.aimd.limit.Floor >= 1)
            && (g.holders == 0 && g.notified == 0 ==> g.waiting == 0)
  {
    RunIsSound(Fresh(ceiling), actions, ceiling);
    FloorOrder(1.0, After(Fresh(ceiling), actions, ceiling).aimd.limit);
  }

  /** The events of a run that move the limit. */
  function LimitEvents(actions: seq<Action>): seq<Event> {
    if actions == [] then []
    else
      (match actions[0]
       case Succeed => [Success]
       case Limited(now) => [RateLimited(now)]
       case _ => [])
      + LimitEvents(actions[1..])
  }

  /** The limiter's limit is that of the automaton on the same events. */
  lemma {:induction false} LimitFollowsAimd(g: Gate, actions: seq<Action>, ceiling: real)
    requires Within(g.aimd, ceiling) && Allowed(g, actions, ceiling)
    ensures After(g, actions, ceiling).aimd == Run(g.aimd, LimitEvents(actions), ceiling)
    decreases |actions|
  {
    if actions != [] {
      var rest := LimitEvents(actions[1..]);
      LimitFollowsAimd(Act(g, actions[0], ceiling), actions[1..], ceiling);
      match actions[0]
      case Succeed => assert ([Success] + rest)[1..] == rest;
      case Limited(now) => assert ([RateLimited(now)] + rest)[1..] == rest;
      case _ => assert [] + rest == rest;
    }
  }

  // ----- The limiter -----

  /** Times here are seconds, as `time.monotonic` gives them. */
  class Limiter {
    const ceiling: real
    var limit: real
    var inflight: int
    var lastDecrease: real
    // The condition's queue, and the tasks inside the gate.
    var waiting: nat
    var notified: nat
    ghost var holders: nat

    ghost function Abstract(): Gate
      reads this
    {
      Gate(State(limit, lastDecrease * 1000.0), inflight, holders, waiting, notified)
    }

    ghost predicate Valid()
      reads this
    {
      Sound(Abstract(), ceiling)
    }

    constructor (ceiling: real)
      requires ceiling >= 1.0
      ensures Valid() && this.ceiling == ceiling && Abstract() == Fresh(ceiling)
    {
      this.ceiling, limit, inflight, lastDecrease := ceiling, ceiling, 0, 0.0;
      waiting, notified, holders := 0, 0, 0;
      new;
      FloorOrder(1.0, ceiling);
    }

    /** `acquire`, from the test of the loop to entering or waiting; `woken` tells whether the task
        comes from the condition's queue. */
    method Acquire(woken: bool) returns (entered: bool)
      requires Valid() && (woken ==> notified > 0)
      modifies this
      ensures Valid()
      ensures Abstract() == Act(old(Abstract()), if woken then Resume else Arrive, ceiling)
      ensures entered <==> old(HasRoom(Abstract()))
    {
      ActIsSound(Abstract(), if woken then Resume else Arrive, ceiling);
      if woken {
        notified := notified - 1;
      }
      if inflight >= limit.Floor {
        waiting := waiting + 1;
        return false;
      }
      inflight := inflight + 1;
      holders := holders + 1;
      return true;
    }

    method NotifyOne()
      modifies this`waiting, this`notified
      ensures Abstract() == Notify(old(Abstract()))
    {
      if waiting > 0 {
        waiting, notified := waiting - 1, notified + 1;
      }
    }

    method ReleasePlace()
      requires Valid() && holders > 0
      modifies this
      ensures Valid() && Abstract() == Act(old(Abstract()), Release, ceiling)
      ensures inflight == old(inflight) - 1
    {
      ActIsSound(Abstract(), Release, ceiling);
      inflight := if inflight - 1 > 0 then inflight - 1 else 0;
      holders := holders - 1;
      NotifyOne();
    }

    method OnSuccess() returns (l: real)
      requires Valid()
      modifies this
      ensures Valid() && Abstract() == Act(old(Abstract()), Succeed, ceiling)
      ensures l == limit == Raised(old(limit), ceiling)
    {
      ActIsSound(Abstract(), Succeed, ceiling);
      var raised := limit + 1.0 / limit;
      limit := if raised <= ceiling then raised else ceiling;
      NotifyOne();
      return limit;
    }

    method OnRateLimited(now: real) returns (l: real, changed: bool)
      requires Valid()
      modifies this
      ensures Valid() && Abstract() == Act(old(Abstract()), Limited(now * 1000.0), ceiling)
      ensures l == limit && (changed <==> Decreases(old(Abstract()).aimd, now * 1000.0))
    {
      ActIsSound(Abstract(), Limited(now * 1000.0), ceiling);
      changed := false;
      if now - lastDecrease > 1000.0 / 1000.0 {
        limit := if limit * 0.5 >= MIN_LIMIT then limit * 0.5 else MIN_LIMIT;
        lastDecrease := now;
        changed := true;
      }
      return limit, changed;
    }
  }
}
