/** The two forms of the embedding gate agree. */
module GateAgreement {
  import opened Aimd
  import LocalLimiter
  import SharedGate

  /** The same successes and rate limits at the same times give both forms the same limit, while
      the stored limit does not expire between calls. */
  lemma SameLimits(actions: seq<LocalLimiter.Action>, start: int, calls: seq<(int, SharedGate.Call)>, ceiling: real)
    requires ceiling >= 1.0 && start > 1000
    requires LocalLimiter.Allowed(LocalLimiter.Fresh(ceiling), actions, ceiling)
    requires SharedGate.InTime(start, calls) && SharedGate.Sound(SharedGate.EMPTY, start, ceiling)
    requires LocalLimiter.LimitEvents(actions) == SharedGate.EventsOf(SharedGate.EMPTY, start, calls, ceiling)
    ensures var (store, now) := SharedGate.After(SharedGate.EMPTY, start, calls, ceiling);
            LocalLimiter.After(LocalLimiter.Fresh(ceiling), actions, ceiling).aimd.limit
            == SharedGate.LimitAt(store, now, ceiling)
  {
    LocalLimiter.LimitFollowsAimd(LocalLimiter.Fresh(ceiling), actions, ceiling);
    SharedGate.RepresentsFresh(start, ceiling);
    SharedGate.RunFollowsAimd(SharedGate.EMPTY, start, calls, State(ceiling, 0.0), ceiling);
  }
}
