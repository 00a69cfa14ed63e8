/** The scripts, command by command on the Redis keys, and the loop that waits for a place. */
module SharedGateScripts {
  import opened Aimd
  import opened Options
  import opened SharedGate

  /** One try of a waiting caller: the scripts that other callers run before it, then its own, at `now`
      and with a fresh token. */
  datatype Try = Try(others: seq<(int, Call)>, now: int, token: Token)

  /** The clock does not go back. */
  predicate TriesInTime(at: int, tries: seq<Try>)
    decreases |tries|
  {
    tries == [] ||
    (InTime(at, tries[0].others) && Last(at, tries[0].others) <= tries[0].now && TriesInTime(tries[0].now, tries[1..]))
  }

  function Last(at: int, calls: seq<(int, Call)>): int {
    if calls == [] then at else calls[|calls| - 1].0
  }

  lemma {:induction false} AfterEndsLast(s: Store, at: int, calls: seq<(int, Call)>, ceiling: real)
    requires at >= 0 && Sound(s, at, ceiling) && InTime(at, calls)
    ensures After(s, at, calls, ceiling).1 == Last(at, calls)
    decreases |calls|
  {
    hide Do, Sound;
    if calls != [] {
      var (t, c) := calls[0];
      StaysSound(s, at, t, ceiling);
      DoIsSound(s, c, t, ceiling);
      AfterEndsLast(Do(s, c, t, ceiling), t, calls[1..], ceiling);
    }
  }

  /** What the caller's script meets. */
  function Met(s: Store, at: int, try: Try, ceiling: real): (r: Store)
    requires at >= 0 && Sound(s, at, ceiling) && InTime(at, try.others) && Last(at, try.others) <= try.now
    ensures Sound(r, try.now, ceiling) && try.now >= 0
  {
    AfterEndsLast(s, at, try.others, ceiling);
    AfterIsSound(s, at, try.others, ceiling);
    StaysSound(After(s, at, try.others, ceiling).0, Last(at, try.others), try.now, ceiling);
    After(s, at, try.others, ceiling).0
  }

  /** The tries of one waiting caller, until one succeeds. */
  function Tries(s: Store, at: int, tries: seq<Try>, ceiling: real): (Store, Option<Token>)
    requires at >= 0 && Sound(s, at, ceiling) && TriesInTime(at, tries)
    decreases |tries|
  {
    if tries == [] then (s, None)
    else
      var first := tries[0];
      var met := Met(s, at, first, ceiling);
      var (after, ok) := Acquire(met, first.now, first.token, ceiling);
      AcquireIsSound(met, first.now, first.token, ceiling);
      if ok then (after, Some(first.token)) else Tries(after, first.now, tries[1..], ceiling)
  }

  /** Whatever others do in between: a waiting caller stays out if and only if no try of it meets room under
      the limit. */
  lemma {:induction false} RoomLetsIn(s: Store, at: int, tries: seq<Try>, ceiling: real)
    requires at >= 0 && Sound(s, at, ceiling) && TriesInTime(at, tries)
    ensures Tries(s, at, tries, ceiling).1.None? <==> NeverRoom(s, at, tries, ceiling)
    decreases |tries|
  {
    if tries != [] {
      var first := tries[0];
      var met := Met(s, at, first, ceiling);
      AcquireDecides(met, first.now, first.token, ceiling);
      AcquireIsSound(met, first.now, first.token, ceiling);
      hide Sound, Acquire;
      if !HasRoom(met, first.now, ceiling) {
        RoomLetsIn(Acquire(met, first.now, first.token, ceiling).0, first.now, tries[1..], ceiling);
      }
    }
  }

  /** Who gets in holds a lease of a minute under the token of the try that succeeded. */
  lemma {:induction false} WhoGetsInHoldsALease(s: Store, at: int, tries: seq<Try>, ceiling: real)
    requires at >= 0 && Sound(s, at, ceiling) && TriesInTime(at, tries)
    ensures var (after, token) := Tries(s, at, tries, ceiling);
            token.Some? ==>
              exists i :: 0 <= i < |tries| && token.value == tries[i].token
                && token.value in after.leases && after.leases[token.value] == tries[i].now + 60_000
    decreases |tries|
  {
    if tries != [] {
      var first := tries[0];
      var met := Met(s, at, first, ceiling);
      AcquireStores(met, first.now, first.token, ceiling);
      AcquireIsSound(met, first.now, first.token, ceiling);
      hide Sound, Acquire;
      var (after, ok) := Acquire(met, first.now, first.token, ceiling);
      if !ok {
        WhoGetsInHoldsALease(after, first.now, tries[1..], ceiling);
        assert forall i :: 0 <= i < |tries[1..]| ==> tries[1..][i] == tries[i + 1];
      }
    }
  }

  predicate HasRoom(s: Store, now: int, ceiling: real) {
    |Unexpired(s, now)| < LimitAt(s, now, ceiling).Floor
  }

  predicate NeverRoom(s: Store, at: int, tries: seq<Try>, ceiling: real)
    requires at >= 0 && Sound(s, at, ceiling) && TriesInTime(at, tries)
    decreases |tries|
  {
    if tries == [] then true
    else
      var first := tries[0];
      var met := Met(s, at, first, ceiling);
      AcquireIsSound(met, first.now, first.token, ceiling);
      !HasRoom(met, first.now, ceiling)
      && NeverRoom(Acquire(met, first.now, first.token, ceiling).0, first.now, tries[1..], ceiling)
  }

  // ----- When nobody else takes the free places -----

  predicate NoAcquisition(calls: seq<(int, Call)>) {
    forall i | 0 <= i < |calls| :: !calls[i].1.CallAcquire?
  }

  predicate SubsetOf(a: map<Token, int>, b: map<Token, int>) {
    forall t :: t in a ==> t in b && a[t] == b[t]
  }

  lemma {:induction false} LeasesOnlyLeave(s: Store, at: int, calls: seq<(int, Call)>, ceiling: real)
    requires at >= 0 && Sound(s, at, ceiling) && InTime(at, calls) && NoAcquisition(calls)
    ensures SubsetOf(After(s, at, calls, ceiling).0.leases, s.leases)
    decreases |calls|
  {
    if calls != [] {
      var (t, c) := calls[0];
      StaysSound(s, at, t, ceiling);
      DoIsSound(s, c, t, ceiling);
      assert !calls[0].1.CallAcquire?;
      assert SubsetOf(Do(s, c, t, ceiling).leases, s.leases);
      hide Do, Sound;
      LeasesOnlyLeave(Do(s, c, t, ceiling), t, calls[1..], ceiling);
    }
  }

  /** A caller whom nobody overtakes gets in at the latest at its first try after all leases ran out,
      although their holders released nothing: the others may release, succeed and be rate limited
      meanwhile, but not acquire. */
  lemma {:induction false} WaitingEndsWithTheLeases(s: Store, at: int, tries: seq<Try>, ceiling: real)
    requires at >= 0 && Sound(s, at, ceiling) && TriesInTime(at, tries) && tries != []
    requires forall i | 0 <= i < |tries| :: NoAcquisition(tries[i].others)
    requires forall t :: t in s.leases ==> s.leases[t] <= tries[|tries| - 1].now
    ensures Tries(s, at, tries, ceiling).1.Some?
    decreases |tries|
  {
    var first := tries[0];
    var met := Met(s, at, first, ceiling);
    assert NoAcquisition(tries[0].others);
    LeasesOnlyLeave(s, at, first.others, ceiling);
    AcquireIsSound(met, first.now, first.token, ceiling);
    AcquireDecides(met, first.now, first.token, ceiling);
    var (after, ok) := Acquire(met, first.now, first.token, ceiling);
    if !ok {
      assert SubsetOf(after.leases, s.leases);
      hide Sound;
      if |tries| == 1 {
        AbandonedGateReopens(met, first.now, first.now, first.token, ceiling);
      } else {
        hide Acquire;
        WaitingEndsWithTheLeases(after, first.now, tries[1..], ceiling);
      }
    }
  }

  class Redis {
    var leases: map<Token, int>
    var leasesExpire: int
    var limit: Key<real>
    var decreased: Key<int>

    ghost function View(): Store
      reads this
    {
      Store(leases, leasesExpire, limit, decreased)
    }

    constructor ()
      ensures View() == EMPTY
    {
      leases, leasesExpire, limit, decreased := map[], 0, Absent, Absent;
    }

    method AcquireScript(now: int, token: Token, ceiling: real) returns (ok: bool)
      modifies this
      ensures (View(), ok) == Acquire(old(View()), now, token, ceiling)
    {
      // ZREMRANGEBYSCORE
      if now > leasesExpire {
        leases := map[];
      }
      leases := map t | t in leases && leases[t] > now :: leases[t];
      // GET, and SET of the default
      if !Live(limit, now) {
        limit := Set(ceiling, now + LIMIT_TTL_MS);
      }
      var count := |leases|;
      if count < limit.value.Floor {
        // ZADD and PEXPIRE
        leases := leases[token := now + LEASE_MS];
        leasesExpire := now + LEASE_MS * 2;
        return true;
      }
      ok := false;
    }

    method Release(token: Token)
      modifies this`leases
      ensures token !in leases && leases.Keys <= old(leases).Keys
      ensures forall t <- old(leases) | t != token :: t in leases && leases[t] == old(leases)[t]
      ensures View() == SharedGate.Release(old(View()), token)
    {
      leases := leases - {token};
    }

    method SuccessScript(now: int, ceiling: real)
      requires LimitAt(View(), now, ceiling) > 0.0
      modifies this`limit
      ensures View() == SharedGate.Success(old(View()), now, ceiling)
    {
      var value := if Live(limit, now) then limit.value else ceiling;
      value := value + 1.0 / value;
      if value > ceiling {
        value := ceiling;
      }
      limit := Set(value, now + LIMIT_TTL_MS);
    }

    method DecreaseScript(now: int, ceiling: real) returns (changed: bool)
      modifies this`limit, this`decreased
      ensures (View(), changed) == Decrease(old(View()), now, ceiling)
    {
      var last := if Live(decreased, now) then decreased.value else 0;
      var value := if Live(limit, now) then limit.value else ceiling;
      changed := false;
      if now - last > 1000 {
        value := value * 0.5;
        if value < MIN_LIMIT {
          value := MIN_LIMIT;
        }
        limit := Set(value, now + LIMIT_TTL_MS);
        decreased := Set(now, now + LIMIT_TTL_MS);
        changed := true;
      }
    }

    /** The scripts that other callers run meanwhile. */
    method RunOthers(ghost at: int, calls: seq<(int, Call)>, ceiling: real)
      requires at >= 0 && Sound(View(), at, ceiling) && InTime(at, calls)
      modifies this
      ensures View() == After(old(View()), at, calls, ceiling).0
    {
      hide Sound;
      ghost var now := at;
      assert calls[0..] == calls;
      for i := 0 to |calls|
        invariant now >= 0 && Sound(View(), now, ceiling) && InTime(now, calls[i..])
        invariant After(View(), now, calls[i..], ceiling).0 == After(old(View()), at, calls, ceiling).0
      {
        var (t, c) := calls[i];
        assert calls[i..][1..] == calls[i + 1..];
        StaysSound(View(), now, t, ceiling);
        DoIsSound(View(), c, t, ceiling);
        LimitIsPositive(View(), t, ceiling);
        match c {
          case CallAcquire(token) => var _ := AcquireScript(t, token, ceiling);
          case CallRelease(token) => Release(token);
          case CallSuccess => SuccessScript(t, ceiling);
          case CallDecrease => var _ := DecreaseScript(t, ceiling);
        }
        now := t;
      }
    }

    /** `_acquire`: tries until a script answers 1, with the clock readings and fresh tokens given, while
        others run theirs in between. */
    method WaitForPlace(ghost at: int, tries: seq<Try>, ceiling: real) returns (token: Option<Token>)
      requires at >= 0 && Sound(View(), at, ceiling) && TriesInTime(at, tries)
      modifies this
      ensures (View(), token) == Tries(old(View()), at, tries, ceiling)
    {
      hide Sound, Acquire;
      ghost var now := at;
      assert tries[0..] == tries;
      for i := 0 to |tries|
        invariant now >= 0 && Sound(View(), now, ceiling) && TriesInTime(now, tries[i..])
        invariant Tries(View(), now, tries[i..], ceiling) == Tries(old(View()), at, tries, ceiling)
      {
        assert tries[i..][1..] == tries[i + 1..];
        ghost var met := Met(View(), now, tries[i], ceiling);
        RunOthers(now, tries[i].others, ceiling);
        AcquireIsSound(met, tries[i].now, tries[i].token, ceiling);
        var ok := AcquireScript(tries[i].now, tries[i].token, ceiling);
        if ok {
          return Some(tries[i].token);
        }
        now := tries[i].now;
      }
      token := None;
    }
  }

  lemma LimitIsPositive(s: Store, now: int, ceiling: real)
    requires Sound(s, now, ceiling)
    ensures LimitAt(s, now, ceiling) > 0.0
  {}
}
