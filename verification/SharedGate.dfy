/** The Redis form of the embedding gate: a sorted set of lease tokens and two keys, each with an
    expiry, changed only by atomic scripts. Callers and Redis read one clock that never goes back,
    in milliseconds. */
module SharedGate {
  import opened Aimd

  const LEASE_MS := 60_000
  const LIMIT_TTL_MS := 3_600_000

  type Token = nat

  /** A string key: its value and the time from which it may be gone. */
  datatype Key<T> = Absent | Set(value: T, expires: int)

  /** Redis drops a key once the clock has passed its expiry. */
  predicate Live<T>(k: Key<T>, now: int) {
    k.Set? && now <= k.expires
  }

  /** `leases` scores each token with the end of its lease; the whole set expires at once. */
  datatype Store = Store(leases: map<Token, int>, leasesExpire: int, limit: Key<real>, decreased: Key<int>)

  const EMPTY := Store(map[], 0, Absent, Absent)

  /** The sorted set as Redis shows it. */
  function LeasesAt(s: Store, now: int): map<Token, int> {
    if now > s.leasesExpire then map[] else s.leases
  }

  function LimitAt(s: Store, now: int, ceiling: real): real {
    if Live(s.limit, now) then s.limit.value else ceiling
  }

  /** The leases that have not run out. */
  function Unexpired(s: Store, now: int): set<Token> {
    set t | t in s.leases && s.leases[t] > now
  }

  // ----- The scripts -----

  /** `ZREMRANGEBYSCORE key -inf now`. */
  function Kept(s: Store, now: int): map<Token, int> {
    var held := LeasesAt(s, now);
    map t | t in held && held[t] > now :: held[t]
  }

  /** `_ACQUIRE_LUA`: drop expired leases, default the limit, and take a lease if there is room. */
  function Acquire(s: Store, now: int, token: Token, ceiling: real): (Store, bool) {
    var kept := Kept(s, now);
    var limitKey := if Live(s.limit, now) then s.limit else Set(ceiling, now + LIMIT_TTL_MS);
    if |kept| < limitKey.value.Floor
    then (Store(kept[token := now + LEASE_MS], now + LEASE_MS * 2, limitKey, s.decreased), true)
    else (Store(kept, s.leasesExpire, limitKey, s.decreased), false)
  }

  /** `ZREM`. */
  function Release(s: Store, token: Token): Store {
    s.(leases := s.leases - {token})
  }

  /** `_SUCCESS_LUA`. */
  function Success(s: Store, now: int, ceiling: real): Store
    requires LimitAt(s, now, ceiling) > 0.0
  {
    var limit := LimitAt(s, now, ceiling);
    var raised := limit + 1.0 / limit;
    s.(limit := Set(if raised > ceiling then ceiling else raised, now + LIMIT_TTL_MS))
  }

  /** `_DECREASE_LUA`. */
  function Decrease(s: Store, now: int, ceiling: real): (Store, bool) {
    var last := if Live(s.decreased, now) then s.decreased.value else 0;
    var limit := LimitAt(s, now, ceiling);
    if now - last > 1000 then
      var halved := if limit * 0.5 < MIN_LIMIT then MIN_LIMIT else limit * 0.5;
      (s.(limit := Set(halved, now + LIMIT_TTL_MS), decreased := Set(now, now + LIMIT_TTL_MS)), true)
    else
      (s, false)
  }

  // ----- Leases -----

  /** The set never holds more than the ceiling allows, no lease outlives the set, and the set
      was last renewed in the past. */
  predicate Sound(s: Store, now: int, ceiling: real) {
    && ceiling >= 1.0
    && |s.leases| <= ceiling.Floor
    && (forall t :: t in s.leases ==> s.leases[t] + LEASE_MS <= s.leasesExpire)
    && s.leasesExpire <= now + LEASE_MS * 2
    && (s.limit.Set? ==> MIN_LIMIT <= s.limit.value <= ceiling)
  }

  datatype Call = CallAcquire(token: Token) | CallRelease(token: Token) | CallSuccess | CallDecrease

  function Do(s: Store, c: Call, now: int, ceiling: real): Store
    requires Sound(s, now, ceiling)
  {
    match c
    case CallAcquire(token) => Acquire(s, now, token, ceiling).0
    case CallRelease(token) => Release(s, token)
    case CallSuccess => Success(s, now, ceiling)
    case CallDecrease => Decrease(s, now, ceiling).0
  }

  lemma SubmapIsSmaller(a: map<Token, int>, b: map<Token, int>)
    requires a.Keys <= b.Keys
    ensures |a| <= |b|
  {
    SubsetIsSmaller(a.Keys, b.Keys);
    assert |a| == |a.Keys| && |b| == |b.Keys|;
  }

  lemma {:induction false} SubsetIsSmaller(a: set<Token>, b: set<Token>)
    requires a <= b
    ensures |a| <= |b|
  {
    if a != {} {
      var x :| x in a;
      SubsetIsSmaller(a - {x}, b - {x});
    }
  }

  lemma AddedToken(m: map<Token, int>, t: Token, v: int)
    ensures |m[t := v]| <= |m| + 1
  {
    assert m[t := v].Keys == m.Keys + {t};
    SubsetSizes(m.Keys, t);
  }

  lemma SubsetSizes(s: set<Token>, t: Token)
    ensures |s + {t}| <= |s| + 1
  {}

  lemma DoIsSound(s: Store, c: Call, now: int, ceiling: real)
    requires Sound(s, now, ceiling) && now >= 0
    ensures Sound(Do(s, c, now, ceiling), now, ceiling)
  {
    match c
    case CallAcquire(token) => AcquireIsSound(s, now, token, ceiling);
    case CallRelease(token) => SubmapIsSmaller(Release(s, token).leases, s.leases);
    case CallSuccess => RaisedByAtMostOne(LimitAt(s, now, ceiling), ceiling);
    case CallDecrease =>
  }

  lemma AcquireIsSound(s: Store, now: int, token: Token, ceiling: real)
    requires Sound(s, now, ceiling)
    ensures Sound(Acquire(s, now, token, ceiling).0, now, ceiling)
  {
    var kept := Kept(s, now);
    SubmapIsSmaller(kept, s.leases);
    AddedToken(kept, token, now + LEASE_MS);
    FloorOrder(LimitAt(s, now, ceiling), ceiling);
  }

  // ----- Whole runs -----

  /** Calls with their times; the clock never goes back. */
  predicate InTime(now: int, calls: seq<(int, Call)>)
    decreases |calls|
  {
    calls == [] || (now <= calls[0].0 && InTime(calls[0].0, calls[1..]))
  }

  predicate SoundRun(s: Store, now: int, calls: seq<(int, Call)>, ceiling: real)
    decreases |calls|
  {
    Sound(s, now, ceiling)
    && (calls == [] || (Sound(s, calls[0].0, ceiling) && SoundRun(Do(s, calls[0].1, calls[0].0, ceiling), calls[0].0, calls[1..], ceiling)))
  }

  /** Every state of every run is sound. */
  lemma {:induction false} RunIsSound(s: Store, now: int, calls: seq<(int, Call)>, ceiling: real)
    requires now >= 0 && Sound(s, now, ceiling) && InTime(now, calls)
    ensures SoundRun(s, now, calls, ceiling)
    decreases |calls|
  {
    if calls != [] {
      DoIsSound(s, calls[0].1, calls[0].0, ceiling);
      RunIsSound(Do(s, calls[0].1, calls[0].0, ceiling), calls[0].0, calls[1..], ceiling);
    }
  }

  lemma EmptyIsSound(now: int, ceiling: real)
    requires now >= 0 && ceiling >= 1.0
    ensures Sound(EMPTY, now, ceiling)
  {}

  /** At every moment the unexpired leases fit under the ceiling, although an abandoned lease is
      never released; and when the whole set has expired, every lease in it had expired a full
      lease earlier. */
  lemma LeasesFit(s: Store, now: int, later: int, ceiling: real)
    requires Sound(s, now, ceiling) && now <= later
    ensures |Unexpired(s, later)| <= ceiling.Floor
    ensures later > s.leasesExpire ==> Unexpired(s, later - LEASE_MS) == {}
  {
    SubsetIsSmaller(Unexpired(s, later), s.leases.Keys);
    assert |s.leases| == |s.leases.Keys|;
  }

  /** What an acquisition sees: exactly the unexpired leases count, abandoned ones no longer do,
      and it succeeds exactly when they leave room under the current limit. */
  lemma AcquireDecides(s: Store, now: int, token: Token, ceiling: real)
    requires Sound(s, now, ceiling)
    ensures var (after, ok) := Acquire(s, now, token, ceiling);
            && (ok <==> |Unexpired(s, now)| < LimitAt(s, now, ceiling).Floor)
            && Unexpired(after, now) == Unexpired(s, now) + (if ok then {token} else {})
            && after.leases.Keys == Unexpired(after, now)
  {
    KeptIsUnexpired(s, now, ceiling);
    var kept := Kept(s, now);
    var (after, ok) := Acquire(s, now, token, ceiling);
    hide Kept, Sound;
    assert after.leases.Keys == kept.Keys + (if ok then {token} else {});
  }

  lemma KeptIsUnexpired(s: Store, now: int, ceiling: real)
    requires Sound(s, now, ceiling)
    ensures var kept := Kept(s, now);
            && kept.Keys == Unexpired(s, now) && |kept| == |Unexpired(s, now)|
            && forall t <- kept :: kept[t] > now
  {
    var kept := Kept(s, now);
    assert kept.Keys == Unexpired(s, now);
    assert |kept| == |kept.Keys|;
  }

  /** What an acquisition stores: the unexpired leases with their ends, a new lease of a minute if it
      succeeds, and a set that lives a minute longer than its newest lease. */
  lemma AcquireStores(s: Store, now: int, token: Token, ceiling: real)
    requires Sound(s, now, ceiling)
    ensures var (after, ok) := Acquire(s, now, token, ceiling);
            && (forall t <- s.leases | s.leases[t] > now && !(ok && t == token) ::
                  t in after.leases && after.leases[t] == s.leases[t])
            && (forall t <- after.leases :: (ok && t == token) || (t in s.leases && s.leases[t] > now))
            && (ok ==> token in after.leases && after.leases[token] == now + 60_000
                       && after.leasesExpire == now + 120_000)
            && (!ok ==> after.leasesExpire == s.leasesExpire)
            && LimitAt(after, now, ceiling) == LimitAt(s, now, ceiling) && after.decreased == s.decreased
            && (forall later | now <= later <= now + 3_600_000 && !Live(s.limit, now) ::
                  LimitAt(after, later, ceiling) == ceiling)
  {
    KeptIsUnexpired(s, now, ceiling);
  }

  /** A success and a rate limit leave all leases alone, and store a limit for an hour. */
  lemma LimitScriptsKeepLeases(s: Store, now: int, ceiling: real)
    requires Sound(s, now, ceiling)
    ensures var r := Success(s, now, ceiling);
            && r.leases == s.leases && r.leasesExpire == s.leasesExpire && r.decreased == s.decreased
            && forall later | now <= later <= now + 3_600_000 :: LimitAt(r, later, ceiling) == LimitAt(r, now, ceiling)
    ensures var (r, changed) := Decrease(s, now, ceiling);
            && r.leases == s.leases && r.leasesExpire == s.leasesExpire
            && (!changed ==> r == s)
            && (changed ==> forall later | now <= later <= now + 3_600_000 ::
                  LimitAt(r, later, ceiling) == LimitAt(r, now, ceiling))
  {}

  /** A release ends its own lease and leaves the others, with their ends, and everything else alone. */
  lemma ReleaseEndsOneLease(s: Store, token: Token, now: int)
    ensures var r := Release(s, token);
            && token !in r.leases
            && (forall t <- s.leases | t != token :: t in r.leases && r.leases[t] == s.leases[t])
            && (forall t <- r.leases :: t in s.leases)
            && r.leasesExpire == s.leasesExpire && r.limit == s.limit && r.decreased == s.decreased
            && Unexpired(r, now) == Unexpired(s, now) - {token}
  {}

  /** A full gate turns the next caller away, and lets it in as soon as one holder has left. */
  lemma ReleaseLetsTheNextIn(s: Store, now: int, holder: Token, next: Token, ceiling: real)
    requires Sound(s, now, ceiling) && holder in Unexpired(s, now)
    requires |Unexpired(s, now)| == LimitAt(s, now, ceiling).Floor
    ensures !Acquire(s, now, next, ceiling).1
    ensures Sound(Release(s, holder), now, ceiling) && Acquire(Release(s, holder), now, next, ceiling).1
  {
    AcquireDecides(s, now, next, ceiling);
    SubmapIsSmaller(Release(s, holder).leases, s.leases);
    ReleaseEndsOneLease(s, holder, now);
    AcquireDecides(Release(s, holder), now, next, ceiling);
    hide Acquire, Unexpired;
  }

  /** An abandoned gate reopens by itself: once every lease has run out, the next call enters. */
  lemma AbandonedGateReopens(s: Store, now: int, later: int, token: Token, ceiling: real)
    requires Sound(s, now, ceiling) && now <= later && (forall t :: t in s.leases ==> s.leases[t] <= later)
    ensures Acquire(s, later, token, ceiling).1
  {
    assert Unexpired(s, later) == {};
    AcquireDecides(s, later, token, ceiling);
    FloorOrder(1.0, LimitAt(s, later, ceiling));
  }

  // ----- One automaton -----

  /** The time of the last decrease is stored for one expiry period. */
  predicate StoredDecrease(s: Store) {
    s.decreased.Set? ==> s.decreased.value >= 0 && s.decreased.expires == s.decreased.value + LIMIT_TTL_MS
  }

  /** The stored keys stand for the automaton's state `a`. A forgotten time of the last decrease
      does no harm: by then the guard has long passed. */
  predicate Represents(s: Store, now: int, a: State, ceiling: real) {
    && StoredDecrease(s)
    && a.limit == LimitAt(s, now, ceiling)
    && (if Live(s.decreased, now) then a.lastDecrease == s.decreased.value as real
        else Decreases(a, now as real) && a.lastDecrease >= 0.0)
  }

  /** Before the first call, on a clock that has passed the guard. */
  lemma RepresentsFresh(now: int, ceiling: real)
    requires now > 1000
    ensures Represents(EMPTY, now, State(ceiling, 0.0), ceiling)
  {}

  predicate LimitExpires(s: Store, now: int, later: int) {
    Live(s.limit, now) && !Live(s.limit, later)
  }

  /** Time passing changes nothing, except that an expired limit is forgotten. */
  lemma TimePasses(s: Store, now: int, later: int, a: State, ceiling: real)
    requires Represents(s, now, a, ceiling) && now <= later && Within(a, ceiling)
    ensures Represents(s, later, if LimitExpires(s, now, later) then Step(a, Forgotten, ceiling) else a, ceiling)
  {}

  /** The automaton's event for a script, if it moves the limit. */
  function EventOf(c: Call, now: int): seq<Event> {
    match c
    case CallSuccess => [Event.Success]
    case CallDecrease => [RateLimited(now as real)]
    case _ => []
  }

  /** The scripts take the automaton's steps. */
  lemma ScriptsFollowAimd(s: Store, c: Call, now: int, a: State, ceiling: real)
    requires Sound(s, now, ceiling) && Represents(s, now, a, ceiling) && Within(a, ceiling) && now >= 0
    ensures Represents(Do(s, c, now, ceiling), now, Run(a, EventOf(c, now), ceiling), ceiling)
    ensures c.CallDecrease? ==> (Decrease(s, now, ceiling).1 <==> Decreases(a, now as real))
  {
    var events := EventOf(c, now);
    if events != [] {
      assert events[1..] == [];
      assert Run(a, events, ceiling) == Run(Step(a, events[0], ceiling), [], ceiling);
    }
  }

  /** The events of a timed run: those of its scripts, and a lost limit wherever the limit key
      expired between two calls. */
  function EventsOf(s: Store, now: int, calls: seq<(int, Call)>, ceiling: real): seq<Event>
    requires now >= 0 && Sound(s, now, ceiling) && InTime(now, calls)
    decreases |calls|
  {
    if calls == [] then []
    else
      var (t, c) := calls[0];
      DoIsSound(s, c, t, ceiling);
      (if LimitExpires(s, now, t) then [Forgotten] else []) + EventOf(c, t)
      + EventsOf(Do(s, c, t, ceiling), t, calls[1..], ceiling)
  }

  function After(s: Store, now: int, calls: seq<(int, Call)>, ceiling: real): (Store, int)
    requires now >= 0 && Sound(s, now, ceiling) && InTime(now, calls)
    decreases |calls|
  {
    if calls == [] then (s, now)
    else
      var (t, c) := calls[0];
      DoIsSound(s, c, t, ceiling);
      After(Do(s, c, t, ceiling), t, calls[1..], ceiling)
  }

  lemma {:induction false} RunAppend(a: State, x: seq<Event>, y: seq<Event>, ceiling: real)
    requires Within(a, ceiling)
    ensures Run(a, x + y, ceiling) == Run(Run(a, x, ceiling), y, ceiling)
    decreases |x|
  {
    if x == [] {
      assert x + y == y;
    } else {
      assert (x + y)[1..] == x[1..] + y;
      RunAppend(Step(a, x[0], ceiling), x[1..], y, ceiling);
    }
  }

  /** A whole run of scripts on Redis is a run of the automaton. */
  lemma {:induction false} RunFollowsAimd(s: Store, now: int, calls: seq<(int, Call)>, a: State, ceiling: real)
    requires now >= 0 && Sound(s, now, ceiling) && InTime(now, calls)
    requires Represents(s, now, a, ceiling) && Within(a, ceiling)
    ensures var (t, end) := After(s, now, calls, ceiling);
            Represents(t, end, Run(a, EventsOf(s, now, calls, ceiling), ceiling), ceiling)
    decreases |calls|
  {
    hide Represents, Sound, Do;
    if calls != [] {
      var (t, c) := calls[0];
      var gap := if LimitExpires(s, now, t) then [Forgotten] else [];
      StaysSound(s, now, t, ceiling);
      DoIsSound(s, c, t, ceiling);
      TimePasses(s, now, t, a, ceiling);
      assert [Forgotten][1..] == [];
      var b := Run(a, gap, ceiling);
      ScriptsFollowAimd(s, c, t, b, ceiling);
      var rest := EventsOf(Do(s, c, t, ceiling), t, calls[1..], ceiling);
      RunFollowsAimd(Do(s, c, t, ceiling), t, calls[1..], Run(b, EventOf(c, t), ceiling), ceiling);
      RunAppend(a, gap, EventOf(c, t), ceiling);
      RunAppend(a, gap + EventOf(c, t), rest, ceiling);
    }
  }

  lemma {:induction false} AfterIsSound(s: Store, now: int, calls: seq<(int, Call)>, ceiling: real)
    requires now >= 0 && Sound(s, now, ceiling) && InTime(now, calls)
    ensures var (t, end) := After(s, now, calls, ceiling); now <= end && Sound(t, end, ceiling)
    decreases |calls|
  {
    hide Do, Sound;
    if calls != [] {
      var (t, c) := calls[0];
      StaysSound(s, now, t, ceiling);
      DoIsSound(s, c, t, ceiling);
      AfterIsSound(Do(s, c, t, ceiling), t, calls[1..], ceiling);
    }
  }

  /** From an empty gate on, after any run of scripts and at every later moment: the unexpired leases fit
      under the ceiling, and when the whole set has expired, every lease in it had a full lease before. */
  lemma LeasesAlwaysFit(start: int, calls: seq<(int, Call)>, later: int, ceiling: real)
    requires start >= 0 && ceiling >= 1.0 && InTime(start, calls)
    ensures Sound(EMPTY, start, ceiling)
    ensures var (t, end) := After(EMPTY, start, calls, ceiling);
            later >= end ==>
              && |Unexpired(t, later)| <= ceiling.Floor
              && (later > t.leasesExpire ==> Unexpired(t, later - LEASE_MS) == {})
  {
    EmptyIsSound(start, ceiling);
    AfterIsSound(EMPTY, start, calls, ceiling);
    var (t, end) := After(EMPTY, start, calls, ceiling);
    hide Sound, After;
    if later >= end {
      LeasesFit(t, end, later, ceiling);
    }
  }

  lemma StaysSound(s: Store, now: int, later: int, ceiling: real)
    requires Sound(s, now, ceiling) && now <= later
    ensures Sound(s, later, ceiling)
  {}
}
