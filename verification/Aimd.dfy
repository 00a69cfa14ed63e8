/** The additive-increase, multiplicative-decrease limit that the in-process limiter and the Redis
    scripts of the embedding gate both maintain. Limits are reals, times are milliseconds. */
module Aimd {
  const MIN_LIMIT: real := 1.0
  const DECREASE_GUARD_MS: real := 1000.0

  /** The current limit and the time of the last decrease, 0 before the first. */
  datatype State = State(limit: real, lastDecrease: real)

  datatype Event = Success | RateLimited(now: real) | Forgotten

  function Min(a: real, b: real): real {
    if a <= b then a else b
  }

  function Max(a: real, b: real): real {
    if a >= b then a else b
  }

  function Raised(limit: real, ceiling: real): real
    requires limit > 0.0
  {
    Min(limit + 1.0 / limit, ceiling)
  }

  predicate Decreases(s: State, now: real) {
    now - s.lastDecrease > DECREASE_GUARD_MS
  }

  predicate Within(s: State, ceiling: real) {
    MIN_LIMIT <= s.limit <= ceiling
  }

  /** One event under a constant ceiling; `Forgotten` is the expiry of a stored limit. */
  function Step(s: State, e: Event, ceiling: real): (t: State)
    requires Within(s, ceiling)
    ensures Within(t, ceiling)
  {
    match e
    case Success =>
      assert 1.0 / s.limit > 0.0;
      s.(limit := Raised(s.limit, ceiling))
    case RateLimited(now) =>
      if Decreases(s, now) then State(Max(s.limit * 0.5, MIN_LIMIT), now) else s
    case Forgotten => s.(limit := ceiling)
  }

  /** One event in plain terms. A success adds the inverse of the limit, up to the ceiling; a rate limit more than a
      second after the last decrease halves the limit, though not below one; a sooner one changes nothing. */
  lemma StepMeans(s: State, e: Event, ceiling: real)
    requires Within(s, ceiling)
    ensures var t := Step(s, e, ceiling);
            match e
            case Success =>
              t.lastDecrease == s.lastDecrease
              && ((t.limit - s.limit) * s.limit == 1.0 || (t.limit == ceiling && (ceiling - s.limit) * s.limit <= 1.0))
            case RateLimited(now) =>
              if now - s.lastDecrease > 1000.0
              then t.lastDecrease == now && (if s.limit >= 2.0 then t.limit + t.limit == s.limit else t.limit == 1.0)
              else t == s
            case Forgotten => t == State(ceiling, s.lastDecrease)
  {
    if e.Success? {
      var inv := 1.0 / s.limit;
      assert inv * s.limit == 1.0;
      SmallerProduct(ceiling - s.limit, inv, s.limit);
    }
  }

  lemma SmallerProduct(a: real, b: real, c: real)
    requires c >= 0.0
    ensures a <= b ==> a * c <= b * c
  {}

  function Run(s: State, events: seq<Event>, ceiling: real): (t: State)
    requires Within(s, ceiling)
    ensures Within(t, ceiling)
    decreases |events|
  {
    if events == [] then s else Run(Step(s, events[0], ceiling), events[1..], ceiling)
  }

  // ----- Increase -----

  lemma FloorOrder(a: real, b: real)
    ensures a <= b ==> a.Floor <= b.Floor
  {}

  /** A success admits at most one more request. */
  lemma RaisedByAtMostOne(limit: real, ceiling: real)
    requires 1.0 <= limit <= ceiling
    ensures limit <= Raised(limit, ceiling) <= ceiling
    ensures limit.Floor <= Raised(limit, ceiling).Floor <= limit.Floor + 1
  {
    var inv := 1.0 / limit;
    assert inv * limit == 1.0;
    assert 0.0 < inv <= 1.0;
  }

  function RaisedTimes(limit: real, ceiling: real, k: nat): (r: real)
    requires 1.0 <= limit <= ceiling
    ensures limit <= r <= ceiling
  {
    if k == 0 then limit
    else
      var l := RaisedTimes(limit, ceiling, k - 1);
      RaisedByAtMostOne(l, ceiling);
      Raised(l, ceiling)
  }

  function Square(x: real): real {
    x * x
  }

  /** The square of an uncapped limit grows by at least two and by at most three. */
  lemma SquareGrowth(limit: real)
    requires limit >= 1.0
    ensures Square(limit) + 2.0 <= Square(limit + 1.0 / limit) <= Square(limit) + 3.0
  {
    var inv := 1.0 / limit;
    assert inv * limit == 1.0;
    assert 0.0 < inv <= 1.0;
    assert 0.0 <= inv * inv <= 1.0;
    var r := limit + inv;
    assert r * r == limit * limit + 2.0 * (inv * limit) + inv * inv;
  }

  lemma ProductIsPositive(x: real, y: real)
    requires x > 0.0 && y > 0.0
    ensures x * y > 0.0
  {}

  lemma SquareOrder(a: real, b: real)
    requires a >= 0.0 && b >= 0.0
    ensures a <= b <==> Square(a) <= Square(b)
  {
    hide Square;
    DifferenceOfSquares(a, b);
    if a < b {
      ProductIsPositive(b - a, b + a);
    } else if b < a {
      ProductIsPositive(a - b, b + a);
      Opposite(b - a, b + a);
    }
  }

  lemma DifferenceOfSquares(a: real, b: real)
    ensures Square(b) - Square(a) == (b - a) * (b + a)
  {}

  lemma Opposite(x: real, y: real)
    ensures x * y == -((-x) * y)
  {}

  lemma RaisedSquare(l: real, ceiling: real)
    requires 1.0 <= l <= ceiling
    ensures Min(Square(ceiling), Square(l) + 2.0) <= Square(Raised(l, ceiling)) <= Square(l) + 3.0
  {
    SquareGrowth(l);
    var r := l + 1.0 / l;
    assert 1.0 / l > 0.0;
    hide Square;
    SquareOrder(ceiling, r);
  }

  /** After k successes: min(C^2, L0^2 + 2k) <= limit^2 <= L0^2 + 3k. */
  lemma {:induction false} SquareBounds(limit: real, ceiling: real, k: nat)
    requires 1.0 <= limit <= ceiling
    ensures Min(Square(ceiling), Square(limit) + 2.0 * k as real) <= Square(RaisedTimes(limit, ceiling, k))
    ensures Square(RaisedTimes(limit, ceiling, k)) <= Square(limit) + 3.0 * k as real
  {
    hide Square, Raised;
    if k > 0 {
      SquareBounds(limit, ceiling, k - 1);
      RaisedSquare(RaisedTimes(limit, ceiling, k - 1), ceiling);
    }
  }

  /** How many successes full recovery takes, from both sides. */
  lemma RecoveryTime(limit: real, ceiling: real, k: nat)
    requires 1.0 <= limit <= ceiling
    ensures 2.0 * k as real >= Square(ceiling) - Square(limit) ==> RaisedTimes(limit, ceiling, k) == ceiling
    ensures 3.0 * (k as real) < Square(ceiling) - Square(limit) ==> RaisedTimes(limit, ceiling, k) < ceiling
  {
    hide Square;
    SquareBounds(limit, ceiling, k);
    SquareOrder(ceiling, RaisedTimes(limit, ceiling, k));
  }

  /** Successes alone raise the limit step by step and leave the time of the last decrease. */
  lemma {:induction false} RunOfSuccesses(s: State, k: nat, ceiling: real)
    requires Within(s, ceiling)
    ensures Run(s, seq(k, i => Success), ceiling) == s.(limit := RaisedTimes(s.limit, ceiling, k))
    decreases k
  {
    if k > 0 {
      var events := seq(k, i => Success);
      var t := Step(s, Success, ceiling);
      assert events[1..] == seq(k - 1, i => Success);
      RunOfSuccesses(t, k - 1, ceiling);
      RaisedTimesShift(s.limit, ceiling, k - 1);
    }
  }

  lemma {:induction false} RaisedTimesShift(limit: real, ceiling: real, k: nat)
    requires 1.0 <= limit <= ceiling
    ensures 1.0 <= Raised(limit, ceiling) <= ceiling
    ensures RaisedTimes(Raised(limit, ceiling), ceiling, k) == RaisedTimes(limit, ceiling, k + 1)
  {
    RaisedByAtMostOne(limit, ceiling);
    if k > 0 {
      RaisedTimesShift(limit, ceiling, k - 1);
    } else {
      assert RaisedTimes(limit, ceiling, 0) == limit;
    }
  }

  // ----- Decrease -----

  /** The times at which a run halves the limit. */
  function Halvings(s: State, events: seq<Event>, ceiling: real): seq<real>
    requires Within(s, ceiling)
    decreases |events|
  {
    if events == [] then []
    else
      (if events[0].RateLimited? && Decreases(s, events[0].now) then [events[0].now] else [])
      + Halvings(Step(s, events[0], ceiling), events[1..], ceiling)
  }

  /** Halvings are more than the guard apart, whatever the clock does. */
  lemma {:induction false} HalvingsApart(s: State, events: seq<Event>, ceiling: real, i: nat, j: nat)
    requires Within(s, ceiling) && i < j < |Halvings(s, events, ceiling)|
    ensures Halvings(s, events, ceiling)[j] - Halvings(s, events, ceiling)[i] > DECREASE_GUARD_MS * (j - i) as real
    decreases |events|
  {
    var t := Step(s, events[0], ceiling);
    var rest := Halvings(t, events[1..], ceiling);
    if events[0].RateLimited? && Decreases(s, events[0].now) {
      if i > 0 {
        HalvingsApart(t, events[1..], ceiling, i - 1, j - 1);
      } else {
        HalvingsAfter(t, events[1..], ceiling, j - 1);
      }
    } else {
      HalvingsApart(t, events[1..], ceiling, i, j);
    }
  }

  lemma {:induction false} HalvingsAfter(s: State, events: seq<Event>, ceiling: real, j: nat)
    requires Within(s, ceiling) && j < |Halvings(s, events, ceiling)|
    ensures Halvings(s, events, ceiling)[j] - s.lastDecrease > DECREASE_GUARD_MS * (j + 1) as real
    decreases |events|
  {
    var t := Step(s, events[0], ceiling);
    if events[0].RateLimited? && Decreases(s, events[0].now) {
      if j > 0 {
        HalvingsAfter(t, events[1..], ceiling, j - 1);
      }
    } else {
      HalvingsAfter(t, events[1..], ceiling, j);
    }
  }

  /** Any window of T milliseconds holds at most T / 1000 + 1 halvings. */
  lemma HalvingsInWindow(s: State, events: seq<Event>, ceiling: real, i: nat, j: nat, window: real)
    requires Within(s, ceiling) && i <= j < |Halvings(s, events, ceiling)|
    requires Halvings(s, events, ceiling)[j] - Halvings(s, events, ceiling)[i] <= window
    ensures (j - i + 1) as real <= window / 1000.0 + 1.0
  {
    if i < j {
      HalvingsApart(s, events, ceiling, i, j);
    }
  }
}
