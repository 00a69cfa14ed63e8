/** The rate-limit cooldown, kept once per process and once in Redis. Times are milliseconds;
    records come at whole milliseconds, delays may be fractional. */
module Cooldown {

  function Max(a: real, b: real): real {
    if a >= b then a else b
  }

  function MaxInt(a: int, b: int): int {
    if a >= b then a else b
  }

  /** `rate_limit_delay` for a delay already read from the error, or the fallback. */
  function RateLimitDelay(retryAfter: real): (d: real)
    ensures 0.0 <= d <= 60_000.0
    ensures 0.0 <= retryAfter <= 60_000.0 ==> d == retryAfter
    ensures retryAfter < 0.0 ==> d == 0.0
    ensures retryAfter > 60_000.0 ==> d == 60_000.0
  {
    var d := Max(retryAfter, 0.0);
    if d <= 60_000.0 then d else 60_000.0
  }

  /** How long a recorded cooldown lasts: padded, and at most a minute. */
  function Ttl(delay: real): (t: real)
    ensures 100.0 <= t <= 60_000.0
    ensures 0.0 <= delay <= 59_900.0 ==> t == delay + 100.0
    ensures delay < 0.0 ==> t == 100.0
    ensures delay > 59_900.0 ==> t == 60_000.0
  {
    var t := Max(delay + 100.0, 100.0);
    if t <= 60_000.0 then t else 60_000.0
  }

  datatype Record = Record(now: int, delay: real)

  // ----- In the process -----

  class LocalTable {
    var until: map<string, real>

    constructor ()
      ensures until == map[]
    {
      until := map[];
    }

    function Deadline(key: string): real
      reads this
    {
      if key in until then until[key] else 0.0
    }

    /** `record_rate_limit_cooldown`, without Redis. */
    method Note(key: string, r: Record)
      modifies this
      ensures Deadline(key) == LocalNote(old(Deadline(key)), r)
      ensures until == old(until)[key := Deadline(key)]
    {
      until := until[key := Max(if key in until then until[key] else 0.0, r.now as real + Ttl(r.delay))];
    }

    /** `cooldown_delay`, without Redis. */
    method Remaining(key: string, now: real) returns (delay: real)
      ensures delay == LocalDelay(Deadline(key), now)
    {
      delay := Max(0.0, Deadline(key) - now);
    }
  }

  function LocalNote(deadline: real, r: Record): real {
    Max(deadline, r.now as real + Ttl(r.delay))
  }

  function LocalDelay(deadline: real, now: real): real {
    Max(0.0, deadline - now)
  }

  // ----- In Redis -----

  /** One Redis key whose only content is its expiry. */
  class RedisKey {
    var present: bool
    var expires: int

    constructor ()
      ensures !present
    {
      present, expires := false, 0;
    }

    /** `PTTL`: -2 when the key is gone, or else the time left. */
    function Pttl(now: int): int
      reads this
    {
      if !present || now > expires then -2 else expires - now
    }

    function Stored(): Deadline
      reads this
    {
      if present then At(expires) else Never
    }

    /** `record_rate_limit_cooldown` through its script. */
    method Note(r: Record)
      modifies this
      ensures Stored() == RedisNote(old(Stored()), r)
    {
      var ttlMs := MaxInt(1, Ttl(r.delay).Floor);
      var cur := Pttl(r.now);
      if cur == -2 || cur == -1 || ttlMs > cur {
        present, expires := true, r.now + ttlMs;
      }
    }

    /** `cooldown_delay`, through Redis, in milliseconds. */
    method Remaining(now: int) returns (delay: int)
      ensures delay == RedisDelay(Stored(), now)
    {
      var ttl := Pttl(now);
      delay := if ttl > 0 then ttl else 0;
    }
  }

  datatype Deadline = Never | At(ms: int)

  function RedisNote(d: Deadline, r: Record): Deadline {
    var ttl := MaxInt(1, Ttl(r.delay).Floor);
    if d.Never? || r.now > d.ms || ttl > d.ms - r.now then At(r.now + ttl) else d
  }

  function RedisDelay(d: Deadline, now: int): int {
    if d.Never? || now > d.ms then 0 else MaxInt(0, d.ms - now)
  }

  // ----- Runs -----

  function LocalRun(deadline: real, records: seq<Record>): real
    decreases |records|
  {
    if records == [] then deadline else LocalRun(LocalNote(deadline, records[0]), records[1..])
  }

  function RedisRun(d: Deadline, records: seq<Record>): Deadline
    decreases |records|
  {
    if records == [] then d else RedisRun(RedisNote(d, records[0]), records[1..])
  }

  /** `d` is the greatest deadline of the records, and one of them. */
  predicate IsLatest(d: real, records: seq<Record>) {
    && (forall i :: 0 <= i < |records| ==> records[i].now as real + Ttl(records[i].delay) <= d)
    && exists i :: 0 <= i < |records| && records[i].now as real + Ttl(records[i].delay) == d
  }

  predicate FromEpoch(records: seq<Record>) {
    forall i :: 0 <= i < |records| ==> records[i].now >= 0
  }

  lemma {:induction false} LocalRunIsMaximum(deadline: real, records: seq<Record>)
    ensures var d := LocalRun(deadline, records);
            && deadline <= d
            && (forall i :: 0 <= i < |records| ==> records[i].now as real + Ttl(records[i].delay) <= d)
            && (d == deadline || exists i :: 0 <= i < |records| && records[i].now as real + Ttl(records[i].delay) == d)
    decreases |records|
  {
    hide Ttl;
    if records != [] {
      var r, rest := records[0], records[1..];
      LocalRunIsMaximum(LocalNote(deadline, r), rest);
      var d := LocalRun(deadline, records);
      assert forall i :: 1 <= i < |records| ==> records[i] == rest[i - 1];
      if exists i :: 0 <= i < |rest| && rest[i].now as real + Ttl(rest[i].delay) == d {
        var i :| 0 <= i < |rest| && rest[i].now as real + Ttl(rest[i].delay) == d;
        assert records[i + 1] == rest[i];
      }
    }
  }

  /** The process keeps the greatest of all recorded deadlines. */
  lemma LocalKeepsTheLatest(records: seq<Record>)
    requires records != [] && FromEpoch(records)
    ensures IsLatest(LocalRun(0.0, records), records)
  {
    LocalRunIsMaximum(0.0, records);
    assert records[0].now as real + Ttl(records[0].delay) > 0.0;
  }

  lemma FloorOfMax(a: real, n: int, t: real)
    ensures Max(a, n as real + t).Floor == MaxInt(a.Floor, n + t.Floor)
  {}

  lemma {:induction false} RedisRunIsFloor(deadline: real, records: seq<Record>)
    ensures RedisRun(At(deadline.Floor), records) == At(LocalRun(deadline, records).Floor)
    decreases |records|
  {
    if records != [] {
      var r := records[0];
      FloorOfMax(deadline, r.now, Ttl(r.delay));
      hide Ttl;
      RedisRunIsFloor(LocalNote(deadline, r), records[1..]);
    }
  }

  /** Redis keeps the same deadline, cut to whole milliseconds: also although a key that has
      expired forgets what it held. */
  lemma RedisKeepsTheLatest(records: seq<Record>)
    requires records != [] && FromEpoch(records)
    ensures RedisRun(Never, records) == At(LocalRun(0.0, records).Floor)
  {
    var r := records[0];
    FloorOfMax(0.0, r.now, Ttl(r.delay));
    RedisRunIsFloor(LocalNote(0.0, r), records[1..]);
  }

  /** A caller waits until the deadline and no longer: in the process to the fraction, in Redis to the millisecond. */
  lemma WaitsEndAtTheDeadline(deadline: real, d: int, now: int)
    ensures var wait := LocalDelay(deadline, now as real);
            if deadline > now as real then now as real + wait == deadline else wait == 0.0
    ensures if d > now then now + RedisDelay(At(d), now) == d else RedisDelay(At(d), now) == 0
    ensures RedisDelay(Never, now) == 0
  {}

  /** At every moment both forms ask for the same wait, to within one millisecond. */
  lemma DelaysAgree(records: seq<Record>, now: nat)
    requires FromEpoch(records)
    ensures var here, there := LocalDelay(LocalRun(0.0, records), now as real), RedisDelay(RedisRun(Never, records), now);
            there as real <= here < there as real + 1.0
  {
    if records != [] {
      RedisKeepsTheLatest(records);
    }
  }
}
