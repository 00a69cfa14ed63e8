/** Time-ordered identifiers: the layout of section 5.7 of RFC 9562 and the monotonic counter of
    its section 6.2. The fields of the 128-bit word do not overlap, so `|` is written as `+`, `<<`
    as a product and `&` with a mask as a remainder. */
module Uuid7 {
  const MS := 0x1_0000_0000_0000            // 2^48, the range of the millisecond field
  const RA := 0x1000                        // 2^12, the range of rand_a
  const RB := 0x4000_0000_0000_0000         // 2^62, the range of rand_b

  datatype Fields = Fields(ms: int, a: int, b: int)

  predicate InRange(f: Fields) {
    0 <= f.ms < MS && 0 <= f.a < RA && 0 <= f.b < RB
  }

  /** `_uuid7_int`: every field is masked to its width and shifted to its place. */
  function Pack(unixMs: int, randA: int, randB: int): int {
    unixMs % 0x1_0000_0000_0000 * 0x1_0000_0000_0000_0000_0000   // << 80
    + 7 * 0x1000_0000_0000_0000_0000                             // << 76
    + randA % 0x1000 * 0x1_0000_0000_0000_0000                   // << 64
    + 2 * 0x4000_0000_0000_0000                                  // << 62
    + randB % 0x4000_0000_0000_0000
  }

  // Reading the fields back out of a 128-bit integer.
  function MsOf(v: int): int { v / 0x1_0000_0000_0000_0000_0000 }
  function VersionOf(v: int): int { v / 0x1000_0000_0000_0000_0000 % 0x10 }
  function AOf(v: int): int { v / 0x1_0000_0000_0000_0000 % 0x1000 }
  function VariantOf(v: int): int { v / 0x4000_0000_0000_0000 % 4 }
  function BOf(v: int): int { v % 0x4000_0000_0000_0000 }
  function FieldsOf(v: int): Fields { Fields(MsOf(v), AOf(v), BOf(v)) }

  /** A 128-bit integer with version 7 and the RFC variant. */
  predicate IsUuid7(v: int) {
    0 <= v < 0x1_0000_0000_0000_0000_0000_0000_0000_0000 && VersionOf(v) == 7 && VariantOf(v) == 2
  }

  /** `_next_uuid7_int`. */
  function Next(value: int): int {
    var f := FieldsOf(value);
    if f.b < RB - 1 then Pack(f.ms, f.a, f.b + 1)
    else if f.a < RA - 1 then Pack(f.ms, f.a + 1, 0)
    else Pack((f.ms + 1) % MS, 0, 0)
  }

  /** What `uuid7` packs from the clock, in nanoseconds, and 62 random bits. */
  function Candidate(nowNs: int, rand: int): int {
    Pack(nowNs / 1_000_000, nowNs % 1_000_000 * 0x1000 / 1_000_000, rand)
  }

  /** The identifier handed out when `last` was the previous one. */
  function Issue(last: int, candidate: int): int {
    if candidate <= last then Next(last) else candidate
  }

  /** The global state of the generator; a call holds the lock while it compares and stores. */
  class Generator {
    var last: int

    constructor ()
      ensures last == 0
    {
      last := 0;
    }

    method NewId(nowNs: int, rand: int) returns (id: int)
      requires 0 <= rand < RB && IsLast(last)
      modifies this
      ensures id == last == Issue(old(last), Candidate(nowNs, rand))
      ensures IsUuid7(id)
      ensures if old(last) == MaxId() then id == MinId() else id > old(last)
    {
      var unixMs := nowNs / 1_000_000;
      var subMs := nowNs % 1_000_000 * 0x1000 / 1_000_000;
      var candidate := Pack(unixMs, subMs, rand);
      hide Pack, IsUuid7, Next;
      PackIsUuid7(unixMs, subMs, rand);
      IssueIsGreater(last, candidate);
      if candidate <= last {
        candidate := Next(last);
      }
      last := candidate;
      return candidate;
    }
  }

  function MinId(): int { Pack(0, 0, 0) }
  function MaxId(): int { Pack(MS - 1, RA - 1, RB - 1) }

  // ----- Packing -----

  /** Unpacking undoes packing, and the version and variant bits are always 7 and 2. */
  lemma PackFields(f: Fields)
    requires InRange(f)
    ensures var v := Pack(f.ms, f.a, f.b);
            FieldsOf(v) == f && IsUuid7(v)
  {
    PackedWord(f);
    hide Pack;
    Quotients(Pack(f.ms, f.a, f.b), f.ms, f.a, f.b);
    Remainders(f.ms, f.a);
  }

  lemma PackedWord(f: Fields)
    requires InRange(f)
    ensures var v := Pack(f.ms, f.a, f.b);
            && v == (((f.ms * 0x10 + 7) * 0x1000 + f.a) * 4 + 2) * 0x4000_0000_0000_0000 + f.b
            && 0 <= v < 0x1_0000_0000_0000_0000_0000_0000_0000_0000
  {
    Masked(f.ms, f.a, f.b);
  }

  lemma Quotients(v: int, ms: int, a: int, b: int)
    requires 0 <= a < 0x1000 && 0 <= b < 0x4000_0000_0000_0000
    requires v == (((ms * 0x10 + 7) * 0x1000 + a) * 4 + 2) * 0x4000_0000_0000_0000 + b
    ensures v / 0x4000_0000_0000_0000 == ((ms * 0x10 + 7) * 0x1000 + a) * 4 + 2
    ensures v % 0x4000_0000_0000_0000 == b
    ensures v / 0x1_0000_0000_0000_0000 == (ms * 0x10 + 7) * 0x1000 + a
    ensures v / 0x1000_0000_0000_0000_0000 == ms * 0x10 + 7
    ensures v / 0x1_0000_0000_0000_0000_0000 == ms
  {
    Shift62(((ms * 0x10 + 7) * 0x1000 + a) * 4 + 2, b);
    Shift64((ms * 0x10 + 7) * 0x1000 + a, 2 * 0x4000_0000_0000_0000 + b);
    Shift76(ms * 0x10 + 7, a * 0x1_0000_0000_0000_0000 + 2 * 0x4000_0000_0000_0000 + b);
    Shift80(ms, 7 * 0x1000_0000_0000_0000_0000 + a * 0x1_0000_0000_0000_0000 + 2 * 0x4000_0000_0000_0000 + b);
  }

  lemma Remainders(ms: int, a: int)
    requires 0 <= a < 0x1000
    ensures (((ms * 0x10 + 7) * 0x1000 + a) * 4 + 2) % 4 == 2
    ensures ((ms * 0x10 + 7) * 0x1000 + a) % 0x1000 == a
    ensures (ms * 0x10 + 7) % 0x10 == 7
  {
    Mod4((ms * 0x10 + 7) * 0x1000 + a);
    Mod4096(ms * 0x10 + 7, a);
  }

  lemma Mod4(q: int)
    ensures (q * 4 + 2) % 4 == 2
  {}

  lemma Mod4096(q: int, r: int)
    requires 0 <= r < 0x1000
    ensures (q * 0x1000 + r) % 0x1000 == r
  {}

  // Reading a word above and below a bit position.
  lemma Shift62(q: int, r: int)
    requires 0 <= r < 0x4000_0000_0000_0000
    ensures var v := q * 0x4000_0000_0000_0000 + r;
            v / 0x4000_0000_0000_0000 == q && v % 0x4000_0000_0000_0000 == r
  {}

  lemma Shift64(q: int, r: int)
    requires 0 <= r < 0x1_0000_0000_0000_0000
    ensures (q * 0x1_0000_0000_0000_0000 + r) / 0x1_0000_0000_0000_0000 == q
  {}

  lemma Shift76(q: int, r: int)
    requires 0 <= r < 0x1000_0000_0000_0000_0000
    ensures var v := q * 0x1000_0000_0000_0000_0000 + r;
            v / 0x1000_0000_0000_0000_0000 == q
  {}

  lemma Shift80(q: int, r: int)
    requires 0 <= r < 0x1_0000_0000_0000_0000_0000
    ensures (q * 0x1_0000_0000_0000_0000_0000 + r) / 0x1_0000_0000_0000_0000_0000 == q
  {}

  /** Every UUIDv7 is the packing of its own fields. */
  lemma UnpackFields(v: int)
    requires IsUuid7(v)
    ensures InRange(FieldsOf(v)) && v == Pack(MsOf(v), AOf(v), BOf(v))
  {
    var q62 := v / 0x4000_0000_0000_0000;
    var q64 := v / 0x1_0000_0000_0000_0000;
    var q76 := v / 0x1000_0000_0000_0000_0000;
    assert q62 == q64 * 4 + 2 by {
      assert q62 / 4 == q64;
    }
    assert q64 == q76 * 0x1000 + AOf(v) by {
      assert q64 / 0x1000 == q76;
    }
    assert q76 == MsOf(v) * 0x10 + 7 by {
      assert q76 / 0x10 == MsOf(v);
    }
    assert v == q62 * 0x4000_0000_0000_0000 + BOf(v);
    Masked(MsOf(v), AOf(v), BOf(v));
  }

  lemma Masked(ms: int, a: int, b: int)
    requires 0 <= ms < 0x1_0000_0000_0000 && 0 <= a < 0x1000 && 0 <= b < 0x4000_0000_0000_0000
    ensures ms % 0x1_0000_0000_0000 == ms && a % 0x1000 == a && b % 0x4000_0000_0000_0000 == b
  {}

  lemma PackIsUuid7(unixMs: int, randA: int, randB: int)
    ensures IsUuid7(Pack(unixMs, randA, randB))
  {
    var f := Fields(unixMs % 0x1_0000_0000_0000, randA % 0x1000, randB % 0x4000_0000_0000_0000);
    Masked(f.ms, f.a, f.b);
    assert Pack(unixMs, randA, randB) == Pack(f.ms, f.a, f.b);
    hide Pack, IsUuid7, FieldsOf;
    PackFields(f);
  }

  predicate Before(f: Fields, g: Fields) {
    f.ms < g.ms || (f.ms == g.ms && (f.a < g.a || (f.a == g.a && f.b < g.b)))
  }

  /** Packing is an order isomorphism: integers compare as (ms, rand_a, rand_b) does. */
  lemma PackKeepsOrder(f: Fields, g: Fields)
    requires InRange(f) && InRange(g)
    ensures Before(f, g) <==> Pack(f.ms, f.a, f.b) < Pack(g.ms, g.a, g.b)
  {
    if f != g && !Before(f, g) {
      assert Before(g, f);
      PackGrows(g, f);
    } else if Before(f, g) {
      PackGrows(f, g);
    }
  }

  lemma PackGrows(f: Fields, g: Fields)
    requires InRange(f) && InRange(g) && Before(f, g)
    ensures Pack(f.ms, f.a, f.b) < Pack(g.ms, g.a, g.b)
  {
  }

  /** The place of an identifier among all UUIDv7 values. */
  function Rank(v: int): int {
    FieldRank(FieldsOf(v))
  }

  function FieldRank(f: Fields): int {
    (f.ms * 0x1000 + f.a) * 0x4000_0000_0000_0000 + f.b
  }

  /** `_next_uuid7_int` is the successor: one step up in rank, with no UUIDv7 in between. */
  lemma NextIsSuccessor(v: int)
    requires IsUuid7(v) && v != MaxId()
    ensures IsUuid7(Next(v)) && Next(v) > v
    ensures Rank(Next(v)) == Rank(v) + 1
    ensures forall w :: IsUuid7(w) && w > v ==> w >= Next(v)
  {
    hide Pack, MsOf, AOf, BOf, IsUuid7;
    UnpackFields(v);
    var f := FieldsOf(v);
    var g := if f.b < RB - 1 then Fields(f.ms, f.a, f.b + 1)
             else if f.a < RA - 1 then Fields(f.ms, f.a + 1, 0)
             else Fields(f.ms + 1, 0, 0);
    assert InRange(g) && Next(v) == Pack(g.ms, g.a, g.b);
    PackFields(g);
    PackKeepsOrder(f, g);
    forall w | IsUuid7(w) && w > v ensures w >= Next(v) {
      UnpackFields(w);
      PackKeepsOrder(f, FieldsOf(w));
      PackKeepsOrder(FieldsOf(w), g);
    }
  }

  /** Past the last identifier the counter wraps round to the first. */
  lemma NextWraps()
    ensures Next(MaxId()) == MinId() && MinId() < MaxId()
  {
    hide Pack, MsOf, AOf, BOf, IsUuid7;
    PackFields(Fields(MS - 1, RA - 1, RB - 1));
    PackKeepsOrder(Fields(0, 0, 0), Fields(MS - 1, RA - 1, RB - 1));
  }

  lemma MaxIdIsGreatest(v: int)
    requires IsUuid7(v)
    ensures v <= MaxId()
  {
    UnpackFields(v);
    PackKeepsOrder(Fields(MS - 1, RA - 1, RB - 1), FieldsOf(v));
  }

  /** No bit of the clock is masked away before the millisecond field runs out. */
  lemma CandidateFields(nowNs: int, rand: int)
    requires 0 <= nowNs < 0x1_0000_0000_0000 * 1_000_000 && 0 <= rand < RB
    ensures FieldsOf(Candidate(nowNs, rand)) == Fields(nowNs / 1_000_000, nowNs % 1_000_000 * 0x1000 / 1_000_000, rand)
  {
    hide MsOf, AOf, BOf, IsUuid7;
    PackFields(Fields(nowNs / 1_000_000, nowNs % 1_000_000 * 0x1000 / 1_000_000, rand));
  }

  /** The generator starts from 0 and then remembers a UUIDv7. */
  predicate IsLast(v: int) {
    v == 0 || IsUuid7(v)
  }

  /** One call: always a UUIDv7, and a greater one unless the whole space has been used up. */
  lemma IssueIsGreater(last: int, candidate: int)
    requires IsUuid7(candidate) && IsLast(last)
    ensures IsUuid7(Issue(last, candidate))
    ensures Issue(last, candidate) > last <==> last != MaxId()
    ensures last == MaxId() ==> Issue(last, candidate) == MinId()
    ensures candidate > last ==> Issue(last, candidate) == candidate
  {
    MaxIdIsGreatest(candidate);
    assert candidate > 0 && MaxId() > 0;
    hide Pack, VersionOf, VariantOf, Next;
    NextWraps();
    if candidate <= last {
      if last == MaxId() {
        MinIdIsUuid7();
      } else {
        NextIsSuccessor(last);
      }
    }
  }

  lemma MinIdIsUuid7()
    ensures IsUuid7(MinId())
  {
    PackIsUuid7(0, 0, 0);
  }

  // ----- Whole runs -----

  /** The identifiers of a run; calls may come from any thread, so the candidates, packed before
      the lock is taken, may arrive in any order and from any clock. */
  function Ids(last: int, candidates: seq<int>): (ids: seq<int>)
    ensures |ids| == |candidates|
    decreases |candidates|
  {
    if candidates == [] then []
    else
      var id := Issue(last, candidates[0]);
      [id] + Ids(id, candidates[1..])
  }

  predicate AllUuid7(vs: seq<int>) {
    forall i :: 0 <= i < |vs| ==> IsUuid7(vs[i])
  }

  predicate Increasing(last: int, ids: seq<int>) {
    (forall i :: 0 <= i < |ids| ==> last < ids[i]) && forall i, j :: 0 <= i < j < |ids| ==> ids[i] < ids[j]
  }

  lemma {:induction false} RunIsUuid7(last: int, candidates: seq<int>)
    requires IsLast(last) && AllUuid7(candidates)
    ensures AllUuid7(Ids(last, candidates))
    decreases |candidates|
  {
    hide IsUuid7, Issue;
    if candidates != [] {
      IssueIsGreater(last, candidates[0]);
      RunIsUuid7(Issue(last, candidates[0]), candidates[1..]);
    }
  }

  /** Whatever the clock does, the identifiers of a run increase strictly if and only if none but
      the last one is the greatest of all UUIDv7 values. */
  lemma {:induction false} RunIncreases(last: int, candidates: seq<int>)
    requires IsLast(last) && AllUuid7(candidates)
    ensures var ids := Ids(last, candidates);
            Increasing(last, ids) <==>
            ids == [] || (last != MaxId() && forall i :: 0 <= i < |ids| - 1 ==> ids[i] != MaxId())
    decreases |candidates|
  {
    hide IsUuid7, Issue, MaxId;
    if candidates != [] {
      var id := Issue(last, candidates[0]);
      var ids, rest := Ids(last, candidates), Ids(id, candidates[1..]);
      IssueIsGreater(last, candidates[0]);
      RunIncreases(id, candidates[1..]);
      assert forall i :: 1 <= i < |ids| ==> ids[i] == rest[i - 1];
      assert forall i :: 0 <= i < |rest| ==> rest[i] == ids[i + 1];
      assert ids[0] == id;
    }
  }

  lemma IssueRank(last: int, candidate: int)
    requires IsLast(last) && IsUuid7(candidate) && last != MaxId()
    ensures Rank(Issue(last, candidate)) == if candidate <= last then Rank(last) + 1 else Rank(candidate)
    ensures last == 0 ==> candidate > last
  {
    assert candidate > 0;
    hide Pack, MaxId, Rank, Next, VersionOf, VariantOf;
    if candidate <= last {
      NextIsSuccessor(last);
    }
  }

  /** How far a run can get ahead of the clock: one step of the counter per call. */
  lemma {:induction false} RunDrift(last: int, candidates: seq<int>, bound: int, i: nat)
    requires IsLast(last) && AllUuid7(candidates) && i < |candidates|
    requires forall k :: 0 <= k < |candidates| ==> Rank(candidates[k]) <= bound
    requires last == 0 || Rank(last) < bound
    requires bound + |candidates| <= Rank(MaxId())
    ensures Rank(Ids(last, candidates)[i]) <= bound + i
    decreases i
  {
    hide IsUuid7, Rank, MaxId, Issue;
    MaxIdIsPositive();
    IssueIsGreater(last, candidates[0]);
    IssueRank(last, candidates[0]);
    if i > 0 {
      RunDrift(Issue(last, candidates[0]), candidates[1..], bound + 1, i - 1);
    }
  }

  lemma MaxIdIsPositive()
    ensures MaxId() > 0 && IsUuid7(MaxId())
    ensures Rank(MaxId()) == 0x1_0000_0000_0000 * 0x400_0000_0000_0000_0000 - 1
  {
    PackFields(Fields(MS - 1, RA - 1, RB - 1));
  }

  /** A condition on the clock alone: while no reading passes millisecond `ms` and fewer than 2^74
      calls are made for every millisecond left above it, all identifiers increase strictly. */
  lemma RunIncreasesBeforeTheEnd(candidates: seq<int>, ms: nat)
    requires AllUuid7(candidates)
    requires forall k :: 0 <= k < |candidates| ==> MsOf(candidates[k]) <= ms
    requires |candidates| <= (0x1_0000_0000_0000 - 1 - ms) * 0x400_0000_0000_0000_0000
    ensures Increasing(0, Ids(0, candidates))
  {
    hide MaxId, Issue, Pack;
    MaxIdIsPositive();
    var ids := Ids(0, candidates);
    var bound := (ms + 1) * 0x400_0000_0000_0000_0000 - 1;
    forall k | 0 <= k < |candidates| ensures Rank(candidates[k]) <= bound {
      RankOfMs(candidates[k]);
    }
    forall i | 0 <= i < |ids| - 1 ensures ids[i] != MaxId() {
      RunDrift(0, candidates, bound, i);
    }
    RunIncreases(0, candidates);
  }

  lemma RankOfMs(v: int)
    requires IsUuid7(v)
    ensures Rank(v) < (MsOf(v) + 1) * 0x400_0000_0000_0000_0000
  {
    UnpackFields(v);
  }
}
