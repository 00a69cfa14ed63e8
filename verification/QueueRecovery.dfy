/** Crash recovery: the pass over the processing list, and the requeueing of what it returns. */
module QueueRecovery {
  import opened IngestionJob
  import opened Options
  import opened Selection

  const LEASE_TTL_SECONDS := 30 * 60
  const LEASE_RENEW_INTERVAL_SECONDS := 60
  const LEASE_ACTIVE_MIN_TTL_SECONDS := LEASE_TTL_SECONDS - LEASE_RENEW_INTERVAL_SECONDS * 4

  datatype Status = Pending | Processing | Ready | Failed

  datatype Entry = Entry(raw: Raw, job: Job)

  // ----- What a pass does with a list -----

  /** Redis answers -2 for the time to live of a key that is not there. */
  predicate Alive(leases: map<string, int>, jobId: string) {
    (if jobId in leases then leases[jobId] else -2) >= LEASE_ACTIVE_MIN_TTL_SECONDS
  }

  function JobIn(item: Raw, id: string): seq<Entry> {
    match Deserialize(item, id)
    case Read(job) => [Entry(item, job)]
    case _ => []
  }

  function JunkIn(item: Raw): seq<Raw> {
    if Deserialize(item, "").Malformed? then [item] else []
  }

  /** The jobs of a list; `ids` are the random ids that records without one are given. */
  function Jobs(items: seq<Raw>, ids: nat -> string): seq<Entry> {
    if items == [] then []
    else
      var n := |items| - 1;
      Jobs(items[..n], ids) + JobIn(items[n], ids(n))
  }

  function Junk(items: seq<Raw>): seq<Raw> {
    if items == [] then []
    else
      var n := |items| - 1;
      Junk(items[..n]) + JunkIn(items[n])
  }

  /** The entries whose lease is (`alive`) or is not worth waiting for. */
  function Select(entries: seq<Entry>, leases: map<string, int>, alive: bool): seq<Entry> {
    if entries == [] then []
    else
      var n := |entries| - 1;
      Select(entries[..n], leases, alive) + (if Alive(leases, entries[n].job.jobId) == alive then [entries[n]] else [])
  }

  function Raws(entries: seq<Entry>): multiset<Raw> {
    if entries == [] then multiset{} else Raws(entries[..|entries| - 1]) + multiset{entries[|entries| - 1].raw}
  }

  function JobsOf(entries: seq<Entry>): seq<Job> {
    seq(|entries|, i requires 0 <= i < |entries| => entries[i].job)
  }

  predicate Walkable(items: seq<Raw>) {
    NotAnObject !in items
  }

  /** The three parts of a list: what is no job, what a live worker holds, what is taken back. Every
      entry is in exactly one. */
  lemma {:induction false} EveryEntryIsInOnePart(items: seq<Raw>, ids: nat -> string, leases: map<string, int>)
    requires Walkable(items)
    ensures multiset(items) ==
            multiset(Junk(items)) + Raws(Select(Jobs(items, ids), leases, true))
            + Raws(Select(Jobs(items, ids), leases, false))
  {
    JobsAndJunk(items, ids);
    AliveOrNot(Jobs(items, ids), leases);
  }

  lemma {:induction false} JobsAndJunk(items: seq<Raw>, ids: nat -> string)
    requires Walkable(items)
    ensures multiset(items) == multiset(Junk(items)) + Raws(Jobs(items, ids))
  {
    if items != [] {
      var front, x := items[..|items| - 1], items[|items| - 1];
      assert items == front + [x];
      JobsAndJunk(front, ids);
      OneMoreItem(front, x, ids);
    }
  }

  lemma OneMoreItem(items: seq<Raw>, x: Raw, ids: nat -> string)
    requires x != NotAnObject && multiset(items) == multiset(Junk(items)) + Raws(Jobs(items, ids))
    ensures multiset(items + [x]) == multiset(Junk(items + [x])) + Raws(Jobs(items + [x], ids))
  {
    Counted(items, x);
    ItemSorted(items, x, ids);
    hide *;
  }

  lemma Counted<T>(s: seq<T>, x: T)
    ensures multiset(s + [x]) == multiset(s) + multiset{x}
  {}

  /** One more item: a job more, or something malformed more. */
  lemma ItemSorted(items: seq<Raw>, x: Raw, ids: nat -> string)
    requires x != NotAnObject
    ensures var reading := Deserialize(x, ids(|items|));
            if reading.Read? then
              && Jobs(items + [x], ids) == Jobs(items, ids) + [Entry(x, reading.job)]
              && Raws(Jobs(items + [x], ids)) == Raws(Jobs(items, ids)) + multiset{x}
              && Junk(items + [x]) == Junk(items)
            else
              && Jobs(items + [x], ids) == Jobs(items, ids)
              && Junk(items + [x]) == Junk(items) + [x]
              && multiset(Junk(items + [x])) == multiset(Junk(items)) + multiset{x}
  {
    ItemGoes(items, x, ids);
    hide *;
    var reading := Deserialize(x, ids(|items|));
    if reading.Read? {
      RawsAppend(Jobs(items, ids), Entry(x, reading.job));
    } else {
      Counted(Junk(items), x);
    }
  }

  lemma ItemGoes(items: seq<Raw>, x: Raw, ids: nat -> string)
    requires x != NotAnObject
    ensures var reading := Deserialize(x, ids(|items|));
            && Jobs(items + [x], ids) == Jobs(items, ids) + (if reading.Read? then [Entry(x, reading.job)] else [])
            && Junk(items + [x]) == Junk(items) + (if reading.Read? then [] else [x])
            && Jobs(items, ids) + [] == Jobs(items, ids) && Junk(items) + [] == Junk(items)
  {
    OneReading(x, ids(|items|));
    ListsGrow(items, x, ids);
    NothingAdded(Jobs(items, ids));
    NothingAdded(Junk(items));
    hide *;
  }

  lemma OneReading(x: Raw, id: string)
    requires x != NotAnObject
    ensures var reading := Deserialize(x, id);
            && JobIn(x, id) == (if reading.Read? then [Entry(x, reading.job)] else [])
            && JunkIn(x) == (if reading.Read? then [] else [x])
  {
    MalformedWhateverTheId(x, id, "");
    hide Deserialize;
  }

  lemma ListsGrow(items: seq<Raw>, x: Raw, ids: nat -> string)
    ensures Jobs(items + [x], ids) == Jobs(items, ids) + JobIn(x, ids(|items|))
    ensures Junk(items + [x]) == Junk(items) + JunkIn(x)
  {
    hide JobIn, JunkIn;
    FrontAndLast(items, x);
  }

  lemma FrontAndLast<T>(s: seq<T>, x: T)
    ensures (s + [x])[..|s|] == s && (s + [x])[|s|] == x
  {}

  lemma NothingAdded<T>(s: seq<T>)
    ensures s + [] == s
  {}

  lemma MalformedWhateverTheId(raw: Raw, a: string, b: string)
    ensures Deserialize(raw, a).Malformed? == Deserialize(raw, b).Malformed?
    ensures Deserialize(raw, a).Escapes? <==> raw == NotAnObject
  {
    hide Readable, Build;
  }

  lemma RawsAppend(entries: seq<Entry>, e: Entry)
    ensures Raws(entries + [e]) == Raws(entries) + multiset{e.raw}
  {
    assert (entries + [e])[..|entries|] == entries;
  }

  lemma {:induction false} AliveOrNot(entries: seq<Entry>, leases: map<string, int>)
    ensures Raws(entries) == Raws(Select(entries, leases, true)) + Raws(Select(entries, leases, false))
  {
    if entries != [] {
      hide *;
      var front, e := entries[..|entries| - 1], entries[|entries| - 1];
      assert entries == front + [e];
      AliveOrNot(front, leases);
      RawsAppend(front, e);
      SelectAppend(front, e, leases);
    }
  }

  /** The jobs whose lease is gone or has less than 26 of its 30 minutes left. */
  ghost function Abandoned(leases: map<string, int>): Job -> bool {
    (j: Job) => j.jobId !in leases || leases[j.jobId] < 26 * 60
  }

  lemma {:induction false} StaleAreTakenBack(entries: seq<Entry>, leases: map<string, int>)
    ensures Leaves(JobsOf(entries), Abandoned(leases), JobsOf(Select(entries, leases, false)))
  {
    if entries == [] {
      NothingLeft(Abandoned(leases));
      assert JobsOf(entries) == [] && JobsOf(Select(entries, leases, false)) == [];
    } else {
      hide *;
      var front, e := entries[..|entries| - 1], entries[|entries| - 1];
      assert entries == front + [e];
      StaleAreTakenBack(front, leases);
      AbandonedMeans(leases, e.job);
      OneMoreLeft(JobsOf(front), Abandoned(leases), JobsOf(Select(front, leases, false)), e.job);
      JobsAppend(front, e);
      SelectAppend(front, e, leases);
    }
  }

  lemma AbandonedMeans(leases: map<string, int>, j: Job)
    ensures Abandoned(leases)(j) <==> !Alive(leases, j.jobId)
  {}

  lemma JobsAppend(entries: seq<Entry>, e: Entry)
    ensures JobsOf(entries + [e]) == JobsOf(entries) + [e.job]
  {}

  // ----- Lists that workers wrote -----

  function Written(jobs: seq<Job>): seq<Raw> {
    seq(|jobs|, i requires 0 <= i < |jobs| => Serialize(jobs[i]))
  }

  function Pick(jobs: seq<Job>, leases: map<string, int>, alive: bool): seq<Job> {
    if jobs == [] then []
    else
      var n := |jobs| - 1;
      Pick(jobs[..n], leases, alive) + (if Alive(leases, jobs[n].jobId) == alive then [jobs[n]] else [])
  }

  /** On a list of serialized jobs nothing is malformed, and what is returned is exactly the jobs with a
      stale lease, each as often as it was listed, in list order, with every field as it was pushed:
      epochs and attempt included. */
  lemma {:induction false} StaleJobsComeBackUnchanged(jobs: seq<Job>, ids: nat -> string, leases: map<string, int>)
    ensures Junk(Written(jobs)) == [] && Walkable(Written(jobs))
    ensures JobsOf(Select(Jobs(Written(jobs), ids), leases, false)) == Pick(jobs, leases, false)
    ensures Raws(Select(Jobs(Written(jobs), ids), leases, true)) == multiset(Written(Pick(jobs, leases, true)))
  {
    if jobs != [] {
      var front, j := jobs[..|jobs| - 1], jobs[|jobs| - 1];
      assert jobs == front + [j];
      StaleJobsComeBackUnchanged(front, ids, leases);
      OneMoreJob(front, j, ids, leases);
    }
  }

  lemma OneMoreJob(jobs: seq<Job>, j: Job, ids: nat -> string, leases: map<string, int>)
    requires Junk(Written(jobs)) == [] && Walkable(Written(jobs))
    requires JobsOf(Select(Jobs(Written(jobs), ids), leases, false)) == Pick(jobs, leases, false)
    requires Raws(Select(Jobs(Written(jobs), ids), leases, true)) == multiset(Written(Pick(jobs, leases, true)))
    ensures Junk(Written(jobs + [j])) == [] && Walkable(Written(jobs + [j]))
    ensures JobsOf(Select(Jobs(Written(jobs + [j]), ids), leases, false)) == Pick(jobs + [j], leases, false)
    ensures Raws(Select(Jobs(Written(jobs + [j]), ids), leases, true)) == multiset(Written(Pick(jobs + [j], leases, true)))
  {
    hide *;
    OneMoreRead(jobs, j, ids);
    SelectAppend(Jobs(Written(jobs), ids), Entry(Serialize(j), j), leases);
    PickAppend(jobs, j, leases);
    WrittenAppend(Pick(jobs, leases, true), j);
  }

  lemma OneMoreRead(jobs: seq<Job>, j: Job, ids: nat -> string)
    requires Junk(Written(jobs)) == [] && Walkable(Written(jobs))
    ensures Jobs(Written(jobs + [j]), ids) == Jobs(Written(jobs), ids) + [Entry(Serialize(j), j)]
    ensures Junk(Written(jobs + [j])) == [] && Walkable(Written(jobs + [j]))
  {
    hide *;
    RoundTrip(j, map[], ids(|Written(jobs)|));
    WrittenAppend(jobs, j);
    IsAnObject(j);
    ItemSorted(Written(jobs), Serialize(j), ids);
    StillWalkable(Written(jobs), Serialize(j));
  }

  lemma IsAnObject(j: Job)
    ensures Serialize(j) != NotAnObject
  {}

  lemma StillWalkable(items: seq<Raw>, x: Raw)
    requires Walkable(items) && x != NotAnObject
    ensures Walkable(items + [x])
  {}

  lemma PickAppend(jobs: seq<Job>, j: Job, leases: map<string, int>)
    ensures Pick(jobs + [j], leases, Alive(leases, j.jobId)) == Pick(jobs, leases, Alive(leases, j.jobId)) + [j]
    ensures Pick(jobs + [j], leases, !Alive(leases, j.jobId)) == Pick(jobs, leases, !Alive(leases, j.jobId))
  {
    hide Alive;
    assert (jobs + [j])[..|jobs|] == jobs;
  }

  lemma SelectAppend(entries: seq<Entry>, e: Entry, leases: map<string, int>)
    ensures var alive := Alive(leases, e.job.jobId);
            && Select(entries + [e], leases, alive) == Select(entries, leases, alive) + [e]
            && Select(entries + [e], leases, !alive) == Select(entries, leases, !alive)
            && Raws(Select(entries + [e], leases, alive)) == Raws(Select(entries, leases, alive)) + multiset{e.raw}
            && JobsOf(Select(entries + [e], leases, alive)) == JobsOf(Select(entries, leases, alive)) + [e.job]
  {
    hide Alive;
    assert (entries + [e])[..|entries|] == entries;
    var alive := Alive(leases, e.job.jobId);
    RawsAppend(Select(entries, leases, alive), e);
    assert Select(entries + [e], leases, alive) == Select(entries, leases, alive) + [e];
    assert Select(entries + [e], leases, !alive) == Select(entries, leases, !alive) + [] == Select(entries, leases, !alive);
    hide Select, Raws;
  }

  lemma WrittenAppend(jobs: seq<Job>, j: Job)
    ensures Written(jobs + [j]) == Written(jobs) + [Serialize(j)]
    ensures multiset(Written(jobs + [j])) == multiset(Written(jobs)) + multiset{Serialize(j)}
  {
    hide Serialize;
    assert Written(jobs + [j]) == Written(jobs) + [Serialize(j)];
  }

  // ----- Redis and the document rows -----

  /** `LREM key 1 raw`: the first occurrence goes. */
  function RemoveOne<T(==)>(list: seq<T>, raw: T): (r: seq<T>)
    ensures multiset(r) == multiset(list) - multiset{raw}
  {
    if list == [] then []
    else if list[0] == raw then
      assert list == [list[0]] + list[1..];
      list[1..]
    else
      assert list == [list[0]] + list[1..];
      [list[0]] + RemoveOne(list[1..], raw)
  }

  predicate Open(rows: map<string, Status>, id: string) {
    id in rows && (rows[id] == Pending || rows[id] == Processing)
  }

  /** One of the jobs is for the document. */
  predicate ForOneOf(jobs: seq<Job>, documentId: string) {
    exists j <- jobs :: j.documentId == documentId
  }

  /** The rows after `UPDATE ... WHERE id IN jobs AND status IN (pending, processing)`. */
  function MarkPending(rows: map<string, Status>, jobs: seq<Job>): (r: map<string, Status>)
    ensures r.Keys == rows.Keys
    ensures forall d <- rows :: r[d] == if (rows[d] == Pending || rows[d] == Processing) && ForOneOf(jobs, d)
                                        then Pending else rows[d]
  {
    map id | id in rows :: if Open(rows, id) && ForOneOf(jobs, id) then Pending else rows[id]
  }

  function Requeued(rows: map<string, Status>, jobs: seq<Job>): seq<Job> {
    if jobs == [] then []
    else
      var n := |jobs| - 1;
      Requeued(rows, jobs[..n]) + (if Open(rows, jobs[n].documentId) then [jobs[n]] else [])
  }

  /** The jobs whose document still waits for them. */
  ghost function Waiting(rows: map<string, Status>): Job -> bool {
    (j: Job) => j.documentId in rows && (rows[j.documentId] == Pending || rows[j.documentId] == Processing)
  }

  lemma {:induction false} OnesWaitingAreRequeued(rows: map<string, Status>, jobs: seq<Job>)
    ensures Leaves(jobs, Waiting(rows), Requeued(rows, jobs))
  {
    var keep := Waiting(rows);
    if jobs == [] {
      NothingLeft(keep);
    } else {
      var front, j := jobs[..|jobs| - 1], jobs[|jobs| - 1];
      assert jobs == front + [j];
      OnesWaitingAreRequeued(rows, front);
      OneMoreLeft(front, keep, Requeued(rows, front), j);
      assert Requeued(rows, front) + [] == Requeued(rows, front);
      hide Leaves;
    }
  }

  /** So a stale job is sent again as often as it was listed if its document waits for it, and not at all
      otherwise. */
  lemma SentAsOftenAsListed(rows: map<string, Status>, jobs: seq<Job>, j: Job)
    ensures multiset(Requeued(rows, jobs))[j] ==
            if j.documentId in rows && (rows[j.documentId] == Pending || rows[j.documentId] == Processing)
            then multiset(jobs)[j] else 0
  {
    OnesWaitingAreRequeued(rows, jobs);
    LeftAsOften(jobs, Waiting(rows), Requeued(rows, jobs), j);
    hide Leaves, Requeued;
  }

  lemma Minus(a: multiset<Raw>, b: multiset<Raw>, c: multiset<Raw>)
    ensures a - (b + c) == a - b - c
  {}

  lemma Rest(a: multiset<Raw>, b: multiset<Raw>, c: multiset<Raw>)
    requires a == b + c
    ensures a - b == c
  {}

  lemma WholeList<T>(s: seq<T>)
    ensures s[..|s|] == s
  {}

  lemma PrefixGrows<T>(s: seq<T>, i: nat)
    requires i < |s|
    ensures s[..i + 1] == s[..i] + [s[i]]
  {}

  /** One more entry of a list: what it adds to the jobs and to what is removed, and whether the pass
      goes on. */
  lemma ItemRead(items: seq<Raw>, i: nat, ids: nat -> string)
    requires i < |items| && Walkable(items[..i])
    ensures var reading := Deserialize(items[i], ids(i));
            && (reading.Escapes? ==> items[i] == NotAnObject && !Walkable(items))
            && (!reading.Escapes? ==>
                  && Walkable(items[..i + 1])
                  && Jobs(items[..i + 1], ids) ==
                       Jobs(items[..i], ids) + (if reading.Read? then [Entry(items[i], reading.job)] else [])
                  && multiset(items) - multiset(Junk(items[..i + 1])) ==
                       multiset(items) - multiset(Junk(items[..i]))
                       - (if reading.Read? then multiset{} else multiset{items[i]}))
  {
    MalformedWhateverTheId(items[i], ids(i), "");
    WalksOn(items, i);
    if items[i] != NotAnObject {
      hide *;
      ItemAdded(items, i, ids);
    }
  }

  lemma WalksOn(items: seq<Raw>, i: nat)
    requires i < |items| && Walkable(items[..i])
    ensures if items[i] == NotAnObject then !Walkable(items) else Walkable(items[..i + 1])
  {
    PrefixGrows(items, i);
    assert items[i] in items;
  }

  lemma ItemAdded(items: seq<Raw>, i: nat, ids: nat -> string)
    requires i < |items| && items[i] != NotAnObject
    ensures var reading := Deserialize(items[i], ids(i));
            && Jobs(items[..i + 1], ids) ==
                 Jobs(items[..i], ids) + (if reading.Read? then [Entry(items[i], reading.job)] else [])
            && multiset(items) - multiset(Junk(items[..i + 1])) ==
                 multiset(items) - multiset(Junk(items[..i]))
                 - (if reading.Read? then multiset{} else multiset{items[i]})
  {
    hide *;
    PrefixGrows(items, i);
    ItemSorted(items[..i], items[i], ids);
    NothingAdded(Jobs(items[..i], ids));
    Minus(multiset(items), multiset(Junk(items[..i])), multiset{items[i]});
  }

  /** What an interrupted pass leaves: the unreadable entries ahead of the first JSON value that is no
      object are gone, and nothing else. */
  ghost predicate GoneBefore(items: seq<Raw>, left: seq<Raw>) {
    exists i :: 0 <= i < |items| && items[i] == NotAnObject && Walkable(items[..i])
      && multiset(left) == multiset(items) - multiset(Junk(items[..i]))
  }

  class Stores {
    var processing: seq<Raw>
    var leases: map<string, int>
    var rows: map<string, Status>
    var sent: seq<Raw>

    /** The first half of a pass: reads every entry, and removes what cannot be read. */
    method ReadEntries(items: seq<Raw>, ids: nat -> string) returns (parsed: Option<seq<Entry>>)
      requires processing == items
      modifies this`processing
      ensures Walkable(items) ==>
                parsed == Some(Jobs(items, ids)) && multiset(processing) == multiset(items) - multiset(Junk(items))
      ensures !Walkable(items) ==> parsed == None && GoneBefore(items, processing)
    {
      var entries: seq<Entry> := [];
      assert items[..0] == [];
      assert Jobs(items[..0], ids) == entries;
      assert multiset(items) - multiset(Junk(items[..0])) == multiset(items);
      hide Deserialize, Raws, Jobs, Junk, Walkable;
      for i := 0 to |items|
        invariant Walkable(items[..i])
        invariant entries == Jobs(items[..i], ids)
        invariant multiset(processing) == multiset(items) - multiset(Junk(items[..i]))
      {
        ItemRead(items, i, ids);
        match Deserialize(items[i], ids(i)) {
          case Malformed =>
            processing := RemoveOne(processing, items[i]);
          case Escapes =>
            return None;
          case Read(job) =>
            entries := entries + [Entry(items[i], job)];
        }
      }
      WholeList(items);
      parsed := Some(entries);
    }

    /** The second half: takes every entry with a stale lease off the list. */
    method TakeStale(parsed: seq<Entry>) returns (recovered: seq<Job>)
      modifies this`processing
      ensures recovered == JobsOf(Select(parsed, leases, false))
      ensures multiset(processing) == multiset(old(processing)) - Raws(Select(parsed, leases, false))
    {
      recovered := [];
      assert parsed[..0] == [];
      assert Select(parsed[..0], leases, false) == [];
      assert multiset(processing) - Raws([]) == multiset(processing);
      hide Alive, Raws, Select;
      for i := 0 to |parsed|
        invariant recovered == JobsOf(Select(parsed[..i], leases, false))
        invariant multiset(processing) == multiset(old(processing)) - Raws(Select(parsed[..i], leases, false))
      {
        assert parsed[..i + 1] == parsed[..i] + [parsed[i]];
        SelectAppend(parsed[..i], parsed[i], leases);
        if !Alive(leases, parsed[i].job.jobId) {
          Minus(multiset(old(processing)), Raws(Select(parsed[..i], leases, false)), multiset{parsed[i].raw});
          processing := RemoveOne(processing, parsed[i].raw);
          recovered := recovered + [parsed[i].job];
        }
      }
      assert parsed[..|parsed|] == parsed;
    }

    /** One pass over the list. It fails when an entry is JSON but not an object; entries before that
        one which could not be read are gone by then, and no job is returned. */
    method RecoverStuckJobs(ids: nat -> string) returns (recovered: Option<seq<Job>>)
      modifies this`processing
      ensures Walkable(old(processing)) ==>
                var entries := Jobs(old(processing), ids);
                && recovered == Some(JobsOf(Select(entries, leases, false)))
                && Leaves(JobsOf(entries), Abandoned(leases), recovered.value)
                && multiset(processing) == Raws(Select(entries, leases, true))
      ensures !Walkable(old(processing)) ==> recovered == None && GoneBefore(old(processing), processing)
    {
      var items := processing;
      var parsed := ReadEntries(items, ids);
      if parsed.None? {
        return None;
      }
      JobsAndJunk(items, ids);
      AliveOrNot(parsed.value, leases);
      StaleAreTakenBack(parsed.value, leases);
      hide *;
      Rest(multiset(items), multiset(Junk(items)), Raws(parsed.value));
      var jobs := TakeStale(parsed.value);
      Rest(Raws(parsed.value), Raws(Select(parsed.value, leases, false)), Raws(Select(parsed.value, leases, true)));
      recovered := Some(jobs);
    }

    /** Recovery as a whole: the stale jobs whose document is still pending or being processed are sent
        again, as they were listed, and their rows wait again; other stale jobs are dropped. */
    method Recover(ids: nat -> string) returns (count: Option<nat>)
      modifies this`processing, this`rows, this`sent
      ensures Walkable(old(processing)) ==>
                exists stale: seq<Job>, again: seq<Job> ::
                  && Leaves(JobsOf(Jobs(old(processing), ids)), Abandoned(leases), stale)
                  && Leaves(stale, Waiting(old(rows)), again)
                  && sent == old(sent) + Written(again) && count == Some(|again|)
                  && rows.Keys == old(rows).Keys
                  && forall d <- rows :: rows[d] ==
                       if (old(rows)[d] == Pending || old(rows)[d] == Processing) && ForOneOf(stale, d)
                       then Pending else old(rows)[d]
      ensures Walkable(old(processing)) ==>
                var stale := JobsOf(Select(Jobs(old(processing), ids), leases, false));
                && multiset(processing) == Raws(Select(Jobs(old(processing), ids), leases, true))
                && rows == MarkPending(old(rows), stale)
                && sent == old(sent) + Written(Requeued(old(rows), stale))
                && count == Some(|Requeued(old(rows), stale)|)
      ensures !Walkable(old(processing)) ==> count == None && rows == old(rows) && sent == old(sent) && GoneBefore(old(processing), processing)
    {
      hide *;
      ghost var entries := Jobs(processing, ids);
      var recovered := RecoverStuckJobs(ids);
      if recovered.None? {
        return None;
      }
      var jobs := recovered.value;
      var requeue := Requeued(rows, jobs);
      InPlainTerms(entries, leases, rows, jobs, sent);
      if jobs == [] {
        NothingToRequeue(rows, sent);
        return Some(0);
      }
      rows := MarkPending(rows, jobs);
      NothingWritten(sent, requeue);
      for i := 0 to |requeue|
        invariant sent == old(sent) + Written(requeue[..i])
        invariant rows == MarkPending(old(rows), jobs)
        invariant multiset(processing) == Raws(Select(Jobs(old(processing), ids), leases, true))
      {
        OneMoreWritten(old(sent), requeue, i);
        sent := sent + [Serialize(requeue[i])];
      }
      WholeList(requeue);
      count := Some(|requeue|);
    }
  }

  /** What recovery does with the entries it read, without the functions that compute it. */
  lemma InPlainTerms(entries: seq<Entry>, leases: map<string, int>, rows: map<string, Status>, stale: seq<Job>, sent: seq<Raw>)
    requires Leaves(JobsOf(entries), Abandoned(leases), stale)
    ensures exists taken: seq<Job>, again: seq<Job> ::
              && Leaves(JobsOf(entries), Abandoned(leases), taken)
              && Leaves(taken, Waiting(rows), again)
              && sent + Written(Requeued(rows, stale)) == sent + Written(again) && |Requeued(rows, stale)| == |again|
              && MarkPending(rows, stale).Keys == rows.Keys
              && forall d <- rows :: MarkPending(rows, stale)[d] ==
                   if (rows[d] == Pending || rows[d] == Processing) && ForOneOf(taken, d) then Pending else rows[d]
  {
    OnesWaitingAreRequeued(rows, stale);
    hide Leaves, Requeued, MarkPending, ForOneOf, Written;
  }

  lemma NothingToRequeue(rows: map<string, Status>, sent: seq<Raw>)
    ensures Requeued(rows, []) == [] && MarkPending(rows, []) == rows && sent + Written([]) == sent
  {
    assert MarkPending(rows, []) == rows;
  }

  lemma NothingWritten(sent: seq<Raw>, jobs: seq<Job>)
    ensures sent + Written(jobs[..0]) == sent
  {}

  lemma OneMoreWritten(sent: seq<Raw>, jobs: seq<Job>, i: nat)
    requires i < |jobs|
    ensures sent + Written(jobs[..i]) + [Serialize(jobs[i])] == sent + Written(jobs[..i + 1])
  {
    hide Serialize;
    PrefixGrows(jobs, i);
    WrittenAppend(jobs[..i], jobs[i]);
  }
}
