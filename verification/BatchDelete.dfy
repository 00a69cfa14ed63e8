/** Batch deletion: the tenant filter, deduplication into batches, and the two-stage deletion of a
    batch, over stores that may fail document by document. */
module BatchDelete {
  import opened Options
  import opened Selection
  import Queue = IngestionSteps

  const DOCUMENT_DELETE_CHUNK_SIZE := 1000

  /** The elements for which `p` is `want`, in order. */
  function Pick(s: seq<string>, p: string -> bool, want: bool): (r: seq<string>)
    ensures forall x :: x in r <==> x in s && p(x) == want
  {
    if s == [] then []
    else
      var front, x := s[..|s| - 1], s[|s| - 1];
      assert s == front + [x];
      Pick(front, p, want) + (if p(x) == want then [x] else [])
  }

  function Map<T, U>(s: seq<T>, f: T -> U): (r: seq<U>)
    ensures |r| == |s| && forall i :: 0 <= i < |s| ==> r[i] == f(s[i])
  {
    seq(|s|, i requires 0 <= i < |s| => f(s[i]))
  }

  function Items<T(==)>(s: seq<T>): set<T> {
    set x | x in s
  }

  predicate Distinct<T(==)>(s: seq<T>) {
    forall i, j | 0 <= i < j < |s| :: s[i] != s[j]
  }

  lemma {:induction false} PickSplits(s: seq<string>, p: string -> bool)
    ensures |Pick(s, p, true)| + |Pick(s, p, false)| == |s|
  {
    if s != [] {
      PickSplits(s[..|s| - 1], p);
    }
  }

  function Wanted(p: string -> bool, want: bool): string -> bool {
    x => p(x) == want
  }

  lemma {:induction false} PickKeepsOrder(s: seq<string>, p: string -> bool, want: bool)
    ensures Leaves(s, Wanted(p, want), Pick(s, p, want))
  {
    if s == [] {
      NothingLeft(Wanted(p, want));
    } else {
      var front, x := s[..|s| - 1], s[|s| - 1];
      assert s == front + [x];
      PickKeepsOrder(front, p, want);
      OneMoreLeft(front, Wanted(p, want), Pick(front, p, want), x);
      assert Pick(front, p, want) + [] == Pick(front, p, want);
      hide Leaves;
    }
  }

  // ----- Deduplication -----

  /** The ids that come first under their canonical form. */
  function FirstOnes(ids: seq<string>, canon: string -> string): seq<string> {
    if ids == [] then []
    else
      var front, id := ids[..|ids| - 1], ids[|ids| - 1];
      FirstOnes(front, canon) + (if canon(id) in Map(front, canon) then [] else [id])
  }

  function Flatten(batches: seq<seq<string>>): seq<string> {
    if batches == [] then [] else Flatten(batches[..|batches| - 1]) + batches[|batches| - 1]
  }

  predicate GoodBatch(b: seq<string>) {
    1 <= |b| <= DOCUMENT_DELETE_CHUNK_SIZE
  }

  /** `_batch_delete_chunks`. */
  method BatchDeleteChunks(ids: seq<string>, canon: string -> string) returns (batches: seq<seq<string>>)
    ensures Flatten(batches) == FirstOnes(ids, canon)
    ensures forall b <- batches :: 1 <= |b| <= 1000
    ensures 1000 * |batches| < |ids| + 1000
  {
    batches := [];
    var seen: set<string> := {};
    var start := 0;
    NoIds(ids, canon);
    hide FirstOnes, Map, Items, Flatten, GoodBatch;
    while start < |ids|
      invariant 0 <= start <= |ids|
      invariant seen == Items(Map(ids[..start], canon))
      invariant Flatten(batches) == FirstOnes(ids[..start], canon)
      invariant forall b <- batches :: GoodBatch(b)
      invariant 1000 * |batches| < |ids| + 1000 && (start < |ids| ==> 1000 * |batches| <= start)
    {
      var end := if start + DOCUMENT_DELETE_CHUNK_SIZE <= |ids| then start + DOCUMENT_DELETE_CHUNK_SIZE else |ids|;
      var raw: seq<string> := [];
      for i := start to end
        invariant seen == Items(Map(ids[..i], canon))
        invariant |raw| <= i - start
        invariant Flatten(batches) + raw == FirstOnes(ids[..i], canon)
      {
        OneMoreId(ids[..i], ids[i], canon);
        PrefixGrows(ids, i);
        var id := canon(ids[i]);
        if id !in seen {
          Regroup(Flatten(batches), raw, [ids[i]]);
          seen := seen + {id};
          raw := raw + [ids[i]];
        }
      }
      if raw != [] {
        OneMoreBatch(batches, raw);
        batches := batches + [raw];
      }
      start := end;
    }
    assert ids[..start] == ids;
    GoodBatches(batches);
  }

  lemma GoodBatches(batches: seq<seq<string>>)
    requires forall b <- batches :: GoodBatch(b)
    ensures forall b <- batches :: 1 <= |b| <= 1000
  {
    forall b <- batches ensures 1 <= |b| <= 1000 {
      assert GoodBatch(b);
    }
  }

  lemma NoIds(ids: seq<string>, canon: string -> string)
    ensures Items(Map(ids[..0], canon)) == {} && FirstOnes(ids[..0], canon) == [] && Flatten([]) == []
  {}

  lemma OneMoreBatch(batches: seq<seq<string>>, raw: seq<string>)
    requires 1 <= |raw| <= DOCUMENT_DELETE_CHUNK_SIZE
    ensures Flatten(batches + [raw]) == Flatten(batches) + raw && GoodBatch(raw)
  {
    assert (batches + [raw])[..|batches|] == batches;
  }

  lemma PrefixGrows<T>(s: seq<T>, i: nat)
    requires i < |s|
    ensures s[..i + 1] == s[..i] + [s[i]]
  {}

  lemma OneMoreId(ids: seq<string>, id: string, canon: string -> string)
    ensures Items(Map(ids + [id], canon)) == Items(Map(ids, canon)) + {canon(id)}
    ensures FirstOnes(ids + [id], canon) ==
            if canon(id) in Items(Map(ids, canon)) then FirstOnes(ids, canon) else FirstOnes(ids, canon) + [id]
    ensures canon(id) in Items(Map(ids, canon)) ==> Items(Map(ids, canon)) + {canon(id)} == Items(Map(ids, canon))
  {
    assert (ids + [id])[..|ids|] == ids;
    assert Map(ids + [id], canon) == Map(ids, canon) + [canon(id)];
    assert FirstOnes(ids, canon) + [] == FirstOnes(ids, canon);
  }

  /** Every id asked for is kept once, under its canonical form. */
  lemma {:induction false} FirstOnesCoverOnce(ids: seq<string>, canon: string -> string)
    ensures Distinct(Map(FirstOnes(ids, canon), canon))
    ensures Items(Map(FirstOnes(ids, canon), canon)) == Items(Map(ids, canon))
    ensures |FirstOnes(ids, canon)| == |Items(Map(ids, canon))|
  {
    if ids != [] {
      hide *;
      var front, id := ids[..|ids| - 1], ids[|ids| - 1];
      assert ids == front + [id];
      FirstOnesCoverOnce(front, canon);
      OneMoreId(front, id, canon);
      OneMoreKept(FirstOnes(front, canon), id, canon);
    }
  }

  /** What is kept is asked for, and an id once kept stays, whatever follows: it is the first of its form. */
  lemma {:induction false} FirstOnesComeFirst(ids: seq<string>, more: seq<string>, canon: string -> string)
    ensures forall id <- FirstOnes(ids, canon) :: id in ids
    ensures FirstOnes(ids, canon) <= FirstOnes(ids + more, canon)
    decreases |ids| + |more|
  {
    if more != [] {
      var n := |more| - 1;
      FirstOnesComeFirst(ids, more[..n], canon);
      assert (ids + more)[..|ids| + n] == ids + more[..n];
    } else {
      assert ids + more == ids;
      if ids != [] {
        FirstOnesComeFirst(ids[..|ids| - 1], [], canon);
      }
    }
  }

  lemma OneMoreKept(kept: seq<string>, id: string, canon: string -> string)
    requires Distinct(Map(kept, canon))
    ensures canon(id) !in Items(Map(kept, canon)) ==> Distinct(Map(kept + [id], canon))
    ensures Items(Map(kept + [id], canon)) == Items(Map(kept, canon)) + {canon(id)}
    ensures canon(id) in Items(Map(kept, canon)) ==> Items(Map(kept, canon)) + {canon(id)} == Items(Map(kept, canon))
    ensures canon(id) !in Items(Map(kept, canon)) ==>
              |Items(Map(kept, canon)) + {canon(id)}| == |Items(Map(kept, canon))| + 1
  {
    var all := Map(kept, canon);
    assert Map(kept + [id], canon) == all + [canon(id)];
    assert canon(id) !in Items(all) ==> canon(id) !in all;
  }

  // ----- One batch -----

  datatype Reason = NotFound | FileKept | VectorsKept

  datatype Problem = Problem(document: string, reason: Reason)

  datatype Action =
    | BumpEpoch(id: string) | RemoveFile(id: string) | RemoveVectors(id: string) | RemoveRow(id: string)

  function Cancelling(id: string): Action { BumpEpoch(id) }

  function RemovingFile(id: string): Action { RemoveFile(id) }

  function RemovingVectors(id: string): Action { RemoveVectors(id) }

  function RemovingRow(id: string): Action { RemoveRow(id) }

  function IsMissing(id: string): Problem { Problem(id, NotFound) }

  function KeptFile(id: string): Problem { Problem(id, FileKept) }

  function KeptVectors(id: string): Problem { Problem(id, VectorsKept) }

  /** Which deletions fail: of staged files, of one document's vectors, and of the vectors of a whole
      batch, which may have removed some of those it was asked for all the same. */
  datatype Faults = Faults(file: string -> bool, vectors: string -> bool, bulk: bool, removedByBulk: set<string>)

  /** The ids, as they were asked for, that have no row. */
  function Missing(ids: seq<string>, rows: set<string>, canon: string -> string): seq<string> {
    Pick(ids, id => canon(id) in rows, false)
  }

  /** The canonical ids that have one. */
  function Candidates(ids: seq<string>, rows: set<string>, canon: string -> string): seq<string> {
    Pick(Map(ids, canon), id => id in rows, true)
  }

  function Staged(candidates: seq<string>, f: Faults): seq<string> {
    Pick(candidates, f.file, false)
  }

  function Rid(staged: seq<string>, f: Faults): seq<string> {
    if f.bulk then Pick(staged, f.vectors, false) else staged
  }

  /** The canonical ids a batch deletes. */
  function Gone(ids: seq<string>, rows: set<string>, canon: string -> string, f: Faults): seq<string> {
    Rid(Staged(Candidates(ids, rows, canon), f), f)
  }

  function Problems(ids: seq<string>, rows: set<string>, canon: string -> string, f: Faults): seq<Problem> {
    var staged := Staged(Candidates(ids, rows, canon), f);
    Map(Missing(ids, rows, canon), IsMissing)
    + Map(Pick(Candidates(ids, rows, canon), f.file, true), KeptFile)
    + (if f.bulk then Map(Pick(staged, f.vectors, true), KeptVectors) else [])
  }

  /** What is done to the stores, in order. */
  function Steps(candidates: seq<string>, staged: seq<string>, gone: seq<string>): seq<Action> {
    Map(candidates, Cancelling) + Map(staged, RemovingFile) + Map(gone, RemovingVectors) + Map(gone, RemovingRow)
  }

  function Doings(ids: seq<string>, rows: set<string>, canon: string -> string, f: Faults): seq<Action> {
    Steps(Candidates(ids, rows, canon), Staged(Candidates(ids, rows, canon), f), Gone(ids, rows, canon, f))
  }

  function NotBelowZero(n: int): int {
    if n > 0 then n else 0
  }

  /** Nothing is lost and nothing counted twice: each id of a batch is deleted or reported. */
  lemma BatchAddsUp(ids: seq<string>, rows: set<string>, canon: string -> string, f: Faults)
    ensures |Gone(ids, rows, canon, f)| + |Problems(ids, rows, canon, f)| == |ids|
  {
    MissingAndFound(ids, rows, canon);
    var candidates := Candidates(ids, rows, canon);
    PickSplits(candidates, f.file);
    PickSplits(Staged(candidates, f), f.vectors);
    hide Pick;
  }

  lemma {:induction false} MissingAndFound(ids: seq<string>, rows: set<string>, canon: string -> string)
    ensures |Missing(ids, rows, canon)| + |Candidates(ids, rows, canon)| == |ids|
  {
    if ids != [] {
      var front, id := ids[..|ids| - 1], ids[|ids| - 1];
      MissingAndFound(front, rows, canon);
      assert Map(ids, canon)[..|front|] == Map(front, canon);
    }
  }

  /** No document is both deleted and reported: one without a row cannot be deleted, and one whose file
      or vectors stayed is not. */
  lemma DeletedOrReported(ids: seq<string>, rows: set<string>, canon: string -> string, f: Faults)
    ensures Items(Gone(ids, rows, canon, f)) <= rows * Items(Map(ids, canon))
    ensures forall p <- Problems(ids, rows, canon, f) :: NotDeleted(p, canon, Items(Gone(ids, rows, canon, f)), rows)
  {
    var gone := Gone(ids, rows, canon, f);
    forall p <- Problems(ids, rows, canon, f)
      ensures NotDeleted(p, canon, Items(gone), rows)
    {
      assert p.reason == NotFound ==> p.document in Missing(ids, rows, canon);
    }
  }

  predicate NotDeleted(p: Problem, canon: string -> string, gone: set<string>, rows: set<string>) {
    if p.reason == NotFound then canon(p.document) !in rows else p.document !in gone
  }

  // ----- In plain terms -----

  predicate AskedFor(d: string, ids: seq<string>, canon: string -> string) {
    exists id <- ids :: canon(id) == d
  }

  /** Which documents are found, get rid of their files, and are deleted. */
  lemma InPlainTerms(ids: seq<string>, rows: set<string>, canon: string -> string, f: Faults)
    ensures forall d :: d in Candidates(ids, rows, canon) <==> AskedFor(d, ids, canon) && d in rows
    ensures forall d :: d in Staged(Candidates(ids, rows, canon), f) <==>
                          AskedFor(d, ids, canon) && d in rows && !f.file(d)
    ensures forall d :: d in Gone(ids, rows, canon, f) <==>
                          AskedFor(d, ids, canon) && d in rows && !f.file(d) && !(f.bulk && f.vectors(d))
  {
    forall d ensures d in Map(ids, canon) <==> AskedFor(d, ids, canon) {
      AllMapped(ids, canon);
    }
  }

  lemma RowsAndFilesInPlainTerms(ids: seq<string>, canon: string -> string, f: Faults,
                                 rows: set<string>, rows1: set<string>, files: set<string>, files1: set<string>)
    requires rows1 == rows - Items(Gone(ids, rows, canon, f))
    requires files1 == files - Items(Staged(Candidates(ids, rows, canon), f))
    ensures rows1 <= rows && forall d <- rows ::
              d !in rows1 <==> AskedFor(d, ids, canon) && !f.file(d) && !(f.bulk && f.vectors(d))
    ensures files1 <= files && forall d <- files :: d !in files1 <==> AskedFor(d, ids, canon) && d in rows && !f.file(d)
  {
    InPlainTerms(ids, rows, canon, f);
    hide Gone, Staged, Candidates, AskedFor;
  }

  lemma VectorsInPlainTerms(ids: seq<string>, canon: string -> string, f: Faults,
                            rows: set<string>, rows1: set<string>, vectors: set<string>, vectors1: set<string>)
    requires rows1 == rows - Items(Gone(ids, rows, canon, f))
    requires vectors1 <= vectors && vectors1 !! Items(Gone(ids, rows, canon, f))
    requires vectors - vectors1 <= Items(Staged(Candidates(ids, rows, canon), f))
    requires !f.bulk ==> vectors1 == vectors - Items(Staged(Candidates(ids, rows, canon), f))
    ensures forall d <- vectors | d !in vectors1 :: AskedFor(d, ids, canon) && d in rows && !f.file(d)
    ensures forall d <- vectors | AskedFor(d, ids, canon) && d in rows && !f.file(d) && !f.bulk :: d !in vectors1
    ensures forall d <- rows | d !in rows1 :: d !in vectors1
  {
    InPlainTerms(ids, rows, canon, f);
    hide Gone, Staged, Candidates, AskedFor;
    assert forall d <- vectors | d !in vectors1 :: d in vectors - vectors1;
  }

  lemma ReportedInPlainTerms(ids: seq<string>, rows: set<string>, canon: string -> string, f: Faults)
    ensures forall id <- ids ::
              && (canon(id) !in rows ==> Problem(id, NotFound) in Problems(ids, rows, canon, f))
              && (canon(id) in rows && f.file(canon(id)) ==> Problem(canon(id), FileKept) in Problems(ids, rows, canon, f))
              && (canon(id) in rows && !f.file(canon(id)) && f.bulk && f.vectors(canon(id)) ==>
                    Problem(canon(id), VectorsKept) in Problems(ids, rows, canon, f))
  {
    var candidates := Candidates(ids, rows, canon);
    AllMapped(ids, canon);
    AllMapped(Missing(ids, rows, canon), IsMissing);
    AllMapped(Pick(candidates, f.file, true), KeptFile);
    AllMapped(Pick(Staged(candidates, f), f.vectors, true), KeptVectors);
    forall id <- ids
      ensures canon(id) !in rows ==> Problem(id, NotFound) in Problems(ids, rows, canon, f)
      ensures canon(id) in rows && f.file(canon(id)) ==> Problem(canon(id), FileKept) in Problems(ids, rows, canon, f)
      ensures canon(id) in rows && !f.file(canon(id)) && f.bulk && f.vectors(canon(id)) ==>
                Problem(canon(id), VectorsKept) in Problems(ids, rows, canon, f)
    {
      assert canon(id) in Map(ids, canon);
      if canon(id) !in rows {
        assert IsMissing(id) in Map(Missing(ids, rows, canon), IsMissing);
      } else if f.file(canon(id)) {
        assert KeptFile(canon(id)) in Map(Pick(candidates, f.file, true), KeptFile);
      } else if f.bulk && f.vectors(canon(id)) {
        assert KeptVectors(canon(id)) in Map(Pick(Staged(candidates, f), f.vectors, true), KeptVectors);
      }
    }
  }

  lemma EpochsInPlainTerms(ids: seq<string>, rows: set<string>, canon: string -> string, epochs: map<string, nat>)
    ensures forall d :: if AskedFor(d, ids, canon) && d in rows
                        then Queue.Epoch(Queue.Bumped(epochs, Candidates(ids, rows, canon)), d) > Queue.Epoch(epochs, d)
                        else Queue.Epoch(Queue.Bumped(epochs, Candidates(ids, rows, canon)), d) == Queue.Epoch(epochs, d)
  {
    var none := Faults(id => false, id => false, false, {});
    InPlainTerms(ids, rows, canon, none);
    hide Queue.Bumped, Queue.Epoch, Candidates, AskedFor;
    forall d
      ensures if AskedFor(d, ids, canon) && d in rows
              then Queue.Epoch(Queue.Bumped(epochs, Candidates(ids, rows, canon)), d) > Queue.Epoch(epochs, d)
              else Queue.Epoch(Queue.Bumped(epochs, Candidates(ids, rows, canon)), d) == Queue.Epoch(epochs, d)
    {
      Queue.BumpedCounts(epochs, Candidates(ids, rows, canon), d);
    }
  }

  // ----- The order of things -----

  /** Nothing of a document is removed before its jobs are cancelled, and its row goes only after its
      staged file and its vectors. */
  predicate Orderly(log: seq<Action>) {
    forall k | 0 <= k < |log| :: Due(log[..k], log[k])
  }

  predicate Due(before: seq<Action>, x: Action) {
    && (!x.BumpEpoch? ==> BumpEpoch(x.id) in before)
    && (x.RemoveRow? ==> RemoveFile(x.id) in before && RemoveVectors(x.id) in before)
  }

  lemma OrderlyAppend(a: seq<Action>, b: seq<Action>)
    requires Orderly(a) && Orderly(b)
    ensures Orderly(a + b)
  {
    forall k | 0 <= k < |a + b| ensures Due((a + b)[..k], (a + b)[k]) {
      if k < |a| {
        assert (a + b)[..k] == a[..k];
      } else {
        assert (a + b)[..k] == a + b[..k - |a|];
        assert Due(b[..k - |a|], b[k - |a|]);
      }
    }
  }

  lemma DoingsAreOrderly(ids: seq<string>, rows: set<string>, canon: string -> string, f: Faults)
    ensures Orderly(Doings(ids, rows, canon, f))
  {
    var candidates := Candidates(ids, rows, canon);
    var staged := Staged(candidates, f);
    var gone := Gone(ids, rows, canon, f);
    assert forall id <- gone :: id in staged;
    assert forall id <- staged :: id in candidates;
    hide Pick, Rid, Staged, Candidates, Gone;
    StagesAreOrderly(candidates, staged, gone);
  }

  lemma StagesAreOrderly(candidates: seq<string>, staged: seq<string>, gone: seq<string>)
    requires (forall id <- gone :: id in staged) && (forall id <- staged :: id in candidates)
    ensures Orderly(Steps(candidates, staged, gone))
  {
    var a, b := Map(candidates, Cancelling), Map(staged, RemovingFile);
    var c, d := Map(gone, RemovingVectors), Map(gone, RemovingRow);
    assert forall id <- candidates :: BumpEpoch(id) in a by { AllMapped(candidates, Cancelling); }
    assert forall id <- staged :: RemoveFile(id) in b by { AllMapped(staged, RemovingFile); }
    assert forall id <- gone :: RemoveVectors(id) in c by { AllMapped(gone, RemovingVectors); }
    assert Orderly(a);
    forall x <- b ensures Due(a, x) {
      assert x.id in staged;
    }
    forall x <- c ensures Due(a + b, x) {
      assert x.id in gone && BumpEpoch(x.id) in a;
    }
    forall x <- d ensures Due(a + b + c, x) {
      assert x.id in gone && BumpEpoch(x.id) in a;
    }
    hide *;
    StageFollows(a, b);
    StageFollows(a + b, c);
    StageFollows(a + b + c, d);
    StepsAre(candidates, staged, gone);
  }

  lemma StepsAre(candidates: seq<string>, staged: seq<string>, gone: seq<string>)
    ensures Steps(candidates, staged, gone) == Map(candidates, Cancelling) + Map(staged, RemovingFile)
                                               + Map(gone, RemovingVectors) + Map(gone, RemovingRow)
  {}

  /** A stage all of whose actions are due after what came before it. */
  lemma StageFollows(before: seq<Action>, stage: seq<Action>)
    requires Orderly(before) && forall x <- stage :: Due(before, x)
    ensures Orderly(before + stage)
  {
    var log := before + stage;
    forall k | 0 <= k < |log| ensures Due(log[..k], log[k]) {
      if k < |before| {
        assert log[..k] == before[..k];
      } else {
        assert log[..k] == before + stage[..k - |before|];
        assert stage[k - |before|] in stage;
      }
    }
  }

  lemma AllMapped<T, U>(s: seq<T>, f: T -> U)
    ensures forall x <- s :: f(x) in Map(s, f)
  {
    forall x <- s
      ensures f(x) in Map(s, f)
    {
      var i :| 0 <= i < |s| && s[i] == x;
      assert Map(s, f)[i] == f(x);
    }
  }

  // ----- The tenant filter, and the totals -----

  /** What `_tenant_filter_delete_ids` lets through; without a restriction, everything. */
  function Permitted(ids: seq<string>, allowed: Option<set<string>>, canon: string -> string): seq<string> {
    match allowed
    case None => ids
    case Some(some) => Pick(ids, id => canon(id) in some, true)
  }

  function Denied(ids: seq<string>, allowed: Option<set<string>>, canon: string -> string): seq<string> {
    match allowed
    case None => []
    case Some(some) => Pick(ids, id => canon(id) in some, false)
  }

  /** The document an error is about. */
  function Concerned(p: Problem, canon: string -> string): string {
    if p.reason == NotFound then canon(p.document) else p.document
  }

  /** The books after the batches that hold `done`: `gone` is what was deleted, `denied` the number of
      entries refused beforehand. */
  predicate Tally(done: seq<string>, canon: string -> string, wanted: set<string>, gone: set<string>,
                  deleted: nat, errors: seq<Problem>, denied: int) {
    && deleted + |errors| == |done| + denied
    && deleted == |gone|
    && gone <= Items(Map(done, canon)) <= wanted
    && forall e <- errors ::
         Concerned(e, canon) !in gone && (Concerned(e, canon) in Items(Map(done, canon)) || Concerned(e, canon) !in wanted)
  }

  /** The document is asked for, and the caller may delete it. */
  predicate MayGo(d: string, ids: seq<string>, allowed: Option<set<string>>, canon: string -> string) {
    AskedFor(d, ids, canon) && (allowed.None? || d in allowed.value)
  }

  lemma PermittedInPlainTerms(ids: seq<string>, allowed: Option<set<string>>, canon: string -> string)
    ensures forall d :: d in Items(Map(Permitted(ids, allowed, canon), canon)) <==> MayGo(d, ids, allowed, canon)
  {
    var permitted := Permitted(ids, allowed, canon);
    AllMapped(permitted, canon);
    forall d ensures d in Items(Map(permitted, canon)) <==> MayGo(d, ids, allowed, canon) {
      if MayGo(d, ids, allowed, canon) {
        var id :| id in ids && canon(id) == d;
        assert id in permitted;
        assert canon(id) in Map(permitted, canon);
      }
    }
  }

  lemma DeniedInPlainTerms(ids: seq<string>, allowed: Option<set<string>>, canon: string -> string)
    ensures forall id <- ids | !MayGo(canon(id), ids, allowed, canon) ::
              Problem(id, NotFound) in Map(Denied(ids, allowed, canon), IsMissing)
  {
    forall id <- ids | !MayGo(canon(id), ids, allowed, canon)
      ensures Problem(id, NotFound) in Map(Denied(ids, allowed, canon), IsMissing)
    {
      AllMapped(Denied(ids, allowed, canon), IsMissing);
      assert AskedFor(canon(id), ids, canon);
      assert id in Denied(ids, allowed, canon);
      assert IsMissing(id) in Map(Denied(ids, allowed, canon), IsMissing);
    }
  }

  predicate Reported(d: string, errors: seq<Problem>, canon: string -> string) {
    exists e <- errors :: Concerned(e, canon) == d
  }

  /** Only wanted documents have lost files or vectors or had their jobs cancelled. */
  ghost predicate Touched(wanted: set<string>, files: set<string>, files1: set<string>, vectors: set<string>,
                    vectors1: set<string>, epochs: map<string, nat>, epochs1: map<string, nat>) {
    && files1 <= files && files - files1 <= wanted
    && vectors1 <= vectors && vectors - vectors1 <= wanted
    && forall d | d !in wanted :: Queue.Epoch(epochs1, d) == Queue.Epoch(epochs, d)
  }

  lemma TouchedMeans(wanted: set<string>, files: set<string>, files1: set<string>, vectors: set<string>,
                     vectors1: set<string>, epochs: map<string, nat>, epochs1: map<string, nat>)
    requires Touched(wanted, files, files1, vectors, vectors1, epochs, epochs1)
    ensures files1 <= files && files - files1 <= wanted && vectors1 <= vectors && vectors - vectors1 <= wanted
    ensures forall d | d !in wanted :: Queue.Epoch(epochs1, d) == Queue.Epoch(epochs, d)
  {}

  lemma BatchTouches(b: seq<string>, canon: string -> string, wanted: set<string>,
                     files: set<string>, files1: set<string>, vectors: set<string>, vectors1: set<string>,
                     epochs: map<string, nat>, epochs1: map<string, nat>)
    requires forall d | AskedFor(d, b, canon) :: d in wanted
    requires files1 <= files && forall d <- files | d !in files1 :: AskedFor(d, b, canon)
    requires vectors1 <= vectors && forall d <- vectors | d !in vectors1 :: AskedFor(d, b, canon)
    requires forall d | !AskedFor(d, b, canon) :: Queue.Epoch(epochs1, d) == Queue.Epoch(epochs, d)
    ensures Touched(wanted, files, files1, vectors, vectors1, epochs, epochs1)
  {
    hide AskedFor;
  }

  lemma TouchedOn(wanted: set<string>, a: set<string>, b: set<string>, c: set<string>,
                  u: set<string>, v: set<string>, w: set<string>,
                  x: map<string, nat>, y: map<string, nat>, z: map<string, nat>)
    requires Touched(wanted, a, b, u, v, x, y) && Touched(wanted, b, c, v, w, y, z)
    ensures Touched(wanted, a, c, u, w, x, z)
  {
    hide Queue.Epoch;
  }

  /** Every document of `done` is deleted or reported. */
  predicate Accounted(done: seq<string>, canon: string -> string, gone: set<string>, errors: seq<Problem>) {
    forall id <- done :: canon(id) in gone || Reported(canon(id), errors, canon)
  }

  lemma AccountedMeans(done: seq<string>, canon: string -> string, gone: set<string>, errors: seq<Problem>)
    requires Accounted(done, canon, gone, errors)
    ensures forall d <- Items(Map(done, canon)) :: d in gone || Reported(d, errors, canon)
  {
    hide Reported;
    forall d <- Items(Map(done, canon)) ensures d in gone || Reported(d, errors, canon) {
      var i :| 0 <= i < |done| && Map(done, canon)[i] == d;
      assert done[i] in done;
    }
  }

  lemma AskedForIsWanted(b: seq<string>, canon: string -> string, wanted: set<string>)
    requires Items(Map(b, canon)) <= wanted
    ensures forall d | AskedFor(d, b, canon) :: d in wanted
  {
    AllMapped(b, canon);
    forall d | AskedFor(d, b, canon) ensures d in wanted {
      var id :| id in b && canon(id) == d;
      assert canon(id) in Map(b, canon);
    }
  }

  lemma BatchAccounts(done: seq<string>, b: seq<string>, canon: string -> string, f: Faults, original: set<string>,
                      before: set<string>, after: set<string>, errors: seq<Problem>, problems: seq<Problem>)
    requires after <= before <= original
    requires Accounted(done, canon, original - before, errors)
    requires after == before - Items(Gone(b, before, canon, f)) && problems == Problems(b, before, canon, f)
    ensures Accounted(done + b, canon, original - after, errors + problems)
  {
    InPlainTerms(b, before, canon, f);
    ReportedInPlainTerms(b, before, canon, f);
    hide Gone, Problems, Candidates, Staged;
    forall id <- done + b ensures canon(id) in original - after || Reported(canon(id), errors + problems, canon) {
      if id in done {
        if canon(id) !in original - before {
          var e :| e in errors && Concerned(e, canon) == canon(id);
          assert e in errors + problems;
        }
      } else {
        assert AskedFor(canon(id), b, canon);
        if canon(id) !in before {
          assert Problem(id, NotFound) in errors + problems;
        } else if f.file(canon(id)) {
          assert Problem(canon(id), FileKept) in errors + problems;
        } else if f.bulk && f.vectors(canon(id)) {
          assert Problem(canon(id), VectorsKept) in errors + problems;
        }
      }
    }
  }

  /** The stores. */
  datatype Contents =
    Contents(rows: set<string>, files: set<string>, vectors: set<string>, epochs: map<string, nat>, count: int)

  /** What holds between two batches, `start` being the stores before the first. */
  ghost predicate Progress(start: Contents, s: Contents, done: seq<string>, canon: string -> string, wanted: set<string>,
                           deleted: nat, errors: seq<Problem>, denied: int) {
    && s.rows <= start.rows
    && Tally(done, canon, wanted, start.rows - s.rows, deleted, errors, denied)
    && Touched(wanted, start.files, s.files, start.vectors, s.vectors, start.epochs, s.epochs)
    && Accounted(done, canon, start.rows - s.rows, errors)
    && (start.count >= 0 ==> s.count == NotBelowZero(start.count - deleted))
  }

  lemma NothingYet(canon: string -> string, wanted: set<string>, s: Contents, denied: seq<Problem>)
    requires forall e <- denied :: Concerned(e, canon) !in wanted
    ensures Progress(s, s, Flatten([]), canon, wanted, 0, denied, |denied|)
    ensures Orderly([])
  {
    assert s.rows - s.rows == {};
  }

  lemma ProgressOn(start: Contents, s: Contents, s1: Contents, b: seq<string>, canon: string -> string, f: Faults,
                   done: seq<string>, wanted: set<string>, deleted: nat, errors: seq<Problem>, denied: int,
                   problems: seq<Problem>)
    requires Progress(start, s, done, canon, wanted, deleted, errors, denied)
    requires Distinct(Map(b, canon)) && Items(Map(done, canon)) !! Items(Map(b, canon)) && Items(Map(b, canon)) <= wanted
    requires problems == Problems(b, s.rows, canon, f) && s1.rows == s.rows - Items(Gone(b, s.rows, canon, f))
    requires var n := |Gone(b, s.rows, canon, f)|; s1.count == if n == 0 then s.count else NotBelowZero(s.count - n)
    requires s1.files <= s.files && forall d <- s.files | d !in s1.files :: AskedFor(d, b, canon)
    requires s1.vectors <= s.vectors && forall d <- s.vectors | d !in s1.vectors :: AskedFor(d, b, canon)
    requires forall d | !AskedFor(d, b, canon) :: Queue.Epoch(s1.epochs, d) == Queue.Epoch(s.epochs, d)
    ensures Progress(start, s1, done + b, canon, wanted, deleted + |Gone(b, s.rows, canon, f)|, errors + problems, denied)
  {
    hide *;
    var gone := Gone(b, s.rows, canon, f);
    ProgressMeans(start, s, done, canon, wanted, deleted, errors, denied);
    DeletedOrReported(b, s.rows, canon, f);
    Shrinks(start.rows, s.rows, Items(gone));
    BatchTally(done, b, canon, wanted, start.rows, s.rows, f, deleted, errors, denied);
    AskedForIsWanted(b, canon, wanted);
    BatchTouches(b, canon, wanted, s.files, s1.files, s.vectors, s1.vectors, s.epochs, s1.epochs);
    TouchedOn(wanted, start.files, s.files, s1.files, start.vectors, s.vectors, s1.vectors,
      start.epochs, s.epochs, s1.epochs);
    BatchAccounts(done, b, canon, f, start.rows, s.rows, s1.rows, errors, problems);
    CountsDown(start.count, s.count, deleted, |gone|);
    ProgressIs(start, s1, done + b, canon, wanted, deleted + |gone|, errors + problems, denied);
  }

  lemma CountsDown(start: int, count: int, deleted: nat, n: nat)
    requires start >= 0 ==> count == NotBelowZero(start - deleted)
    ensures start >= 0 ==> (if n == 0 then count else NotBelowZero(count - n)) == NotBelowZero(start - (deleted + n))
  {}

  lemma ProgressMeans(start: Contents, s: Contents, done: seq<string>, canon: string -> string, wanted: set<string>,
                      deleted: nat, errors: seq<Problem>, denied: int)
    requires Progress(start, s, done, canon, wanted, deleted, errors, denied)
    ensures s.rows <= start.rows && Tally(done, canon, wanted, start.rows - s.rows, deleted, errors, denied)
    ensures Touched(wanted, start.files, s.files, start.vectors, s.vectors, start.epochs, s.epochs)
    ensures Accounted(done, canon, start.rows - s.rows, errors)
    ensures start.count >= 0 ==> s.count == NotBelowZero(start.count - deleted)
  {
    hide Tally, Touched, Accounted, NotBelowZero;
  }

  lemma ProgressIs(start: Contents, s: Contents, done: seq<string>, canon: string -> string, wanted: set<string>,
                   deleted: nat, errors: seq<Problem>, denied: int)
    requires s.rows <= start.rows && Tally(done, canon, wanted, start.rows - s.rows, deleted, errors, denied)
    requires Touched(wanted, start.files, s.files, start.vectors, s.vectors, start.epochs, s.epochs)
    requires Accounted(done, canon, start.rows - s.rows, errors)
    requires start.count >= 0 ==> s.count == NotBelowZero(start.count - deleted)
    ensures Progress(start, s, done, canon, wanted, deleted, errors, denied)
  {
    hide Tally, Touched, Accounted, NotBelowZero;
  }

  lemma DeniedAreOthers(ids: seq<string>, allowed: Option<set<string>>, canon: string -> string)
    ensures |Denied(ids, allowed, canon)| == |ids| - |Permitted(ids, allowed, canon)|
    ensures forall id <- Denied(ids, allowed, canon) :: canon(id) !in Items(Map(Permitted(ids, allowed, canon), canon))
  {
    match allowed
    case None =>
    case Some(some) =>
      PickSplits(ids, id => canon(id) in some);
      var permitted := Permitted(ids, allowed, canon);
      assert forall id <- permitted :: canon(id) in some;
      assert forall c <- Items(Map(permitted, canon)) :: c in some;
  }

  /** One batch more. */
  lemma BatchTally(done: seq<string>, b: seq<string>, canon: string -> string, wanted: set<string>,
                   original: set<string>, rows: set<string>, f: Faults,
                   deleted: nat, errors: seq<Problem>, denied: int)
    requires rows <= original
    requires Tally(done, canon, wanted, original - rows, deleted, errors, denied)
    requires Distinct(Map(b, canon)) && Items(Map(done, canon)) !! Items(Map(b, canon)) && Items(Map(b, canon)) <= wanted
    ensures var gone := Gone(b, rows, canon, f);
            Tally(done + b, canon, wanted, (original - rows) + Items(gone), deleted + |gone|,
              errors + Problems(b, rows, canon, f), denied)
  {
    var gone := Gone(b, rows, canon, f);
    BatchAddsUp(b, rows, canon, f);
    DeletedOrReported(b, rows, canon, f);
    ProblemsAreOfTheBatch(b, rows, canon, f);
    GoneIsDistinct(b, rows, canon, f);
    DistinctSize(gone);
    MapOfBoth(done, b, canon);
    var before := original - rows;
    assert before !! Items(gone);
    hide Gone, Problems, Map, Items, Distinct, Concerned, NotDeleted;
    assert |before + Items(gone)| == |before| + |Items(gone)|;
  }

  lemma MapOfBoth(a: seq<string>, b: seq<string>, canon: string -> string)
    ensures Items(Map(a + b, canon)) == Items(Map(a, canon)) + Items(Map(b, canon))
  {
    assert Map(a + b, canon) == Map(a, canon) + Map(b, canon);
  }

  lemma ProblemsAreOfTheBatch(ids: seq<string>, rows: set<string>, canon: string -> string, f: Faults)
    ensures forall p <- Problems(ids, rows, canon, f) ::
              Concerned(p, canon) in Items(Map(ids, canon)) && Concerned(p, canon) !in Items(Gone(ids, rows, canon, f))
  {
    DeletedOrReported(ids, rows, canon, f);
    forall p <- Problems(ids, rows, canon, f)
      ensures Concerned(p, canon) in Items(Map(ids, canon)) && Concerned(p, canon) !in Items(Gone(ids, rows, canon, f))
    {
      if p.reason == NotFound {
        assert p.document in Missing(ids, rows, canon);
        AllMapped(ids, canon);
      } else {
        assert p.document in Candidates(ids, rows, canon);
      }
    }
  }

  lemma {:induction false} PickIsDistinct(s: seq<string>, p: string -> bool, want: bool)
    requires Distinct(s)
    ensures Distinct(Pick(s, p, want))
  {
    if s != [] {
      PickIsDistinct(s[..|s| - 1], p, want);
    }
  }

  lemma GoneIsDistinct(ids: seq<string>, rows: set<string>, canon: string -> string, f: Faults)
    requires Distinct(Map(ids, canon))
    ensures Distinct(Gone(ids, rows, canon, f))
  {
    PickIsDistinct(Map(ids, canon), id => id in rows, true);
    PickIsDistinct(Candidates(ids, rows, canon), f.file, false);
    PickIsDistinct(Staged(Candidates(ids, rows, canon), f), f.vectors, false);
  }

  lemma {:induction false} DistinctSize(s: seq<string>)
    requires Distinct(s)
    ensures |Items(s)| == |s|
  {
    if s != [] {
      var front, x := s[..|s| - 1], s[|s| - 1];
      DistinctSize(front);
      assert Items(s) == Items(front) + {x};
    }
  }

  /** The batches of a deduplicated list share no document. */
  lemma BatchesAreApart(batches: seq<seq<string>>, k: nat, canon: string -> string)
    requires k < |batches| && Distinct(Map(Flatten(batches), canon))
    ensures Distinct(Map(batches[k], canon))
    ensures Items(Map(Flatten(batches[..k]), canon)) !! Items(Map(batches[k], canon))
    ensures Items(Map(batches[k], canon)) <= Items(Map(Flatten(batches), canon))
    ensures Flatten(batches[..k + 1]) == Flatten(batches[..k]) + batches[k]
  {
    hide Map, Distinct, Items;
    FlattenStep(batches, k);
    FlattenPrefix(batches, k + 1);
    hide Flatten;
    PartsAreApart(Flatten(batches[..k]), batches[k], Flatten(batches), canon);
  }

  lemma FlattenStep(batches: seq<seq<string>>, k: nat)
    requires k < |batches|
    ensures Flatten(batches[..k + 1]) == Flatten(batches[..k]) + batches[k]
  {
    assert batches[..k + 1] == batches[..k] + [batches[k]];
    assert (batches[..k] + [batches[k]])[..k] == batches[..k];
  }

  lemma PartsAreApart(done: seq<string>, b: seq<string>, whole: seq<string>, canon: string -> string)
    requires done + b <= whole && Distinct(Map(whole, canon))
    ensures Distinct(Map(b, canon))
    ensures Items(Map(done, canon)) !! Items(Map(b, canon))
    ensures Items(Map(b, canon)) <= Items(Map(whole, canon))
  {
    var rest := whole[|done| + |b|..];
    assert whole == done + b + rest;
    assert Map(whole, canon) == Map(done, canon) + Map(b, canon) + Map(rest, canon);
    hide Map;
    DistinctParts(Map(done, canon), Map(b, canon), Map(rest, canon));
  }

  lemma DistinctParts(a: seq<string>, b: seq<string>, c: seq<string>)
    requires Distinct(a + b + c)
    ensures Distinct(b) && Items(a) !! Items(b) && Items(b) <= Items(a + b + c)
  {
    var all := a + b + c;
    assert forall i | 0 <= i < |a| :: all[i] == a[i];
    assert forall j | 0 <= j < |b| :: all[|a| + j] == b[j];
    forall x <- a, y <- b
      ensures x != y
    {
      var i :| 0 <= i < |a| && a[i] == x;
      var j :| 0 <= j < |b| && b[j] == y;
      assert all[i] != all[|a| + j];
    }
    assert forall y <- b :: y in all;
  }

  lemma {:induction false} FlattenPrefix(batches: seq<seq<string>>, k: nat)
    requires k <= |batches|
    ensures Flatten(batches[..k]) <= Flatten(batches)
    decreases |batches|
  {
    if k < |batches| {
      FlattenPrefix(batches[..|batches| - 1], k);
      assert batches[..|batches| - 1][..k] == batches[..k];
    } else {
      assert batches[..k] == batches;
    }
  }

  // ----- The stores -----

  class Stores {
    var rows: set<string>
    var files: set<string>
    var vectors: set<string>
    var epochs: map<string, nat>
    var documentCount: int
    ghost var log: seq<Action>

    /** `delete_document_batch_chunk`. */
    method DeleteBatch(ids: seq<string>, canon: string -> string, f: Faults) returns (deleted: nat, errors: seq<Problem>)
      modifies this
      ensures deleted == |Gone(ids, old(rows), canon, f)|
      ensures errors == Problems(ids, old(rows), canon, f)
      ensures rows == old(rows) - Items(Gone(ids, old(rows), canon, f))
      ensures documentCount == (if deleted == 0 then old(documentCount) else NotBelowZero(old(documentCount) - deleted))
      ensures epochs == Queue.Bumped(old(epochs), Candidates(ids, old(rows), canon))
      ensures files == old(files) - Items(Staged(Candidates(ids, old(rows), canon), f))
      ensures vectors <= old(vectors) && vectors !! Items(Gone(ids, old(rows), canon, f))
      ensures old(vectors) - vectors <= Items(Staged(Candidates(ids, old(rows), canon), f))
      ensures !f.bulk ==> vectors == old(vectors) - Items(Staged(Candidates(ids, old(rows), canon), f))
      // In plain terms, document by document.
      ensures rows <= old(rows) && forall d <- old(rows) ::
                d !in rows <==> AskedFor(d, ids, canon) && !f.file(d) && !(f.bulk && f.vectors(d))
      ensures files <= old(files) && forall d <- old(files) ::
                d !in files <==> AskedFor(d, ids, canon) && d in old(rows) && !f.file(d)
      ensures forall d <- old(vectors) | d !in vectors :: AskedFor(d, ids, canon) && d in old(rows) && !f.file(d)
      ensures forall d <- old(vectors) | AskedFor(d, ids, canon) && d in old(rows) && !f.file(d) && !f.bulk :: d !in vectors
      ensures forall d <- old(rows) | d !in rows :: d !in vectors
      ensures forall d :: if AskedFor(d, ids, canon) && d in old(rows)
                          then Queue.Epoch(epochs, d) > Queue.Epoch(old(epochs), d)
                          else Queue.Epoch(epochs, d) == Queue.Epoch(old(epochs), d)
      ensures forall id <- ids ::
                && (canon(id) !in old(rows) ==> Problem(id, NotFound) in errors)
                && (canon(id) in old(rows) && f.file(canon(id)) ==> Problem(canon(id), FileKept) in errors)
                && (canon(id) in old(rows) && !f.file(canon(id)) && f.bulk && f.vectors(canon(id)) ==>
                      Problem(canon(id), VectorsKept) in errors)
      ensures log == old(log) + Doings(ids, old(rows), canon, f)
    {
      var candidates := Candidates(ids, rows, canon);
      var missing := Map(Missing(ids, rows, canon), IsMissing);
      if candidates == [] {
        NothingToDo(ids, rows, canon, f);
        assert log == log + [];
        deleted, errors := 0, missing;
      } else {
        hide Candidates, Missing, Pick, Rid, Staged, Map;
        var problems;
        deleted, problems := DeleteCandidates(candidates, f);
        errors := missing + problems;
        Regroup(missing, Map(Pick(candidates, f.file, true), KeptFile),
          if f.bulk then Map(Pick(Staged(candidates, f), f.vectors, true), KeptVectors) else []);
      }
      hide *;
      RowsAndFilesInPlainTerms(ids, canon, f, old(rows), rows, old(files), files);
      VectorsInPlainTerms(ids, canon, f, old(rows), rows, old(vectors), vectors);
      ReportedInPlainTerms(ids, old(rows), canon, f);
      EpochsInPlainTerms(ids, old(rows), canon, old(epochs));
    }

    method DeleteCandidates(candidates: seq<string>, f: Faults) returns (deleted: nat, errors: seq<Problem>)
      modifies this
      ensures deleted == |Rid(Staged(candidates, f), f)|
      ensures errors == Map(Pick(candidates, f.file, true), KeptFile)
                        + (if f.bulk then Map(Pick(Staged(candidates, f), f.vectors, true), KeptVectors) else [])
      ensures rows == old(rows) - Items(Rid(Staged(candidates, f), f))
      ensures documentCount == (if deleted == 0 then old(documentCount) else NotBelowZero(old(documentCount) - deleted))
      ensures epochs == Queue.Bumped(old(epochs), candidates)
      ensures files == old(files) - Items(Staged(candidates, f))
      ensures vectors <= old(vectors) && vectors !! Items(Rid(Staged(candidates, f), f))
      ensures old(vectors) - vectors <= Items(Staged(candidates, f))
      ensures !f.bulk ==> vectors == old(vectors) - Items(Staged(candidates, f))
      ensures log == old(log) + Steps(candidates, Staged(candidates, f), Rid(Staged(candidates, f), f))
    {
      hide Pick, Rid, Staged, Map, Queue.Bumped;
      CancelDocuments(candidates);
      var staged, stagedErrors := DeleteStagedFiles(candidates, f);
      var cleared, vectorErrors := DeleteVectors(staged, f);
      errors := stagedErrors + vectorErrors;
      deleted := |cleared|;
      InOneGo(old(log), Map(candidates, Cancelling), Map(staged, RemovingFile), Map(cleared, RemovingVectors),
        Map(cleared, RemovingRow));
      if cleared == [] {
        MapOfNothing<string, Action>(RemovingRow);
      } else {
        DeleteRows(cleared);
      }
    }

    method DeleteRows(ids: seq<string>)
      modifies this`rows, this`documentCount, this`log
      ensures rows == old(rows) - Items(ids)
      ensures documentCount == NotBelowZero(old(documentCount) - |ids|)
      ensures log == old(log) + Map(ids, RemovingRow)
    {
      rows := rows - Items(ids);
      log := log + Map(ids, RemovingRow);
      documentCount := NotBelowZero(documentCount - |ids|);
    }

    /** Staged files one by one; a candidate whose file cannot be removed is reported instead. */
    method DeleteStagedFiles(candidates: seq<string>, f: Faults) returns (deleted: seq<string>, errors: seq<Problem>)
      modifies this`files, this`log
      ensures deleted == Staged(candidates, f)
      ensures errors == Map(Pick(candidates, f.file, true), KeptFile)
      ensures files == old(files) - Items(deleted)
      ensures log == old(log) + Map(deleted, RemovingFile)
    {
      deleted, errors := [], [];
      assert candidates[..0] == [];
      assert Items(deleted) == {};
      assert Staged(candidates, f) == Pick(candidates, f.file, false);
      NothingPicked(f.file, KeptFile, RemovingFile);
      hide Map, Pick, Items, Staged;
      for i := 0 to |candidates|
        invariant deleted == Pick(candidates[..i], f.file, false)
        invariant errors == Map(Pick(candidates[..i], f.file, true), KeptFile)
        invariant files == old(files) - Items(deleted)
        invariant log == old(log) + Map(deleted, RemovingFile)
      {
        var id := candidates[i];
        PickAppend(candidates[..i], id, f.file);
        PrefixGrows(candidates, i);
        if f.file(id) {
          MapAppend(Pick(candidates[..i], f.file, true), id, KeptFile);
          errors := errors + [KeptFile(id)];
        } else {
          MapAppend(deleted, id, RemovingFile);
          Regroup(old(log), Map(deleted, RemovingFile), [RemoveFile(id)]);
          ItemsAppend(old(files), deleted, id);
          files := files - {id};
          log := log + [RemoveFile(id)];
          deleted := deleted + [id];
        }
      }
      assert candidates[..|candidates|] == candidates;
    }

    /** The vectors of all in one call; when that fails, of one document after the other. */
    method DeleteVectors(candidates: seq<string>, f: Faults) returns (deleted: seq<string>, errors: seq<Problem>)
      modifies this`vectors, this`log
      ensures deleted == Rid(candidates, f)
      ensures errors == if f.bulk then Map(Pick(candidates, f.vectors, true), KeptVectors) else []
      ensures vectors <= old(vectors) && vectors !! Items(deleted)
      ensures old(vectors) - vectors <= Items(candidates)
      ensures !f.bulk ==> vectors == old(vectors) - Items(candidates)
      ensures log == old(log) + Map(deleted, RemovingVectors)
    {
      if candidates == [] {
        return [], [];
      }
      if !f.bulk {
        vectors := vectors - Items(candidates);
        log := log + Map(candidates, RemovingVectors);
        return candidates, [];
      }
      BothGo(vectors, f.removedByBulk, candidates, f);
      vectors := vectors - f.removedByBulk * Items(candidates);
      deleted, errors := DeleteVectorsIndividually(candidates, f);
    }

    method DeleteVectorsIndividually(candidates: seq<string>, f: Faults)
      returns (deleted: seq<string>, errors: seq<Problem>)
      modifies this`vectors, this`log
      ensures deleted == Pick(candidates, f.vectors, false)
      ensures errors == Map(Pick(candidates, f.vectors, true), KeptVectors)
      ensures vectors == old(vectors) - Items(deleted)
      ensures log == old(log) + Map(deleted, RemovingVectors)
    {
      deleted, errors := [], [];
      assert candidates[..0] == [];
      assert Items(deleted) == {};
      NothingPicked(f.vectors, KeptVectors, RemovingVectors);
      hide Map, Pick, Items;
      for i := 0 to |candidates|
        invariant deleted == Pick(candidates[..i], f.vectors, false)
        invariant errors == Map(Pick(candidates[..i], f.vectors, true), KeptVectors)
        invariant vectors == old(vectors) - Items(deleted)
        invariant log == old(log) + Map(deleted, RemovingVectors)
      {
        var id := candidates[i];
        PickAppend(candidates[..i], id, f.vectors);
        PrefixGrows(candidates, i);
        if f.vectors(id) {
          MapAppend(Pick(candidates[..i], f.vectors, true), id, KeptVectors);
          errors := errors + [KeptVectors(id)];
        } else {
          MapAppend(deleted, id, RemovingVectors);
          Regroup(old(log), Map(deleted, RemovingVectors), [RemoveVectors(id)]);
          ItemsAppend(old(vectors), deleted, id);
          vectors := vectors - {id};
          log := log + [RemoveVectors(id)];
          deleted := deleted + [id];
        }
      }
      assert candidates[..|candidates|] == candidates;
    }

    /** `batch_delete_documents`, from the tenant filter to the totals. Deleted and reported add up to the
        distinct permitted documents and the denied entries; the count is of rows that are really gone;
        no document is both deleted and reported; and every removal kept its order. */
    method BatchDeleteDocuments(
        ids: seq<string>, allowed: Option<set<string>>, canon: string -> string, faults: nat -> Faults)
      returns (deleted: nat, errors: seq<Problem>)
      modifies this
      ensures var permitted := Permitted(ids, allowed, canon);
              deleted + |errors| == |Items(Map(permitted, canon))| + (|ids| - |permitted|)
      ensures rows <= old(rows) && deleted == |old(rows) - rows|
      ensures old(rows) - rows <= Items(Map(Permitted(ids, allowed, canon), canon))
      ensures forall e <- errors :: Concerned(e, canon) !in old(rows) - rows
      // Only permitted documents lose anything; each of them is deleted or reported.
      ensures forall d <- old(rows) | d !in rows :: MayGo(d, ids, allowed, canon)
      ensures forall d <- old(files) | d !in files :: MayGo(d, ids, allowed, canon)
      ensures forall d <- old(vectors) | d !in vectors :: MayGo(d, ids, allowed, canon)
      ensures files <= old(files) && vectors <= old(vectors)
      ensures forall d | !MayGo(d, ids, allowed, canon) :: Queue.Epoch(epochs, d) == Queue.Epoch(old(epochs), d)
      ensures forall d | MayGo(d, ids, allowed, canon) :: d in old(rows) - rows || Reported(d, errors, canon)
      ensures forall id <- ids | !MayGo(canon(id), ids, allowed, canon) :: Problem(id, NotFound) in errors
      ensures old(documentCount) >= 0 ==> documentCount == NotBelowZero(old(documentCount) - deleted)
      ensures old(log) <= log && Orderly(log[|old(log)|..])
    {
      PermittedInPlainTerms(ids, allowed, canon);
      var permitted := Permitted(ids, allowed, canon);
      var denied := Map(Denied(ids, allowed, canon), IsMissing);
      DeniedAreOthers(ids, allowed, canon);
      DeniedInPlainTerms(ids, allowed, canon);
      var batches := BatchDeleteChunks(permitted, canon);
      FirstOnesCoverOnce(permitted, canon);
      hide Permitted, Denied, FirstOnes, Orderly, Touched, Accounted, MayGo, Reported, Map;
      deleted, errors := DeleteBatches(batches, denied, canon, faults);
      ghost var wanted := Items(Map(Flatten(batches), canon));
      TouchedMeans(wanted, old(files), files, old(vectors), vectors, old(epochs), epochs);
      AccountedMeans(Flatten(batches), canon, old(rows) - rows, errors);
    }

    ghost function Seen(): Contents
      reads this
    {
      Contents(rows, files, vectors, epochs, documentCount)
    }

    /** The accumulation over the batches. */
    method DeleteBatches(batches: seq<seq<string>>, denied: seq<Problem>, canon: string -> string, faults: nat -> Faults)
      returns (deleted: nat, errors: seq<Problem>)
      requires Distinct(Map(Flatten(batches), canon))
      requires forall e <- denied :: Concerned(e, canon) !in Items(Map(Flatten(batches), canon))
      modifies this
      ensures Progress(old(Seen()), Seen(), Flatten(batches), canon, Items(Map(Flatten(batches), canon)),
                       deleted, errors, |denied|)
      ensures denied <= errors
      ensures old(log) <= log && Orderly(log[|old(log)|..])
    {
      deleted, errors := 0, denied;
      ghost var wanted := Items(Map(Flatten(batches), canon));
      ghost var doings: seq<Action> := [];
      NothingYet(canon, wanted, Seen(), denied);
      assert batches[..0] == [];
      hide Orderly, Doings, Map, Progress, Concerned, Distinct, Items;
      for k := 0 to |batches|
        invariant Progress(old(Seen()), Seen(), Flatten(batches[..k]), canon, wanted, deleted, errors, |denied|)
        invariant log == old(log) + doings && Orderly(doings)
        invariant denied <= errors
      {
        ghost var before := rows;
        BatchesAreApart(batches, k, canon);
        deleted, errors :=
          AddBatch(batches[k], canon, faults(k), deleted, errors, old(Seen()), Flatten(batches[..k]), wanted, |denied|);
        DoingsAreOrderly(batches[k], before, canon, faults(k));
        OrderlyAppend(doings, Doings(batches[k], before, canon, faults(k)));
        Regroup(old(log), doings, Doings(batches[k], before, canon, faults(k)));
        doings := doings + Doings(batches[k], before, canon, faults(k));
      }
      assert batches[..|batches|] == batches;
      assert log[|old(log)|..] == doings;
    }

    /** The body of its loop. */
    method AddBatch(b: seq<string>, canon: string -> string, f: Faults, deleted0: nat, errors0: seq<Problem>,
                    ghost start: Contents, ghost done: seq<string>, ghost wanted: set<string>, ghost denied: int)
      returns (deleted: nat, errors: seq<Problem>)
      requires Progress(start, Seen(), done, canon, wanted, deleted0, errors0, denied)
      requires Distinct(Map(b, canon)) && Items(Map(done, canon)) !! Items(Map(b, canon)) && Items(Map(b, canon)) <= wanted
      modifies this
      ensures Progress(start, Seen(), done + b, canon, wanted, deleted, errors, denied) && errors0 <= errors
      ensures log == old(log) + Doings(b, old(rows), canon, f)
    {
      hide Doings, Gone, Problems, Candidates, Staged, Map, Items, Distinct, Queue.Bumped, Touched, Accounted, AskedFor,
        Tally, Progress, NotBelowZero;
      ghost var before := Seen();
      var n, problems := DeleteBatch(b, canon, f);
      ProgressOn(start, before, Seen(), b, canon, f, done, wanted, deleted0, errors0, denied, problems);
      deleted := deleted0 + n;
      errors := errors0 + problems;
    }

    method CancelDocuments(ids: seq<string>)
      modifies this`epochs, this`log
      ensures epochs == Queue.Bumped(old(epochs), ids)
      ensures log == old(log) + Map(ids, Cancelling)
    {
      for i := 0 to |ids|
        invariant Queue.Bumped(epochs, ids[i..]) == Queue.Bumped(old(epochs), ids)
        invariant log == old(log) + Map(ids[..i], Cancelling)
      {
        assert ids[i..][1..] == ids[i + 1..];
        MapAppend(ids[..i], ids[i], Cancelling);
        assert ids[..i + 1] == ids[..i] + [ids[i]];
        epochs := epochs[ids[i] := Queue.Epoch(epochs, ids[i]) + 1];
        log := log + [BumpEpoch(ids[i])];
      }
      assert ids[..|ids|] == ids;
    }
  }

  lemma BothGo(vectors: set<string>, byBulk: set<string>, candidates: seq<string>, f: Faults)
    ensures vectors - (vectors - byBulk * Items(candidates) - Items(Pick(candidates, f.vectors, false))) <= Items(candidates)
  {}

  lemma Shrinks(original: set<string>, before: set<string>, gone: set<string>)
    requires gone <= before <= original
    ensures before - gone <= original && original - (before - gone) == (original - before) + gone
  {}

  lemma ItemsAppend(original: set<string>, s: seq<string>, x: string)
    ensures original - Items(s + [x]) == original - Items(s) - {x}
  {}

  lemma NothingPicked(p: string -> bool, f: string -> Problem, g: string -> Action)
    ensures Pick([], p, true) == [] && Pick([], p, false) == []
    ensures Map([], f) == [] && Map([], g) == []
  {}

  lemma NothingToDo(ids: seq<string>, rows: set<string>, canon: string -> string, f: Faults)
    requires Candidates(ids, rows, canon) == []
    ensures Gone(ids, rows, canon, f) == [] && Doings(ids, rows, canon, f) == []
    ensures Staged(Candidates(ids, rows, canon), f) == []
    ensures Problems(ids, rows, canon, f) == Map(Missing(ids, rows, canon), IsMissing)
  {
    hide Candidates, Missing;
  }

  lemma InOneGo<T>(log: seq<T>, a: seq<T>, b: seq<T>, c: seq<T>, d: seq<T>)
    ensures log + (a + b + c + d) == log + a + b + c + d
  {}

  lemma Regroup<T>(a: seq<T>, b: seq<T>, c: seq<T>)
    ensures a + (b + c) == a + b + c
  {}

  lemma MapOfNothing<T, U>(f: T -> U)
    ensures Map([], f) == []
  {}

  lemma PickAppend(s: seq<string>, x: string, p: string -> bool)
    ensures Pick(s + [x], p, p(x)) == Pick(s, p, p(x)) + [x]
    ensures Pick(s + [x], p, !p(x)) == Pick(s, p, !p(x))
  {
    assert (s + [x])[..|s|] == s;
  }

  lemma MapAppend<T, U>(s: seq<T>, x: T, f: T -> U)
    ensures Map(s + [x], f) == Map(s, f) + [f(x)]
  {}
}
