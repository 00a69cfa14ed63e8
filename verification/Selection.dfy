/** What it means to keep some elements of a sequence, in order. */
module Selection {

  /** `r` is what `keep` leaves of `s`: the elements at ascending places, and those places are exactly the
      ones whose element is kept. */
  ghost predicate Leaves<T(!new)>(s: seq<T>, keep: T -> bool, r: seq<T>) {
    exists places: seq<nat> :: KeptAt(s, keep, r, places)
  }

  ghost predicate KeptAt<T>(s: seq<T>, keep: T -> bool, r: seq<T>, places: seq<nat>) {
    && |places| == |r|
    && (forall i :: 0 <= i < |r| ==> places[i] < |s| && r[i] == s[places[i]])
    && (forall i, j :: 0 <= i < j < |r| ==> places[i] < places[j])
    && (forall k: nat :: k < |s| ==> (k in places <==> keep(s[k])))
  }

  lemma NothingLeft<T(!new)>(keep: T -> bool)
    ensures Leaves([], keep, [])
  {
    assert KeptAt([], keep, [], []);
  }

  lemma OneMoreLeft<T(!new)>(s: seq<T>, keep: T -> bool, r: seq<T>, x: T)
    requires Leaves(s, keep, r)
    ensures Leaves(s + [x], keep, if keep(x) then r + [x] else r)
  {
    var places :| KeptAt(s, keep, r, places);
    if keep(x) {
      Extended(s, keep, r, places, x);
    } else {
      assert KeptAt(s + [x], keep, r, places);
    }
  }

  /** The same from the front. */
  lemma FirstLeft<T(!new)>(x: T, s: seq<T>, keep: T -> bool, r: seq<T>)
    requires Leaves(s, keep, r)
    ensures Leaves([x] + s, keep, if keep(x) then [x] + r else r)
  {
    var places :| KeptAt(s, keep, r, places);
    var shifted := seq(|places|, i requires 0 <= i < |places| => places[i] + 1);
    if keep(x) {
      ShiftedWith(x, s, keep, r, places, shifted);
    } else {
      ShiftedWithout(x, s, keep, r, places, shifted);
    }
  }

  lemma ShiftedWithout<T>(x: T, s: seq<T>, keep: T -> bool, r: seq<T>, places: seq<nat>, shifted: seq<nat>)
    requires KeptAt(s, keep, r, places) && !keep(x)
    requires |shifted| == |places| && forall i :: 0 <= i < |places| ==> shifted[i] == places[i] + 1
    ensures KeptAt([x] + s, keep, r, shifted)
  {
    forall k: nat | k < |[x] + s| ensures k in shifted <==> keep(([x] + s)[k]) {
      ShiftedPlaces(places, shifted, k);
      if k > 0 {
        assert ([x] + s)[k] == s[k - 1];
      }
    }
  }

  lemma ShiftedWith<T>(x: T, s: seq<T>, keep: T -> bool, r: seq<T>, places: seq<nat>, shifted: seq<nat>)
    requires KeptAt(s, keep, r, places) && keep(x)
    requires |shifted| == |places| && forall i :: 0 <= i < |places| ==> shifted[i] == places[i] + 1
    ensures KeptAt([x] + s, keep, [x] + r, [0] + shifted)
  {
    forall k: nat | k < |[x] + s| ensures k in [0] + shifted <==> keep(([x] + s)[k]) {
      ShiftedPlaces(places, shifted, k);
      if k > 0 {
        assert ([x] + s)[k] == s[k - 1];
      } else {
        assert ([0] + shifted)[0] == 0;
      }
    }
  }

  lemma ShiftedPlaces(places: seq<nat>, shifted: seq<nat>, k: nat)
    requires |shifted| == |places| && forall i :: 0 <= i < |places| ==> shifted[i] == places[i] + 1
    ensures k in shifted <==> k > 0 && k - 1 in places
  {
    if k in shifted {
      var i :| 0 <= i < |shifted| && shifted[i] == k;
      assert places[i] == k - 1;
    }
    if k > 0 && k - 1 in places {
      var i :| 0 <= i < |places| && places[i] == k - 1;
      assert shifted[i] == k;
    }
  }

  lemma Extended<T>(s: seq<T>, keep: T -> bool, r: seq<T>, places: seq<nat>, x: T)
    requires KeptAt(s, keep, r, places) && keep(x)
    ensures KeptAt(s + [x], keep, r + [x], places + [|s|])
  {
    var more := places + [|s|];
    forall k: nat | k < |s + [x]| ensures k in more <==> keep((s + [x])[k]) {
      if k < |s| {
        assert (s + [x])[k] == s[k];
      } else {
        assert more[|places|] == |s|;
      }
    }
  }

  lemma NothingElse<T(!new)>(keep: T -> bool, r: seq<T>)
    requires Leaves([], keep, r)
    ensures r == []
  {
    var places :| KeptAt([], keep, r, places);
    if r != [] {
      HasFirst(r);
      assert false;
    }
  }

  lemma HasFirst<T>(s: seq<T>)
    requires s != []
    ensures s[0] in s
  {}

  /** An element is left as often as it was there if it is kept, and not at all otherwise. */
  lemma {:induction false} LeftAsOften<T(!new)>(s: seq<T>, keep: T -> bool, r: seq<T>, x: T)
    requires Leaves(s, keep, r)
    ensures multiset(r)[x] == if keep(x) then multiset(s)[x] else 0
  {
    hide Leaves;
    if s == [] {
      NothingElse(keep, r);
    } else {
      var front, last := s[..|s| - 1], s[|s| - 1];
      SnocCount(s, x);
      assert s == front + [last];
      OneLess(front, keep, r, last);
      if keep(last) {
        SnocCount(r, x);
        LeftAsOften(front, keep, r[..|r| - 1], x);
      } else {
        LeftAsOften(front, keep, r, x);
      }
    }
  }

  lemma SnocCount<T>(s: seq<T>, x: T)
    requires s != []
    ensures multiset(s)[x] == multiset(s[..|s| - 1])[x] + if s[|s| - 1] == x then 1 else 0
  {
    assert s == s[..|s| - 1] + [s[|s| - 1]];
  }

  lemma OneLess<T(!new)>(s: seq<T>, keep: T -> bool, r: seq<T>, x: T)
    requires Leaves(s + [x], keep, r)
    ensures keep(x) ==> r != [] && r[|r| - 1] == x && Leaves(s, keep, r[..|r| - 1])
    ensures !keep(x) ==> Leaves(s, keep, r)
  {
    var places :| KeptAt(s + [x], keep, r, places);
    Shortened(s, keep, r, places, x);
    if keep(x) {
      assert KeptAt(s, keep, r[..|r| - 1], places[..|r| - 1]);
    } else {
      assert KeptAt(s, keep, r, places);
    }
  }

  lemma Shortened<T>(s: seq<T>, keep: T -> bool, r: seq<T>, places: seq<nat>, x: T)
    requires KeptAt(s + [x], keep, r, places)
    ensures keep(x) ==> r != [] && r[|r| - 1] == x && KeptAt(s, keep, r[..|r| - 1], places[..|r| - 1])
    ensures !keep(x) ==> KeptAt(s, keep, r, places)
  {
    var n := |s|;
    assert (s + [x])[n] == x;
    if keep(x) {
      var i :| 0 <= i < |places| && places[i] == n;
      var last := places[|r| - 1];
      assert places[i] <= last;
      assert last == n;
      forall k: nat | k < |s| ensures k in places[..|r| - 1] <==> keep(s[k]) {
        assert (s + [x])[k] == s[k];
        assert places == places[..|r| - 1] + [n];
      }
    } else {
      forall i | 0 <= i < |r| ensures places[i] < |s| {
        assert places[i] in places;
      }
      forall k: nat | k < |s| ensures k in places <==> keep(s[k]) {
        assert (s + [x])[k] == s[k];
      }
    }
  }

  /** What is left does not depend on how it was found. */
  lemma {:induction false} LeftIsUnique<T(!new)>(s: seq<T>, keep: T -> bool, a: seq<T>, b: seq<T>)
    requires Leaves(s, keep, a) && Leaves(s, keep, b)
    ensures a == b
  {
    hide Leaves;
    if s == [] {
      NothingElse(keep, a);
      NothingElse(keep, b);
    } else {
      var front, last := s[..|s| - 1], s[|s| - 1];
      assert s == front + [last];
      OneLess(front, keep, a, last);
      OneLess(front, keep, b, last);
      if keep(last) {
        LeftIsUnique(front, keep, a[..|a| - 1], b[..|b| - 1]);
        assert a == a[..|a| - 1] + [last];
        assert b == b[..|b| - 1] + [last];
      } else {
        LeftIsUnique(front, keep, a, b);
      }
    }
  }
}
