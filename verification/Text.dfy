/** The string operations of the two language runtimes that the modelled code leans on:
    whitespace, strip, find, split, join and replace. */
module Text {

  /** The characters for which Python's `str.isspace` holds. */
  predicate IsSpace(c: char) {
    var n := c as int;
    || 9 <= n <= 13 || 28 <= n <= 32 || n == 0x85 || n == 0xA0 || n == 0x1680
    || 0x2000 <= n <= 0x200A || n == 0x2028 || n == 0x2029 || n == 0x202F || n == 0x205F || n == 0x3000
  }

  predicate Blank(s: string) {
    forall i :: 0 <= i < |s| ==> IsSpace(s[i])
  }

  /** The ink of a string: its non-whitespace characters, in order. */
  function Ink(s: string): string {
    if s == "" then "" else (if IsSpace(s[0]) then "" else [s[0]]) + Ink(s[1..])
  }

  function Concat(parts: seq<string>): string {
    if parts == [] then "" else parts[0] + Concat(parts[1..])
  }

  function Join(parts: seq<string>, sep: string): string {
    if parts == [] then "" else if |parts| == 1 then parts[0] else parts[0] + sep + Join(parts[1..], sep)
  }

  /** `pat` occurs in `s` at index `i`. */
  predicate At(s: string, pat: string, i: int) {
    0 <= i && i + |pat| <= |s| && s[i..i + |pat|] == pat
  }

  /** Python's `s.find(pat, start)`: the least index at or after `start`, or -1. */
  function Find(s: string, pat: string, start: nat): (r: int)
    ensures -1 <= r
    ensures r >= 0 ==> start <= r && At(s, pat, r) && forall k :: start <= k < r ==> !At(s, pat, k)
    ensures r < 0 ==> forall k :: start <= k ==> !At(s, pat, k)
    decreases |s| - start
  {
    if start + |pat| > |s| then -1
    else if s[start..start + |pat|] == pat then start
    else Find(s, pat, start + 1)
  }

  /** `s.split(sep)`: cut at the leftmost, non-overlapping occurrences. */
  function Split(s: string, sep: string): (parts: seq<string>)
    requires sep != ""
    ensures parts != []
  {
    var i := Find(s, sep, 0);
    if i < 0 then [s] else [s[..i]] + Split(s[i + |sep|..], sep)
  }

  /** Where a split cut part `k`: behind the parts before it and their separators. */
  function CutAt(parts: seq<string>, sep: string, k: nat): nat
    requires k <= |parts|
  {
    if k == 0 then 0 else CutAt(parts, sep, k - 1) + |parts[k - 1]| + |sep|
  }

  /** `s.replace(old, new)`. */
  function Replace(s: string, before: string, after: string): string
    requires before != ""
  {
    Join(Split(s, before), after)
  }

  /** Every character of `s` from index `lo` up to `hi` is whitespace. */
  predicate BlankBetween(s: string, lo: int, hi: int) {
    && 0 <= lo <= hi <= |s|
    && forall k :: lo <= k < hi ==> IsSpace(s[k])
  }

  /** The number of leading whitespace characters: `len(s) - len(s.lstrip())`. */
  function Lead(s: string): (n: nat)
    ensures BlankBetween(s, 0, n)
    ensures n < |s| ==> !IsSpace(s[n])
  {
    LeadFrom(s, 0)
  }

  function LeadFrom(s: string, i: nat): (n: nat)
    requires i <= |s|
    ensures i <= n && BlankBetween(s, i, n)
    ensures n < |s| ==> !IsSpace(s[n])
    decreases |s| - i
  {
    if i < |s| && IsSpace(s[i]) then LeadFrom(s, i + 1) else i
  }

  /** The length of `s.rstrip()`, for the first `n` characters of `s`. */
  function KeptUpTo(s: string, n: nat): (m: nat)
    requires n <= |s|
    ensures m <= n && BlankBetween(s, m, n)
    ensures m > 0 ==> !IsSpace(s[m - 1])
  {
    if n > 0 && IsSpace(s[n - 1]) then KeptUpTo(s, n - 1) else n
  }

  /** `s.strip()`. */
  function Strip(s: string): (t: string)
    ensures Lead(s) + |t| <= |s| && t == s[Lead(s)..Lead(s) + |t|]
    ensures BlankBetween(s, Lead(s) + |t|, |s|)
    ensures t == "" <==> Blank(s)
    ensures t != "" ==> !IsSpace(t[|t| - 1])
  {
    var a := Lead(s);
    if a == |s| then "" else s[a..KeptUpTo(s, |s|)]
  }

  lemma {:induction false} InkAppend(a: string, b: string)
    ensures Ink(a + b) == Ink(a) + Ink(b)
  {
    if a == "" {
      assert a + b == b;
    } else {
      InkAppend(a[1..], b);
      assert (a + b)[1..] == a[1..] + b;
    }
  }

  lemma {:induction false} InkOfBlank(s: string)
    ensures Blank(s) <==> Ink(s) == ""
  {
    if s != "" {
      InkOfBlank(s[1..]);
      assert forall i :: 1 <= i < |s| ==> s[i] == s[1..][i - 1];
    }
  }

  /** Whitespace before and after a stretch adds no ink. */
  lemma InkOfTrim(s: string, lo: nat, a: nat, b: nat, hi: nat)
    requires BlankBetween(s, lo, a) && a <= b && BlankBetween(s, b, hi)
    ensures Ink(s[lo..hi]) == Ink(s[a..b])
  {
    InkOfBlank(s[lo..a]);
    InkOfBlank(s[b..hi]);
    hide IsSpace;
    var x, y, z := s[lo..a], s[a..b], s[b..hi];
    assert y + z == s[a..hi];
    assert s[lo..hi] == x + s[a..hi];
    InkAppend(s[lo..a], s[a..b] + s[b..hi]);
    InkAppend(s[a..b], s[b..hi]);
  }

  lemma InkOfStrip(s: string)
    ensures Ink(Strip(s)) == Ink(s)
  {
    assert s[0..|s|] == s;
    InkOfTrim(s, 0, Lead(s), Lead(s) + |Strip(s)|, |s|);
  }

  lemma {:induction false} ConcatAppend(a: seq<string>, b: seq<string>)
    ensures Concat(a + b) == Concat(a) + Concat(b)
  {
    if a == [] {
      assert a + b == b;
    } else {
      ConcatAppend(a[1..], b);
      assert (a + b)[1..] == a[1..] + b;
    }
  }

  /** Whitespace separators add no ink. */
  lemma {:induction false} InkOfJoin(parts: seq<string>, sep: string)
    requires Blank(sep)
    ensures Ink(Join(parts, sep)) == Ink(Concat(parts))
  {
    InkOfBlank(sep);
    if |parts| == 1 {
      assert Concat(parts) == parts[0] + Concat(parts[1..]) == parts[0];
    } else if |parts| > 1 {
      InkOfJoin(parts[1..], sep);
      InkAppend(parts[0] + sep, Join(parts[1..], sep));
      InkAppend(parts[0], sep);
      InkAppend(parts[0], Concat(parts[1..]));
    }
  }

  /** Two separators of equal ink give joins of equal ink. */
  lemma {:induction false} InkOfSwappedSeparator(parts: seq<string>, x: string, y: string)
    requires Ink(x) == Ink(y)
    ensures Ink(Join(parts, x)) == Ink(Join(parts, y))
  {
    if |parts| > 1 {
      InkOfSwappedSeparator(parts[1..], x, y);
      InkAppend(parts[0] + x, Join(parts[1..], x));
      InkAppend(parts[0], x);
      InkAppend(parts[0] + y, Join(parts[1..], y));
      InkAppend(parts[0], y);
    }
  }

  /** Joining undoes splitting. */
  lemma {:induction false} JoinSplit(s: string, sep: string)
    requires sep != ""
    ensures Join(Split(s, sep), sep) == s
  {
    var i := Find(s, sep, 0);
    if i >= 0 {
      JoinSplit(s[i + |sep|..], sep);
      assert s == s[..i] + sep + s[i + |sep|..];
    }
  }

  /** No part of a split contains the separator. */
  lemma {:induction false} SplitPartsAreClean(s: string, sep: string)
    requires sep != ""
    ensures forall p :: p in Split(s, sep) ==> Find(p, sep, 0) < 0
  {
    var i := Find(s, sep, 0);
    if i >= 0 {
      SplitPartsAreClean(s[i + |sep|..], sep);
      var p := s[..i];
      forall k | At(p, sep, k) ensures At(s, sep, k) && k < i {
        assert p[k..k + |sep|] == s[k..k + |sep|];
      }
    }
  }

  /** The first occurrence stays the first when more text follows. */
  lemma FindInPrefix(a: string, b: string, pat: string)
    requires Find(a, pat, 0) >= 0
    ensures Find(a + b, pat, 0) == Find(a, pat, 0)
  {
    var i := Find(a, pat, 0);
    assert (a + b)[i..i + |pat|] == a[i..i + |pat|];
    forall k | 0 <= k < i ensures !At(a + b, pat, k) {
      assert !At(a, pat, k);
      assert (a + b)[k..k + |pat|] == a[k..k + |pat|];
    }
    assert At(a + b, pat, i);
  }

  /** `s.split(sep)` without its last part, which is still open when more text may follow. */
  function Complete(s: string, sep: string): seq<string>
    requires sep != ""
  {
    var i := Find(s, sep, 0);
    if i < 0 then [] else [s[..i]] + Complete(s[i + |sep|..], sep)
  }

  /** The last part of `s.split(sep)`. */
  function Open(s: string, sep: string): string
    requires sep != ""
  {
    var i := Find(s, sep, 0);
    if i < 0 then s else Open(s[i + |sep|..], sep)
  }

  lemma {:induction false} SplitIsCompleteAndOpen(s: string, sep: string)
    requires sep != ""
    ensures Split(s, sep) == Complete(s, sep) + [Open(s, sep)]
  {
    hide Find;
    var i := Find(s, sep, 0);
    if i >= 0 {
      SplitIsCompleteAndOpen(s[i + |sep|..], sep);
      assert [s[..i]] + (Complete(s[i + |sep|..], sep) + [Open(s[i + |sep|..], sep)])
          == [s[..i]] + Complete(s[i + |sep|..], sep) + [Open(s[i + |sep|..], sep)];
    }
  }

  /** Splitting may be resumed: complete parts stay, the open part is continued. */
  lemma {:induction false} CompleteAppend(a: string, b: string, sep: string)
    requires sep != ""
    ensures Complete(a + b, sep) == Complete(a, sep) + Complete(Open(a, sep) + b, sep)
    decreases |a|
  {
    hide Find;
    var i := Find(a, sep, 0);
    if i >= 0 {
      FindInPrefix(a, b, sep);
      CompleteAppend(a[i + |sep|..], b, sep);
      CutPrefix(a, b, i, i + |sep|);
    }
  }

  lemma {:induction false} OpenAppend(a: string, b: string, sep: string)
    requires sep != ""
    ensures Open(a + b, sep) == Open(Open(a, sep) + b, sep)
    decreases |a|
  {
    hide Find;
    var i := Find(a, sep, 0);
    if i >= 0 {
      FindInPrefix(a, b, sep);
      OpenAppend(a[i + |sep|..], b, sep);
      CutPrefix(a, b, i, i + |sep|);
    }
  }

  lemma CutPrefix(a: string, b: string, i: nat, j: nat)
    requires i <= j <= |a|
    ensures (a + b)[..i] == a[..i] && (a + b)[j..] == a[j..] + b
  {
    assert (a + b)[..i] == a[..i];
    assert (a + b)[j..] == a[j..] + b;
  }

  lemma SliceOfSlice(s: string, lo: nat, hi: nat, a: nat, b: nat)
    requires lo <= hi <= |s| && a <= b <= hi - lo
    ensures s[lo..hi][a..b] == s[lo + a..lo + b]
  {
    var x, y := s[lo..hi][a..b], s[lo + a..lo + b];
    assert forall k :: 0 <= k < |x| ==> x[k] == y[k];
  }
}
