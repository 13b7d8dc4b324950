/**
 * The order in which `getDeployments` lists deployments: newest first by
 * `deployedAt`, ties in the table's iteration order (the comparator returns 0
 * on equal times and `Array.prototype.sort` is stable), then cut by the
 * optional `limit` with the semantics of `Array.prototype.slice(0, limit)`.
 */
module DeploymentOrder {
  import opened Wrappers
  import opened Schema

  /** No deployment is newer than one listed before it. */
  ghost predicate NewestFirst(s: seq<Deployment>) {
    forall i, j :: 0 <= i < j < |s| ==> s[i].deployedAt >= s[j].deployedAt
  }

  /** The deployments of `s` made at time `t`, in the order of `s`. */
  function AtTime(s: seq<Deployment>, t: nat): seq<Deployment> {
    if s == [] then []
    else (if s[0].deployedAt == t then [s[0]] else []) + AtTime(s[1..], t)
  }

  /**
   * One step of the stable sort: `x` came after every element of `r`, so it
   * is placed behind each element at least as new as itself.
   */
  function InsertByTime(r: seq<Deployment>, x: Deployment): seq<Deployment> {
    if r == [] then [x]
    else if r[0].deployedAt < x.deployedAt then [x] + r
    else [r[0]] + InsertByTime(r[1..], x)
  }

  /** Inserting adds `x` and keeps every element of `r`. */
  lemma {:induction false} InsertByTimePermutes(r: seq<Deployment>, x: Deployment)
    ensures multiset(InsertByTime(r, x)) == multiset(r) + multiset{x}
  {
    if r != [] && r[0].deployedAt >= x.deployedAt {
      var rest := InsertByTime(r[1..], x);
      InsertByTimePermutes(r[1..], x);
      assert multiset(r) == multiset{r[0]} + multiset(r[1..]) by {
        assert r == [r[0]] + r[1..];
      }
      assert multiset(InsertByTime(r, x)) == multiset{r[0]} + multiset(rest);
    }
  }

  /** Inserting into a newest-first list keeps it newest first. */
  lemma {:induction false} InsertByTimeSorted(r: seq<Deployment>, x: Deployment)
    requires NewestFirst(r)
    ensures NewestFirst(InsertByTime(r, x))
  {
    if r != [] && r[0].deployedAt >= x.deployedAt {
      var rest := InsertByTime(r[1..], x);
      InsertByTimeSorted(r[1..], x);
      InsertByTimePermutes(r[1..], x);
      forall k | 0 <= k < |rest|
        ensures r[0].deployedAt >= rest[k].deployedAt
      {
        assert rest[k] in multiset(r[1..]) + multiset{x};
        if rest[k] in multiset(r[1..]) {
          var m :| 0 <= m < |r[1..]| && r[1..][m] == rest[k];
          assert r[m + 1] == rest[k];
        }
      }
    }
  }

  /** The stable newest-first sort, one element of the input at a time. */
  function SortByTime(s: seq<Deployment>): (r: seq<Deployment>)
    ensures NewestFirst(r)
    ensures multiset(r) == multiset(s)
  {
    if s == [] then []
    else
      var p, x := s[..|s| - 1], s[|s| - 1];
      assert s == p + [x];
      InsertByTimeSorted(SortByTime(p), x);
      InsertByTimePermutes(SortByTime(p), x);
      InsertByTime(SortByTime(p), x)
  }

  /** The end index `Array.prototype.slice(0, end)` stops at on a list of length `len`. */
  function SliceEnd(len: nat, end: int): (k: nat)
    ensures k <= len
    ensures end >= 0 ==> k == (if end < len then end else len)
    ensures end < 0 ==> k == (if len + end > 0 then len + end else 0)
  {
    if end >= 0 then (if end < len then end else len)
    else if len + end > 0 then len + end else 0
  }

  /**
   * `if (limit) return all.slice(0, limit); return all;` -- an absent limit
   * (or NaN) and 0 are falsy and keep everything.
   */
  function Limit(s: seq<Deployment>, limit: Option<int>): (r: seq<Deployment>)
    ensures |r| <= |s| && r == s[..|r|]
    ensures limit.None? || limit.value == 0 ==> r == s
    ensures limit.Some? && limit.value > 0 ==>
      |r| == (if limit.value < |s| then limit.value else |s|)
    ensures limit.Some? && limit.value < 0 ==>
      |r| == (if |s| + limit.value > 0 then |s| + limit.value else 0)
    ensures NewestFirst(s) ==> NewestFirst(r)
  {
    if limit.Some? && limit.value != 0 then s[..SliceEnd(|s|, limit.value)] else s
  }

  lemma {:induction false} AtTimeAppend(a: seq<Deployment>, b: seq<Deployment>, t: nat)
    ensures AtTime(a + b, t) == AtTime(a, t) + AtTime(b, t)
  {
    if a == [] {
      assert a + b == b;
    } else {
      var head := if a[0].deployedAt == t then [a[0]] else [];
      assert AtTime(a + b, t) == head + AtTime(a[1..] + b, t) by {
        assert (a + b)[0] == a[0];
        assert (a + b)[1..] == a[1..] + b;
      }
      AtTimeAppend(a[1..], b, t);
    }
  }

  lemma {:induction false} AtTimeNone(s: seq<Deployment>, t: nat)
    requires forall i :: 0 <= i < |s| ==> s[i].deployedAt != t
    ensures AtTime(s, t) == []
  {
    if s != [] {
      AtTimeNone(s[1..], t);
    }
  }

  /** Inserting `x` adds it at the end of its own time group and leaves every group in order. */
  lemma {:induction false} InsertByTimeStable(r: seq<Deployment>, x: Deployment, t: nat)
    requires NewestFirst(r)
    ensures AtTime(InsertByTime(r, x), t) == AtTime(r, t) + (if x.deployedAt == t then [x] else [])
  {
    if r == [] {
    } else if r[0].deployedAt < x.deployedAt {
      assert ([x] + r)[1..] == r;
      if x.deployedAt == t {
        AtTimeNone(r, t);
      }
    } else {
      var rest := InsertByTime(r[1..], x);
      assert ([r[0]] + rest)[1..] == rest;
      InsertByTimeStable(r[1..], x, t);
    }
  }

  /**
   * Stability: for every time, the deployments made at that time appear in
   * the sorted list in exactly the order they had in the input.
   */
  lemma {:induction false} SortByTimeStable(s: seq<Deployment>, t: nat)
    ensures AtTime(SortByTime(s), t) == AtTime(s, t)
  {
    if s != [] {
      var p, x := s[..|s| - 1], s[|s| - 1];
      assert s == p + [x];
      SortByTimeStable(p, t);
      InsertByTimeStable(SortByTime(p), x, t);
      AtTimeAppend(p, [x], t);
      assert [x][1..] == [];
    }
  }

  /**
   * The step the in-place sort takes: when every element from `j` on is
   * older than `x` and none before is, inserting `x` puts it at `j`.
   */
  lemma {:induction false} InsertByTimeAt(r: seq<Deployment>, x: Deployment, j: nat)
    requires NewestFirst(r) && j <= |r|
    requires forall k :: j <= k < |r| ==> r[k].deployedAt < x.deployedAt
    requires j > 0 ==> r[j - 1].deployedAt >= x.deployedAt
    ensures InsertByTime(r, x) == r[..j] + [x] + r[j..]
  {
    if j == 0 {
      if r != [] {
        assert r[0].deployedAt < x.deployedAt;
      }
    } else {
      assert r[0].deployedAt >= x.deployedAt;
      InsertByTimeAt(r[1..], x, j - 1);
      assert r[..j] == [r[0]] + r[1..][..j - 1];
      assert r[j..] == r[1..][j - 1..];
    }
  }

  /**
   * The array the in-place step leaves behind: `sorted` with `x` put at `j`,
   * where everything from `j` on is older than `x` and nothing before is.
   */
  lemma InsertedAt(sorted: seq<Deployment>, x: Deployment, j: nat, b: seq<Deployment>)
    requires NewestFirst(sorted) && j <= |sorted| && |b| == |sorted| + 1
    requires forall k :: j <= k < |sorted| ==> sorted[k].deployedAt < x.deployedAt
    requires j > 0 ==> sorted[j - 1].deployedAt >= x.deployedAt
    requires forall k :: 0 <= k < j ==> b[k] == sorted[k]
    requires b[j] == x
    requires forall k :: j < k < |b| ==> b[k] == sorted[k - 1]
    ensures b == InsertByTime(sorted, x)
  {
    InsertByTimeAt(sorted, x, j);
    var inserted := sorted[..j] + [x] + sorted[j..];
    forall k | 0 <= k < |b|
      ensures b[k] == inserted[k]
    {
      if k < j {
        assert inserted[k] == sorted[k];
      } else if j < k {
        assert inserted[k] == sorted[k - 1];
      }
    }
  }

  /** One more element of the input is one more insertion. */
  lemma SortByTimeSnoc(s: seq<Deployment>, i: nat)
    requires i < |s|
    ensures SortByTime(s[..i + 1]) == InsertByTime(SortByTime(s[..i]), s[i])
  {
    assert s[..i + 1][..i] == s[..i];
  }

  /**
   * Moves `a[i]` left past the older elements before it, which are in
   * newest-first order: the inner loop of the in-place insertion sort.
   */
  method InsertInPlace(a: array<Deployment>, i: nat)
    requires i < a.Length && NewestFirst(a[..i])
    modifies a
    ensures a[..i + 1] == InsertByTime(old(a[..i]), old(a[i]))
    ensures forall k :: i < k < a.Length ==> a[k] == old(a[k])
  {
    ghost var sorted := a[..i];
    var x := a[i];
    var j := i;
    while j > 0 && a[j - 1].deployedAt < x.deployedAt
      invariant 0 <= j <= i
      invariant forall k :: 0 <= k < j ==> a[k] == sorted[k]
      invariant forall k :: j < k <= i ==> a[k] == sorted[k - 1]
      invariant forall k :: i < k < a.Length ==> a[k] == old(a[k])
      invariant forall k :: j <= k < i ==> sorted[k].deployedAt < x.deployedAt
    {
      a[j] := a[j - 1];
      j := j - 1;
    }
    a[j] := x;
    InsertedAt(sorted, x, j, a[..i + 1]);
  }

  /**
   * `allDeployments.sort(...)`: the stable newest-first sort, done in place
   * on the array by insertion.
   */
  method SortNewestFirst(a: array<Deployment>)
    modifies a
    ensures a[..] == SortByTime(old(a[..]))
  {
    ghost var s := a[..];
    var i := 0;
    while i < a.Length
      invariant 0 <= i <= a.Length
      invariant a[..i] == SortByTime(s[..i])
      invariant forall k :: i <= k < a.Length ==> a[k] == s[k]
    {
      InsertInPlace(a, i);
      SortByTimeSnoc(s, i);
      i := i + 1;
    }
    assert a[..] == a[..a.Length];
    assert s[..a.Length] == s;
  }
}
