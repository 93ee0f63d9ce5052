/** The time series behind the headline number: every query row projected
    to a `(timestamp, value)` point, sorted newest first with the stable
    sort of `Array.prototype.sort`, searched with `find`, and reversed in
    place into ascending order for the trendline. */
module Series {
  import opened Wrappers

  /** One projected row: `x` is the row's `__timestamp`, `y` its metric
      value, `None` where the metric is null. */
  datatype Point = Point(x: int, y: Option<real>)

  /** Newest first: timestamps never increase along `s`. */
  predicate SortedDesc(s: seq<Point>) {
    forall i, j :: 0 <= i < j < |s| ==> s[i].x >= s[j].x
  }

  /** Oldest first: timestamps never decrease along `s`. */
  predicate SortedAsc(s: seq<Point>) {
    forall i, j :: 0 <= i < j < |s| ==> s[i].x <= s[j].x
  }

  /** The points of `s` stamped `t`, in their order in `s`. */
  function WithTime(s: seq<Point>, t: int): seq<Point> {
    if |s| == 0 then []
    else (if s[0].x == t then [s[0]] else []) + WithTime(s[1..], t)
  }

  // ---------------------------------------------------------------------
  // The newest-first sort, comparator `b.x - a.x`.
  // ---------------------------------------------------------------------

  /** Inserts `p` into the newest-first `s` after every point at least as
      new as `p`, so that equal timestamps keep their arrival order. */
  function Insert(p: Point, s: seq<Point>): (r: seq<Point>)
    requires SortedDesc(s)
    ensures SortedDesc(r)
    ensures multiset(r) == multiset(s) + multiset{p}
    ensures |r| == |s| + 1
    ensures r[0] == p || (|s| > 0 && r[0] == s[0])
  {
    if |s| == 0 then [p]
    else if s[0].x < p.x then [p] + s
    else
      var rest := Insert(p, s[1..]);
      assert s == [s[0]] + s[1..];
      assert rest[0].x <= s[0].x;
      [s[0]] + rest
  }

  /** The series sorted newest first: a permutation of `s` with
      non-increasing timestamps. Ties keep their order in `s`
      (`SortByTimeDescStable`), as the stable `Array.prototype.sort` does. */
  function SortByTimeDesc(s: seq<Point>): (r: seq<Point>)
    ensures SortedDesc(r)
    ensures multiset(r) == multiset(s)
    ensures |r| == |s|
  {
    if |s| == 0 then []
    else
      var init := s[..|s| - 1];
      assert s == init + [s[|s| - 1]];
      Insert(s[|s| - 1], SortByTimeDesc(init))
  }

  lemma {:induction false} WithTimeAppend(a: seq<Point>, b: seq<Point>, t: int)
    ensures WithTime(a + b, t) == WithTime(a, t) + WithTime(b, t)
  {
    if |a| > 0 {
      assert (a + b)[1..] == a[1..] + b;
      WithTimeAppend(a[1..], b, t);
    } else {
      assert a + b == b;
    }
  }

  /** No point of a newest-first series is newer than its head. */
  lemma {:induction false} WithTimeNewer(s: seq<Point>, t: int)
    requires SortedDesc(s)
    requires |s| > 0 && s[0].x < t
    ensures WithTime(s, t) == []
  {
    if |s| > 1 {
      WithTimeNewer(s[1..], t);
    }
  }

  lemma {:induction false} WithTimeInsert(p: Point, s: seq<Point>, t: int)
    requires SortedDesc(s)
    ensures WithTime(Insert(p, s), t) == WithTime(s, t) + (if p.x == t then [p] else [])
  {
    if |s| == 0 {
      assert WithTime([p], t) == (if p.x == t then [p] else []) + WithTime([], t);
    } else if s[0].x < p.x {
      assert ([p] + s)[1..] == s;
      if p.x == t {
        WithTimeNewer(s, t);
      }
    } else {
      WithTimeInsert(p, s[1..], t);
      assert ([s[0]] + Insert(p, s[1..]))[1..] == Insert(p, s[1..]);
    }
  }

  /** Stability: for every timestamp, the points carrying it appear in the
      sorted series in the same order as in the input. */
  lemma {:induction false} SortByTimeDescStable(s: seq<Point>, t: int)
    ensures WithTime(SortByTimeDesc(s), t) == WithTime(s, t)
  {
    if |s| > 0 {
      var init, last := s[..|s| - 1], s[|s| - 1];
      var sorted := SortByTimeDesc(init);
      var tail := if last.x == t then [last] else [];
      assert s == init + [last];
      calc {
        WithTime(SortByTimeDesc(s), t);
        WithTime(Insert(last, sorted), t);
        { WithTimeInsert(last, sorted, t); }
        WithTime(sorted, t) + tail;
        { SortByTimeDescStable(init, t); }
        WithTime(init, t) + tail;
        { WithTimeSingle(last, t); }
        WithTime(init, t) + WithTime([last], t);
        { WithTimeAppend(init, [last], t); }
        WithTime(s, t);
      }
    }
  }

  lemma WithTimeSingle(p: Point, t: int)
    ensures WithTime([p], t) == if p.x == t then [p] else []
  {
    assert WithTime([p], t) == (if p.x == t then [p] else []) + WithTime([], t);
  }

  lemma {:induction false} WithTimeHead(s: seq<Point>)
    requires |s| > 0
    ensures WithTime(s, s[0].x) == [s[0]] + WithTime(s[1..], s[0].x)
  {
  }

  /** A point stamped `t` lies in `s` exactly when `WithTime(s, t)` is not empty. */
  lemma {:induction false} WithTimeNonEmpty(s: seq<Point>, i: nat)
    requires i < |s|
    ensures |WithTime(s, s[i].x)| > 0
  {
    if i > 0 {
      WithTimeNonEmpty(s[1..], i - 1);
    }
  }

  lemma {:induction false} WithTimeWitness(s: seq<Point>, t: int)
    requires |WithTime(s, t)| > 0
    ensures exists i :: 0 <= i < |s| && s[i].x == t
  {
    if s[0].x != t {
      WithTimeWitness(s[1..], t);
      var i :| 0 <= i < |s[1..]| && s[1..][i].x == t;
      assert s[i + 1].x == t;
    }
  }

  /** Sortedness and stability determine the order completely: any
      newest-first arrangement that keeps every timestamp's points in their
      input order is the series `SortByTimeDesc` computes. */
  lemma {:induction false} SortByTimeDescUnique(s: seq<Point>, r: seq<Point>)
    requires SortedDesc(r)
    requires forall t :: WithTime(r, t) == WithTime(s, t)
    ensures r == SortByTimeDesc(s)
  {
    var q := SortByTimeDesc(s);
    forall t ensures WithTime(q, t) == WithTime(r, t) {
      SortByTimeDescStable(s, t);
    }
    SameGroupsSame(r, q);
  }

  lemma {:induction false} SameGroupsSame(a: seq<Point>, b: seq<Point>)
    requires SortedDesc(a) && SortedDesc(b)
    requires forall t :: WithTime(a, t) == WithTime(b, t)
    ensures a == b
  {
    EmptyTogether(a, b);
    if |a| > 0 {
      HeadNewest(a, b);
      HeadNewest(b, a);
      var m := a[0].x;
      WithTimeHead(a);
      WithTimeHead(b);
      assert a[0] == WithTime(a, m)[0] == WithTime(b, m)[0] == b[0];
      forall t ensures WithTime(a[1..], t) == WithTime(b[1..], t) {
        assert WithTime(a, t) == WithTime(b, t);
        if t == m {
          assert b[0].x == m;
          assert WithTime(a[1..], m) == ([a[0]] + WithTime(a[1..], m))[1..];
          assert WithTime(b[1..], m) == ([b[0]] + WithTime(b[1..], m))[1..];
        } else {
          assert WithTime(a, t) == WithTime(a[1..], t) by {
            assert [] + WithTime(a[1..], t) == WithTime(a[1..], t);
          }
          assert WithTime(b, t) == WithTime(b[1..], t) by {
            assert [] + WithTime(b[1..], t) == WithTime(b[1..], t);
          }
        }
      }
      SameGroupsSame(a[1..], b[1..]);
      assert a == [a[0]] + a[1..] && b == [b[0]] + b[1..];
    }
  }

  lemma {:induction false} EmptyTogether(a: seq<Point>, b: seq<Point>)
    requires forall t :: WithTime(a, t) == WithTime(b, t)
    ensures |a| == 0 <==> |b| == 0
  {
    if |a| > 0 {
      WithTimeNonEmpty(a, 0);
      assert |WithTime(b, a[0].x)| > 0;
    }
    if |b| > 0 {
      WithTimeNonEmpty(b, 0);
      assert |WithTime(a, b[0].x)| > 0;
    }
  }

  lemma {:induction false} HeadNewest(a: seq<Point>, b: seq<Point>)
    requires SortedDesc(a) && SortedDesc(b) && |a| > 0 && |b| > 0
    requires forall t :: WithTime(a, t) == WithTime(b, t)
    ensures a[0].x <= b[0].x
  {
    WithTimeNonEmpty(a, 0);
    assert |WithTime(b, a[0].x)| > 0;
    WithTimeWitness(b, a[0].x);
  }

  // ---------------------------------------------------------------------
  // Finding the first point that has a value.
  // ---------------------------------------------------------------------

  /** The first point of `s` whose value is not null, if any. */
  function FirstNonNull(s: seq<Point>): (r: Option<Point>)
    ensures r.Some? ==> exists i :: 0 <= i < |s| && s[i] == r.value
                          && (forall j :: 0 <= j < i ==> s[j].y.None?)
    ensures r.Some? ==> r.value.y.Some?
    ensures r.None? <==> forall i :: 0 <= i < |s| ==> s[i].y.None?
  {
    if |s| == 0 then None
    else if s[0].y.Some? then Some(s[0])
    else
      var r := FirstNonNull(s[1..]);
      assert r.Some? ==> exists i :: 0 <= i < |s| && s[i] == r.value
                           && (forall j :: 0 <= j < i ==> s[j].y.None?) by {
        if r.Some? {
          var i :| 0 <= i < |s[1..]| && s[1..][i] == r.value
                   && (forall j :: 0 <= j < i ==> s[1..][j].y.None?);
          assert s[i + 1] == r.value;
          forall j | 0 <= j < i + 1 ensures s[j].y.None? {
            if j > 0 { assert s[j] == s[1..][j - 1]; }
          }
        }
      }
      assert r.None? ==> forall i :: 0 <= i < |s| ==> s[i].y.None? by {
        if r.None? {
          forall i | 0 <= i < |s| ensures s[i].y.None? {
            if i > 0 { assert s[i] == s[1..][i - 1]; }
          }
        }
      }
      r
  }

  /** In a newest-first series, the point `find` returns is the most recent
      point with a value: no point with a value is newer. */
  lemma FirstNonNullMostRecent(s: seq<Point>)
    requires SortedDesc(s)
    requires FirstNonNull(s).Some?
    ensures forall q :: q in s && q.y.Some? ==> q.x <= FirstNonNull(s).value.x
  {
    var p := FirstNonNull(s).value;
    var i :| 0 <= i < |s| && s[i] == p && (forall j :: 0 <= j < i ==> s[j].y.None?);
    forall q | q in s && q.y.Some? ensures q.x <= p.x {
      var j :| 0 <= j < |s| && s[j] == q;
      assert i <= j;
    }
  }

  /** If `s[k]` is the first point of `s` with a value, it is also the first
      point with a value among those sharing its timestamp. */
  lemma {:induction false} FirstNonNullInGroup(s: seq<Point>, k: nat)
    requires k < |s| && s[k].y.Some?
    requires forall j :: 0 <= j < k ==> s[j].y.None?
    ensures FirstNonNull(WithTime(s, s[k].x)) == Some(s[k])
  {
    var t := s[k].x;
    if k == 0 {
      assert WithTime(s, t) == [s[0]] + WithTime(s[1..], t);
    } else {
      assert s[1..][k - 1] == s[k];
      FirstNonNullInGroup(s[1..], k - 1);
      var rest := WithTime(s[1..], t);
      if s[0].x == t {
        assert WithTime(s, t) == [s[0]] + rest;
        assert ([s[0]] + rest)[1..] == rest;
      } else {
        assert WithTime(s, t) == [] + rest;
        assert [] + rest == rest;
      }
    }
  }

  // ---------------------------------------------------------------------
  // Reversing the series into ascending time order.
  // ---------------------------------------------------------------------

  /** `s` back to front. */
  function Reversed(s: seq<Point>): (r: seq<Point>)
    ensures |r| == |s|
  {
    if |s| == 0 then [] else [s[|s| - 1]] + Reversed(s[..|s| - 1])
  }

  lemma {:induction false} ReversedIndex(s: seq<Point>, k: nat)
    requires k < |s|
    ensures Reversed(s)[k] == s[|s| - 1 - k]
  {
    if k > 0 {
      ReversedIndex(s[..|s| - 1], k - 1);
    }
  }

  lemma {:induction false} ReversedMultiset(s: seq<Point>)
    ensures multiset(Reversed(s)) == multiset(s)
  {
    if |s| > 0 {
      ReversedMultiset(s[..|s| - 1]);
      assert s == s[..|s| - 1] + [s[|s| - 1]];
    }
  }

  /** Reversing a newest-first series gives an oldest-first series holding
      the same points. */
  lemma ReversedAscending(s: seq<Point>)
    requires SortedDesc(s)
    ensures SortedAsc(Reversed(s))
    ensures multiset(Reversed(s)) == multiset(s)
  {
    ReversedMultiset(s);
    var r := Reversed(s);
    forall i, j | 0 <= i < j < |r| ensures r[i].x <= r[j].x {
      ReversedIndex(s, i);
      ReversedIndex(s, j);
    }
  }

  /** Reverses `a` in place, as `Array.prototype.reverse` does. */
  method ReverseInPlace(a: array<Point>)
    modifies a
    ensures a[..] == Reversed(old(a[..]))
  {
    var lo, hi := 0, a.Length - 1;
    while lo < hi
      invariant 0 <= lo <= a.Length && hi == a.Length - 1 - lo
      invariant forall k :: 0 <= k < lo ==> a[k] == old(a[a.Length - 1 - k]) && a[a.Length - 1 - k] == old(a[k])
      invariant forall k :: lo <= k <= hi ==> a[k] == old(a[k])
    {
      a[lo], a[hi] := a[hi], a[lo];
      lo, hi := lo + 1, hi - 1;
    }
    forall k | 0 <= k < a.Length ensures a[k] == Reversed(old(a[..]))[k] {
      ReversedIndex(old(a[..]), k);
    }
  }
}
