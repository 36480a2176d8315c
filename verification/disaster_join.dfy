/** Selection over the disaster table: the year window and coordinate check
    of the point layer, the exact-name join of disasters to a county, and the
    most-recent-first selection used in county popups. */
module DisasterJoin {
  import opened Records
  import opened Seqs

  predicate HasCoordinates(d: Disaster) {
    d.lat.Some? && d.lon.Some?
  }

  function YearMask(lo: int, hi: int): Disaster -> bool {
    (d: Disaster) => lo <= d.year && d.year <= hi
  }

  function CoordinateMask(): Disaster -> bool {
    (d: Disaster) => HasCoordinates(d)
  }

  function CountyMask(name: string): Disaster -> bool {
    (d: Disaster) => d.county == name
  }

  /** The disasters drawn as points: declared within [lo, hi] (both ends
      included) and with both coordinates present, in table order. */
  function PointDisasters(ds: seq<Disaster>, lo: int, hi: int): (r: seq<Disaster>)
    ensures forall d :: d in r ==> d in ds && lo <= d.year <= hi && HasCoordinates(d)
    ensures forall d :: d in ds && lo <= d.year <= hi && HasCoordinates(d) ==> d in r
  {
    Filter(Filter(ds, YearMask(lo, hi)), CoordinateMask())
  }

  /** The point set is a subsequence of the disaster table. */
  lemma PointsKeepOrder(ds: seq<Disaster>, lo: int, hi: int)
    ensures IsSubsequence(PointDisasters(ds, lo, hi), ds)
  {
    var byYear := Filter(ds, YearMask(lo, hi));
    FilterIsSubsequence(ds, YearMask(lo, hi));
    FilterIsSubsequence(byYear, CoordinateMask());
    SubsequenceTransitive(PointDisasters(ds, lo, hi), byYear, ds);
  }

  /** Narrowing the year window never adds a point. */
  lemma NarrowingWindowNeverAddsPoints(ds: seq<Disaster>, lo: int, hi: int, lo': int, hi': int)
    requires lo <= lo' && hi' <= hi
    ensures IsSubsequence(PointDisasters(ds, lo', hi'), PointDisasters(ds, lo, hi))
    ensures |PointDisasters(ds, lo', hi')| <= |PointDisasters(ds, lo, hi)|
  {
    FilterFilter(ds, YearMask(lo, hi), CoordinateMask());
    FilterFilter(ds, YearMask(lo', hi'), CoordinateMask());
    FilterMonotone(ds, Both(YearMask(lo', hi'), CoordinateMask()), Both(YearMask(lo, hi), CoordinateMask()));
    SubsequenceLength(PointDisasters(ds, lo', hi'), PointDisasters(ds, lo, hi));
  }

  /** The join key of a disaster: the county name it was declared for. */
  function NameOf(d: Disaster): string {
    d.county
  }

  /** All disasters declared for the county named `name`, by exact,
      case-sensitive string equality, over the whole table. */
  function CountyDisasters(ds: seq<Disaster>, name: string): (r: seq<Disaster>)
    ensures forall d :: d in r ==> d in ds && d.county == name
    ensures forall d :: d in ds && d.county == name ==> d in r
  {
    Filter(ds, CountyMask(name))
  }

  /** The group-by count of the table agrees with the length of the name join. */
  lemma GroupCountIsJoinLength(ds: seq<Disaster>, name: string)
    ensures CountKey(ds, NameOf, name) == |CountyDisasters(ds, name)|
  {
    CountKeyIsFilterLength(ds, NameOf, name, CountyMask(name));
  }

  /** Every point of one county in any year window is among that county's
      all-time disasters, so a popup's count never falls below the points drawn for it. */
  lemma PopupCountCoversPoints(ds: seq<Disaster>, name: string, lo: int, hi: int)
    ensures |Filter(PointDisasters(ds, lo, hi), CountyMask(name))| <= |CountyDisasters(ds, name)|
  {
    var pts := PointDisasters(ds, lo, hi);
    PointsKeepOrder(ds, lo, hi);
    FilterIsSubsequence(pts, CountyMask(name));
    SubsequenceTransitive(Filter(pts, CountyMask(name)), pts, ds);
    FilterFilter(pts, CountyMask(name), CountyMask(name));
    // A subsequence of `ds` whose members all match `name` is a subsequence of the join.
    SubsequenceOfMatching(Filter(pts, CountyMask(name)), ds, CountyMask(name));
    SubsequenceLength(Filter(pts, CountyMask(name)), CountyDisasters(ds, name));
  }

  /** Most recent first. */
  predicate NewestFirst(s: seq<Disaster>) {
    forall i, j :: 0 <= i < j < |s| ==> s[i].ordinal >= s[j].ordinal
  }

  function InsertByDate(d: Disaster, s: seq<Disaster>): (r: seq<Disaster>)
    requires NewestFirst(s)
    ensures NewestFirst(r)
    ensures multiset(r) == multiset(s) + multiset{d}
  {
    if s == [] then [d]
    else if d.ordinal >= s[0].ordinal then [d] + s
    else
      var rest := InsertByDate(d, s[1..]);
      assert multiset(s) == multiset{s[0]} + multiset(s[1..]) by {
        assert s == [s[0]] + s[1..];
      }
      assert forall x :: x in rest ==> x.ordinal <= s[0].ordinal by {
        forall x | x in rest
          ensures x.ordinal <= s[0].ordinal
        {
          assert x in multiset(rest);
        }
      }
      [s[0]] + rest
  }

  /** The disasters sorted newest first (a permutation of the input). */
  function SortNewestFirst(s: seq<Disaster>): (r: seq<Disaster>)
    ensures NewestFirst(r)
    ensures multiset(r) == multiset(s)
    ensures |r| == |s|
  {
    if s == [] then []
    else
      assert s == [s[0]] + s[1..];
      InsertByDate(s[0], SortNewestFirst(s[1..]))
  }

  /** How many recent disasters a county popup lists. */
  const RecentCount: nat := 3

  function Min(a: nat, b: nat): nat {
    if a < b then a else b
  }

  /** The `n` most recent disasters of `ds`, newest first. Ties between equal
      dates may come in any order. */
  function MostRecent(ds: seq<Disaster>, n: nat): (r: seq<Disaster>)
    ensures |r| == Min(n, |ds|)
    ensures NewestFirst(r)
    ensures multiset(r) <= multiset(ds)
  {
    var sorted := SortNewestFirst(ds);
    var k := Min(n, |ds|);
    assert sorted == sorted[..k] + sorted[k..];
    assert multiset(sorted) == multiset(sorted[..k]) + multiset(sorted[k..]);
    sorted[..k]
  }

  /** In a newest-first sequence nothing after position `k` is newer than anything before it. */
  lemma SplitNewestFirst(s: seq<Disaster>, k: nat)
    requires NewestFirst(s) && k <= |s|
    ensures forall d, e :: d in s[k..] && e in s[..k] ==> d.ordinal <= e.ordinal
  {
    forall d, e | d in s[k..] && e in s[..k]
      ensures d.ordinal <= e.ordinal
    {
      var j :| 0 <= j < |s[k..]| && s[k..][j] == d;
      var i :| 0 <= i < |s[..k]| && s[..k][i] == e;
      assert s[i] == e && s[k + j] == d;
    }
  }

  /** No disaster left out of the selection is newer than one kept in it. */
  lemma MostRecentAreNewest(ds: seq<Disaster>, n: nat)
    ensures forall d, e :: d in multiset(ds) - multiset(MostRecent(ds, n)) && e in MostRecent(ds, n) ==> d.ordinal <= e.ordinal
  {
    var sorted := SortNewestFirst(ds);
    var k := Min(n, |ds|);
    var r := MostRecent(ds, n);
    assert r == sorted[..k];
    assert sorted == r + sorted[k..];
    assert multiset(ds) - multiset(r) == multiset(sorted[k..]) by {
      assert multiset(sorted) == multiset(r) + multiset(sorted[k..]);
    }
    SplitNewestFirst(sorted, k);
  }
}
