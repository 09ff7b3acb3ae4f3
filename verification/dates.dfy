/** `get_available_dates`: the days of the stored rows, newest first, each
    once, at most ten. */
module Dates {
  import opened Seqs
  import opened Sorting
  import opened Records

  const MaxDates: nat := 10

  function CreatedAt(m: Message): int { m.createdAt }

  /** The `created_at` column in `created_at`-descending order. Rows with
      equal instants fall on the same day, so the order the database gives
      them does not matter here. */
  function InstantsDesc(rows: seq<Message>): (r: seq<int>)
    ensures |r| == |rows|
  {
    var sorted := SortDesc(rows, CreatedAt);
    seq(|sorted|, k requires 0 <= k < |sorted| => sorted[k].createdAt)
  }

  function Days(ts: seq<int>): (r: seq<int>)
    ensures |r| == |ts|
  {
    seq(|ts|, k requires 0 <= k < |ts| => DayOf(ts[k]))
  }

  /** The first `n` elements, or all of them if there are fewer. */
  function Take<T>(s: seq<T>, n: nat): (r: seq<T>)
    ensures |r| <= n
  {
    if |s| <= n then s else s[..n]
  }

  /** What the endpoint answers. */
  function AvailableDates(rows: seq<Message>): seq<int> {
    Take(DistinctBy(Days(InstantsDesc(rows)), Identity), MaxDates)
  }

  /** `get_available_dates()` over the stored rows. */
  method GetAvailableDates(rows: seq<Message>) returns (dates: seq<int>)
    ensures dates == AvailableDates(rows)
  {
    var instants := InstantsDesc(rows);
    ghost var ds := Days(instants);
    var seen: set<int> := {};
    dates := [];
    var i := 0;
    while i < |instants|
      invariant 0 <= i <= |instants|
      invariant dates == DistinctBy(ds[..i], Identity)
      invariant seen == KeySet(ds[..i], Identity)
      invariant |dates| < MaxDates
    {
      var d := DayOf(instants[i]);
      KeySetSnoc(ds[..i], d, Identity);
      TakeSnoc(ds, i);
      if d !in seen {
        seen := seen + {d};
        dates := dates + [d];
      }
      i := i + 1;
      if |dates| >= MaxDates {
        DistinctByPrefix(ds, i);
        return;
      }
    }
    TakeAll(ds);
  }

  /** The walk over a prefix gives a prefix of the walk over the whole. */
  lemma {:induction false} DistinctByPrefix(s: seq<int>, i: int)
    requires 0 <= i <= |s|
    ensures |DistinctBy(s[..i], Identity)| <= |DistinctBy(s, Identity)|
    ensures DistinctBy(s, Identity)[..|DistinctBy(s[..i], Identity)|] == DistinctBy(s[..i], Identity)
  {
    if i < |s| {
      var init := s[..|s| - 1];
      assert init[..i] == s[..i];
      DistinctByPrefix(init, i);
    } else {
      TakeAll(s);
    }
  }

  ghost predicate NonIncreasing(s: seq<int>) {
    forall i, j :: 0 <= i < j < |s| ==> s[i] >= s[j]
  }

  ghost predicate Decreasing(s: seq<int>) {
    forall i, j :: 0 <= i < j < |s| ==> s[i] > s[j]
  }

  /** Days of instants taken newest first never increase. */
  lemma DaysNonIncreasing(rows: seq<Message>)
    ensures NonIncreasing(Days(InstantsDesc(rows)))
  {
    var sorted := SortDesc(rows, CreatedAt);
    SortDescSorted(rows, CreatedAt);
    var ds := Days(InstantsDesc(rows));
    forall i, j | 0 <= i < j < |ds| ensures ds[i] >= ds[j] {
      assert CreatedAt(sorted[i]) >= CreatedAt(sorted[j]);
      DayOfMonotone(sorted[j].createdAt, sorted[i].createdAt);
    }
  }

  /** Keeping the first of every value of a non-increasing list leaves a
      decreasing one. */
  lemma {:induction false} DistinctOfNonIncreasing(s: seq<int>)
    requires NonIncreasing(s)
    ensures Decreasing(DistinctBy(s, Identity))
  {
    if s != [] {
      var init, x := s[..|s| - 1], s[|s| - 1];
      DistinctOfNonIncreasing(init);
      var r0 := DistinctBy(init, Identity);
      if x !in KeySet(init, Identity) {
        var r := r0 + [x];
        forall i, j | 0 <= i < j < |r| ensures r[i] > r[j] {
          if j == |r0| {
            assert r[i] == r0[i] && r0[i] in init;
            var k :| 0 <= k < |init| && init[k] == r0[i];
            assert s[k] == init[k];
            assert Identity(init[k]) in KeySet(init, Identity);
          } else {
            assert r[i] == r0[i] && r[j] == r0[j];
          }
        }
      }
    }
  }

  /** At most ten dates, newest first, none repeated. */
  lemma AvailableDatesOrdered(rows: seq<Message>)
    ensures |AvailableDates(rows)| <= MaxDates
    ensures Decreasing(AvailableDates(rows))
  {
    DaysNonIncreasing(rows);
    DistinctOfNonIncreasing(Days(InstantsDesc(rows)));
  }

  /** Every date is the day of some stored row. */
  lemma AvailableDatesSound(rows: seq<Message>, d: int)
    requires d in AvailableDates(rows)
    ensures exists m :: m in rows && DayOf(m.createdAt) == d
  {
    var sorted := SortDesc(rows, CreatedAt);
    var ds := Days(InstantsDesc(rows));
    assert d in DistinctBy(ds, Identity);
    var k :| 0 <= k < |ds| && ds[k] == d;
    assert sorted[k] in multiset(rows) by {
      assert sorted[k] in multiset(sorted);
    }
  }

  /** The day of every stored row is listed, unless ten newer days already
      are. */
  lemma AvailableDatesComplete(rows: seq<Message>, m: Message)
    requires m in rows
    ensures var r := AvailableDates(rows);
      DayOf(m.createdAt) in r || (|r| == MaxDates && DayOf(m.createdAt) < r[MaxDates - 1])
  {
    var sorted := SortDesc(rows, CreatedAt);
    var ds := Days(InstantsDesc(rows));
    var all := DistinctBy(ds, Identity);
    assert m in sorted by {
      assert m in multiset(rows);
    }
    var k :| 0 <= k < |sorted| && sorted[k] == m;
    assert ds[k] == DayOf(m.createdAt);
    DistinctMembers(ds, ds[k]);
    var j :| 0 <= j < |all| && all[j] == ds[k];
    if j >= MaxDates {
      DaysNonIncreasing(rows);
      DistinctOfNonIncreasing(ds);
      assert all[MaxDates - 1] > all[j];
    }
  }
}
