/** The ride controller's read side: a user's active rides, the paged ride history and a
    driver's statistics.  Queries run over the collection in natural order and sort newest
    first by creation time, as the database does.  The user id comes from the `x-user-id`
    header: a value that is not an ObjectId fails the query's cast and ends in the handler's
    500, and a missing one queries for null, which no rider id and only unassigned driver ids
    match. */
module RideQueries {
  import opened Wrappers
  import opened RideModel
  import Seqs
  import Pricing
  import RideController

  function CreatedAt(r: Ride): int { r.createdAt }

  /** `.sort({ createdAt: -1 })`. */
  function NewestFirst(rides: seq<Ride>): (r: seq<Ride>)
    ensures Seqs.Descending(r, CreatedAt)
    ensures multiset(r) == multiset(rides)
    ensures forall x :: x in r <==> x in rides
  {
    var r := Seqs.SortDesc(rides, CreatedAt);
    assert forall x :: x in r <==> x in rides by {
      forall x ensures x in r <==> x in rides {
        assert x in r <==> x in multiset(r);
        assert x in rides <==> x in multiset(rides);
      }
    }
    r
  }

  // ---------------------------------------------------------------- active rides

  /** The statuses a driver's active list shows; `arrived` and `requested` are not among them. */
  const DriverActive: set<Status> := {Accepted, Arriving, InProgress}

  /** The statuses a rider's active list shows; `arrived` is not among them. */
  const RiderActive: set<Status> := {Requested, Accepted, Arriving, InProgress}

  /** The query of `getActiveRides`: by driver for role `driver`, by rider for any other role
      (the role defaults to `rider`). */
  predicate ActiveFor(r: Ride, userId: Option<string>, role: string)
  {
    if role == "driver" then r.driverId == userId && r.status in DriverActive
    else Some(r.riderId) == userId && r.status in RiderActive
  }

  datatype ActiveReply = Active(rides: seq<Ride>) | ActiveFailed(status: int, error: string)

  function GetActiveRides(store: RideController.Store, userId: Option<string>, role: string): (a: ActiveReply)
    ensures a.ActiveFailed? <==> !RideController.CastsOptional(userId)
    ensures a.ActiveFailed? ==> a == ActiveFailed(500, "Failed to get active rides")
    ensures a.Active? ==> Seqs.Descending(a.rides, CreatedAt)
    ensures a.Active? ==> forall r :: r in a.rides <==> r in store && ActiveFor(r, userId, role)
    ensures userId.None? && role != "driver" ==> a == Active([])
  {
    if !RideController.CastsOptional(userId) then ActiveFailed(500, "Failed to get active rides")
    else Active(NewestFirst(Seqs.Filter(store, r => ActiveFor(r, userId, role))))
  }

  /** A user header that is not an ObjectId, such as `abc`, ends every read in its handler's
      500, for either role and any page. */
  lemma MalformedHeaderFailsReads(store: RideController.Store, role: string, status: Option<string>, page: int, limit: int, todayStart: int, weekStart: int)
    ensures GetActiveRides(store, Some("abc"), role) == ActiveFailed(500, "Failed to get active rides")
    ensures GetUserRides(store, Some("abc"), role, status, page, limit) == HistoryFailed(500, "Failed to get rides")
    ensures GetDriverStatsAsWritten(store, Some("abc"), todayStart, weekStart) == StatsFailed(500, "Failed to get driver stats")
  {
  }

  /** A ride that has been moved to `arrived` drops out of both parties' active lists. */
  lemma ArrivedRideNotActive(store: RideController.Store, userId: Option<string>, role: string, r: Ride)
    requires r.status == Arrived
    ensures GetActiveRides(store, userId, role).Active? ==> r !in GetActiveRides(store, userId, role).rides
  {
  }

  /** A driver's list is the rider's list without `requested`: the two agree on every ride
      past acceptance. */
  lemma DriverActiveIsRiderActiveWithoutRequested(s: Status)
    ensures s in DriverActive <==> s in RiderActive && s != Requested
  {
  }

  // ---------------------------------------------------------------- history

  /** The query of `getUserRides`: the user's side of the ride, and the exact status when a
      status filter is given. */
  predicate HistoryMatch(r: Ride, userId: Option<string>, role: string, status: Option<string>)
  {
    && (if role == "driver" then r.driverId == userId else Some(r.riderId) == userId)
    && (status.None? || status.value == "" || StatusName(r.status) == status.value)
  }

  datatype Pagination = Pagination(page: int, limit: int, total: nat, pages: Option<int>)

  datatype HistoryReply = History(rides: seq<Ride>, pagination: Pagination) | HistoryFailed(status: int, error: string)

  /** `Math.ceil(total / limit)`; division by zero gives a non-finite number, sent as null. */
  function PageCount(total: nat, limit: int): (pages: Option<int>)
    ensures pages.None? <==> limit == 0
    ensures limit > 0 ==> pages.Some? && (pages.value - 1) * limit < total <= pages.value * limit
  {
    if limit == 0 then None
    else if limit > 0 then Some((total + limit - 1) / limit)
    else Some(-(total / -limit))
  }

  /** Mongo's cursor `limit`: 0 means no limit, a negative value means its magnitude. */
  function TakeLimit(s: seq<Ride>, limit: int): (r: seq<Ride>)
    ensures limit == 0 ==> r == s
    ensures limit != 0 ==> |r| <= (if limit > 0 then limit else -limit)
    ensures |r| <= |s| && r == s[..|r|]
  {
    var n := if limit >= 0 then limit else -limit;
    if limit == 0 || |s| <= n then s else s[..n]
  }

  /** Every ride the history query matches, newest first. */
  function Matching(store: RideController.Store, userId: Option<string>, role: string, status: Option<string>): (all: seq<Ride>)
    ensures Seqs.Descending(all, CreatedAt)
    ensures forall r :: r in all <==> r in store && HistoryMatch(r, userId, role, status)
  {
    NewestFirst(Seqs.Filter(store, r => HistoryMatch(r, userId, role, status)))
  }

  /** `.skip(skip).limit(limit)` on a cursor: the rides from position `skip` on, in order, as
      many as remain or as the limit's magnitude allows (0 meaning no limit). */
  function Window(all: seq<Ride>, skip: nat, limit: int): (w: seq<Ride>)
    ensures forall i :: 0 <= i < |w| ==> skip + i < |all| && w[i] == all[skip + i]
    ensures
      var remaining := if skip <= |all| then |all| - skip else 0;
      var cap := if limit >= 0 then limit else -limit;
      |w| == if limit == 0 || remaining <= cap then remaining else cap
    ensures forall r :: r in w ==> r in all
  {
    if skip <= |all| then
      var w := TakeLimit(all[skip..], limit);
      assert forall r :: r in w ==> r in all by {
        forall r | r in w ensures r in all {
          assert r in all[skip..];
        }
      }
      w
    else []
  }

  function Skip(page: int, limit: int): int
  {
    (page - 1) * limit
  }

  /** `getUserRides`: the matching rides newest first, `(page - 1) * limit` skipped, at most
      `limit` kept, with the total count and the page count.  A user header that does not cast
      and a negative skip, which the database refuses, both end in the handler's 500. */
  function GetUserRides(store: RideController.Store, userId: Option<string>, role: string, status: Option<string>, page: int, limit: int): (h: HistoryReply)
    ensures h.HistoryFailed? <==> !RideController.CastsOptional(userId) || Skip(page, limit) < 0
    ensures h.HistoryFailed? ==> h == HistoryFailed(500, "Failed to get rides")
    ensures h.History? ==>
      var all := Matching(store, userId, role, status);
      && h.pagination == Pagination(page, limit, |all|, PageCount(|all|, limit))
      && h.rides == Window(all, Skip(page, limit), limit)
      && (forall r :: r in h.rides ==> r in store && HistoryMatch(r, userId, role, status))
  {
    var all := Matching(store, userId, role, status);
    var skip := Skip(page, limit);
    if !RideController.CastsOptional(userId) || skip < 0 then HistoryFailed(500, "Failed to get rides")
    else History(Window(all, skip, limit), Pagination(page, limit, |all|, PageCount(|all|, limit)))
  }

  /** With a positive page size the pages partition the history: page `p` holds exactly the
      rides at positions `(p-1)*limit` up to `p*limit` of the full newest-first list. */
  lemma PagesPartitionHistory(store: RideController.Store, userId: Option<string>, role: string, status: Option<string>, page: int, limit: int)
    requires page >= 1 && limit >= 1
    ensures
      var all := Matching(store, userId, role, status);
      var h := GetUserRides(store, userId, role, status, page, limit);
      var lo := Skip(page, limit);
      && (h.History? <==> RideController.CastsOptional(userId))
      && (h.History? && lo <= |all| ==> h.rides == all[lo..if lo + limit <= |all| then lo + limit else |all|])
  {
    var lo := Skip(page, limit);
    SkipNonNegative(page, limit);
    var all := Matching(store, userId, role, status);
    var h := GetUserRides(store, userId, role, status, page, limit);
    if h.History? && lo <= |all| {
      assert h.rides == TakeLimit(all[lo..], limit);
      var hi := if lo + limit <= |all| then lo + limit else |all|;
      assert all[lo..][..hi - lo] == all[lo..hi];
    }
  }

  lemma SkipNonNegative(page: int, limit: int)
    requires page >= 1 && limit >= 1
    ensures Skip(page, limit) >= 0
  {
    var k := page - 1;
    assert k >= 0;
    assert k * limit >= 0;
  }

  // ---------------------------------------------------------------- driver statistics

  function TotalFare(r: Ride): int { r.fare.totalFare }

  predicate CompletedSince(r: Ride, since: int)
  {
    r.status == Completed && r.timeline.completedAt.Some? && r.timeline.completedAt.value >= since
  }

  /** `p` is `100 * part / whole` rounded to the nearest integer, halves up. */
  predicate IsRoundedPercent(p: int, part: nat, whole: nat)
  {
    && whole > 0
    && (p as real - 1.0 / 2.0) * whole as real <= 100.0 * part as real
    && 100.0 * part as real < (p as real + 1.0 / 2.0) * whole as real
  }

  lemma {:induction false} ScaleStrict(a: real, b: real, s: real)
    requires a < b && s > 0.0
    ensures a * s < b * s
  {
    assert b * s - a * s == (b - a) * s;
  }

  /** `Math.round((part / whole) * 100)` for `0 < whole` and `part <= whole`. */
  function PercentRounded(part: nat, whole: nat): (p: int)
    requires 0 < whole && part <= whole
    ensures IsRoundedPercent(p, part, whole)
    ensures 0 <= p <= 100
    ensures part == whole ==> p == 100
    ensures part == 0 ==> p == 0
  {
    var x := (part as real / whole as real) * 100.0;
    assert part == whole ==> part as real / whole as real == 1.0;
    assert (part as real / whole as real) * whole as real == part as real;
    assert part as real / whole as real <= 1.0;
    Pricing.RoundInteger(0);
    Pricing.RoundInteger(100);
    Pricing.RoundMonotone(0.0, x);
    Pricing.RoundMonotone(x, 100.0);
    PercentNearest(part, whole, x, Pricing.Round(x));
    Pricing.Round(x)
  }

  lemma PercentNearest(part: nat, whole: nat, x: real, p: int)
    requires whole > 0 && x == (part as real / whole as real) * 100.0
    requires p as real - 1.0 / 2.0 <= x < p as real + 1.0 / 2.0
    ensures IsRoundedPercent(p, part, whole)
  {
    ShareTimesWhole(part as real, whole as real);
    ScaledBounds(x, whole as real, p as real - 1.0 / 2.0, p as real + 1.0 / 2.0, 100.0 * part as real);
  }

  /** The percentage times the whole is a hundred times the part. */
  lemma ShareTimesWhole(a: real, w: real)
    requires w > 0.0
    ensures ((a / w) * 100.0) * w == 100.0 * a
  {
    var q := a / w;
    DivMul(a, w);
    MulAssoc(q, w, 100.0);
  }

  /** Bounds on a value carry over to its multiple by a positive number. */
  lemma ScaledBounds(x: real, w: real, lo: real, hi: real, t: real)
    requires w > 0.0 && lo <= x < hi && x * w == t
    ensures lo * w <= t < hi * w
  {
    Pricing.ScaleMonotone(lo, x, w);
    ScaleStrict(x, hi, w);
  }

  /** Dividing by a positive number and multiplying back gives the number. */
  lemma DivMul(a: real, w: real)
    requires w > 0.0
    ensures (a / w) * w == a
  {
  }

  /** Scaling a quotient and multiplying back commutes. */
  lemma MulAssoc(q: real, w: real, k: real)
    ensures (q * k) * w == (q * w) * k
  {
  }

  /** Dividing by a positive number keeps the order. */
  lemma DivMonotone(a: real, b: real, w: real)
    requires w > 0.0 && a <= b
    ensures a / w <= b / w
  {
    var inv := 1.0 / w;
    assert inv > 0.0;
    assert a / w == a * inv;
    assert b / w == b * inv;
    Pricing.ScaleMonotone(a, b, inv);
  }

  /** `Math.round((accepted / all) * 100)` when some ride was not cancelled, 100 otherwise, as
      written: a driver whose every ride was cancelled reports 100. */
  function AcceptanceRateAsWritten(accepted: nat, all: nat): (rate: int)
    requires accepted <= all
    ensures accepted > 0 ==> IsRoundedPercent(rate, accepted, all)
    ensures accepted == 0 ==> rate == 100
    ensures 0 <= rate <= 100
  {
    if accepted > 0 then PercentRounded(accepted, all) else 100
  }

  /** The guard tests the wrong count: one kept ride in 300 rounds to 0 %, yet 300 cancelled
      rides out of 300 report 100 %. */
  lemma AcceptanceRateAsWrittenNotMonotone()
    ensures AcceptanceRateAsWritten(1, 300) == 0
    ensures AcceptanceRateAsWritten(0, 300) == 100
  {
    assert (1.0 / 300.0) * 100.0 + 1.0 / 2.0 < 1.0;
  }

  /** The intended rate: the rounded share of rides not cancelled, 100 only when the driver
      has no rides at all. */
  function AcceptanceRate(accepted: nat, all: nat): (rate: int)
    requires accepted <= all
    ensures all > 0 ==> IsRoundedPercent(rate, accepted, all)
    ensures all == 0 ==> rate == 100
    ensures 0 <= rate <= 100
    ensures 0 < all && accepted == 0 ==> rate == 0
    ensures 0 < all && accepted == all ==> rate == 100
  {
    if all > 0 then PercentRounded(accepted, all) else 100
  }

  /** The intended rate never decreases as fewer of a fixed number of rides are cancelled. */
  lemma AcceptanceRateMonotone(a1: nat, a2: nat, all: nat)
    requires a1 <= a2 <= all
    ensures AcceptanceRate(a1, all) <= AcceptanceRate(a2, all)
  {
    if all > 0 {
      var x1 := (a1 as real / all as real) * 100.0;
      var x2 := (a2 as real / all as real) * 100.0;
      DivMonotone(a1 as real, a2 as real, all as real);
      Pricing.RoundMonotone(x1, x2);
    }
  }

  /** The top-level `driverRating` property the statistics read: ride documents keep their
      scores under `rating`, so this path is always undefined. */
  function TopLevelDriverRating(r: Ride): Option<int>
  {
    None
  }

  /** Average of the truthy scores, or 5.0 when there are none. */
  function AverageOr5(scores: seq<int>): real
  {
    if |scores| == 0 then 5.0 else Seqs.SumBy(scores, Id) as real / |scores| as real
  }

  function Id(x: int): int { x }

  /** A read score is truthy when it is set and non-zero. */
  predicate IsScored(o: Option<int>) { o.Some? && o.value != 0 }

  function ScoreOrZero(o: Option<int>): int { if o.Some? then o.value else 0 }

  /** `r => r.x` as a filter test and as a map. */
  function ScoredBy(read: Ride -> Option<int>): Ride -> bool { r => IsScored(read(r)) }

  function ScoreBy(read: Ride -> Option<int>): Ride -> int { r => ScoreOrZero(read(r)) }

  /** `.filter(r => r.x).map(r => r.x)`: the truthy scores, in ride order. */
  function Scores(rides: seq<Ride>, read: Ride -> Option<int>): (s: seq<int>)
    ensures |s| <= |rides|
    ensures forall i :: 0 <= i < |s| ==> s[i] != 0
  {
    if |rides| == 0 then []
    else
      var here := read(rides[0]);
      (if IsScored(here) then [here.value] else []) + Scores(rides[1..], read)
  }

  /** The picked scores are exactly the truthy reads, in ride order. */
  lemma {:induction false} ScoresPickTruthy(rides: seq<Ride>, read: Ride -> Option<int>)
    ensures Scores(rides, read) == Seqs.MapBy(Seqs.Filter(rides, ScoredBy(read)), ScoreBy(read))
    decreases |rides|
  {
    if |rides| > 0 {
      ScoresPickTruthy(rides[1..], read);
      if IsScored(read(rides[0])) {
        Seqs.MapCons(rides[0], Seqs.Filter(rides[1..], ScoredBy(read)), ScoreBy(read));
      }
    }
  }

  /** The average rating as written: it reads the undefined top-level path, so it is 5.0
      whatever the riders scored. */
  function AvgRatingAsWritten(completed: seq<Ride>): (avg: real)
    ensures avg == 5.0
  {
    EmptyScores(completed);
    AverageOr5(Scores(completed, TopLevelDriverRating))
  }

  lemma {:induction false} EmptyScores(rides: seq<Ride>)
    ensures Scores(rides, TopLevelDriverRating) == []
    decreases |rides|
  {
    if |rides| > 0 {
      EmptyScores(rides[1..]);
    }
  }

  function DriverRatingOf(r: Ride): Option<int> { r.rating.driverRating }

  /** The intended average: the mean of the riders' scores of the completed rides, 5.0 when
      none was scored. */
  function AvgRating(completed: seq<Ride>): (avg: real)
    requires forall i :: 0 <= i < |completed| ==> ScoreValid(completed[i].rating.driverRating)
    ensures
      var s := Scores(completed, DriverRatingOf);
      && (|s| == 0 ==> avg == 5.0)
      && (|s| > 0 ==> avg * |s| as real == Seqs.SumBy(s, Id) as real)
    ensures 1.0 <= avg <= 5.0
  {
    var s := Scores(completed, DriverRatingOf);
    ScoresInRange(completed);
    if |s| == 0 then 5.0
    else
      MeanBounds(s);
      AverageOr5(s)
  }

  /** The mean of scores between 1 and 5 lies between 1 and 5, and times the count gives the
      sum. */
  lemma MeanBounds(s: seq<int>)
    requires |s| > 0 && forall i :: 0 <= i < |s| ==> 1 <= s[i] <= 5
    ensures 1.0 <= AverageOr5(s) <= 5.0
    ensures AverageOr5(s) * |s| as real == Seqs.SumBy(s, Id) as real
  {
    SumBounds(s);
    DivBetween(Seqs.SumBy(s, Id) as real, |s| as real, 1.0, 5.0);
  }

  /** A quotient lies between the bounds its numerator is scaled between. */
  lemma DivBetween(t: real, n: real, lo: real, hi: real)
    requires n > 0.0 && lo * n <= t <= hi * n
    ensures lo <= t / n <= hi
    ensures (t / n) * n == t
  {
    var q := t / n;
    assert q * n == t;
  }

  lemma {:induction false} ScoresInRange(rides: seq<Ride>)
    requires forall i :: 0 <= i < |rides| ==> ScoreValid(rides[i].rating.driverRating)
    ensures forall i :: 0 <= i < |Scores(rides, DriverRatingOf)| ==> 1 <= Scores(rides, DriverRatingOf)[i] <= 5
    decreases |rides|
  {
    if |rides| > 0 {
      ScoresInRange(rides[1..]);
    }
  }

  lemma {:induction false} SumBounds(s: seq<int>)
    requires forall i :: 0 <= i < |s| ==> 1 <= s[i] <= 5
    ensures |s| <= Seqs.SumBy(s, Id) <= 5 * |s|
    decreases |s|
  {
    if |s| > 0 {
      SumBounds(s[1..]);
    }
  }

  /** A rated ride shows the gap: the rider gave 1, the written average still says 5.0,
      the intended one says 1.0. */
  lemma AvgRatingIgnoresScores(r: Ride)
    requires r.rating.driverRating == Some(1)
    ensures AvgRatingAsWritten([r]) == 5.0
    ensures AvgRating([r]) == 1.0
  {
    assert Scores([r], DriverRatingOf) == [1] by {
      assert [r][1..] == [];
    }
  }

  datatype DriverStats = DriverStats(
    todayEarnings: int, todayRides: nat, weeklyEarnings: int, weeklyRides: nat,
    totalRides: nat, rating: real, acceptanceRate: int)

  datatype StatsReply = Stats(stats: DriverStats) | StatsFailed(status: int, error: string)

  predicate OwnedBy(r: Ride, driverId: Option<string>) { r.driverId == driverId }

  /** The filter tests of the statistics queries. */
  function Owner(driverId: Option<string>): Ride -> bool { r => OwnedBy(r, driverId) }

  function Since(t: int): Ride -> bool { r => CompletedSince(r, t) }

  predicate IsCompleted(r: Ride) { r.status == Completed }

  predicate NotCancelled(r: Ride) { r.status != Cancelled }

  /** `getDriverStats` as written.  The caller supplies local midnight of today and of the day
      a week ago.  A user header that is not an ObjectId fails the first query's cast and
      ends in the handler's 500.  The rating is always 5.0 and a driver whose every ride was
      cancelled gets an acceptance rate of 100. */
  function GetDriverStatsAsWritten(store: RideController.Store, driverId: Option<string>, todayStart: int, weekStart: int): (st: StatsReply)
    ensures st.StatsFailed? <==> !RideController.CastsOptional(driverId)
    ensures st.StatsFailed? ==> st == StatsFailed(500, "Failed to get driver stats")
    ensures st.Stats? ==>
      var mine := Seqs.Filter(store, Owner(driverId));
      var kept := |Seqs.Filter(mine, NotCancelled)|;
      && st.stats.totalRides == |Seqs.Filter(mine, IsCompleted)|
      && st.stats.todayRides == |Seqs.Filter(mine, Since(todayStart))|
      && st.stats.todayEarnings == Seqs.SumBy(Seqs.Filter(mine, Since(todayStart)), TotalFare)
      && st.stats.weeklyRides == |Seqs.Filter(mine, Since(weekStart))|
      && st.stats.weeklyEarnings == Seqs.SumBy(Seqs.Filter(mine, Since(weekStart)), TotalFare)
      && st.stats.rating == 5.0
      && (kept > 0 ==> IsRoundedPercent(st.stats.acceptanceRate, kept, |mine|))
      && (kept == 0 ==> st.stats.acceptanceRate == 100)
  {
    if !RideController.CastsOptional(driverId) then StatsFailed(500, "Failed to get driver stats")
    else
      var mine := Seqs.Filter(store, Owner(driverId));
      var today := Seqs.Filter(mine, Since(todayStart));
      var week := Seqs.Filter(mine, Since(weekStart));
      var done := Seqs.Filter(mine, IsCompleted);
      var kept := Seqs.Filter(mine, NotCancelled);
      Stats(DriverStats(Seqs.SumBy(today, TotalFare), |today|, Seqs.SumBy(week, TotalFare), |week|,
                        |done|, AvgRatingAsWritten(done), AcceptanceRateAsWritten(|kept|, |mine|)))
  }

  /** `getDriverStats` with the two corrections above: the mean of the riders' scores, and a
      rate of 100 only for a driver with no rides. */
  function GetDriverStats(store: RideController.Store, driverId: Option<string>, todayStart: int, weekStart: int): (st: StatsReply)
    requires forall i :: 0 <= i < |store| ==> ScoreValid(store[i].rating.driverRating)
    ensures st.StatsFailed? <==> !RideController.CastsOptional(driverId)
    ensures st.StatsFailed? ==> st == StatsFailed(500, "Failed to get driver stats")
    ensures st.Stats? ==>
      var mine := Seqs.Filter(store, Owner(driverId));
      var done := Seqs.Filter(mine, IsCompleted);
      var kept := |Seqs.Filter(mine, NotCancelled)|;
      && st.stats.totalRides == |done|
      && st.stats.todayRides == |Seqs.Filter(mine, Since(todayStart))|
      && st.stats.todayEarnings == Seqs.SumBy(Seqs.Filter(mine, Since(todayStart)), TotalFare)
      && st.stats.weeklyRides == |Seqs.Filter(mine, Since(weekStart))|
      && st.stats.weeklyEarnings == Seqs.SumBy(Seqs.Filter(mine, Since(weekStart)), TotalFare)
      && st.stats.rating == AvgRating(done)
      && (|mine| > 0 ==> IsRoundedPercent(st.stats.acceptanceRate, kept, |mine|))
      && (|mine| == 0 ==> st.stats.acceptanceRate == 100)
  {
    var mine := Seqs.Filter(store, Owner(driverId));
    var done := Seqs.Filter(mine, IsCompleted);
    var kept := Seqs.Filter(mine, NotCancelled);
    assert forall i :: 0 <= i < |done| ==> ScoreValid(done[i].rating.driverRating) by {
      forall i | 0 <= i < |done| ensures ScoreValid(done[i].rating.driverRating) {
        assert done[i] in mine;
        assert done[i] in store;
      }
    }
    match GetDriverStatsAsWritten(store, driverId, todayStart, weekStart)
    case Stats(w) => Stats(w.(rating := AvgRating(done), acceptanceRate := AcceptanceRate(|kept|, |mine|)))
    case failed => failed
  }

  /** The written and the corrected statistics differ only in the rating and the rate, and the
      rates agree as soon as one of the driver's rides was not cancelled. */
  lemma StatsVersionsAgreeOnCounts(store: RideController.Store, driverId: Option<string>, todayStart: int, weekStart: int)
    requires forall i :: 0 <= i < |store| ==> ScoreValid(store[i].rating.driverRating)
    ensures
      var a := GetDriverStatsAsWritten(store, driverId, todayStart, weekStart);
      var c := GetDriverStats(store, driverId, todayStart, weekStart);
      && a.Stats? == c.Stats?
      && (a.StatsFailed? ==> c == a)
      && (a.Stats? ==> c.stats.(rating := a.stats.rating, acceptanceRate := a.stats.acceptanceRate) == a.stats)
      && (a.Stats? && |Seqs.Filter(Seqs.Filter(store, Owner(driverId)), NotCancelled)| > 0 ==> c.stats.acceptanceRate == a.stats.acceptanceRate)
  {
  }

  /** The week contains today: with the week's midnight no later than today's and fares not
      negative, today's rides and earnings never exceed the week's, nor the week's rides the
      completed total. */
  lemma {:induction false} TodayWithinWeek(store: RideController.Store, driverId: Option<string>, todayStart: int, weekStart: int)
    requires weekStart <= todayStart
    requires forall i :: 0 <= i < |store| ==> store[i].fare.totalFare >= 0
    ensures
      var st := GetDriverStatsAsWritten(store, driverId, todayStart, weekStart);
      st.Stats? ==>
      && st.stats.todayRides <= st.stats.weeklyRides <= st.stats.totalRides
      && 0 <= st.stats.todayEarnings <= st.stats.weeklyEarnings
  {
    var mine := Seqs.Filter(store, Owner(driverId));
    assert forall i :: 0 <= i < |mine| ==> TotalFare(mine[i]) >= 0 by {
      forall i | 0 <= i < |mine| ensures TotalFare(mine[i]) >= 0 {
        assert mine[i] in store;
      }
    }
    Seqs.FilterWeaker(mine, Since(todayStart), Since(weekStart), TotalFare);
    Seqs.FilterWeaker(mine, Since(weekStart), IsCompleted, TotalFare);
    var today := Seqs.Filter(mine, Since(todayStart));
    assert forall i :: 0 <= i < |today| ==> TotalFare(today[i]) >= 0 by {
      forall i | 0 <= i < |today| ensures TotalFare(today[i]) >= 0 {
        assert today[i] in mine;
      }
    }
    Seqs.SumNonNegative(today, TotalFare);
  }

  /** Completed earnings are never negative when fares are not. */
  lemma EarningsNonNegative(rides: seq<Ride>)
    requires forall i :: 0 <= i < |rides| ==> rides[i].fare.totalFare >= 0
    ensures Seqs.SumBy(rides, TotalFare) >= 0
  {
    Seqs.SumNonNegative(rides, TotalFare);
  }
}
