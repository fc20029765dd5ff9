/** The ride-history page: the query its filter adds, the reading of the reply, and the
    grouping of rides by day.  The day a ride falls on (`toLocaleDateString` of its creation
    time) is the parameter `dayOf`. */
module RideHistory {
  import opened Wrappers
  import opened Json
  import opened RideModel
  import Seqs
  import RideQueries
  import RideController
  import RideSummary
  import ObjectId

  /** The filter buttons. */
  const Filters: seq<string> := ["all", "completed", "cancelled"]

  /** The query string the filter adds to `/rides/history`. */
  function FilterQuery(filter: string): (q: string)
    ensures filter == "all" <==> q == ""
  {
    if filter != "all" then "?status=" + filter else ""
  }

  const StatusKey := "?status="

  /** The `status` parameter the server reads from such a query string (the page's filters
      contain no `&`, `#` or `%`, so no further splitting or decoding applies). */
  function StatusParam(q: string): Option<string>
  {
    if |q| >= |StatusKey| && q[..|StatusKey|] == StatusKey then Some(q[|StatusKey|..]) else None
  }

  /** The server sees no status for `all` and the filter itself otherwise. */
  lemma FilterQueryRoundTrip(filter: string)
    ensures StatusParam(FilterQuery(filter)) == if filter == "all" then None else Some(filter)
  {
    if filter != "all" {
      assert FilterQuery(filter)[..|StatusKey|] == StatusKey;
      assert FilterQuery(filter)[|StatusKey|..] == filter;
    }
  }

  /** Every ride the `completed` or `cancelled` filter lists has that status; the page asks
      without a role, so these are the rides the user took as a rider. */
  lemma FilteredHistoryHasStatus(store: RideController.Store, userId: string, filter: string, r: Ride)
    requires filter in Filters[1..]
    requires r in RideQueries.Matching(store, Some(userId), "rider", StatusParam(FilterQuery(filter)))
    ensures StatusName(r.status) == filter && r.riderId == userId
  {
    FilterQueryRoundTrip(filter);
  }

  /** `data.rides || []`. */
  function RidesOf(reply: Option<Json>): (rides: seq<Json>)
    ensures Member(reply, "rides").Some? && Member(reply, "rides").value.JArr? ==> rides == Member(reply, "rides").value.items
    ensures !Truthy(Member(reply, "rides")) ==> rides == []
  {
    match Member(reply, "rides")
    case Some(JArr(items)) => items
    case _ => []
  }

  /** The page asks for the first page at the server's default size. */
  const DefaultLimit := 10

  /** The figures under the list count only what the reply holds: at most the ten newest
      matching rides, whatever the user's full history. */
  lemma SummaryCoversFirstPage(store: RideController.Store, userId: string, filter: string)
    ensures
      var h := RideQueries.GetUserRides(store, Some(userId), "rider", StatusParam(FilterQuery(filter)), 1, DefaultLimit);
      var all := RideQueries.Matching(store, Some(userId), "rider", StatusParam(FilterQuery(filter)));
      && (h.History? <==> ObjectId.IsObjectId(userId))
      && (h.History? ==> |h.rides| <= DefaultLimit)
      && (h.History? ==> h.rides == all[..|h.rides|])
      && (h.History? ==>
            RideSummary.TotalSpent(RideSummary.Views(h.rides))
              == Seqs.SumBy(Seqs.Filter(h.rides, RideSummary.Completed?), RideSummary.TotalFare))
  {
    var h := RideQueries.GetUserRides(store, Some(userId), "rider", StatusParam(FilterQuery(filter)), 1, DefaultLimit);
    var all := RideQueries.Matching(store, Some(userId), "rider", StatusParam(FilterQuery(filter)));
    assert all[0..] == all;
    if h.History? {
      RideSummary.SummaryMatchesServer(h.rides);
    }
  }

  // ---------------------------------------------------------------- grouping by day

  datatype Group = Group(day: string, rides: seq<Json>)

  /** The index of the group for `day`, if there is one. */
  function GroupIndex(groups: seq<Group>, day: string): (k: Option<nat>)
    ensures k.Some? ==> k.value < |groups| && groups[k.value].day == day
    ensures k.None? ==> forall i :: 0 <= i < |groups| ==> groups[i].day != day
  {
    Seqs.FirstWhere(groups, (g: Group) => g.day == day)
  }

  /** One step of the `reduce`: the ride goes to the end of its day's group, which is created
      at the end when the day is new. */
  function AddRide(groups: seq<Group>, day: string, ride: Json): seq<Group>
  {
    match GroupIndex(groups, day)
    case Some(i) => groups[i := Group(day, groups[i].rides + [ride])]
    case None => groups + [Group(day, [ride])]
  }

  /** `groupedRides`, built from left to right as `reduce` does. */
  function GroupByDay(rides: seq<Json>, dayOf: Json -> string): seq<Group>
    decreases |rides|
  {
    if |rides| == 0 then []
    else AddRide(GroupByDay(rides[..|rides| - 1], dayOf), dayOf(rides[|rides| - 1]), rides[|rides| - 1])
  }

  /** No two groups share a day. */
  predicate DistinctDays(groups: seq<Group>)
  {
    forall i, j :: 0 <= i < j < |groups| ==> groups[i].day != groups[j].day
  }

  function Days(groups: seq<Group>): set<string>
  {
    set i | 0 <= i < |groups| :: groups[i].day
  }

  function RideDays(rides: seq<Json>, dayOf: Json -> string): set<string>
  {
    set r | r in rides :: dayOf(r)
  }

  /** The rides of one day, in list order. */
  function OnDay(rides: seq<Json>, dayOf: Json -> string, day: string): seq<Json>
  {
    Seqs.Filter(rides, (r: Json) => dayOf(r) == day)
  }

  /** What `groups[day] || []` reads. */
  function Lookup(groups: seq<Group>, day: string): seq<Json>
  {
    match GroupIndex(groups, day)
    case Some(i) => groups[i].rides
    case None => []
  }

  /** A lookup depends only on the days of the groups, in order. */
  lemma SameDaysSameIndex(gs: seq<Group>, gs': seq<Group>, d: string)
    requires |gs| <= |gs'|
    requires forall i :: 0 <= i < |gs| ==> gs'[i].day == gs[i].day
    requires forall i :: |gs| <= i < |gs'| ==> gs'[i].day != d
    ensures GroupIndex(gs', d) == GroupIndex(gs, d)
  {
    var a := GroupIndex(gs', d);
    var b := GroupIndex(gs, d);
    if b.Some? {
      assert gs'[b.value].day == d;
      assert a.Some?;
    }
  }

  /** Adding a ride appends it to its day's lookup and leaves every other day's as it was. */
  lemma AddRideLookup(groups: seq<Group>, day: string, ride: Json, d: string)
    ensures Lookup(AddRide(groups, day, ride), d) == Lookup(groups, d) + (if d == day then [ride] else [])
  {
    var gs' := AddRide(groups, day, ride);
    match GroupIndex(groups, day) {
      case Some(k) =>
        assert gs' == groups[k := Group(day, groups[k].rides + [ride])];
        SameDaysSameIndex(groups, gs', d);
      case None =>
        assert gs' == groups + [Group(day, [ride])];
        if d != day {
          SameDaysSameIndex(groups, gs', d);
        } else {
          assert GroupIndex(gs', d) == Some(|groups|) by {
            var a := GroupIndex(gs', d);
            assert gs'[|groups|].day == d;
            assert a.Some?;
          }
        }
    }
  }

  /** Adding a ride adds its day to the days, without repeating one. */
  lemma AddRideDays(groups: seq<Group>, day: string, ride: Json)
    ensures Days(AddRide(groups, day, ride)) == Days(groups) + {day}
    ensures DistinctDays(groups) ==> DistinctDays(AddRide(groups, day, ride))
  {
    var gs' := AddRide(groups, day, ride);
    match GroupIndex(groups, day) {
      case Some(k) =>
        assert gs' == groups[k := Group(day, groups[k].rides + [ride])];
        assert forall i :: 0 <= i < |groups| ==> gs'[i].day == groups[i].day;
        assert Days(gs') == Days(groups);
      case None =>
        assert gs' == groups + [Group(day, [ride])];
        assert forall i :: 0 <= i < |groups| ==> gs'[i] == groups[i];
        assert gs'[|groups|].day == day;
        assert Days(gs') == Days(groups) + {day};
    }
  }

  /** Grouping is exact: each day's group holds exactly that day's rides in list order, so
      every ride is in its own day's group and in no other. */
  lemma {:induction false} GroupsAreDays(rides: seq<Json>, dayOf: Json -> string, d: string)
    ensures Lookup(GroupByDay(rides, dayOf), d) == OnDay(rides, dayOf, d)
    decreases |rides|
  {
    if |rides| > 0 {
      var front := rides[..|rides| - 1];
      var last := rides[|rides| - 1];
      assert front + [last] == rides;
      GroupsAreDays(front, dayOf, d);
      AddRideLookup(GroupByDay(front, dayOf), dayOf(last), last, d);
      Seqs.FilterAppend(front, [last], (r: Json) => dayOf(r) == d);
    }
  }

  /** There is one group per day that occurs, and no two share a day. */
  lemma {:induction false} OneGroupPerDay(rides: seq<Json>, dayOf: Json -> string)
    ensures DistinctDays(GroupByDay(rides, dayOf))
    ensures Days(GroupByDay(rides, dayOf)) == RideDays(rides, dayOf)
    decreases |rides|
  {
    if |rides| > 0 {
      var front := rides[..|rides| - 1];
      var last := rides[|rides| - 1];
      assert front + [last] == rides;
      OneGroupPerDay(front, dayOf);
      AddRideDays(GroupByDay(front, dayOf), dayOf(last), last);
      assert RideDays(rides, dayOf) == RideDays(front, dayOf) + {dayOf(last)} by {
        forall r | r in rides ensures r in front || r == last {
          var k :| 0 <= k < |rides| && rides[k] == r;
          if k < |rides| - 1 { assert front[k] == r; }
        }
      }
    } else {
      assert RideDays(rides, dayOf) == {};
    }
  }

  /** The total ride count is the sum of the group sizes: nothing is lost or counted twice. */
  function GroupSizes(groups: seq<Group>): nat
  {
    if |groups| == 0 then 0 else |groups[0].rides| + GroupSizes(groups[1..])
  }

  lemma {:induction false} GroupSizesAppend(a: seq<Group>, b: seq<Group>)
    ensures GroupSizes(a + b) == GroupSizes(a) + GroupSizes(b)
    decreases |a|
  {
    if |a| > 0 {
      assert (a + b)[0] == a[0] && (a + b)[1..] == a[1..] + b;
      GroupSizesAppend(a[1..], b);
    } else {
      assert a + b == b;
    }
  }

  lemma {:induction false} GroupSizesUpdate(gs: seq<Group>, k: nat, g: Group)
    requires k < |gs|
    ensures GroupSizes(gs[k := g]) == GroupSizes(gs) - |gs[k].rides| + |g.rides|
    decreases |gs|
  {
    if k > 0 {
      assert gs[k := g][1..] == gs[1..][k - 1 := g];
      GroupSizesUpdate(gs[1..], k - 1, g);
    } else {
      assert gs[k := g][1..] == gs[1..];
    }
  }

  lemma {:induction false} GroupsCountEveryRide(rides: seq<Json>, dayOf: Json -> string)
    ensures GroupSizes(GroupByDay(rides, dayOf)) == |rides|
    decreases |rides|
  {
    if |rides| > 0 {
      var front := rides[..|rides| - 1];
      var last := rides[|rides| - 1];
      GroupsCountEveryRide(front, dayOf);
      var gs := GroupByDay(front, dayOf);
      match GroupIndex(gs, dayOf(last)) {
        case Some(k) =>
          GroupSizesUpdate(gs, k, Group(dayOf(last), gs[k].rides + [last]));
        case None =>
          GroupSizesAppend(gs, [Group(dayOf(last), [last])]);
          assert [Group(dayOf(last), [last])][1..] == [];
      }
    }
  }
}
