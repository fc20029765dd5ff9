/** The rider's home page: the three most recent rides with their total, and the banner for a
    ride in progress.  The replies are modelled as the JSON the ride service sends. */
module RiderDashboard {
  import opened Wrappers
  import opened Json
  import opened RideModel
  import Seqs
  import RideController
  import RideQueries
  import RideSummary
  import RideHistory
  import ObjectId

  const RecentLimit := 3

  /** The reply of `/rides/history?limit=3`, asked without a role, for the user id the gateway
      puts in the header. */
  function RecentReply(store: RideController.Store, userId: string): (j: Json)
  {
    var h := RideQueries.GetUserRides(store, Some(userId), "rider", None, 1, RecentLimit);
    match h
    case History(rides, _) => JObj(map["rides" := JArr(RideSummary.Views(rides))])
    case HistoryFailed(_, e) => JObj(map["error" := JStr(e)])
  }

  /** The recent rides are the user's three newest rides as a rider, and the "Total Spent"
      figure sums the fares of the completed ones among them.  An id that is not an ObjectId
      gets the error reply, and the list is empty. */
  lemma RecentRidesAreNewest(store: RideController.Store, userId: string)
    ensures
      var all := RideQueries.Matching(store, Some(userId), "rider", None);
      var shown := RideHistory.RidesOf(Some(RecentReply(store, userId)));
      var n := if |all| < RecentLimit then |all| else RecentLimit;
      && (ObjectId.IsObjectId(userId) ==> shown == RideSummary.Views(all[..n]))
      && (ObjectId.IsObjectId(userId) ==> RideSummary.TotalSpent(shown) == Seqs.SumBy(Seqs.Filter(all[..n], RideSummary.Completed?), RideSummary.TotalFare))
      && (!ObjectId.IsObjectId(userId) ==> shown == [])
  {
    var all := RideQueries.Matching(store, Some(userId), "rider", None);
    assert all[0..] == all;
    var n := if |all| < RecentLimit then |all| else RecentLimit;
    assert RideQueries.TakeLimit(all, RecentLimit) == all[..n];
    RideSummary.SummaryMatchesServer(all[..n]);
  }

  /** The reply of `/rides/active`, asked without a role: the rider's active rides, newest
      first, under the key `rides`, or the error. */
  function ActiveReply(store: RideController.Store, userId: string): (j: Json)
    ensures j.JObj? && "ride" !in j.fields
  {
    match RideQueries.GetActiveRides(store, Some(userId), "rider")
    case Active(rides) => JObj(map["rides" := JArr(RideSummary.Views(rides))])
    case ActiveFailed(_, e) => JObj(map["error" := JStr(e)])
  }

  /** `checkActiveRide` as written: the banner's ride is `data.ride` when truthy. */
  function ActiveRideAsWritten(reply: Option<Json>): (r: Option<Json>)
    ensures r.Some? <==> Truthy(Member(reply, "ride"))
  {
    if Truthy(Member(reply, "ride")) then Member(reply, "ride") else None
  }

  /** The banner never appears: the reply has no `ride` key, even for a rider whose ride is
      waiting for a driver. */
  lemma ActiveBannerNeverShownAsWritten(store: RideController.Store, userId: string)
    ensures ActiveRideAsWritten(Some(ActiveReply(store, userId))).None?
  {
  }

  /** A concrete case: one requested ride, and still no banner. */
  lemma RequestedRideHiddenAsWritten(r: Ride)
    requires r.status == Requested && ObjectId.IsObjectId(r.riderId)
    ensures RideQueries.GetActiveRides([r], Some(r.riderId), "rider") == RideQueries.Active([r])
    ensures ActiveRideAsWritten(Some(ActiveReply([r], r.riderId))).None?
  {
    var a := RideQueries.GetActiveRides([r], Some(r.riderId), "rider").rides;
    assert r in a;
    assert forall x :: x in a ==> x == r;
    assert |a| == 1 by {
      var m := Seqs.Filter([r], (x: Ride) => RideQueries.ActiveFor(x, Some(r.riderId), "rider"));
      assert m == [r];
      assert multiset(a) == multiset(m);
    }
  }

  /** The banner's ride read from the key the server uses: the first, and so newest, of
      `rides`. */
  function ActiveRide(reply: Option<Json>): (r: Option<Json>)
    ensures r.Some? <==> Member(reply, "rides").Some? && Member(reply, "rides").value.JArr?
                         && |Member(reply, "rides").value.items| > 0
    ensures r.Some? ==> r.value == Member(reply, "rides").value.items[0]
  {
    match Member(reply, "rides")
    case Some(JArr(items)) => if |items| > 0 then Some(items[0]) else None
    case _ => None
  }

  /** Read this way, the banner shows exactly when the rider has an active ride, and it links
      to the newest one, whose status is one of the active ones.  For an id that is not an
      ObjectId the reply is the error and no banner shows. */
  lemma ActiveBannerFollowsServer(store: RideController.Store, userId: string)
    ensures
      var a := RideQueries.GetActiveRides(store, Some(userId), "rider");
      var shown := ActiveRide(Some(ActiveReply(store, userId)));
      && (a.ActiveFailed? <==> !ObjectId.IsObjectId(userId))
      && (a.ActiveFailed? ==> shown.None?)
      && (a.Active? ==> (shown.Some? <==> |a.rides| > 0))
      && (a.Active? && shown.Some? ==>
            && shown.value == RideSummary.View(a.rides[0])
            && Get(shown.value.fields, "_id") == Some(JStr(a.rides[0].id))
            && (forall i :: 0 <= i < |a.rides| ==> a.rides[i].createdAt <= a.rides[0].createdAt)
            && a.rides[0].status in RideQueries.RiderActive
            && a.rides[0].riderId == userId)
  {
    var a := RideQueries.GetActiveRides(store, Some(userId), "rider");
    if a.Active? && |a.rides| > 0 {
      assert a.rides[0] in a.rides;
    }
  }
}
