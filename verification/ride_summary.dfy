/** What the rider's pages compute from the ride list the server sends: the status colour of a
    ride card, the number of completed rides and the total spent on them.  The pages read the
    rides as JSON; `View` is the part of a ride's JSON those computations read. */
module RideSummary {
  import opened Wrappers
  import opened Json
  import opened RideModel
  import Seqs

  /** The fields of a ride's JSON the pages read: id, status, fare total and creation time. */
  function View(r: Ride): (j: Json)
    ensures j.JObj? && Get(j.fields, "status") == Some(JStr(StatusName(r.status)))
    ensures Get(j.fields, "_id") == Some(JStr(r.id))
  {
    JObj(map["_id" := JStr(r.id), "status" := JStr(StatusName(r.status)),
             "fare" := JObj(map["totalFare" := JNum(r.fare.totalFare)]), "createdAt" := JNum(r.createdAt)])
  }

  function Views(rides: seq<Ride>): (js: seq<Json>)
    ensures |js| == |rides|
    ensures forall i :: 0 <= i < |rides| ==> js[i] == View(rides[i])
  {
    if |rides| == 0 then [] else [View(rides[0])] + Views(rides[1..])
  }

  const Gray := "bg-gray-100 text-gray-800"

  /** `getStatusColor`, the same table on the history page and the dashboard: five statuses
      are listed (`requested` with the default's own colours) and anything else is gray. */
  function StatusColor(status: string): (c: string)
    ensures status == "completed" ==> c == "bg-green-100 text-green-800"
    ensures status == "cancelled" ==> c == "bg-red-100 text-red-800"
    ensures status == "in_progress" ==> c == "bg-blue-100 text-blue-800"
    ensures status == "accepted" ==> c == "bg-yellow-100 text-yellow-800"
    ensures status !in {"completed", "cancelled", "in_progress", "accepted"} ==> c == Gray
  {
    if status == "completed" then "bg-green-100 text-green-800"
    else if status == "cancelled" then "bg-red-100 text-red-800"
    else if status == "in_progress" then "bg-blue-100 text-blue-800"
    else if status == "accepted" then "bg-yellow-100 text-yellow-800"
    else if status == "requested" then "bg-gray-100 text-gray-800"
    else Gray
  }

  /** A ride card is coloured exactly for four statuses of the model; a requested, arriving or
      arrived ride looks the same as an unknown one. */
  lemma ColouredStatuses(s: Status)
    ensures StatusColor(StatusName(s)) != Gray <==> s in {Completed, Cancelled, InProgress, Accepted}
  {
    match s {
      case Requested =>
      case Accepted =>
      case Arriving =>
      case Arrived =>
      case InProgress =>
      case Completed =>
      case Cancelled =>
    }
  }

  /** `r.status === 'completed'`. */
  predicate IsCompleted(r: Json)
  {
    Member(Some(r), "status") == Some(JStr("completed"))
  }

  /** `r.fare?.totalFare || 0`. */
  function FareOf(r: Json): (n: int)
    ensures Member(Member(Some(r), "fare"), "totalFare").None? ==> n == 0
  {
    match Member(Member(Some(r), "fare"), "totalFare")
    case Some(JNum(n)) => n
    case _ => 0
  }

  /** The "Total Spent" figure. */
  function TotalSpent(rides: seq<Json>): int
  {
    Seqs.SumBy(Seqs.Filter(rides, IsCompleted), FareOf)
  }

  /** The "Completed" figure. */
  function CompletedCount(rides: seq<Json>): nat
  {
    |Seqs.Filter(rides, IsCompleted)|
  }

  predicate Completed?(r: Ride) { r.status == Completed }

  function TotalFare(r: Ride): int { r.fare.totalFare }

  /** A ride's JSON reads as completed exactly when the ride is, and carries its fare total. */
  lemma ViewAgrees(r: Ride)
    ensures IsCompleted(View(r)) <==> Completed?(r)
    ensures FareOf(View(r)) == TotalFare(r)
  {
    if IsCompleted(View(r)) {
      ParseStatusName(r.status);
      assert StatusName(r.status) == "completed";
    }
  }

  /** The completed rides' JSON is the JSON of the completed rides. */
  lemma {:induction false} FilterViews(rides: seq<Ride>)
    ensures Seqs.Filter(Views(rides), IsCompleted) == Views(Seqs.Filter(rides, Completed?))
    decreases |rides|
  {
    if |rides| > 0 {
      var r := rides[0];
      ViewAgrees(r);
      FilterViews(rides[1..]);
      assert Views(rides)[1..] == Views(rides[1..]);
      if Completed?(r) {
        assert Seqs.Filter(rides, Completed?) == [r] + Seqs.Filter(rides[1..], Completed?);
      } else {
        assert Seqs.Filter(rides, Completed?) == Seqs.Filter(rides[1..], Completed?);
      }
    }
  }

  lemma {:induction false} SumViews(rides: seq<Ride>)
    ensures Seqs.SumBy(Views(rides), FareOf) == Seqs.SumBy(rides, TotalFare)
    decreases |rides|
  {
    if |rides| > 0 {
      ViewAgrees(rides[0]);
      SumViews(rides[1..]);
      assert Views(rides)[1..] == Views(rides[1..]);
    }
  }

  /** On rides as the server sends them, the figures are the number of completed rides and
      the sum of their fare totals. */
  lemma SummaryMatchesServer(rides: seq<Ride>)
    ensures CompletedCount(Views(rides)) == |Seqs.Filter(rides, Completed?)|
    ensures TotalSpent(Views(rides)) == Seqs.SumBy(Seqs.Filter(rides, Completed?), TotalFare)
  {
    FilterViews(rides);
    SumViews(Seqs.Filter(rides, Completed?));
  }

  /** Both figures add up over a split of the list, so a list cut into pages sums page by page. */
  lemma SummaryAdds(a: seq<Json>, b: seq<Json>)
    ensures CompletedCount(a + b) == CompletedCount(a) + CompletedCount(b)
    ensures TotalSpent(a + b) == TotalSpent(a) + TotalSpent(b)
  {
    Seqs.FilterAppend(a, b, IsCompleted);
    Seqs.SumAppend(Seqs.Filter(a, IsCompleted), Seqs.Filter(b, IsCompleted), FareOf);
  }
}
