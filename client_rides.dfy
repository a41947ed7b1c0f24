/** The ride records the browser client receives from the ride endpoints, and the
    list operations its ride pages share: the future-only filter, the sort by
    pickup time, the "own ride" test, the price labels and the rider count.
    Instants are integers (milliseconds); Date parsing and locale formatting are
    not modelled. */
module ClientRides {
  import opened Common
  import Models

  /** One entry of a ride's `riders` list, as the client sees it. */
  datatype RiderInfo = RiderInfo(userId: int, name: string, comment: Option<string>)

  /** A ride as the client holds it; None marks a field that is null or absent. */
  datatype ClientRide = ClientRide(
    id: int,
    driverId: Option<int>,
    pickupAddress: string,
    destinationAddress: string,
    pickupTime: int,
    maxRiders: int,
    availableSeats: Option<int>,
    priceOption: string,
    driverName: Option<string>,
    riders: Option<seq<RiderInfo>>)

  // ---------------------------------------------------------------- the future-only filter

  /** `new Date(ride.pickup_time) > now`. */
  predicate IsFuture(r: ClientRide, now: int)
  {
    r.pickupTime > now
  }

  /** `rides.filter((ride) => new Date(ride.pickup_time) > now)`. */
  function FutureRides(rides: seq<ClientRide>, now: int): (r: seq<ClientRide>)
    ensures forall x :: x in r <==> x in rides && x.pickupTime > now
    ensures forall x :: multiset(r)[x] == if x.pickupTime > now then multiset(rides)[x] else 0
  {
    Filter(rides, x => IsFuture(x, now))
  }

  // ---------------------------------------------------------------- sorting

  /** Ascending by pickup time, the order of a comparator `a.time - b.time`. */
  predicate SortedByPickup(s: seq<ClientRide>)
  {
    forall i, j :: 0 <= i < j < |s| ==> s[i].pickupTime <= s[j].pickupTime
  }

  /** Array.prototype.sort with the pickup-time comparator, in place (an
      insertion sort: the source fixes the order, not the algorithm). */
  method SortByPickup(a: array<ClientRide>)
    modifies a
    ensures SortedByPickup(a[..])
    ensures multiset(a[..]) == multiset(old(a[..]))
  {
    var i := 0;
    while i < a.Length
      invariant 0 <= i <= a.Length
      invariant forall p, q :: 0 <= p < q < i ==> a[p].pickupTime <= a[q].pickupTime
      invariant multiset(a[..]) == multiset(old(a[..]))
    {
      InsertLast(a, i);
      i := i + 1;
    }
  }

  /** Moves a[i] down into the sorted a[..i], leaving a[..i + 1] sorted. */
  method InsertLast(a: array<ClientRide>, i: int)
    requires 0 <= i < a.Length
    requires forall p, q :: 0 <= p < q < i ==> a[p].pickupTime <= a[q].pickupTime
    modifies a
    ensures forall p, q :: 0 <= p < q <= i ==> a[p].pickupTime <= a[q].pickupTime
    ensures multiset(a[..]) == multiset(old(a[..]))
  {
    var j := i;
    while j > 0 && a[j - 1].pickupTime > a[j].pickupTime
      invariant 0 <= j <= i
      invariant forall p, q :: 0 <= p < q <= i && p != j && q != j ==> a[p].pickupTime <= a[q].pickupTime
      invariant forall q :: j < q <= i ==> a[j].pickupTime <= a[q].pickupTime
      invariant multiset(a[..]) == multiset(old(a[..]))
    {
      Swap(a, j - 1, j);
      j := j - 1;
    }
  }

  method Swap(a: array<ClientRide>, i: int, j: int)
    requires 0 <= i < a.Length && 0 <= j < a.Length
    modifies a
    ensures a[i] == old(a[j]) && a[j] == old(a[i])
    ensures forall k :: 0 <= k < a.Length && k != i && k != j ==> a[k] == old(a[k])
    ensures multiset(a[..]) == multiset(old(a[..]))
  {
    a[i], a[j] := a[j], a[i];
  }

  /** The sorted copy of a list: what `list.sort(...)` leaves in `list`. */
  method SortedCopy(s: seq<ClientRide>) returns (r: seq<ClientRide>)
    ensures SortedByPickup(r)
    ensures multiset(r) == multiset(s)
  {
    var a := new ClientRide[|s|](i requires 0 <= i < |s| => s[i]);
    assert a[..] == s;
    SortByPickup(a);
    r := a[..];
  }

  // ---------------------------------------------------------------- ownership and display

  /** isOwnRide: a signed-in user (a truthy id) is the ride's driver, or the ride
      has no driver and that user is its only rider, the one who requested it.
      The comparison `driver_id === currentUserId` puts a driver-profile id next
      to a user id; the model keeps the two as plain integers, as the client does. */
  predicate IsOwnRide(r: ClientRide, currentUserId: Option<int>)
  {
    Truthy(currentUserId)
    && (r.driverId == currentUserId
        || (!Truthy(r.driverId) && r.riders.Some? && |r.riders.value| == 1
            && r.riders.value[0].userId == currentUserId.value))
  }

  /** A ride is the own ride of at most one user, and nobody owns a ride while
      signed out; a rider request is owned exactly by its single rider. */
  lemma OwnRideHasOneOwner(r: ClientRide, u: int, v: int)
    ensures !IsOwnRide(r, None) && !IsOwnRide(r, Some(0))
    ensures IsOwnRide(r, Some(u)) && IsOwnRide(r, Some(v)) ==> u == v
    ensures r.driverId.None? && r.riders == Some([RiderInfo(u, "", None)])
      ==> (IsOwnRide(r, Some(v)) <==> v == u && u != 0)
  {
  }

  /** formatCost: the three price options, recognised in any case, get their
      labels; anything else is shown as it is. */
  function FormatCost(priceOption: string): (shown: string)
    ensures shown == priceOption || shown == "Free" || shown == "Split Gas" || shown == "Gas + Fee"
  {
    var key := Lower(priceOption);
    if key == "free" then "Free"
    else if key == "gas" then "Split Gas"
    else if key == "gas with fee" then "Gas + Fee"
    else priceOption
  }

  /** Every label is a fixed point, so formatting twice is formatting once. */
  lemma {:induction false} FormatCostIdempotent(p: string)
    ensures FormatCost(FormatCost(p)) == FormatCost(p)
  {
    if FormatCost(p) != p {
      LabelsAreFixed();
    }
  }

  /** Each label formats to itself: "Free" lower-cases to its own key, and the
      other two are nine characters long, the length of no key. */
  lemma LabelsAreFixed()
    ensures FormatCost("Free") == "Free"
    ensures FormatCost("Split Gas") == "Split Gas"
    ensures FormatCost("Gas + Fee") == "Gas + Fee"
  {
    FreeIsFixed();
    NineLettersFixed("Split Gas");
    NineLettersFixed("Gas + Fee");
  }

  lemma FreeIsFixed()
    ensures FormatCost("Free") == "Free"
  {
    LowerFree();
  }

  lemma NineLettersFixed(text: string)
    requires |text| == 9
    ensures FormatCost(text) == text
  {
    var key := Lower(text);
    assert |key| == 9;
    assert |"free"| == 4 && |"gas"| == 3 && |"gas with fee"| == 12;
  }

  lemma LowerFree()
    ensures Lower("Free") == "free"
  {
    var l := Lower("Free");
    assert l[0] == 'f';
  }

  /** Only the lower-cased option decides the label of the three known options:
      "FREE", "Free" and "free" are all shown as Free. */
  lemma FormatCostIgnoresCase(p: string, q: string)
    requires Lower(p) == Lower(q) && Lower(p) in ["free", "gas", "gas with fee"]
    ensures FormatCost(p) == FormatCost(q)
  {
  }

  /** The card's rider count: `max_riders - available_seats`, or 0 when the
      server sent no seat count. */
  function RiderCount(r: ClientRide): (n: int)
    ensures r.availableSeats.None? ==> n == 0
    ensures r.availableSeats.Some? ==> n + r.availableSeats.value == r.maxRiders
  {
    if r.availableSeats.Some? then r.maxRiders - r.availableSeats.value else 0
  }

  /** With the server's seat count, max_riders minus the riders on board, the
      card shows exactly the number of riders. */
  lemma RiderCountMatchesServer(r: ClientRide, riderCount: nat)
    requires r.availableSeats == Some(Models.AvailableSeats(r.maxRiders, riderCount))
    ensures RiderCount(r) == riderCount
  {
  }
}
