/** The two ride lists of frontend/src/components/DriverPage.tsx: the rider
    requests a driver may accept (those the driver does not already ride in, still
    to come) and the driver's own active rides, with the request search box, the
    price labels and the riders' comments shown on each card. The fetches and the
    name enrichment are data sources outside the model and are parameters. */
module DriverPage {
  import opened Common
  import opened ClientRides
  import Models

  /** `ride.riders?.some((rider) => rider.user_id === userId)`. */
  predicate RidesIn(r: ClientRide, userId: int)
  {
    r.riders.Some? && exists k :: 0 <= k < |r.riders.value| && r.riders.value[k].userId == userId
  }

  /** The requests shown to the driver: requests the user is not a rider of,
      enriched, then cut to those still to come. */
  function RequestsShown(riderRequests: seq<ClientRide>, userId: int,
                         enrich: seq<ClientRide> -> seq<ClientRide>, now: int): (shown: seq<ClientRide>)
    ensures forall x :: x in shown ==> x.pickupTime > now
    ensures forall x :: x in shown <==> x in enrich(Filter(riderRequests, r => !RidesIn(r, userId))) && x.pickupTime > now
  {
    FutureRides(enrich(Filter(riderRequests, r => !RidesIn(r, userId))), now)
  }

  /** Without enrichment changing the list, a request the user already rides in
      is never offered, and every other future request is. */
  lemma RequestsExcludeOwnSeats(riderRequests: seq<ClientRide>, userId: int, now: int, x: ClientRide)
    ensures var shown := RequestsShown(riderRequests, userId, s => s, now);
      x in shown <==> x in riderRequests && !RidesIn(x, userId) && x.pickupTime > now
  {
  }

  /** fetchCurrentDriverRides: nothing without a driver profile id (a falsy
      `driver_id`); otherwise the driver's active rides, enriched, still to come. */
  function CurrentRides(driverId: Option<int>, fetchDriverRides: int -> seq<ClientRide>,
                        enrich: seq<ClientRide> -> seq<ClientRide>, now: int): (shown: seq<ClientRide>)
    ensures !Truthy(driverId) ==> shown == []
    ensures Truthy(driverId) ==> forall x :: x in shown <==> x in enrich(fetchDriverRides(driverId.value)) && x.pickupTime > now
  {
    if !Truthy(driverId) then [] else FutureRides(enrich(fetchDriverRides(driverId.value)), now)
  }

  /** The request search box: blank keeps everything; otherwise the lower-cased
      query must occur in the pickup, the destination or some rider's name. */
  predicate MatchesQuery(r: ClientRide, query: string)
  {
    IsBlank(query)
    || Contains(Lower(r.pickupAddress), Lower(query))
    || Contains(Lower(r.destinationAddress), Lower(query))
    || (r.riders.Some? && exists k :: 0 <= k < |r.riders.value| && Contains(Lower(r.riders.value[k].name), Lower(query)))
  }

  function FilteredRides(rides: seq<ClientRide>, query: string): (shown: seq<ClientRide>)
    ensures forall x :: x in shown <==> x in rides && MatchesQuery(x, query)
    ensures IsBlank(query) ==> shown == rides
  {
    var keep := x => MatchesQuery(x, query);
    assert IsBlank(query) ==> Filter(rides, keep) == rides by {
      if IsBlank(query) { FilterKeepsAll(rides, keep); }
    }
    Filter(rides, keep)
  }

  /** A rider's name is searchable: a query found in a rider's name keeps the ride. */
  lemma RiderNameMatches(r: ClientRide, query: string, k: int)
    requires r.riders.Some? && 0 <= k < |r.riders.value|
    requires Contains(Lower(r.riders.value[k].name), Lower(query))
    ensures MatchesQuery(r, query)
  {
  }

  /** formatPriceOption: a lookup in a three-entry table, exact and case-sensitive;
      a missing entry shows the option itself. */
  function FormatPriceOption(priceOption: string): (shown: string)
    ensures shown == priceOption || shown == "Free" || shown == "Gas Money" || shown == "Gas + Fee"
  {
    if priceOption == "free" then "Free"
    else if priceOption == "gas" then "Gas Money"
    else if priceOption == "gas with fee" then "Gas + Fee"
    else priceOption
  }

  /** The driver page and the ride pages label "free" and "gas with fee" alike. */
  lemma PriceLabelsAgree()
    ensures FormatPriceOption("free") == FormatCost("free")
    ensures FormatPriceOption("gas with fee") == FormatCost("gas with fee")
  {
    LowerFixedOnLowerCase("free");
    LowerFixedOnLowerCase("gas with fee");
  }

  /** ... but not "gas". */
  lemma GasLabelsDiffer()
    ensures FormatPriceOption("gas") == "Gas Money" && FormatCost("gas") == "Split Gas"
  {
    LowerFixedOnLowerCase("gas");
  }

  /** ... and only the ride pages ignore case. */
  lemma CapitalsLabelledOnlyOnRidePages()
    ensures FormatPriceOption("FREE") == "FREE" && FormatCost("FREE") == "Free"
  {
    var l := Lower("FREE");
    assert l[0] == 'f' && l[3] == 'e';
  }

  /** The riders' count on a card: `ride.riders?.length || 0`. */
  function CardRiderCount(r: ClientRide): nat
  {
    if r.riders.Some? then |r.riders.value| else 0
  }

  /** The driver page counts the riders listed on the ride, the ride pages count
      capacity minus available seats; with the server's seat count and rider list
      the two cards show the same number. */
  lemma CardCountAgreesWithRidePages(r: ClientRide)
    requires r.riders.Some?
    requires r.availableSeats == Some(Models.AvailableSeats(r.maxRiders, |r.riders.value|))
    ensures CardRiderCount(r) == RiderCount(r)
  {
  }

  // ---------------------------------------------------------------- the comments list

  const NO_COMMENT := "No comment"

  /** `r.comment || "No comment"`: a missing or empty comment becomes the
      placeholder. */
  function CommentOrPlaceholder(r: RiderInfo): string
  {
    if r.comment.Some? && r.comment.value != "" then r.comment.value else NO_COMMENT
  }

  /** commentsList: map each rider to a comment or the placeholder, then drop
      every placeholder, including a rider's literal "No comment". */
  function CommentsList(r: ClientRide): (comments: seq<string>)
    ensures forall c :: c in comments ==> c != "" && c != NO_COMMENT
    ensures r.riders.None? ==> comments == []
  {
    if r.riders.None? then []
    else Filter(Map(r.riders.value, CommentOrPlaceholder), c => c != NO_COMMENT)
  }

  /** The comments the card shows, rider by rider: a rider's comment is shown when
      it is present, not empty and not the placeholder text. */
  function ShownComments(riders: seq<RiderInfo>): seq<string>
  {
    if riders == [] then []
    else
      var c := riders[0].comment;
      (if c.Some? && c.value != "" && c.value != NO_COMMENT then [c.value] else []) + ShownComments(riders[1..])
  }

  lemma {:induction false} CommentsListIsShownComments(riders: seq<RiderInfo>)
    ensures Filter(Map(riders, CommentOrPlaceholder), c => c != NO_COMMENT) == ShownComments(riders)
  {
    if riders != [] {
      CommentsListIsShownComments(riders[1..]);
      assert Map(riders, CommentOrPlaceholder)[1..] == Map(riders[1..], CommentOrPlaceholder);
    }
  }

  /** The comments list keeps the riders' order and drops exactly the missing,
      empty and placeholder comments. */
  lemma CommentsListSpec(r: ClientRide)
    ensures CommentsList(r) == if r.riders.None? then [] else ShownComments(r.riders.value)
  {
    if r.riders.Some? {
      CommentsListIsShownComments(r.riders.value);
    }
  }
}
