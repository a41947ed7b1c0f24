/** The ride list of the JoinRides page (frontend/src/components/JoinRides.tsx):
    driver posts and rider requests are fetched, enriched with names, cut to the
    rides still to come and sorted by pickup time; the search box then narrows
    the list by pickup, destination or driver name. The two fetches and the
    enrichment are data sources outside the model: the lists and `enrich` are
    parameters. */
module JoinRides {
  import opened Common
  import opened ClientRides

  /** fetchAllRides: the list the page stores in `rides`. */
  method FetchAllRides(driverPosts: seq<ClientRide>, riderRequests: seq<ClientRide>,
                       enrich: seq<ClientRide> -> seq<ClientRide>, now: int)
    returns (rides: seq<ClientRide>)
    ensures SortedByPickup(rides)
    ensures multiset(rides) == multiset(FutureRides(enrich(driverPosts + riderRequests), now))
    ensures forall x :: x in rides <==> x in enrich(driverPosts + riderRequests) && x.pickupTime > now
  {
    var allRides := driverPosts + riderRequests;
    var enriched := enrich(allRides);
    var futureRides := FutureRides(enriched, now);
    rides := SortedCopy(futureRides);
    assert forall x :: x in rides <==> x in multiset(futureRides);
  }

  /** The filter of the search box: a blank query keeps everything; otherwise the
      lower-cased query, untrimmed, must occur in the lower-cased pickup address,
      destination address or driver name. */
  predicate MatchesQuery(r: ClientRide, query: string)
  {
    IsBlank(query)
    || Contains(Lower(r.pickupAddress), Lower(query))
    || Contains(Lower(r.destinationAddress), Lower(query))
    || (r.driverName.Some? && Contains(Lower(r.driverName.value), Lower(query)))
  }

  /** filteredRides. */
  function FilteredRides(rides: seq<ClientRide>, query: string): (shown: seq<ClientRide>)
    ensures forall x :: x in shown <==> x in rides && MatchesQuery(x, query)
    ensures forall x :: multiset(shown)[x] == if MatchesQuery(x, query) then multiset(rides)[x] else 0
    ensures IsBlank(query) ==> shown == rides
  {
    var keep := x => MatchesQuery(x, query);
    assert IsBlank(query) ==> Filter(rides, keep) == rides by {
      if IsBlank(query) { FilterKeepsAll(rides, keep); }
    }
    Filter(rides, keep)
  }

  /** The filter reads the query only through its lower-cased form: typing it in
      capitals changes nothing. */
  lemma MatchIgnoresCase(r: ClientRide, query: string)
    ensures MatchesQuery(r, Lower(query)) <==> MatchesQuery(r, query)
  {
    LowerKeepsBlank(query);
    LowerIdempotent(query);
  }

  /** A non-blank query matches exactly when it occurs at some position of one of
      the three fields (after lower-casing). */
  lemma MatchIffOccurs(r: ClientRide, query: string)
    requires !IsBlank(query)
    ensures MatchesQuery(r, query) <==>
      Occurs(Lower(r.pickupAddress), Lower(query)) || Occurs(Lower(r.destinationAddress), Lower(query))
      || (r.driverName.Some? && Occurs(Lower(r.driverName.value), Lower(query)))
  {
    ContainsIffOccurs(Lower(r.pickupAddress), Lower(query));
    ContainsIffOccurs(Lower(r.destinationAddress), Lower(query));
    if r.driverName.Some? {
      ContainsIffOccurs(Lower(r.driverName.value), Lower(query));
    }
  }

  /** Filtering keeps the order of the fetched list, so the shown rides are still
      sorted by pickup time. */
  lemma FilterKeepsSorted(rides: seq<ClientRide>, query: string)
    requires SortedByPickup(rides)
    ensures SortedByPickup(FilteredRides(rides, query))
  {
    FilterSorted(rides, x => MatchesQuery(x, query));
  }

  lemma {:induction false} FilterSorted(s: seq<ClientRide>, p: ClientRide -> bool)
    requires SortedByPickup(s)
    ensures SortedByPickup(Filter(s, p))
    decreases |s|
  {
    if s != [] {
      FilterSorted(s[1..], p);
      var rest := Filter(s[1..], p);
      if p(s[0]) {
        forall j | 0 <= j < |rest| ensures s[0].pickupTime <= rest[j].pickupTime {
          assert rest[j] in s[1..];
        }
      }
    }
  }
}
