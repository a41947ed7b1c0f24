/** The destination search of frontend/src/components/DestinationSearchModal.tsx:
    while the modal is open with a non-empty query, the rides still to come whose
    destination contains the query are listed by pickup time. The ride cards use
    ClientRides.IsOwnRide and ClientRides.FormatCost, the same rules as the
    JoinRides page. */
module DestinationSearch {
  import opened Common
  import opened ClientRides
  import JoinRides

  /** The effect's guard `isOpen && searchQuery`: an empty query is falsy. */
  predicate ShouldSearch(isOpen: bool, searchQuery: string)
  {
    isOpen && searchQuery != ""
  }

  /** The destination filter: the lower-cased query, untrimmed, occurs in the
      lower-cased destination address. */
  predicate MatchesDestination(r: ClientRide, searchQuery: string)
  {
    Contains(Lower(r.destinationAddress), Lower(searchQuery))
  }

  function DestinationMatches(rides: seq<ClientRide>, searchQuery: string): (kept: seq<ClientRide>)
    ensures forall x :: x in kept <==> x in rides && MatchesDestination(x, searchQuery)
    ensures forall x :: multiset(kept)[x] == if MatchesDestination(x, searchQuery) then multiset(rides)[x] else 0
  {
    Filter(rides, x => MatchesDestination(x, searchQuery))
  }

  /** searchRides: future rides, then the destination filter, then the sort. */
  method SearchRides(driverPosts: seq<ClientRide>, riderRequests: seq<ClientRide>,
                     enrich: seq<ClientRide> -> seq<ClientRide>, now: int, searchQuery: string)
    returns (rides: seq<ClientRide>)
    ensures SortedByPickup(rides)
    ensures multiset(rides) == multiset(DestinationMatches(FutureRides(enrich(driverPosts + riderRequests), now), searchQuery))
    ensures forall x :: x in rides <==>
      x in enrich(driverPosts + riderRequests) && x.pickupTime > now && MatchesDestination(x, searchQuery)
  {
    var allRides := driverPosts + riderRequests;
    var enrichedRides := enrich(allRides);
    var futureRides := FutureRides(enrichedRides, now);
    var filteredRides := DestinationMatches(futureRides, searchQuery);
    rides := SortedCopy(filteredRides);
    assert forall x :: x in rides <==> x in multiset(filteredRides);
  }

  /** The effect on `[isOpen, searchQuery]`: a search runs exactly when the modal
      is open and the query is not empty, and replaces the listed rides; otherwise
      the list stays as it was. */
  method QueryEffect(isOpen: bool, searchQuery: string, listed: seq<ClientRide>,
                     driverPosts: seq<ClientRide>, riderRequests: seq<ClientRide>,
                     enrich: seq<ClientRide> -> seq<ClientRide>, now: int)
    returns (rides: seq<ClientRide>)
    ensures !ShouldSearch(isOpen, searchQuery) ==> rides == listed
    ensures ShouldSearch(isOpen, searchQuery) ==> SortedByPickup(rides)
    ensures ShouldSearch(isOpen, searchQuery) ==>
      multiset(rides) == multiset(DestinationMatches(FutureRides(enrich(driverPosts + riderRequests), now), searchQuery))
  {
    rides := listed;
    if isOpen && searchQuery != "" {
      rides := SearchRides(driverPosts, riderRequests, enrich, now, searchQuery);
    }
  }

  /** Every search result would also pass the JoinRides search box with the same
      query: a destination match is one of the three matches that page accepts. */
  lemma SearchResultPassesJoinFilter(r: ClientRide, searchQuery: string)
    requires MatchesDestination(r, searchQuery)
    ensures JoinRides.MatchesQuery(r, searchQuery)
  {
  }

  /** The search lists a subset of what the JoinRides page lists for the same
      fetched rides, each ride no more often. */
  lemma SearchWithinJoinList(rides: seq<ClientRide>, now: int, searchQuery: string)
    ensures multiset(DestinationMatches(FutureRides(rides, now), searchQuery)) <= multiset(FutureRides(rides, now))
  {
  }
}
