/**
 * The `/generate-recommendations` request handler
 * (website/server/routes/plannerRoutes.js).
 *
 * The handler looks the user up, checks that the stored profile is complete,
 * geocodes the stored location once, and then, slot by slot in stored order
 * and hobby by hobby in stored order, searches for nearby places, keeps each
 * hobby's first three, and caps the slot's combined list at three. Any error
 * thrown on the way turns the whole request into a 500 response.
 *
 * The user store is a map from username to stored record. The geocoder is a
 * function from address to reply. The places service is `search`, where
 * `search(k)` answers the request's search number `k` (counting from 0), so
 * that two searches with the same query may get different answers.
 */
module PlannerRoutes {
  import opened Common
  import opened MapsService

  /** One stored free-time window. */
  datatype TimeSlot = TimeSlot(day: string, start: string, end: string)

  /** The stored fields the handler reads; each may be missing from the record. */
  datatype UserRecord = UserRecord(currentLocation: Option<string>, hobbies: Option<seq<string>>,
                                   freeTime: Option<seq<TimeSlot>>)

  /** A venue's rating as sent to the client: the place's rating, or the text `N/A`. */
  datatype Rating = Stars(value: real) | NotAvailable

  /** One recommended venue, as sent to the client. */
  datatype Venue = Venue(name: string, address: string, rating: Rating, googleMapsLink: string)

  /** The recommendations for one free-time slot. */
  datatype SlotRecommendation = SlotRecommendation(timeSlot: string, recommendations: seq<Venue>)

  /** A response body: an error message, or the list of per-slot recommendations. */
  datatype Body = Message(text: string) | Recommendations(slots: seq<SlotRecommendation>)

  datatype Response = Response(status: int, body: Body)

  /** The calls the handler makes to its collaborators, in the order it makes them. */
  datatype Call = FindUser(username: string) | Geocode(address: string) | NearbySearch(query: PlacesQuery)

  /** A partial run of the search loops: how it ended, and the searches it made. */
  datatype Gathered<T> = Gathered(outcome: Result<T, ServiceError>, calls: seq<Call>)

  /** The places service: `search(k)` answers the request's search number `k`. */
  type PlacesService = nat -> PlacesQuery -> Reply<PlacesData>

  const UsernameRequired: string := "Username is required."
  const UserNotFound: string := "User not found"
  const IncompleteUserData: string := "Incomplete user data."
  const ServerError: string := "Server error."

  /** The link prefix to which a place identifier is appended. */
  const MapsLinkPrefix: string := "https://www.google.com/maps/place/?q=place_id:"

  /** How many places are kept per hobby, and how many venues per slot. */
  const PerHobbyLimit: nat := 3
  const PerSlotLimit: nat := 3

  // ---------------------------------------------------------------------------
  // Shaping the output
  // ---------------------------------------------------------------------------

  /** The place identifier a maps link was built from, if it has the expected prefix. */
  function LinkedPlaceId(link: string): Option<string>
  {
    if MapsLinkPrefix <= link then Some(link[|MapsLinkPrefix|..]) else None
  }

  /**
   * The venue sent for a place: its vicinity as the address, its rating
   * unless the rating is missing or zero (both falsy), and a maps link that
   * carries its place identifier.
   */
  function ShapeVenue(p: Place): (v: Venue)
    ensures v.name == p.name && v.address == p.vicinity
    ensures v.rating.NotAvailable? <==> p.rating.None? || p.rating.value == 0.0
    ensures v.rating.Stars? ==> v.rating.value == p.rating.value
  {
    Venue(p.name, p.vicinity,
          if p.rating.Some? && p.rating.value != 0.0 then Stars(p.rating.value) else NotAvailable,
          MapsLinkPrefix + p.placeId)
  }

  /** The maps link of a venue carries its place's identifier after the fixed prefix. */
  lemma VenueLinkCarriesPlaceId(p: Place)
    ensures LinkedPlaceId(ShapeVenue(p).googleMapsLink) == Some(p.placeId)
  {
    var link := MapsLinkPrefix + p.placeId;
    assert MapsLinkPrefix <= link && link[|MapsLinkPrefix|..] == p.placeId;
  }

  /** The venues for one hobby: its first three places, shaped, in the service's order. */
  function TopVenues(places: seq<Place>): (r: seq<Venue>)
    ensures |r| <= PerHobbyLimit && |r| == (if |places| < PerHobbyLimit then |places| else PerHobbyLimit)
    ensures forall i :: 0 <= i < |r| ==> r[i] == ShapeVenue(places[i])
  {
    var kept := Take(places, PerHobbyLimit);
    seq(|kept|, i requires 0 <= i < |kept| => ShapeVenue(kept[i]))
  }

  /** The label of a slot: `day start-end`. */
  function SlotLabel(s: TimeSlot): string
  {
    s.day + " " + s.start + "-" + s.end
  }

  /** The concatenation of a sequence of sequences, in order. */
  function Flatten<T>(ss: seq<seq<T>>): seq<T>
  {
    if |ss| == 0 then [] else Flatten(ss[..|ss| - 1]) + ss[|ss| - 1]
  }

  /** Whether the stored record has everything the handler needs: a non-empty location, at least one hobby, and a free-time list (possibly empty). */
  predicate IsComplete(user: UserRecord)
  {
    && user.currentLocation.Some? && user.currentLocation.value != ""
    && user.hobbies.Some? && |user.hobbies.value| > 0
    && user.freeTime.Some?
  }

  // ---------------------------------------------------------------------------
  // The specification of the handler
  // ---------------------------------------------------------------------------

  /** The places found for `hobby` by the request's search number `k`. */
  function PlacesFor(search: PlacesService, coordinates: string, hobby: string, k: nat): Result<seq<Place>, ServiceError>
  {
    FetchNearbyPlaces(search(k), coordinates, hobby)
  }

  /**
   * The inner loop over the first `n` hobbies for one slot, whose first
   * search is the request's search number `base`: it stops at the first
   * search that throws.
   */
  function GatherSlot(coordinates: string, hobbies: seq<string>, search: PlacesService, base: nat, n: nat)
    : Gathered<seq<Venue>>
    requires n <= |hobbies|
  {
    if n == 0 then Gathered(Ok([]), [])
    else
      var prev := GatherSlot(coordinates, hobbies, search, base, n - 1);
      if prev.outcome.Err? then prev
      else
        var calls := prev.calls + [NearbySearch(PlacesQuery(coordinates, hobbies[n - 1], DefaultRadius))];
        match PlacesFor(search, coordinates, hobbies[n - 1], base + n - 1)
        case Err(e) => Gathered(Err(e), calls)
        case Ok(places) => Gathered(Ok(prev.outcome.value + TopVenues(places)), calls)
  }

  /** The outer loop over the first `m` slots; it stops at the first search that throws. */
  function GatherSlots(coordinates: string, hobbies: seq<string>, slots: seq<TimeSlot>, search: PlacesService, m: nat)
    : Gathered<seq<SlotRecommendation>>
    requires m <= |slots|
  {
    if m == 0 then Gathered(Ok([]), [])
    else
      var prev := GatherSlots(coordinates, hobbies, slots, search, m - 1);
      if prev.outcome.Err? then prev
      else
        var slot := GatherSlot(coordinates, hobbies, search, |prev.calls|, |hobbies|);
        var calls := prev.calls + slot.calls;
        match slot.outcome
        case Err(e) => Gathered(Err(e), calls)
        case Ok(venues) =>
          Gathered(Ok(prev.outcome.value + [SlotRecommendation(SlotLabel(slots[m - 1]), Take(venues, PerSlotLimit))]), calls)
  }

  /** The response to a request, and the calls made to the user store, the geocoder and the places service. */
  function Respond(username: string, users: map<string, UserRecord>, geocoder: string -> Reply<GeocodeData>,
                   search: PlacesService): (Response, seq<Call>)
  {
    if username == "" then (Response(400, Message(UsernameRequired)), [])
    else if username !in users then (Response(404, Message(UserNotFound)), [FindUser(username)])
    else
      var user := users[username];
      if !IsComplete(user) then (Response(400, Message(IncompleteUserData)), [FindUser(username)])
      else
        var location := user.currentLocation.value;
        var before := [FindUser(username), Geocode(location)];
        match GetCoordinatesForLocation(geocoder, location)
        case Err(_) => (Response(500, Message(ServerError)), before)
        case Ok(coordinates) =>
          var freeTime := user.freeTime.value;
          var g := GatherSlots(coordinates, user.hobbies.value, freeTime, search, |freeTime|);
          match g.outcome
          case Err(_) => (Response(500, Message(ServerError)), before + g.calls)
          case Ok(results) => (Response(200, Recommendations(results)), before + g.calls)
  }

  // ---------------------------------------------------------------------------
  // The handler
  // ---------------------------------------------------------------------------

  /**
   * The `/generate-recommendations` handler: validation, one geocoding, then
   * the nested loops; anything thrown on the way ends in 500.
   */
  method GenerateRecommendations(username: string, users: map<string, UserRecord>,
                                 geocoder: string -> Reply<GeocodeData>, search: PlacesService)
    returns (response: Response, calls: seq<Call>)
    ensures (response, calls) == Respond(username, users, geocoder, search)
  {
    if username == "" {
      return Response(400, Message(UsernameRequired)), [];
    }
    calls := [FindUser(username)];
    if username !in users {
      return Response(404, Message(UserNotFound)), calls;
    }
    var user := users[username];
    if !IsComplete(user) {
      return Response(400, Message(IncompleteUserData)), calls;
    }
    var currentLocation, hobbies, freeTime := user.currentLocation.value, user.hobbies.value, user.freeTime.value;

    calls := [FindUser(username), Geocode(currentLocation)];
    var coordinates := GetCoordinatesForLocation(geocoder, currentLocation);
    if coordinates.Err? {
      return Response(500, Message(ServerError)), calls;
    }

    var outcome, searches := GatherRecommendations(coordinates.value, hobbies, freeTime, search);
    calls := calls + searches;
    if outcome.Err? {
      return Response(500, Message(ServerError)), calls;
    }
    response := Response(200, Recommendations(outcome.value));
  }

  /**
   * The handler's loops: for each slot in order, for each hobby in order, a
   * nearby search whose first three places are added to the slot's list; the
   * slot keeps the first three of that list. A thrown search ends both loops
   * with its error, as the exception leaves the handler's `try` block.
   */
  method GatherRecommendations(coordinates: string, hobbies: seq<string>, freeTime: seq<TimeSlot>, search: PlacesService)
    returns (outcome: Result<seq<SlotRecommendation>, ServiceError>, searches: seq<Call>)
    ensures Gathered(outcome, searches) == GatherSlots(coordinates, hobbies, freeTime, search, |freeTime|)
  {
    var results: seq<SlotRecommendation> := [];
    searches := [];
    var i := 0;
    while i < |freeTime|
      invariant 0 <= i <= |freeTime|
      invariant GatherSlots(coordinates, hobbies, freeTime, search, i) == Gathered(Ok(results), searches)
    {
      var timeSlot := freeTime[i];
      var slotRecommendations: seq<Venue> := [];
      var slotSearches: seq<Call> := [];
      var j := 0;
      while j < |hobbies|
        invariant 0 <= j <= |hobbies|
        invariant GatherSlot(coordinates, hobbies, search, |searches|, j) == Gathered(Ok(slotRecommendations), slotSearches)
      {
        var hobby := hobbies[j];
        ghost var searchesBefore := slotSearches;
        slotSearches := slotSearches + [NearbySearch(PlacesQuery(coordinates, hobby, DefaultRadius))];
        var places := FetchNearbyPlaces(search(|searches| + j), coordinates, hobby);
        if places.Err? {
          SearchFailureAborts(coordinates, hobbies, freeTime, search, i, results, searches, j,
                              slotRecommendations, searchesBefore);
          return Err(places.error), searches + slotSearches;
        }
        GatherSlotStep(coordinates, hobbies, search, |searches|, j, slotRecommendations, searchesBefore, places.value);
        slotRecommendations := slotRecommendations + TopVenues(places.value);
        j := j + 1;
      }
      GatherSlotsStep(coordinates, hobbies, freeTime, search, i, results, searches, slotRecommendations, slotSearches);
      results := results + [SlotRecommendation(SlotLabel(timeSlot), Take(slotRecommendations, PerSlotLimit))];
      searches := searches + slotSearches;
      i := i + 1;
    }
    outcome := Ok(results);
  }

  /** Helper: one more successful search extends the slot's list by that hobby's top venues and the log by the search. */
  lemma GatherSlotStep(coordinates: string, hobbies: seq<string>, search: PlacesService, base: nat, j: nat,
                       venues: seq<Venue>, calls: seq<Call>, places: seq<Place>)
    requires j < |hobbies|
    requires GatherSlot(coordinates, hobbies, search, base, j) == Gathered(Ok(venues), calls)
    requires PlacesFor(search, coordinates, hobbies[j], base + j) == Ok(places)
    ensures GatherSlot(coordinates, hobbies, search, base, j + 1)
         == Gathered(Ok(venues + TopVenues(places)), calls + [NearbySearch(PlacesQuery(coordinates, hobbies[j], DefaultRadius))])
  {
  }

  /** Helper: one more slot whose searches all succeeded adds its entry and its searches. */
  lemma GatherSlotsStep(coordinates: string, hobbies: seq<string>, slots: seq<TimeSlot>, search: PlacesService, i: nat,
                        results: seq<SlotRecommendation>, searches: seq<Call>, venues: seq<Venue>, slotSearches: seq<Call>)
    requires i < |slots|
    requires GatherSlots(coordinates, hobbies, slots, search, i) == Gathered(Ok(results), searches)
    requires GatherSlot(coordinates, hobbies, search, |searches|, |hobbies|) == Gathered(Ok(venues), slotSearches)
    ensures GatherSlots(coordinates, hobbies, slots, search, i + 1)
         == Gathered(Ok(results + [SlotRecommendation(SlotLabel(slots[i]), Take(venues, PerSlotLimit))]), searches + slotSearches)
  {
  }

  /** A search that throws in slot `i` at hobby `j` ends the whole outer loop with that error. */
  lemma SearchFailureAborts(coordinates: string, hobbies: seq<string>, slots: seq<TimeSlot>, search: PlacesService,
                            i: nat, results: seq<SlotRecommendation>, searches: seq<Call>, j: nat,
                            venues: seq<Venue>, slotSearches: seq<Call>)
    requires i < |slots| && j < |hobbies|
    requires GatherSlots(coordinates, hobbies, slots, search, i) == Gathered(Ok(results), searches)
    requires GatherSlot(coordinates, hobbies, search, |searches|, j) == Gathered(Ok(venues), slotSearches)
    requires PlacesFor(search, coordinates, hobbies[j], |searches| + j).Err?
    ensures GatherSlots(coordinates, hobbies, slots, search, |slots|)
         == Gathered(Err(PlacesFor(search, coordinates, hobbies[j], |searches| + j).error),
                     searches + (slotSearches + [NearbySearch(PlacesQuery(coordinates, hobbies[j], DefaultRadius))]))
  {
    var e := PlacesFor(search, coordinates, hobbies[j], |searches| + j).error;
    var slotCalls := slotSearches + [NearbySearch(PlacesQuery(coordinates, hobbies[j], DefaultRadius))];
    assert GatherSlot(coordinates, hobbies, search, |searches|, j + 1) == Gathered(Err(e), slotCalls);
    SlotErrorPersists(coordinates, hobbies, search, |searches|, j + 1, |hobbies|);
    assert GatherSlots(coordinates, hobbies, slots, search, i + 1) == Gathered(Err(e), searches + slotCalls);
    SlotsErrorPersists(coordinates, hobbies, slots, search, i + 1, |slots|);
  }

  /** Once a slot's search has thrown, the later hobbies add nothing. */
  lemma {:induction false} SlotErrorPersists(coordinates: string, hobbies: seq<string>, search: PlacesService,
                                             base: nat, n: nat, n': nat)
    requires n <= n' <= |hobbies|
    requires GatherSlot(coordinates, hobbies, search, base, n).outcome.Err?
    ensures GatherSlot(coordinates, hobbies, search, base, n') == GatherSlot(coordinates, hobbies, search, base, n)
    decreases n' - n
  {
    if n < n' {
      SlotErrorPersists(coordinates, hobbies, search, base, n, n' - 1);
    }
  }

  /** Once a search has thrown, the later slots add nothing. */
  lemma {:induction false} SlotsErrorPersists(coordinates: string, hobbies: seq<string>, slots: seq<TimeSlot>,
                                              search: PlacesService, m: nat, m': nat)
    requires m <= m' <= |slots|
    requires GatherSlots(coordinates, hobbies, slots, search, m).outcome.Err?
    ensures GatherSlots(coordinates, hobbies, slots, search, m') == GatherSlots(coordinates, hobbies, slots, search, m)
    decreases m' - m
  {
    if m < m' {
      SlotsErrorPersists(coordinates, hobbies, slots, search, m, m' - 1);
    }
  }
}

module PlannerRoutesProperties {
  import opened Common
  import opened MapsService
  import opened PlannerRoutes

  // ---------------------------------------------------------------------------
  // Independent descriptions of what the loops gather
  // ---------------------------------------------------------------------------

  /** The venues one search contributes: its first three places, or nothing if it threw. */
  function HobbyVenues(search: PlacesService, coordinates: string, hobby: string, k: nat): seq<Venue>
  {
    match PlacesFor(search, coordinates, hobby, k)
    case Ok(places) => TopVenues(places)
    case Err(_) => []
  }

  /** Every hobby's venues for one slot whose first search is number `base`, concatenated in hobby order. */
  function SlotVenues(coordinates: string, hobbies: seq<string>, search: PlacesService, base: nat): seq<Venue>
  {
    Flatten(seq(|hobbies|, t requires 0 <= t < |hobbies| => HobbyVenues(search, coordinates, hobbies[t], base + t)))
  }

  /** The searches one slot makes when none throws: one per hobby, in hobby order, with the raw label and the default radius. */
  function HobbySearches(coordinates: string, hobbies: seq<string>): (r: seq<Call>)
    ensures |r| == |hobbies|
  {
    seq(|hobbies|, j requires 0 <= j < |hobbies| => NearbySearch(PlacesQuery(coordinates, hobbies[j], DefaultRadius)))
  }

  /** `m` copies of `unit`, one after the other. */
  function Repeat(unit: seq<Call>, m: nat): (r: seq<Call>)
    ensures |r| == m * |unit|
  {
    if m == 0 then [] else Repeat(unit, m - 1) + unit
  }

  /** Whether the logged call `c`, the request's search number `k`, got a reply other than a thrown error. */
  predicate SearchSucceeded(search: PlacesService, c: Call, k: nat)
  {
    c.NearbySearch? && PlacesFor(search, c.query.location, c.query.keyword, k).Ok?
  }

  /**
   * Whether the searches of a log whose first entry is the request's search
   * number `first` all succeeded, except the last one, which threw, when `ok`
   * is false.
   */
  predicate LogSucceeded(search: PlacesService, calls: seq<Call>, first: nat, ok: bool)
  {
    && (forall t :: 0 <= t < |calls| && (ok || t < |calls| - 1) ==> SearchSucceeded(search, calls[t], first + t))
    && (!ok ==> |calls| > 0 && !SearchSucceeded(search, calls[|calls| - 1], first + |calls| - 1))
  }

  // ---------------------------------------------------------------------------
  // The inner loop
  // ---------------------------------------------------------------------------

  /**
   * The inner loop searches the hobbies in order with the raw hobby label,
   * the geocoded coordinates and the default radius; it makes one search per
   * hobby when none throws, and otherwise stops right after the one that threw.
   */
  lemma {:induction false} GatherSlotCalls(coordinates: string, hobbies: seq<string>, search: PlacesService, base: nat, n: nat)
    requires n <= |hobbies|
    ensures var g := GatherSlot(coordinates, hobbies, search, base, n);
            && |g.calls| <= n
            && (g.outcome.Ok? ==> |g.calls| == n)
            && g.calls == HobbySearches(coordinates, hobbies)[..|g.calls|]
  {
    if n > 0 {
      GatherSlotCalls(coordinates, hobbies, search, base, n - 1);
      var prev := GatherSlot(coordinates, hobbies, search, base, n - 1);
      var g := GatherSlot(coordinates, hobbies, search, base, n);
      if prev.outcome.Err? {
        assert g == prev;
      } else {
        var unit := HobbySearches(coordinates, hobbies);
        var c := NearbySearch(PlacesQuery(coordinates, hobbies[n - 1], DefaultRadius));
        assert g.calls == prev.calls + [c];
        assert unit[..n] == unit[..n - 1] + [c];
      }
    }
  }

  /**
   * The searches of the inner loop, numbered from `base`, all succeeded but
   * the last one when the loop failed, and that one threw the loop's error.
   */
  lemma {:induction false} GatherSlotSearches(coordinates: string, hobbies: seq<string>, search: PlacesService,
                                              base: nat, n: nat)
    requires n <= |hobbies|
    ensures var g := GatherSlot(coordinates, hobbies, search, base, n);
            && |g.calls| <= n
            && (forall t :: 0 <= t < |g.calls| && (g.outcome.Ok? || t < |g.calls| - 1) ==>
                  PlacesFor(search, coordinates, hobbies[t], base + t).Ok?)
            && (g.outcome.Err? ==>
                  |g.calls| > 0 &&
                  PlacesFor(search, coordinates, hobbies[|g.calls| - 1], base + |g.calls| - 1) == Err(g.outcome.error))
  {
    if n > 0 {
      GatherSlotSearches(coordinates, hobbies, search, base, n - 1);
      GatherSlotCalls(coordinates, hobbies, search, base, n - 1);
      var prev := GatherSlot(coordinates, hobbies, search, base, n - 1);
      var g := GatherSlot(coordinates, hobbies, search, base, n);
      if prev.outcome.Err? {
        assert g == prev;
      } else {
        var r := PlacesFor(search, coordinates, hobbies[n - 1], base + n - 1);
        assert |g.calls| == |prev.calls| + 1 == n;
        assert g.outcome.Ok? <==> r.Ok?;
        assert r.Err? ==> g.outcome.error == r.error;
      }
    }
  }

  /** When no search throws, the inner loop's list is every hobby's first three venues, concatenated in hobby order. */
  lemma {:induction false} GatherSlotVenues(coordinates: string, hobbies: seq<string>, search: PlacesService, base: nat, n: nat)
    requires n <= |hobbies|
    requires GatherSlot(coordinates, hobbies, search, base, n).outcome.Ok?
    ensures GatherSlot(coordinates, hobbies, search, base, n).outcome.value
         == Flatten(seq(n, t requires 0 <= t < n => HobbyVenues(search, coordinates, hobbies[t], base + t)))
  {
    if n > 0 {
      GatherSlotVenues(coordinates, hobbies, search, base, n - 1);
      var f := seq(n, t requires 0 <= t < n => HobbyVenues(search, coordinates, hobbies[t], base + t));
      assert f[..n - 1] == seq(n - 1, t requires 0 <= t < n - 1 => HobbyVenues(search, coordinates, hobbies[t], base + t));
    }
  }

  // ---------------------------------------------------------------------------
  // The outer loop
  // ---------------------------------------------------------------------------

  /**
   * The outer loop makes the searches slot by slot and, within a slot, hobby
   * by hobby: its log is a prefix of one round of `HobbySearches` per slot,
   * and all of it when no search throws.
   */
  lemma {:induction false} GatherSlotsLog(coordinates: string, hobbies: seq<string>, slots: seq<TimeSlot>,
                                          search: PlacesService, m: nat)
    requires m <= |slots|
    ensures var g := GatherSlots(coordinates, hobbies, slots, search, m);
            && g.calls <= Repeat(HobbySearches(coordinates, hobbies), m)
            && (g.outcome.Ok? ==> g.calls == Repeat(HobbySearches(coordinates, hobbies), m))
  {
    if m > 0 {
      GatherSlotsLog(coordinates, hobbies, slots, search, m - 1);
      var unit := HobbySearches(coordinates, hobbies);
      var prev := GatherSlots(coordinates, hobbies, slots, search, m - 1);
      var g := GatherSlots(coordinates, hobbies, slots, search, m);
      assert Repeat(unit, m) == Repeat(unit, m - 1) + unit;
      if prev.outcome.Ok? {
        var slot := GatherSlot(coordinates, hobbies, search, |prev.calls|, |hobbies|);
        GatherSlotCalls(coordinates, hobbies, search, |prev.calls|, |hobbies|);
        assert g.calls == prev.calls + slot.calls;
        assert slot.calls <= unit;
      } else {
        assert g == prev;
      }
    }
  }

  /** Every call in a prefix of repeated searches is a search. */
  lemma {:induction false} RepeatHoldsSearches(coordinates: string, hobbies: seq<string>, m: nat, k: nat)
    requires k < |Repeat(HobbySearches(coordinates, hobbies), m)|
    ensures Repeat(HobbySearches(coordinates, hobbies), m)[k].NearbySearch?
    ensures Repeat(HobbySearches(coordinates, hobbies), m)[k].query.keyword in hobbies
  {
    var unit := HobbySearches(coordinates, hobbies);
    if k < |Repeat(unit, m - 1)| {
      RepeatHoldsSearches(coordinates, hobbies, m - 1, k);
    } else {
      assert Repeat(unit, m)[k] == unit[k - |Repeat(unit, m - 1)|];
    }
  }

  /** Helper: the `t`-th search of the inner loop is for the `t`-th hobby. */
  lemma GatherSlotQueries(coordinates: string, hobbies: seq<string>, search: PlacesService, base: nat)
    ensures var g := GatherSlot(coordinates, hobbies, search, base, |hobbies|);
            && |g.calls| <= |hobbies|
            && forall t :: 0 <= t < |g.calls| ==> g.calls[t] == NearbySearch(PlacesQuery(coordinates, hobbies[t], DefaultRadius))
  {
    GatherSlotCalls(coordinates, hobbies, search, base, |hobbies|);
    var g := GatherSlot(coordinates, hobbies, search, base, |hobbies|);
    forall t | 0 <= t < |g.calls| ensures g.calls[t] == NearbySearch(PlacesQuery(coordinates, hobbies[t], DefaultRadius)) {
      assert g.calls[t] == HobbySearches(coordinates, hobbies)[t];
    }
  }

  /** The inner loop in terms of its log: the search logged at `t` is search number `base + t`, and it succeeded unless it is the last one of a failed loop. */
  lemma GatherSlotOutcome(coordinates: string, hobbies: seq<string>, search: PlacesService, base: nat)
    ensures var g := GatherSlot(coordinates, hobbies, search, base, |hobbies|);
            LogSucceeded(search, g.calls, base, g.outcome.Ok?)
  {
    GatherSlotQueries(coordinates, hobbies, search, base);
    GatherSlotSearches(coordinates, hobbies, search, base, |hobbies|);
  }

  /** A round of the outer loop after successful ones appends the slot's searches, and fails exactly when the slot's inner loop does. */
  lemma GatherSlotsRound(coordinates: string, hobbies: seq<string>, slots: seq<TimeSlot>, search: PlacesService, m: nat)
    requires 0 < m <= |slots|
    requires GatherSlots(coordinates, hobbies, slots, search, m - 1).outcome.Ok?
    ensures var prev := GatherSlots(coordinates, hobbies, slots, search, m - 1);
            var slot := GatherSlot(coordinates, hobbies, search, |prev.calls|, |hobbies|);
            var g := GatherSlots(coordinates, hobbies, slots, search, m);
            && g.calls == prev.calls + slot.calls
            && (g.outcome.Ok? <==> slot.outcome.Ok?)
            && (g.outcome.Err? ==> g.outcome.error == slot.outcome.error)
  {
  }

  /** Helper: a log of successful searches followed by a round whose searches are numbered on from it. */
  lemma LogsConcatenate(search: PlacesService, a: seq<Call>, b: seq<Call>, ok: bool)
    requires LogSucceeded(search, a, 0, true)
    requires LogSucceeded(search, b, |a|, ok)
    ensures LogSucceeded(search, a + b, 0, ok)
  {
    forall k | 0 <= k < |a + b| && (ok || k < |a + b| - 1)
      ensures SearchSucceeded(search, (a + b)[k], k)
    {
      if k >= |a| {
        assert (a + b)[k] == b[k - |a|];
      }
    }
  }

  /** The log position of a search is its search number: every logged search but the last succeeded, the last one too unless the loop ended with an error. */
  lemma {:induction false} GatherSlotsOutcome(coordinates: string, hobbies: seq<string>, slots: seq<TimeSlot>,
                                              search: PlacesService, m: nat)
    requires m <= |slots|
    ensures var g := GatherSlots(coordinates, hobbies, slots, search, m);
            LogSucceeded(search, g.calls, 0, g.outcome.Ok?)
  {
    if m > 0 {
      GatherSlotsOutcome(coordinates, hobbies, slots, search, m - 1);
      var prev := GatherSlots(coordinates, hobbies, slots, search, m - 1);
      if prev.outcome.Ok? {
        var base := |prev.calls|;
        var slot := GatherSlot(coordinates, hobbies, search, base, |hobbies|);
        GatherSlotOutcome(coordinates, hobbies, search, base);
        GatherSlotsRound(coordinates, hobbies, slots, search, m);
        LogsConcatenate(search, prev.calls, slot.calls, slot.outcome.Ok?);
      }
    }
  }

  /** When no search throws, each round of the outer loop appends the entry of its slot, built from the slot's venues. */
  lemma GatherSlotsAppends(coordinates: string, hobbies: seq<string>, slots: seq<TimeSlot>,
                           search: PlacesService, m: nat)
    requires 0 < m <= |slots|
    requires GatherSlots(coordinates, hobbies, slots, search, m).outcome.Ok?
    ensures GatherSlots(coordinates, hobbies, slots, search, m - 1).outcome.Ok?
    ensures GatherSlots(coordinates, hobbies, slots, search, m).outcome.value
         == GatherSlots(coordinates, hobbies, slots, search, m - 1).outcome.value
            + [SlotRecommendation(SlotLabel(slots[m - 1]),
                 Take(SlotVenues(coordinates, hobbies, search, (m - 1) * |hobbies|), PerSlotLimit))]
  {
    GatherSlotsLog(coordinates, hobbies, slots, search, m - 1);
    var prev := GatherSlots(coordinates, hobbies, slots, search, m - 1);
    var h := |hobbies|;
    var base := |prev.calls|;
    assert base == (m - 1) * h;
    GatherSlotVenues(coordinates, hobbies, search, base, h);
    var slot := GatherSlot(coordinates, hobbies, search, base, h);
    assert slot.outcome.value == SlotVenues(coordinates, hobbies, search, base);
  }

  /** When no search throws there is one entry per slot, in order, labelled `day start-end` and holding the first three of the slot's venues. */
  lemma {:induction false} GatherSlotsResults(coordinates: string, hobbies: seq<string>, slots: seq<TimeSlot>,
                                              search: PlacesService, m: nat)
    requires m <= |slots|
    requires GatherSlots(coordinates, hobbies, slots, search, m).outcome.Ok?
    ensures var g := GatherSlots(coordinates, hobbies, slots, search, m);
            && |g.outcome.value| == m
            && (forall i :: 0 <= i < m ==>
                  g.outcome.value[i] == SlotRecommendation(SlotLabel(slots[i]),
                    Take(SlotVenues(coordinates, hobbies, search, i * |hobbies|), PerSlotLimit)))
  {
    if m > 0 {
      GatherSlotsAppends(coordinates, hobbies, slots, search, m);
      GatherSlotsResults(coordinates, hobbies, slots, search, m - 1);
    }
  }

  // ---------------------------------------------------------------------------
  // The handler's properties
  // ---------------------------------------------------------------------------

  /** A request without a username is rejected with 400 before the user store is consulted. */
  lemma MissingUsernameRejected(users: map<string, UserRecord>, geocoder: string -> Reply<GeocodeData>, search: PlacesService)
    ensures Respond("", users, geocoder, search) == (Response(400, Message(UsernameRequired)), [])
  {
  }

  /** An unknown user is answered with 404 after the one lookup. */
  lemma UnknownUserRejected(username: string, users: map<string, UserRecord>, geocoder: string -> Reply<GeocodeData>,
                            search: PlacesService)
    requires username != "" && username !in users
    ensures Respond(username, users, geocoder, search) == (Response(404, Message(UserNotFound)), [FindUser(username)])
  {
  }

  /** A stored record without a location, without hobbies or without a free-time list is answered with 400 before geocoding. */
  lemma IncompleteUserRejected(username: string, users: map<string, UserRecord>, geocoder: string -> Reply<GeocodeData>,
                               search: PlacesService)
    requires username != "" && username in users && !IsComplete(users[username])
    ensures Respond(username, users, geocoder, search) == (Response(400, Message(IncompleteUserData)), [FindUser(username)])
  {
  }

  /**
   * For a known, complete user the handler looks the user up, geocodes the
   * stored location exactly once and before anything else, and then only
   * searches for places; the response is 200 or 500.
   */
  lemma GeocodesOnceBeforeSearching(username: string, users: map<string, UserRecord>,
                                    geocoder: string -> Reply<GeocodeData>, search: PlacesService)
    requires username != "" && username in users && IsComplete(users[username])
    ensures var (response, calls) := Respond(username, users, geocoder, search);
            && |calls| >= 2
            && calls[0] == FindUser(username)
            && calls[1] == Geocode(users[username].currentLocation.value)
            && (forall t :: 2 <= t < |calls| ==> calls[t].NearbySearch?)
            && (response.status == 200 || response.status == 500)
  {
    var user := users[username];
    var coordinates := GetCoordinatesForLocation(geocoder, user.currentLocation.value);
    if coordinates.Ok? {
      var m := |user.freeTime.value|;
      var g := GatherSlots(coordinates.value, user.hobbies.value, user.freeTime.value, search, m);
      GatherSlotsLog(coordinates.value, user.hobbies.value, user.freeTime.value, search, m);
      var calls := Respond(username, users, geocoder, search).1;
      forall t | 2 <= t < |calls| ensures calls[t].NearbySearch? {
        assert calls[t] == g.calls[t - 2] == Repeat(HobbySearches(coordinates.value, user.hobbies.value), m)[t - 2];
        RepeatHoldsSearches(coordinates.value, user.hobbies.value, m, t - 2);
      }
    }
  }

  /**
   * The searches follow the nested loops: after the lookup and the geocoding
   * come, slot after slot, one search per hobby in hobby order, each with the
   * raw hobby label (not its mapped keyword), the geocoded coordinates and
   * the default radius; all of them on a 200 response, and a prefix of them
   * otherwise. Every search keyword is one of the stored hobbies.
   */
  lemma SearchesFollowSlotsThenHobbies(username: string, users: map<string, UserRecord>,
                                       geocoder: string -> Reply<GeocodeData>, search: PlacesService)
    requires username != "" && username in users && IsComplete(users[username])
    requires GetCoordinatesForLocation(geocoder, users[username].currentLocation.value).Ok?
    ensures var hobbies := users[username].hobbies.value;
            var coordinates := GetCoordinatesForLocation(geocoder, users[username].currentLocation.value).value;
            var (response, calls) := Respond(username, users, geocoder, search);
            var rounds := Repeat(HobbySearches(coordinates, hobbies), |users[username].freeTime.value|);
            && calls[2..] <= rounds
            && (response.status == 200 ==> calls[2..] == rounds)
            && (forall t :: 2 <= t < |calls| ==> calls[t].NearbySearch? && calls[t].query.keyword in hobbies)
  {
    var user := users[username];
    var coordinates := GetCoordinatesForLocation(geocoder, user.currentLocation.value).value;
    var m := |user.freeTime.value|;
    var g := GatherSlots(coordinates, user.hobbies.value, user.freeTime.value, search, m);
    GatherSlotsLog(coordinates, user.hobbies.value, user.freeTime.value, search, m);
    var calls := Respond(username, users, geocoder, search).1;
    assert calls[2..] == g.calls;
    forall t | 2 <= t < |calls| ensures calls[t].NearbySearch? && calls[t].query.keyword in user.hobbies.value {
      assert calls[t] == Repeat(HobbySearches(coordinates, user.hobbies.value), m)[t - 2];
      RepeatHoldsSearches(coordinates, user.hobbies.value, m, t - 2);
    }
  }

  /** Helper: once geocoding succeeds, the response is decided by the outer loop alone. */
  lemma RespondAfterGeocoding(username: string, users: map<string, UserRecord>,
                              geocoder: string -> Reply<GeocodeData>, search: PlacesService)
    requires username != "" && username in users && IsComplete(users[username])
    requires GetCoordinatesForLocation(geocoder, users[username].currentLocation.value).Ok?
    ensures var user := users[username];
            var coordinates := GetCoordinatesForLocation(geocoder, user.currentLocation.value).value;
            var g := GatherSlots(coordinates, user.hobbies.value, user.freeTime.value, search, |user.freeTime.value|);
            var (response, calls) := Respond(username, users, geocoder, search);
            && calls == [FindUser(username), Geocode(user.currentLocation.value)] + g.calls
            && response == if g.outcome.Ok? then Response(200, Recommendations(g.outcome.value))
                           else Response(500, Message(ServerError))
  {
  }

  /** Helper: the searches keep their numbers when the lookup and the geocoding are logged before them. */
  lemma LogAfterLookups(search: PlacesService, before: seq<Call>, log: seq<Call>, ok: bool)
    requires LogSucceeded(search, log, 0, ok)
    ensures var calls := before + log;
            && (forall t :: |before| <= t < |calls| && (ok || t < |calls| - 1) ==> SearchSucceeded(search, calls[t], t - |before|))
            && (!ok ==> |calls| > |before| && !SearchSucceeded(search, calls[|calls| - 1], |calls| - 1 - |before|))
  {
    var calls := before + log;
    forall t | |before| <= t < |calls| ensures calls[t] == log[t - |before|] {
    }
  }

  /**
   * A 200 response has one entry per stored slot, in stored order, labelled
   * `day start-end`; each entry holds at most three venues, namely the first
   * three of the concatenation, in hobby order, of each hobby's first three
   * places; every slot's searches were made, and none threw.
   */
  lemma SuccessHasOneEntryPerSlot(username: string, users: map<string, UserRecord>,
                                  geocoder: string -> Reply<GeocodeData>, search: PlacesService)
    requires Respond(username, users, geocoder, search).0.status == 200
    ensures username in users && IsComplete(users[username])
    ensures GetCoordinatesForLocation(geocoder, users[username].currentLocation.value).Ok?
    ensures var user := users[username];
            var hobbies, freeTime := user.hobbies.value, user.freeTime.value;
            var coordinates := GetCoordinatesForLocation(geocoder, user.currentLocation.value).value;
            var (response, calls) := Respond(username, users, geocoder, search);
            && response.body.Recommendations?
            && |response.body.slots| == |freeTime|
            && |calls| == 2 + |freeTime| * |hobbies|
            && (forall t :: 2 <= t < |calls| ==> SearchSucceeded(search, calls[t], t - 2))
            && (forall i :: 0 <= i < |freeTime| ==>
                  && response.body.slots[i].timeSlot == SlotLabel(freeTime[i])
                  && |response.body.slots[i].recommendations| <= PerSlotLimit
                  && response.body.slots[i].recommendations
                     == Take(SlotVenues(coordinates, hobbies, search, i * |hobbies|), PerSlotLimit))
  {
    var user := users[username];
    var coordinates := GetCoordinatesForLocation(geocoder, user.currentLocation.value).value;
    var g := GatherSlots(coordinates, user.hobbies.value, user.freeTime.value, search, |user.freeTime.value|);
    GatherSlotsLog(coordinates, user.hobbies.value, user.freeTime.value, search, |user.freeTime.value|);
    GatherSlotsOutcome(coordinates, user.hobbies.value, user.freeTime.value, search, |user.freeTime.value|);
    GatherSlotsResults(coordinates, user.hobbies.value, user.freeTime.value, search, |user.freeTime.value|);
    LogAfterLookups(search, [FindUser(username), Geocode(user.currentLocation.value)], g.calls, true);
  }

  /**
   * A 500 response carries only the error message, no partial results; it
   * happens exactly when geocoding fails or the last search made threw,
   * every earlier search having succeeded.
   */
  lemma FailureAbortsWholeRequest(username: string, users: map<string, UserRecord>,
                                  geocoder: string -> Reply<GeocodeData>, search: PlacesService)
    requires username != "" && username in users && IsComplete(users[username])
    ensures var (response, calls) := Respond(username, users, geocoder, search);
            var geocoded := GetCoordinatesForLocation(geocoder, users[username].currentLocation.value);
            && (response.status == 500 <==>
                  geocoded.Err? || (|calls| > 2 && !SearchSucceeded(search, calls[|calls| - 1], |calls| - 3)))
            && (response.status == 500 ==> response.body == Message(ServerError))
            && (geocoded.Err? ==> |calls| == 2)
            && (forall t :: 2 <= t < |calls| - 1 ==> SearchSucceeded(search, calls[t], t - 2))
  {
    var user := users[username];
    var geocoded := GetCoordinatesForLocation(geocoder, user.currentLocation.value);
    if geocoded.Ok? {
      var g := GatherSlots(geocoded.value, user.hobbies.value, user.freeTime.value, search, |user.freeTime.value|);
      var before := [FindUser(username), Geocode(user.currentLocation.value)];
      GatherSlotsOutcome(geocoded.value, user.hobbies.value, user.freeTime.value, search, |user.freeTime.value|);
      LogAfterLookups(search, before, g.calls, g.outcome.Ok?);
      RespondAfterGeocoding(username, users, geocoder, search);
      var (response, calls) := Respond(username, users, geocoder, search);
      assert calls == before + g.calls;
      assert response.status == 500 <==> !g.outcome.Ok?;
    }
  }

  /** An empty free-time list is not rejected: once geocoding succeeds the answer is 200 with no entries and no search is made. */
  lemma EmptyFreeTimeGivesEmptyList(username: string, users: map<string, UserRecord>,
                                    geocoder: string -> Reply<GeocodeData>, search: PlacesService)
    requires username != "" && username in users && IsComplete(users[username])
    requires users[username].freeTime.value == []
    requires GetCoordinatesForLocation(geocoder, users[username].currentLocation.value).Ok?
    ensures Respond(username, users, geocoder, search)
         == (Response(200, Recommendations([])), [FindUser(username), Geocode(users[username].currentLocation.value)])
  {
    var before := [FindUser(username), Geocode(users[username].currentLocation.value)];
    assert before + [] == before;
  }

  /**
   * One hobby, one slot and a search that finds five places: the answer is a
   * single entry labelled `day start-end` holding the first three of them, and
   * the search is made with the raw hobby label.
   */
  lemma SingleSlotScenario(username: string, users: map<string, UserRecord>, geocoder: string -> Reply<GeocodeData>,
                           search: PlacesService, location: string, hobby: string, slot: TimeSlot, places: seq<Place>)
    requires username != "" && username in users && location != ""
    requires users[username] == UserRecord(Some(location), Some([hobby]), Some([slot]))
    requires GetCoordinatesForLocation(geocoder, location).Ok?
    requires var query := PlacesQuery(GetCoordinatesForLocation(geocoder, location).value, hobby, DefaultRadius);
             search(0)(query) == Received(PlacesData(StatusOk, places))
    requires |places| == 5
    ensures var query := PlacesQuery(GetCoordinatesForLocation(geocoder, location).value, hobby, DefaultRadius);
            Respond(username, users, geocoder, search)
            == (Response(200, Recommendations([SlotRecommendation(slot.day + " " + slot.start + "-" + slot.end,
                                                               [ShapeVenue(places[0]), ShapeVenue(places[1]), ShapeVenue(places[2])])])),
             [FindUser(username), Geocode(location), NearbySearch(query)])
  {
    var coordinates := GetCoordinatesForLocation(geocoder, location).value;
    var top := TopVenues(places);
    assert top == [ShapeVenue(places[0]), ShapeVenue(places[1]), ShapeVenue(places[2])];
    var query := PlacesQuery(coordinates, hobby, DefaultRadius);
    assert [] + top == top && [] + [NearbySearch(query)] == [NearbySearch(query)];
    assert GatherSlot(coordinates, [hobby], search, 0, 0) == Gathered(Ok([]), []);
    assert GatherSlot(coordinates, [hobby], search, 0, 1) == Gathered(Ok(top), [NearbySearch(query)]);
    assert Take(top, PerSlotLimit) == top;
    assert GatherSlots(coordinates, [hobby], [slot], search, 0) == Gathered(Ok([]), []);
    var entry := SlotRecommendation(SlotLabel(slot), top);
    assert [] + [entry] == [entry];
    assert GatherSlots(coordinates, [hobby], [slot], search, 1)
        == Gathered(Ok([SlotRecommendation(SlotLabel(slot), top)]), [NearbySearch(query)]);
    assert IsComplete(users[username]);
    assert [FindUser(username), Geocode(location)] + [NearbySearch(query)]
        == [FindUser(username), Geocode(location), NearbySearch(query)];
  }

  /** Hobby order decides a full slot: when the first hobby's search gives at least three places, the slot holds exactly those. */
  lemma {:induction false} FirstHobbyFillsSlot(coordinates: string, hobbies: seq<string>, search: PlacesService, base: nat)
    requires |hobbies| > 0
    requires PlacesFor(search, coordinates, hobbies[0], base).Ok?
    requires |PlacesFor(search, coordinates, hobbies[0], base).value| >= PerHobbyLimit
    ensures Take(SlotVenues(coordinates, hobbies, search, base), PerSlotLimit)
         == TopVenues(PlacesFor(search, coordinates, hobbies[0], base).value)
  {
    var f := seq(|hobbies|, t requires 0 <= t < |hobbies| => HobbyVenues(search, coordinates, hobbies[t], base + t));
    assert f[0] == TopVenues(PlacesFor(search, coordinates, hobbies[0], base).value);
    FlattenStartsWithFirst(f);
  }

  /** The concatenation of a non-empty list of sequences starts with the first one. */
  lemma {:induction false} FlattenStartsWithFirst<T>(ss: seq<seq<T>>)
    requires |ss| > 0
    ensures |Flatten(ss)| >= |ss[0]| && Flatten(ss)[..|ss[0]|] == ss[0]
  {
    if |ss| > 1 {
      FlattenStartsWithFirst(ss[..|ss| - 1]);
      assert ss[..|ss| - 1][0] == ss[0];
    } else {
      assert ss[..0] == [];
    }
  }
}
