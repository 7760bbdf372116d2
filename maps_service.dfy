/**
 * The server's wrapper around the geocoding and nearby-places services
 * (website/server/services/googleMapsService.js).
 *
 * The HTTP requests themselves are not modelled: an upstream service is a
 * function from the request it is sent to the `Reply` it gives, so that each
 * operation here is the decision the source takes on one reply.
 */
module MapsService {
  import opened Common

  /** What an upstream HTTP call produces: a parsed response body, or a thrown error. */
  datatype Reply<+T> = Received(data: T) | Thrown(message: string)

  /** The errors the wrappers throw. */
  datatype ServiceError =
    | NoResultsForLocation        // thrown when geocoding finds nothing
    | Upstream(message: string)   // a transport or parsing error, rethrown unchanged

  /** One geocoding candidate's `geometry.location`; both numbers are kept as the text JavaScript prints for them. */
  datatype LatLng = LatLng(lat: string, lng: string)

  /** The geocoding response body; `results` may be missing altogether. */
  datatype GeocodeData = GeocodeData(results: Option<seq<LatLng>>)

  /** One entry of a nearby-search response. */
  datatype Place = Place(name: string, vicinity: string, rating: Option<real>, placeId: string)

  /** The nearby-search response body: a status word and the places found, in the service's order. */
  datatype PlacesData = PlacesData(status: string, results: seq<Place>)

  /** The parameters of one nearby-search request. */
  datatype PlacesQuery = PlacesQuery(location: string, keyword: string, radius: int)

  /** The search radius, in metres, used when the caller gives none. */
  const DefaultRadius: int := 5000

  /** The status word of a successful nearby search. */
  const StatusOk: string := "OK"

  // ---------------------------------------------------------------------------
  // Geocoding
  // ---------------------------------------------------------------------------

  /** `lat,lng`, the text form of a coordinate pair that the places search expects. */
  function FormatCoordinates(p: LatLng): string
  {
    p.lat + "," + p.lng
  }

  /** The position of the first `c` in `s`, if any. */
  function IndexOf(s: string, c: char): (r: Option<nat>)
    ensures r.Some? ==> r.value < |s| && s[r.value] == c && c !in s[..r.value]
    ensures r.None? ==> c !in s
  {
    if |s| == 0 then None
    else if s[0] == c then Some(0)
    else match IndexOf(s[1..], c)
      case None => None
      case Some(k) =>
        assert s[..k + 1] == [s[0]] + s[1..][..k];
        Some(k + 1)
  }

  /** Splits `lat,lng` text at its first comma: the inverse of `FormatCoordinates`. */
  function ParseCoordinates(s: string): Option<LatLng>
  {
    match IndexOf(s, ',')
    case None => None
    case Some(k) => Some(LatLng(s[..k], s[k + 1..]))
  }

  /**
   * Resolves a free-text location to `lat,lng` text. A thrown call is
   * rethrown; a response with no `results`, or an empty list of them, is the
   * "no results" error; otherwise only the first candidate is used.
   */
  function GetCoordinatesForLocation(geocoder: string -> Reply<GeocodeData>, location: string): (r: Result<string, ServiceError>)
    ensures geocoder(location).Thrown? ==> r == Err(Upstream(geocoder(location).message))
    ensures geocoder(location).Received? ==>
              var results := geocoder(location).data.results;
              (r.Err? <==> results.None? || |results.value| == 0) &&
              (r.Err? ==> r.error == NoResultsForLocation) &&
              (r.Ok? && ',' !in results.value[0].lat ==> ParseCoordinates(r.value) == Some(results.value[0]))
  {
    match geocoder(location)
    case Thrown(message) => Err(Upstream(message))
    case Received(data) =>
      if data.results.None? || |data.results.value| == 0 then Err(NoResultsForLocation)
      else
        var first := data.results.value[0];
        CoordinatesRoundTrip(first);
        Ok(FormatCoordinates(first))
  }

  /** Latitude and longitude are found again in `lat,lng` when the latitude text has no comma. */
  lemma CoordinatesRoundTrip(p: LatLng)
    ensures ',' !in p.lat ==> ParseCoordinates(FormatCoordinates(p)) == Some(p)
  {
    if ',' !in p.lat {
      var s := FormatCoordinates(p);
      assert s[|p.lat|] == ',';
      assert s[..|p.lat|] == p.lat;
      assert IndexOf(s, ',') == Some(|p.lat|) by {
        var r := IndexOf(s, ',');
        assert r.Some? && s[..|p.lat|] <= s[..r.value + 1];
      }
      assert s[|p.lat| + 1..] == p.lng;
    }
  }

  /** Only the first geocoding candidate matters: replies that agree on it give the same coordinates. */
  lemma OnlyFirstCandidateUsed(g1: string -> Reply<GeocodeData>, g2: string -> Reply<GeocodeData>, location: string)
    requires g1(location).Received? && g2(location).Received?
    requires g1(location).data.results.Some? && g2(location).data.results.Some?
    requires |g1(location).data.results.value| > 0 && |g2(location).data.results.value| > 0
    requires g1(location).data.results.value[0] == g2(location).data.results.value[0]
    ensures GetCoordinatesForLocation(g1, location) == GetCoordinatesForLocation(g2, location)
    ensures GetCoordinatesForLocation(g1, location).Ok?
  {
  }

  // ---------------------------------------------------------------------------
  // Nearby search
  // ---------------------------------------------------------------------------

  /**
   * Searches for places matching `keyword` around `location` (`lat,lng` text).
   * A thrown call is rethrown; any status other than `OK` gives an empty list,
   * never an error; `OK` gives the service's results unchanged and in order.
   */
  function FetchNearbyPlaces(search: PlacesQuery -> Reply<PlacesData>, location: string, keyword: string,
                             radius: int := DefaultRadius): (r: Result<seq<Place>, ServiceError>)
    ensures var reply := search(PlacesQuery(location, keyword, radius));
            && (r.Err? <==> reply.Thrown?)
            && (reply.Thrown? ==> r.error == Upstream(reply.message))
            && (reply.Received? && reply.data.status != StatusOk ==> r.value == [])
            && (reply.Received? && reply.data.status == StatusOk ==> r.value == reply.data.results)
  {
    match search(PlacesQuery(location, keyword, radius))
    case Thrown(message) => Err(Upstream(message))
    case Received(data) => if data.status != StatusOk then Ok([]) else Ok(data.results)
  }

  /** A nearby search consults the service with exactly one query: two services that agree on it give the same result. */
  lemma SearchConsultsOneQuery(s1: PlacesQuery -> Reply<PlacesData>, s2: PlacesQuery -> Reply<PlacesData>,
                               location: string, keyword: string, radius: int)
    requires s1(PlacesQuery(location, keyword, radius)) == s2(PlacesQuery(location, keyword, radius))
    ensures FetchNearbyPlaces(s1, location, keyword, radius) == FetchNearbyPlaces(s2, location, keyword, radius)
  {
  }

  // ---------------------------------------------------------------------------
  // Hobby-to-keyword mapping
  // ---------------------------------------------------------------------------

  /** ASCII lowercasing of one character. */
  function LowerChar(c: char): char
  {
    if 'A' <= c <= 'Z' then (c as int + 32) as char else c
  }

  /** ASCII lowercasing of a string, character by character. */
  function Lower(s: string): (r: string)
    ensures |r| == |s|
    ensures forall i :: 0 <= i < |s| ==> r[i] == LowerChar(s[i])
    ensures NoCapitals(r)
  {
    seq(|s|, i requires 0 <= i < |s| => LowerChar(s[i]))
  }

  /** The hobby table: each lower-case hobby label with the search keyword it stands for, in the source's order. */
  const KeywordTable: seq<(string, string)> := [
    ("swimming", "swimming pool"),
    ("basketball", "basketball court"),
    ("yoga", "yoga studio"),
    ("pilates", "pilates studio"),
    ("ceramics", "pottery studio"),
    ("movie", "cinema"),
    ("tennis", "tennis court"),
    ("cycling", "bike trail"),
    ("cooking", "cooking class"),
    ("painting", "art studio"),
    ("running", "running track"),
    ("chess", "chess club"),
    ("photography", "photography store"),
    ("hiking", "hiking trail"),
    ("surfing", "surfing beach"),
    ("dancing", "dance studio"),
    ("bowling", "bowling alley"),
    ("gym", "gym")
  ]

  /** The keys of a table, in order. */
  function KeysOf(table: seq<(string, string)>): (keys: seq<string>)
    ensures |keys| == |table|
    ensures forall i :: 0 <= i < |table| ==> keys[i] == table[i].0
  {
    seq(|table|, i requires 0 <= i < |table| => table[i].0)
  }

  /** No key appears twice. */
  predicate DistinctKeys(table: seq<(string, string)>)
  {
    forall i, j :: 0 <= i < j < |table| ==> table[i].0 != table[j].0
  }

  /** The value of the first entry whose key is `key`, as a `switch` picks its first matching case. */
  function Lookup(table: seq<(string, string)>, key: string): (r: Option<string>)
  {
    if |table| == 0 then None
    else if table[0].0 == key then Some(table[0].1)
    else Lookup(table[1..], key)
  }

  /** A lookup succeeds exactly for the table's keys, and in a table without repeated keys it gives that key's value. */
  lemma {:induction false} LookupFinds(table: seq<(string, string)>, key: string)
    ensures Lookup(table, key).Some? <==> key in KeysOf(table)
    ensures DistinctKeys(table) ==>
              forall i :: 0 <= i < |table| && table[i].0 == key ==> Lookup(table, key) == Some(table[i].1)
  {
    if |table| > 0 {
      LookupFinds(table[1..], key);
      assert KeysOf(table) == [table[0].0] + KeysOf(table[1..]);
      if DistinctKeys(table) {
        assert DistinctKeys(table[1..]) by {
          forall i, j | 0 <= i < j < |table| - 1 ensures table[1..][i].0 != table[1..][j].0 {
            assert table[i + 1].0 != table[j + 1].0;
          }
        }
        forall i | 0 <= i < |table| && table[i].0 == key ensures Lookup(table, key) == Some(table[i].1) {
          if i > 0 {
            assert table[0].0 != table[i].0;
            assert table[1..][i - 1] == table[i];
          }
        }
      }
    }
  }

  /** Whether a hobby label, in any casing, is one of the table's keys. */
  predicate IsKnownHobby(hobby: string)
  {
    Lower(hobby) in KeysOf(KeywordTable)
  }

  /**
   * The search keyword for a hobby label: the empty string for an empty
   * (or absent) label, the table's keyword when the label's lower-case form
   * is a key, and the label itself, casing unchanged, otherwise.
   */
  function MapHobbyToKeyword(hobby: string): (r: string)
    ensures hobby == "" ==> r == ""
    ensures hobby != "" && !IsKnownHobby(hobby) ==> r == hobby
    ensures hobby != "" && IsKnownHobby(hobby) ==>
              exists i :: 0 <= i < |KeywordTable| && KeywordTable[i].0 == Lower(hobby) && r == KeywordTable[i].1
  {
    if hobby == "" then ""
    else
      LookupFinds(KeywordTable, Lower(hobby));
      match Lookup(KeywordTable, Lower(hobby))
      case Some(keyword) =>
        KeywordLookupIsAnEntry(KeywordTable, Lower(hobby));
        keyword
      case None => hobby
  }

  /** Helper: a successful lookup returns the value of an entry whose key is the one looked up. */
  lemma {:induction false} KeywordLookupIsAnEntry(table: seq<(string, string)>, key: string)
    requires Lookup(table, key).Some?
    ensures exists i :: 0 <= i < |table| && table[i].0 == key && Lookup(table, key).value == table[i].1
  {
    if table[0].0 != key {
      KeywordLookupIsAnEntry(table[1..], key);
      var i :| 0 <= i < |table| - 1 && table[1..][i].0 == key && Lookup(table[1..], key).value == table[1..][i].1;
      assert table[i + 1] == table[1..][i];
    }
  }

  /** The first two letters of each key of the table, in table order; they already tell the keys apart. */
  const KeyPrefixes: seq<(char, char)> := [
    ('s', 'w'), ('b', 'a'), ('y', 'o'), ('p', 'i'), ('c', 'e'), ('m', 'o'), ('t', 'e'), ('c', 'y'), ('c', 'o'),
    ('p', 'a'), ('r', 'u'), ('c', 'h'), ('p', 'h'), ('h', 'i'), ('s', 'u'), ('d', 'a'), ('b', 'o'), ('g', 'y')
  ]

  /** Whether no character of `s` is an ASCII capital. */
  predicate NoCapitals(s: string)
  {
    forall k :: 0 <= k < |s| ==> !('A' <= s[k] <= 'Z')
  }

  /** Lowercasing leaves a string without capitals unchanged. */
  lemma LowerWithoutCapitals(s: string)
    requires NoCapitals(s)
    ensures Lower(s) == s
  {
  }

  /** Helper: each key starts with its listed two-letter prefix, and no prefix is listed twice. */
  lemma KeyPrefixesDistinguishKeys()
    ensures |KeyPrefixes| == |KeywordTable|
    ensures forall i :: 0 <= i < |KeywordTable| ==>
              |KeywordTable[i].0| >= 2 && (KeywordTable[i].0[0], KeywordTable[i].0[1]) == KeyPrefixes[i]
    ensures forall i, j :: 0 <= i < j < |KeyPrefixes| ==> KeyPrefixes[i] != KeyPrefixes[j]
  {
  }

  /** Helper: no key has a capital letter. */
  lemma KeysHaveNoCapitals()
    ensures forall i :: 0 <= i < |KeywordTable| ==> NoCapitals(KeywordTable[i].0)
  {
  }

  /** The table has 18 entries, no key twice, and every key already in lower case, so each entry is reachable. */
  lemma KeywordTableWellFormed()
    ensures |KeywordTable| == 18
    ensures DistinctKeys(KeywordTable)
    ensures forall i :: 0 <= i < |KeywordTable| ==> Lower(KeywordTable[i].0) == KeywordTable[i].0
  {
    KeyPrefixesDistinguishKeys();
    KeysHaveNoCapitals();
    forall i | 0 <= i < |KeywordTable|
      ensures Lower(KeywordTable[i].0) == KeywordTable[i].0
    {
      LowerWithoutCapitals(KeywordTable[i].0);
    }
  }

  /** Every table key, and every re-cased spelling of it, maps to that key's keyword. */
  lemma KnownHobbyMapsToItsKeyword(hobby: string, i: nat)
    requires i < |KeywordTable|
    requires Lower(hobby) == KeywordTable[i].0
    ensures MapHobbyToKeyword(hobby) == KeywordTable[i].1
  {
    KeywordTableWellFormed();
    LookupFinds(KeywordTable, Lower(hobby));
  }

  /** Matching is case-insensitive: two spellings of a known label that lower-case alike give the same keyword. */
  lemma MappingIsCaseInsensitive(a: string, b: string)
    requires Lower(a) == Lower(b)
    requires IsKnownHobby(a)
    ensures MapHobbyToKeyword(a) == MapHobbyToKeyword(b)
  {
    var i :| 0 <= i < |KeywordTable| && KeysOf(KeywordTable)[i] == Lower(a);
    KnownHobbyMapsToItsKeyword(a, i);
    KnownHobbyMapsToItsKeyword(b, i);
  }

  /** "YOGA" and "yoga" both give "yoga studio". */
  lemma YogaInAnyCase()
    ensures MapHobbyToKeyword("YOGA") == MapHobbyToKeyword("yoga") == "yoga studio"
  {
    KnownHobbyMapsToItsKeyword("YOGA", 2);
    KnownHobbyMapsToItsKeyword("yoga", 2);
  }

  /** "gym" maps to itself, in any casing. */
  lemma GymMapsToItself(hobby: string)
    requires Lower(hobby) == "gym"
    ensures MapHobbyToKeyword(hobby) == "gym"
  {
    KnownHobbyMapsToItsKeyword(hobby, 17);
  }

  /** A label whose lower-case form is "reading", which the table lacks, is passed through with its own casing. */
  lemma ReadingPassesThrough(hobby: string)
    requires Lower(hobby) == "reading"
    ensures MapHobbyToKeyword(hobby) == hobby
  {
    assert !IsKnownHobby(hobby) by {
      forall i | 0 <= i < |KeywordTable| ensures KeysOf(KeywordTable)[i] != Lower(hobby) {
        assert |KeywordTable[i].0| != 7 || KeywordTable[i].0[1] != 'e';
      }
    }
  }

  // ---------------------------------------------------------------------------
  // Search by address
  // ---------------------------------------------------------------------------

  /**
   * Geocodes `address`, then searches around it for the keyword of `hobby`.
   * A geocoding error is rethrown and no search is made.
   */
  function FetchNearbyPlacesByAddress(geocoder: string -> Reply<GeocodeData>, search: PlacesQuery -> Reply<PlacesData>,
                                      address: string, hobby: string, radius: int := DefaultRadius)
    : (r: Result<seq<Place>, ServiceError>)
    ensures GetCoordinatesForLocation(geocoder, address).Err? ==> r == Err(GetCoordinatesForLocation(geocoder, address).error)
    ensures GetCoordinatesForLocation(geocoder, address).Ok? ==>
              var reply := search(PlacesQuery(GetCoordinatesForLocation(geocoder, address).value, MapHobbyToKeyword(hobby), radius));
              (r.Err? <==> reply.Thrown?)
    ensures GetCoordinatesForLocation(geocoder, address).Ok? ==>
              r == FetchNearbyPlaces(search, GetCoordinatesForLocation(geocoder, address).value, MapHobbyToKeyword(hobby), radius)
  {
    var keyword := MapHobbyToKeyword(hobby);
    match GetCoordinatesForLocation(geocoder, address)
    case Err(e) => Err(e)
    case Ok(coordinates) => FetchNearbyPlaces(search, coordinates, keyword, radius)
  }

  /** When geocoding fails the places service is never consulted: any two services give the same error. */
  lemma GeocodeFailureSkipsSearch(geocoder: string -> Reply<GeocodeData>, s1: PlacesQuery -> Reply<PlacesData>,
                                  s2: PlacesQuery -> Reply<PlacesData>, address: string, hobby: string, radius: int)
    requires GetCoordinatesForLocation(geocoder, address).Err?
    ensures FetchNearbyPlacesByAddress(geocoder, s1, address, hobby, radius)
         == FetchNearbyPlacesByAddress(geocoder, s2, address, hobby, radius)
         == Err(GetCoordinatesForLocation(geocoder, address).error)
  {
  }

  /** The search by address sends only the query with the geocoded coordinates and the hobby's mapped keyword. */
  lemma ByAddressSearchesMappedKeyword(geocoder: string -> Reply<GeocodeData>, s1: PlacesQuery -> Reply<PlacesData>,
                                       s2: PlacesQuery -> Reply<PlacesData>, address: string, hobby: string, radius: int)
    requires GetCoordinatesForLocation(geocoder, address).Ok?
    requires var q := PlacesQuery(GetCoordinatesForLocation(geocoder, address).value, MapHobbyToKeyword(hobby), radius);
             s1(q) == s2(q)
    ensures FetchNearbyPlacesByAddress(geocoder, s1, address, hobby, radius)
         == FetchNearbyPlacesByAddress(geocoder, s2, address, hobby, radius)
  {
  }

  /** Without an explicit radius the search by address uses 5000 metres. */
  lemma ByAddressDefaultRadius(geocoder: string -> Reply<GeocodeData>, search: PlacesQuery -> Reply<PlacesData>,
                               address: string, hobby: string)
    ensures FetchNearbyPlacesByAddress(geocoder, search, address, hobby)
         == FetchNearbyPlacesByAddress(geocoder, search, address, hobby, 5000)
  {
  }
}
