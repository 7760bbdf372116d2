# Weekly planner: recommendation pipeline and client forms, in Dafny

This project models the core of a personal weekly-activity planner. A user signs up, picks hobbies, enters weekly free-time windows and a home location. The server then answers with up to three nearby venues for every free-time slot, found through a geocoding service and a nearby-places service.

The model covers two parts:

- **Server** (`maps_service.dfy`, `planner_routes.dfy`):
  - The decision logic of the maps service wrappers: geocoding, nearby search, search by address, and the hobby-to-keyword table.
  - The `/generate-recommendations` handler: it validates the user record, geocodes once, then runs nested loops over the slots and, within each slot, over the hobbies. It caps and shapes venues and aborts with 500 on any thrown error.
  - The handler is an imperative method with the source's two loops. It is proved equal to a recursive specification, `PlannerRoutes.Respond`, which the property lemmas are about.
  - The two upstream services are function parameters:
    - a geocoder from address to reply;
    - a places service that is given the number of searches made earlier in the request and the query.
  - The handler also returns the log of calls it made (user lookup, geocoding, searches), so ordering and abort properties can be stated.
- **Client** (one file per page):
  - `free_time_page.dfy`: the free-time form, with the `HH:MM` check, the slot table capped at two per day, the valid-slot search and the continue guard.
  - `results_page.dfy`: the results page, with its day-keyed results dictionary, initial load, "Load More" and rendering conditions.
  - `hobbies_page.dfy`: the hobby toggle.
  - `signup_page.dfy`: the sign-up form's field dispatch and submit chain.
  - The state of the free-time, results and sign-up components is a class whose fields the handlers assign. The hobby picker is modelled with pure functions on the selected list. Navigation is the route a handler returns.

`common.dfy` holds `Option`, `Result` and the prefix function `Take` (JavaScript's `slice(0, n)`).

The system's own design description (not shipped with this project) differs from its code in four places; the model follows the code:

- **All hobbies in every slot.** The handler searches every hobby in every slot, in stored order, with no shuffling. The design describes a shuffled round-robin assignment of one hobby per slot.
- **Raw hobby labels.** The handler searches with the raw hobby label. It imports only `getCoordinatesForLocation` and `fetchNearbyPlaces`, never `mapHobbyToKeyword`.
- **No partial results.** A search that throws aborts the whole request with 500. The design describes absorbing per-slot failures into an empty list.
- **No `hobby` field.** Each output entry has only `timeSlot` and `recommendations`. The design also lists a `hobby` field.

## Model

| member | source | states |
|---|---|---|
| Common.Take | website/server/routes/plannerRoutes.js:82 | `slice(0, n)`: the result has `min(n, |s|)` elements and is a prefix of `s` |
| MapsService.GetCoordinatesForLocation | website/server/services/googleMapsService.js:11-35 | a thrown call is rethrown; a missing or empty `results` is the "no results" error, and it is the only error on a received reply; otherwise the answer is `lat,lng` of the first result, from which that result is recovered |
| MapsService.CoordinatesRoundTrip | website/server/services/googleMapsService.js:28-30 | parsing the `lat,lng` text gives back the latitude and longitude that were formatted (latitude without a comma) |
| MapsService.OnlyFirstCandidateUsed | website/server/services/googleMapsService.js:27-30 | two geocoder replies that agree on their first result give the same coordinates, whatever the other results are |
| MapsService.FetchNearbyPlaces | website/server/services/googleMapsService.js:44-69 | an error exactly when the call throws; any status other than `OK` gives an empty list; `OK` gives the upstream results unchanged and in order |
| MapsService.SearchConsultsOneQuery | website/server/services/googleMapsService.js:44-51 | the search depends only on the reply to the one query built from location, keyword and radius |
| MapsService.Lower | website/server/services/googleMapsService.js:80 | lower-casing keeps the length, lowers each character and leaves no capital letter |
| MapsService.LookupFinds | website/server/services/googleMapsService.js:80-120 | the table lookup finds something exactly when the key is a table key, and, with distinct keys, gives that entry's keyword |
| MapsService.KeywordLookupIsAnEntry | website/server/services/googleMapsService.js:80-117 | a successful lookup returns the keyword of an entry whose key is the one looked up |
| MapsService.MapHobbyToKeyword | website/server/services/googleMapsService.js:77-121 | empty hobby gives `""`; a hobby whose lower-case form is a table key gives that entry's keyword; any other hobby is returned verbatim |
| MapsService.LowerWithoutCapitals | website/server/services/googleMapsService.js:80 | lower-casing a text without capitals changes nothing |
| MapsService.KeyPrefixesDistinguishKeys | website/server/services/googleMapsService.js:81-116 | the 18 table keys start with 18 different two-letter prefixes |
| MapsService.KeysHaveNoCapitals | website/server/services/googleMapsService.js:81-116 | no table key holds a capital letter |
| MapsService.KeywordTableWellFormed | website/server/services/googleMapsService.js:81-116 | the table has 18 entries with distinct, lower-case keys |
| MapsService.KnownHobbyMapsToItsKeyword | website/server/services/googleMapsService.js:80-117 | any casing of the key of entry `i` maps to entry `i`'s keyword |
| MapsService.MappingIsCaseInsensitive | website/server/services/googleMapsService.js:80 | two known hobbies equal up to case map to the same keyword |
| MapsService.YogaInAnyCase | website/server/services/googleMapsService.js:85-86 | "YOGA" and "yoga" both give "yoga studio" |
| MapsService.GymMapsToItself | website/server/services/googleMapsService.js:115-116 | every casing of "gym" gives "gym" |
| MapsService.ReadingPassesThrough | website/server/services/googleMapsService.js:118-119 | "reading" in any casing is not in the table and is returned with its own casing |
| MapsService.FetchNearbyPlacesByAddress | website/server/services/googleMapsService.js:131-151 | a geocoding error is rethrown unchanged; otherwise the result is the nearby search with the coordinates, the mapped keyword and the radius, an error exactly when that search throws |
| MapsService.GeocodeFailureSkipsSearch | website/server/services/googleMapsService.js:137-149 | when geocoding fails the places service is never consulted: any two services give the same geocoding error |
| MapsService.ByAddressSearchesMappedKeyword | website/server/services/googleMapsService.js:134-140 | the only query sent is (geocoded coordinates, `mapHobbyToKeyword(hobby)`, radius) |
| MapsService.ByAddressDefaultRadius | website/server/services/googleMapsService.js:131 | without a radius the search uses 5000 |
| PlannerRoutes.ShapeVenue | website/server/routes/plannerRoutes.js:70-75 | name is the place name, address its vicinity; rating is `N/A` exactly when the place rating is missing or 0, else that rating |
| PlannerRoutes.VenueLinkCarriesPlaceId | website/server/routes/plannerRoutes.js:74 | the link is the Google Maps place prefix followed by the place id, which reads back from it |
| PlannerRoutes.TopVenues | website/server/routes/plannerRoutes.js:70-75 | at most 3 venues, `min(3, |places|)` of them, the i-th shaped from the i-th place |
| PlannerRoutes.GenerateRecommendations | website/server/routes/plannerRoutes.js:31-97 | the handler (validation, one geocoding, then the loops of `GatherRecommendations`) returns exactly the response and call log of the recursive specification `Respond` |
| PlannerRoutes.GatherRecommendations | website/server/routes/plannerRoutes.js:57-96 | the two nested loops give exactly the outcome and search log of the outer-loop specification `GatherSlots` over all slots, including the early exit on a thrown search |
| PlannerRoutes.GatherSlotStep | website/server/routes/plannerRoutes.js:66-78 | a successful search for hobby `j` extends the inner loop's list by that hobby's top three and its log by that search |
| PlannerRoutes.GatherSlotsStep | website/server/routes/plannerRoutes.js:59-88 | a slot whose inner loop succeeded adds one entry, labelled `day start-end` with the first three venues, and the slot's searches to the log |
| PlannerRoutes.SearchFailureAborts | website/server/routes/plannerRoutes.js:66-96 | once a search throws mid-loop, the whole aggregation ends with that error and the log ends at that search |
| PlannerRoutes.SlotErrorPersists | website/server/routes/plannerRoutes.js:66-79 | after a thrown search the inner loop's outcome and log no longer change |
| PlannerRoutes.SlotsErrorPersists | website/server/routes/plannerRoutes.js:59-89 | after a thrown search the outer loop's outcome and log no longer change |
| PlannerRoutesProperties.GatherSlotCalls | website/server/routes/plannerRoutes.js:66-67 | the inner loop searches the hobbies in order with raw labels, the coordinates and radius 5000; at most one search per hobby, stopping right after the search that threw, and exactly one per hobby when none throws |
| PlannerRoutesProperties.GatherSlotSearches | website/server/routes/plannerRoutes.js:66-67 | every search of the inner loop before the last succeeded; the last one too unless the loop failed, and then it threw the loop's error |
| PlannerRoutesProperties.GatherSlotVenues | website/server/routes/plannerRoutes.js:66-79 | without a thrown search the slot's list is the concatenation, in hobby order, of each hobby's first three venues |
| PlannerRoutesProperties.GatherSlotsLog | website/server/routes/plannerRoutes.js:59-89 | the outer loop's log is a prefix of one round of hobby searches per slot, and all of it when nothing throws |
| PlannerRoutesProperties.RepeatHoldsSearches | website/server/routes/plannerRoutes.js:59-67 | every logged call of the loops is a nearby search for one of the stored hobbies |
| PlannerRoutesProperties.GatherSlotQueries | website/server/routes/plannerRoutes.js:66-67 | the inner loop's `t`-th search is for the `t`-th hobby |
| PlannerRoutesProperties.GatherSlotOutcome | website/server/routes/plannerRoutes.js:66-67 | in the inner loop every search but the last succeeded, and the last one too unless the loop failed |
| PlannerRoutesProperties.GatherSlotsRound | website/server/routes/plannerRoutes.js:59-89 | after successful rounds, a round appends its slot's searches and fails, with the same error, exactly when its inner loop does |
| PlannerRoutesProperties.LogsConcatenate | website/server/routes/plannerRoutes.js:59-67 | a log of successful searches followed by a round numbered on from it is a log whose searches succeeded except, on failure, the last |
| PlannerRoutesProperties.GatherSlotsOutcome | website/server/routes/plannerRoutes.js:59-89 | across the outer loop the k-th logged search is search number k; all but the last succeeded, and the last one too unless the loop failed |
| PlannerRoutesProperties.GatherSlotsAppends | website/server/routes/plannerRoutes.js:81-88 | without a thrown search each round appends one entry, built from its slot's venues |
| PlannerRoutesProperties.GatherSlotsResults | website/server/routes/plannerRoutes.js:59-89 | without a thrown search there is one entry per slot, in order, labelled `day start-end`, holding the first 3 of that slot's venues |
| PlannerRoutesProperties.MissingUsernameRejected | website/server/routes/plannerRoutes.js:32-36 | a missing username gives 400 "Username is required." before any lookup |
| PlannerRoutesProperties.UnknownUserRejected | website/server/routes/plannerRoutes.js:40-43 | an unknown user gives 404 "User not found" after one lookup and nothing else |
| PlannerRoutesProperties.IncompleteUserRejected | website/server/routes/plannerRoutes.js:46-51 | a falsy location, missing or empty hobbies, or missing free time gives 400 "Incomplete user data." without geocoding |
| PlannerRoutesProperties.GeocodesOnceBeforeSearching | website/server/routes/plannerRoutes.js:40-67 | for a complete user: lookup first, then exactly one geocoding of the stored location, then only searches; status 200 or 500 |
| PlannerRoutesProperties.SearchesFollowSlotsThenHobbies | website/server/routes/plannerRoutes.js:59-67 | the searches go slot by slot and hobby by hobby with raw labels, the geocoded coordinates and radius 5000; all rounds on 200, a prefix otherwise |
| PlannerRoutesProperties.RespondAfterGeocoding | website/server/routes/plannerRoutes.js:54-96 | once geocoding succeeds the log is lookup, geocoding, then the loops' searches, and the response is 200 with the entries or 500 with "Server error." as the loops succeed or fail |
| PlannerRoutesProperties.LogAfterLookups | website/server/routes/plannerRoutes.js:40-67 | searches logged after the lookup and the geocoding keep their numbers and their success |
| PlannerRoutesProperties.SuccessHasOneEntryPerSlot | website/server/routes/plannerRoutes.js:57-92 | a 200 has one entry per stored slot in order, labelled `day start-end`, each with at most 3 venues, namely the first 3 of the hobby-ordered concatenation of each hobby's first 3 places; every search was made and succeeded |
| PlannerRoutesProperties.FailureAbortsWholeRequest | website/server/routes/plannerRoutes.js:54-96 | 500 exactly when geocoding fails or the last search made threw; its body is only "Server error."; a geocoding failure makes no search |
| PlannerRoutesProperties.EmptyFreeTimeGivesEmptyList | website/server/routes/plannerRoutes.js:49-92 | an empty free-time list is accepted and gives 200 with `[]` and no search |
| PlannerRoutesProperties.SingleSlotScenario | website/server/routes/plannerRoutes.js:59-92 | one hobby, one slot, five places found: one entry with the first three venues, after exactly one search with the raw hobby |
| PlannerRoutesProperties.FirstHobbyFillsSlot | website/server/routes/plannerRoutes.js:66-82 | when the first hobby yields at least three places, the slot holds exactly that hobby's top three |
| FreeTimePage.FormattedTimeIsValid | website/client/src/Pages/FreeTime/FreeTimePage.js:17 | every time 00:00 to 23:59 written `HH:MM` passes the check, and its hours and minutes read back |
| FreeTimePage.ValidTimeIsFormatted | website/client/src/Pages/FreeTime/FreeTimePage.js:17 | every text that passes is `HH:MM` with hours below 24 and minutes below 60 |
| FreeTimePage.ValidTimeIffTimeOfDay | website/client/src/Pages/FreeTime/FreeTimePage.js:17 | the check accepts exactly the 5-character `HH:MM` spellings of the times of day |
| FreeTimePage.EndBeforeStartAccepted | website/client/src/Pages/FreeTime/FreeTimePage.js:44-53 | start is not required to precede end: 18:00 to 09:30 counts as a valid slot |
| FreeTimePage.HasValidSlot | website/client/src/Pages/FreeTime/FreeTimePage.js:44-53 | the day-by-day, slot-by-slot search answers true exactly when some slot on some day has both times valid |
| FreeTimePage.TrimEmptyIffBlank | website/client/src/Pages/FreeTime/FreeTimePage.js:57 | `trim()` leaves nothing exactly when every character is white space or a line terminator |
| FreeTimePage.InitialTimeSlotsShape | website/client/src/Pages/FreeTime/FreeTimePage.js:6-11 | the initial table has the seven weekdays, each with one empty slot, and no valid slot |
| FreeTimePage.FreeTimeForm.constructor | website/client/src/Pages/FreeTime/FreeTimePage.js:9-14 | initial table, empty location, no error, and at most two slots per weekday |
| FreeTimePage.FreeTimeForm.HandleTimeChange | website/client/src/Pages/FreeTime/FreeTimePage.js:20-26 | only the named field of the indexed slot on that day changes; the error is cleared; the two-per-day bound is kept |
| FreeTimePage.FreeTimeForm.HandleLocationChange | website/client/src/Pages/FreeTime/FreeTimePage.js:29-31 | only the location changes |
| FreeTimePage.FreeTimeForm.AddSlot | website/client/src/Pages/FreeTime/FreeTimePage.js:34-41 | an empty slot is appended only to a day with fewer than 2; other days unchanged; no day exceeds 2 |
| FreeTimePage.FreeTimeForm.HandleContinue | website/client/src/Pages/FreeTime/FreeTimePage.js:56-68 | a blank location gives the location error whatever the slots; else no valid slot gives the free-time error; else navigation to `/results`; the table is unchanged |
| ResultsPage.FetchActivities | website/client/src/Pages/Results/ResultsPage.js:5-18 | the mock gives two activities with ids 1 and 2, named `Activity 1 for start-end` and `Activity 2 for start-end` after the slot's window, tied to the first two hobbies (absent beyond the list), and a next-page token only when none was given |
| ResultsPage.FirstValidIndex | website/client/src/Pages/Results/ResultsPage.js:44-45 | the position of a valid slot on the day with no earlier valid slot on that day |
| ResultsPage.LoadSlotsKeys | website/client/src/Pages/Results/ResultsPage.js:42-52 | after the initial load the keys that existed keep their values, and the new keys are exactly the days of valid slots |
| ResultsPage.LoadSlotsValues | website/client/src/Pages/Results/ResultsPage.js:44-49 | each day the load adds maps exactly to the fetched page for the first valid slot on that day |
| ResultsPage.LoadSlotsFetches | website/client/src/Pages/Results/ResultsPage.js:44-50 | fetches happen only for valid slots on days that were not keys, at most once per day |
| ResultsPage.LoadSlotsNewKeys | website/client/src/Pages/Results/ResultsPage.js:44-50 | the days the load adds are exactly the days it fetched for |
| ResultsPage.SecondSlotOnSameDaySkipped | website/client/src/Pages/Results/ResultsPage.js:45 | a later valid slot on a day already loaded changes neither the dictionary nor the fetches |
| ResultsPage.Appended | website/client/src/Pages/Results/ResultsPage.js:61-64 | "Load More" keeps every other day, keeps the day's existing list (absent meaning empty) as a prefix and ends it with the two activities of the page fetched with the next-page token |
| ResultsPage.ValidSlots | website/client/src/Pages/Results/ResultsPage.js:74-75 | the rendered slots are exactly the valid ones, in their stored order; none exactly when every slot is invalid |
| ResultsPage.ValidSlotsConcat | website/client/src/Pages/Results/ResultsPage.js:74-75 | filtering distributes over concatenation, so the valid slots keep their order and multiplicity |
| ResultsPage.ValidSlotsSingle | website/client/src/Pages/Results/ResultsPage.js:74-75 | one slot is kept once when valid and dropped otherwise; with the previous row this fixes the filter in order |
| ResultsPage.Card | website/client/src/Pages/Results/ResultsPage.js:78-87 | a card shows its slot's heading and shows the day's list, even an empty one, exactly when the day is a key; otherwise "No activities found yet." |
| ResultsPage.RenderShowsValidSlots | website/client/src/Pages/Results/ResultsPage.js:74-87 | a slot's card is rendered exactly when the slot is valid |
| ResultsPage.NoValidSlotsMessageIffNoCards | website/client/src/Pages/Results/ResultsPage.js:99-101 | the "no valid time slots" message is shown exactly when no card is rendered |
| ResultsPage.ResultsView.constructor | website/client/src/Pages/Results/ResultsPage.js:21-30 | the mock slots and hobbies, an empty dictionary, not loading |
| ResultsPage.ResultsView.LoadActivities | website/client/src/Pages/Results/ResultsPage.js:40-54 | the loop over the slots leaves the dictionary and the fetches of the specification `LoadSlots`; loading is false at the end |
| ResultsPage.ResultsView.LoadMoreActivities | website/client/src/Pages/Results/ResultsPage.js:57-66 | an invalid slot changes nothing; otherwise the next page is appended to the day's list and loading is false |
| ResultsPage.MountLoad | website/client/src/Pages/Results/ResultsPage.js:32-54 | the load on mount adds Monday and Wednesday with their two mock activities and fetches for those two slots only |
| ResultsPage.MountScenario | website/client/src/Pages/Results/ResultsPage.js:21-34 | mounting loads Monday and Wednesday with the Sports and Art activities, skips the empty Tuesday slot and renders two cards |
| HobbiesPage.RemoveAll | website/client/src/Pages/Hobbies/HobbiesPage.js:22 | the filtered list holds exactly the other names and never the removed one |
| HobbiesPage.Toggle | website/client/src/Pages/Hobbies/HobbiesPage.js:20-26 | the hobby is selected afterwards exactly when it was not; other names keep their membership; a selected hobby is removed with every occurrence; an absent hobby is appended after the unchanged list |
| HobbiesPage.RemoveAllConcat | website/client/src/Pages/Hobbies/HobbiesPage.js:22 | removal distributes over concatenation, so the names kept stay in order |
| HobbiesPage.RemoveAllAbsent | website/client/src/Pages/Hobbies/HobbiesPage.js:22 | removing an absent name leaves the list unchanged |
| HobbiesPage.RemoveAllKeepsNoDuplicates | website/client/src/Pages/Hobbies/HobbiesPage.js:22 | removal keeps a duplicate-free list duplicate-free |
| HobbiesPage.ToggleKeepsNoDuplicates | website/client/src/Pages/Hobbies/HobbiesPage.js:20-26 | a toggle keeps a duplicate-free list duplicate-free |
| HobbiesPage.ToggleTwiceAbsentRestores | website/client/src/Pages/Hobbies/HobbiesPage.js:20-26 | two toggles of an unselected hobby restore the list |
| HobbiesPage.ToggleTwicePresentMovesToEnd | website/client/src/Pages/Hobbies/HobbiesPage.js:20-26 | two toggles of a selected hobby move it to the end, the others kept in order |
| HobbiesPage.SelectionIsCatalogueSet | website/client/src/Pages/Hobbies/HobbiesPage.js:6-41 | from the empty start, any clicks on catalogue buttons give a duplicate-free list of catalogue names |
| HobbiesPage.SelectedIffOddClicks | website/client/src/Pages/Hobbies/HobbiesPage.js:20-41 | a catalogue entry is shown selected exactly after an odd number of clicks on it |
| HobbiesPage.ToggleFlipsParity | website/client/src/Pages/Hobbies/HobbiesPage.js:20-26 | a click flips the membership of the clicked name and of no other |
| HobbiesPage.CatalogueNamesDistinct | website/client/src/Pages/Hobbies/HobbiesPage.js:9-18 | the eight catalogue names are distinct |
| SignUpPage.Validate | website/client/src/Pages/Signup/SignUpPage.js:40-48 | missing field exactly when any of the four is empty; mismatch exactly when all are filled and the passwords differ; accepted otherwise |
| SignUpPage.ErrorText | website/client/src/Pages/Signup/SignUpPage.js:40-48 | a missing field gives "All fields are required!" and a mismatch "Passwords do not match!" |
| SignUpPage.MissingFieldTakesPriority | website/client/src/Pages/Signup/SignUpPage.js:40-48 | an empty field is reported even when the passwords also differ |
| SignUpPage.SignUpForm.constructor | website/client/src/Pages/Signup/SignUpPage.js:6-10 | all fields and the error start empty |
| SignUpPage.SignUpForm.HandleChange | website/client/src/Pages/Signup/SignUpPage.js:15-33 | exactly the field named by the input changes; an unknown name changes nothing |
| SignUpPage.SignUpForm.HandleSubmit | website/client/src/Pages/Signup/SignUpPage.js:36-56 | a rejected form shows "All fields are required!" or "Passwords do not match!" and stays; an accepted one clears the error and goes to `/hobbies`; fields unchanged |

## Left out

- HTTP plumbing is not modelled: axios requests, URL building, `encodeURIComponent`, the API key from the environment, and console logging. Upstream replies are the abstract `Reply` datatype.
- The places service in the handler is a function of the search's number within the request and of its query. This over-approximates a real service, which may answer the same query differently at different times.
- The database is not modelled beyond lookup. `User.findOne` is a lookup in a map of user records; a database failure, which the source turns into 500, is not represented.
- Express and the JSON encoding are not modelled. A response is a status and a body datatype.
- `PlannerRoutes.ShapeVenue`: a rating is a `real` or absent, so the falsy `NaN` case of `place.rating || 'N/A'` is not represented; 0 is.
- `MapsService.GetCoordinatesForLocation`: latitude and longitude are opaque strings. The round trip back to the first result is stated only when the latitude text has no comma.
- `MapsService.Lower`: ASCII letters only, not full Unicode `toLowerCase`. All 18 table keys are ASCII, but a non-ASCII capital that JavaScript lowers to an ASCII letter is missed: with the KELVIN SIGN (U+212A) in place of `K`, "HI\u212AING" maps to "hiking trail" in the source and is returned verbatim by the model.
- `MapsService.MapHobbyToKeyword`: an absent hobby (`undefined`/`null`) is represented by the empty string, which the source treats the same way.
- Asynchrony and React are not modelled:
  - `async`/`await` ordering, the one-second `setTimeout` in the mock activity source, and re-rendering;
  - the `useEffect` that triggers the first load on mount, represented by `ResultsPage.MountScenario`;
  - state setters, which are plain field assignments.
- `FreeTimePage.FreeTimeForm.HandleTimeChange`: the source writes the new value into the slot object itself, which the previous state shares. The model replaces the slot by value, so that aliasing is not captured.
- `FreeTimePage.FreeTimeForm.HandleTimeChange` and `FreeTimePage.FreeTimeForm.AddSlot` require a day that is in the table (and, for the first, an existing slot index). The page only calls them from rendered rows.
- `FreeTimePage.HasValidSlot` visits the days in an unspecified order, not JavaScript's key-insertion order. Its answer does not depend on the order.
- `ResultsPage.LoadSlotsKeys`: day keys are tested with map membership. The source's truthiness test would also treat inherited object properties (a day named `constructor`, say) as present.
- `HobbiesPage` leaves out the catalogue icons and the "When can I do it?" button, which only navigates to `/freetime`.
- The other pages and server files are not part of this model: login, the entrance page, the planner create/list routes, the Mongoose schemas and the unrouted copies of the hobbies and sign-up pages.
