/**
 * The results page of the client (website/client/src/Pages/Results/ResultsPage.js):
 * a dictionary from day to the activities shown for it, filled once per day
 * when the page mounts and extended by "Load More".
 *
 * The page's activity source is the mock in the same file; it is modelled as
 * the function `FetchActivities`, without its one-second delay.
 */
module ResultsPage {
  import opened Common

  /** A slot as the page holds it. */
  datatype TimeSlot = TimeSlot(day: string, start: string, end: string)

  /** One suggested activity; `hobby` is absent when the hobby list is too short. */
  datatype Activity = Activity(id: nat, name: string, hobby: Option<string>)

  /** One page of fetched activities. */
  datatype ActivityPage = ActivityPage(results: seq<Activity>, nextPageToken: Option<string>)

  /** One rendered slot: its heading and its activities, `None` where "No activities found yet." is shown. */
  datatype SlotCard = SlotCard(day: string, start: string, end: string, activities: Option<seq<Activity>>)

  const NextPageToken: string := "next-page-token"
  const NoValidSlotsMessage: string := "You have not entered valid time slots. Please go back and add your free time!"

  /** The slots the page starts with; the Tuesday one is empty. */
  const MockTimeSlots: seq<TimeSlot> := [
    TimeSlot("Monday", "10:00", "12:00"),
    TimeSlot("Tuesday", "", ""),
    TimeSlot("Wednesday", "14:00", "16:00")
  ]

  /** The hobbies the page starts with. */
  const MockHobbies: seq<string> := ["Sports", "Art"]

  /** `hobbies[i]`, absent beyond the end of the list. */
  function HobbyAt(hobbies: seq<string>, i: nat): (h: Option<string>)
    ensures h.Some? <==> i < |hobbies|
    ensures h.Some? ==> h.value == hobbies[i]
  {
    if i < |hobbies| then Some(hobbies[i]) else None
  }

  /** A page token counts as given when it is present and not empty. */
  predicate TokenGiven(pageToken: Option<string>)
  {
    pageToken.Some? && pageToken.value != ""
  }

  /**
   * The mock activity source: two activities named after the slot's window,
   * tied to the first two hobbies; a next-page token only on the first page.
   */
  function FetchActivities(slot: TimeSlot, hobbies: seq<string>, pageToken: Option<string>): (page: ActivityPage)
    ensures |page.results| == 2
    ensures forall i :: 0 <= i < 2 ==> page.results[i].id == i + 1 && page.results[i].hobby == HobbyAt(hobbies, i)
    ensures page.results[0].name == "Activity 1 for " + slot.start + "-" + slot.end
    ensures page.results[1].name == "Activity 2 for " + slot.start + "-" + slot.end
    ensures page.nextPageToken.None? <==> TokenGiven(pageToken)
  {
    var window := slot.start + "-" + slot.end;
    ActivityPage(
      [Activity(1, "Activity 1 for " + window, HobbyAt(hobbies, 0)),
       Activity(2, "Activity 2 for " + window, HobbyAt(hobbies, 1))],
      if TokenGiven(pageToken) then None else Some(NextPageToken))
  }

  /** A slot is usable when both its start and its end are filled in. */
  predicate IsValidSlot(slot: TimeSlot)
  {
    slot.start != "" && slot.end != ""
  }

  // ---------------------------------------------------------------------------
  // The initial load
  // ---------------------------------------------------------------------------

  /**
   * The dictionary after the initial load has gone over `slots`, and the
   * slots fetched for, in order: a slot is fetched for when it is valid and
   * its day is not yet a key, and its day then maps to the first page of
   * activities for it.
   */
  function LoadSlots(results: map<string, seq<Activity>>, slots: seq<TimeSlot>, hobbies: seq<string>)
    : (r: (map<string, seq<Activity>>, seq<TimeSlot>))
  {
    if slots == [] then (results, [])
    else
      var (before, fetched) := LoadSlots(results, slots[..|slots| - 1], hobbies);
      var slot := slots[|slots| - 1];
      if IsValidSlot(slot) && slot.day !in before then
        (before[slot.day := FetchActivities(slot, hobbies, None).results], fetched + [slot])
      else
        (before, fetched)
  }

  /** Whether some valid slot among `slots` falls on `day`. */
  predicate HasValidOn(slots: seq<TimeSlot>, day: string)
  {
    exists i :: 0 <= i < |slots| && IsValidSlot(slots[i]) && slots[i].day == day
  }

  /** Helper: a valid slot on `day` falls in `slots` exactly when one falls in all but the last, or the last is one. */
  lemma HasValidOnSnoc(slots: seq<TimeSlot>, day: string)
    requires slots != []
    ensures HasValidOn(slots, day) <==>
              HasValidOn(slots[..|slots| - 1], day) || (IsValidSlot(slots[|slots| - 1]) && slots[|slots| - 1].day == day)
  {
    var init := slots[..|slots| - 1];
    if HasValidOn(slots, day) && !(IsValidSlot(slots[|slots| - 1]) && slots[|slots| - 1].day == day) {
      var i :| 0 <= i < |slots| && IsValidSlot(slots[i]) && slots[i].day == day;
      assert init[i] == slots[i];
    }
    if HasValidOn(init, day) {
      var i :| 0 <= i < |init| && IsValidSlot(init[i]) && init[i].day == day;
      assert slots[i] == init[i];
    }
  }

  /** The position of the first valid slot on `day`. */
  function FirstValidIndex(slots: seq<TimeSlot>, day: string): (i: nat)
    requires HasValidOn(slots, day)
    ensures i < |slots| && IsValidSlot(slots[i]) && slots[i].day == day
    ensures forall j :: 0 <= j < i ==> !(IsValidSlot(slots[j]) && slots[j].day == day)
  {
    var init := slots[..|slots| - 1];
    HasValidOnSnoc(slots, day);
    if HasValidOn(init, day) then
      var i := FirstValidIndex(init, day);
      assert forall j :: 0 <= j <= i ==> slots[j] == init[j];
      i
    else
      assert forall j :: 0 <= j < |init| ==> slots[j] == init[j];
      |slots| - 1
  }

  /**
   * The initial load keeps every existing key with its value and adds
   * exactly the days of the valid slots.
   */
  lemma {:induction false} LoadSlotsKeys(results: map<string, seq<Activity>>, slots: seq<TimeSlot>, hobbies: seq<string>)
    ensures var r := LoadSlots(results, slots, hobbies).0;
      && (forall day :: day in results ==> day in r && r[day] == results[day])
      && (forall day :: day in r <==> day in results || HasValidOn(slots, day))
  {
    if slots != [] {
      LoadSlotsKeys(results, slots[..|slots| - 1], hobbies);
      forall day {
        HasValidOnSnoc(slots, day);
      }
    }
  }

  /** Each day the initial load adds maps to the first page for the first valid slot on that day. */
  lemma {:induction false} LoadSlotsValues(results: map<string, seq<Activity>>, slots: seq<TimeSlot>, hobbies: seq<string>)
    ensures var r := LoadSlots(results, slots, hobbies).0;
      forall day :: day in r && day !in results ==>
        HasValidOn(slots, day) && r[day] == FetchActivities(slots[FirstValidIndex(slots, day)], hobbies, None).results
  {
    if slots != [] {
      var init := slots[..|slots| - 1];
      var slot := slots[|slots| - 1];
      LoadSlotsValues(results, init, hobbies);
      LoadSlotsKeys(results, init, hobbies);
      LoadSlotsKeys(results, slots, hobbies);
      var before := LoadSlots(results, init, hobbies).0;
      var r := LoadSlots(results, slots, hobbies).0;
      forall day | day in r && day !in results
        ensures HasValidOn(slots, day) && r[day] == FetchActivities(slots[FirstValidIndex(slots, day)], hobbies, None).results
      {
        HasValidOnSnoc(slots, day);
        if day in before {
          var i := FirstValidIndex(init, day);
          assert FirstValidIndex(slots, day) == i;
          assert slots[i] == init[i];
        } else {
          assert FirstValidIndex(slots, day) == |slots| - 1;
        }
      }
    }
  }

  /**
   * The initial load fetches only for valid slots on days that were not keys,
   * and at most once per day.
   */
  lemma {:induction false} LoadSlotsFetches(results: map<string, seq<Activity>>, slots: seq<TimeSlot>, hobbies: seq<string>)
    ensures var (r, fetched) := LoadSlots(results, slots, hobbies);
      && (forall i :: 0 <= i < |fetched| ==> fetched[i] in slots && IsValidSlot(fetched[i]) && fetched[i].day !in results)
      && (forall i, j :: 0 <= i < j < |fetched| ==> fetched[i].day != fetched[j].day)
  {
    if slots != [] {
      var init := slots[..|slots| - 1];
      var slot := slots[|slots| - 1];
      LoadSlotsFetches(results, init, hobbies);
      LoadSlotsNewKeys(results, init, hobbies);
      LoadSlotsKeys(results, init, hobbies);
      var (before, fetched) := LoadSlots(results, init, hobbies);
      assert forall x :: x in init ==> x in slots;
      if IsValidSlot(slot) && slot.day !in before {
        var f := fetched + [slot];
        assert slot.day !in results;
        assert forall i :: 0 <= i < |fetched| ==> f[i] == fetched[i];
        assert f[|fetched|] == slot;
        assert slot in slots;
        assert forall i :: 0 <= i < |f| ==> f[i] in slots && IsValidSlot(f[i]) && f[i].day !in results;
      }
    }
  }

  /** The days the load added to the map are exactly the days of the slots it fetched for. */
  lemma {:induction false} LoadSlotsNewKeys(results: map<string, seq<Activity>>, slots: seq<TimeSlot>, hobbies: seq<string>)
    ensures var (r, fetched) := LoadSlots(results, slots, hobbies);
      forall day :: day in r && day !in results <==> exists i :: 0 <= i < |fetched| && fetched[i].day == day
  {
    if slots != [] {
      var init := slots[..|slots| - 1];
      var slot := slots[|slots| - 1];
      LoadSlotsNewKeys(results, init, hobbies);
      LoadSlotsKeys(results, init, hobbies);
      var (before, fetched) := LoadSlots(results, init, hobbies);
      if IsValidSlot(slot) && slot.day !in before {
        var f := fetched + [slot];
        assert slot.day !in results;
        assert forall i :: 0 <= i < |fetched| ==> f[i] == fetched[i];
        assert f[|fetched|] == slot;
      }
    }
  }


  /** A later valid slot on a day already loaded is skipped: it adds no fetch and changes nothing. */
  lemma SecondSlotOnSameDaySkipped(results: map<string, seq<Activity>>, slots: seq<TimeSlot>, slot: TimeSlot, hobbies: seq<string>)
    requires HasValidOn(slots, slot.day)
    ensures LoadSlots(results, slots + [slot], hobbies) == LoadSlots(results, slots, hobbies)
  {
    LoadSlotsKeys(results, slots, hobbies);
    assert (slots + [slot])[..|slots|] == slots;
  }

  // ---------------------------------------------------------------------------
  // Load more
  // ---------------------------------------------------------------------------

  /** The dictionary after "Load More" on a valid slot: the next page appended to the day's list. */
  function Appended(results: map<string, seq<Activity>>, slot: TimeSlot, hobbies: seq<string>): (r: map<string, seq<Activity>>)
    ensures slot.day in r && r.Keys == results.Keys + {slot.day}
    ensures forall day :: day in results && day != slot.day ==> r[day] == results[day]
    ensures (if slot.day in results then results[slot.day] else []) <= r[slot.day]
    ensures |r[slot.day]| == (if slot.day in results then |results[slot.day]| else 0) + 2
    ensures r[slot.day] == (if slot.day in results then results[slot.day] else []) + FetchActivities(slot, hobbies, Some(NextPageToken)).results
  {
    var existing := if slot.day in results then results[slot.day] else [];
    results[slot.day := existing + FetchActivities(slot, hobbies, Some(NextPageToken)).results]
  }

  // ---------------------------------------------------------------------------
  // Rendering
  // ---------------------------------------------------------------------------

  /** The slots that are rendered: the valid ones, in order. */
  function ValidSlots(slots: seq<TimeSlot>): (v: seq<TimeSlot>)
    ensures |v| <= |slots|
    ensures forall x :: x in v <==> x in slots && IsValidSlot(x)
    ensures v == [] <==> forall i :: 0 <= i < |slots| ==> !IsValidSlot(slots[i])
  {
    if slots == [] then []
    else if IsValidSlot(slots[0]) then [slots[0]] + ValidSlots(slots[1..])
    else ValidSlots(slots[1..])
  }

  /** Filtering distributes over concatenation: the rendered slots keep their relative order. */
  lemma {:induction false} ValidSlotsConcat(a: seq<TimeSlot>, b: seq<TimeSlot>)
    ensures ValidSlots(a + b) == ValidSlots(a) + ValidSlots(b)
  {
    if a != [] {
      var ab := a + b;
      assert ab[0] == a[0] && ab[1..] == a[1..] + b;
      ValidSlotsConcat(a[1..], b);
      var rest := ValidSlots(a[1..]) + ValidSlots(b);
      if IsValidSlot(a[0]) {
        assert ValidSlots(ab) == [a[0]] + rest;
        assert ValidSlots(a) == [a[0]] + ValidSlots(a[1..]);
        assert [a[0]] + rest == ([a[0]] + ValidSlots(a[1..])) + ValidSlots(b);
      } else {
        assert ValidSlots(ab) == rest;
        assert ValidSlots(a) == ValidSlots(a[1..]);
      }
    } else {
      assert a + b == b;
    }
  }

  /** A single slot is rendered once when it is valid and not at all otherwise. */
  lemma ValidSlotsSingle(x: TimeSlot)
    ensures ValidSlots([x]) == if IsValidSlot(x) then [x] else []
  {
    assert [x][1..] == [];
  }

  /**
   * The card for a rendered slot. A day that is a key shows its list, even an
   * empty one; only a day that is not a key shows "No activities found yet."
   */
  function Card(slot: TimeSlot, results: map<string, seq<Activity>>): (c: SlotCard)
    ensures c.day == slot.day && c.start == slot.start && c.end == slot.end
    ensures c.activities.Some? <==> slot.day in results
    ensures c.activities.Some? ==> c.activities.value == results[slot.day]
  {
    SlotCard(slot.day, slot.start, slot.end, if slot.day in results then Some(results[slot.day]) else None)
  }

  /** The cards shown: one per valid slot, in order. */
  function Render(slots: seq<TimeSlot>, results: map<string, seq<Activity>>): (cards: seq<SlotCard>)
  {
    var v := ValidSlots(slots);
    seq(|v|, i requires 0 <= i < |v| => Card(v[i], results))
  }

  /** Whether the "no valid time slots" message is shown: every slot is invalid. */
  predicate ShowsNoValidSlotsMessage(slots: seq<TimeSlot>)
  {
    forall i :: 0 <= i < |slots| ==> !IsValidSlot(slots[i])
  }

  /** A card is rendered for a slot exactly when the slot is valid. */
  lemma RenderShowsValidSlots(slots: seq<TimeSlot>, results: map<string, seq<Activity>>, slot: TimeSlot)
    requires slot in slots
    ensures Card(slot, results) in Render(slots, results) <==> IsValidSlot(slot)
  {
    var v := ValidSlots(slots);
    var cards := Render(slots, results);
    if IsValidSlot(slot) {
      var i :| 0 <= i < |v| && v[i] == slot;
      assert cards[i] == Card(slot, results);
    }
  }

  /** The "no valid time slots" message is shown exactly when no card is rendered. */
  lemma NoValidSlotsMessageIffNoCards(slots: seq<TimeSlot>, results: map<string, seq<Activity>>)
    ensures ShowsNoValidSlotsMessage(slots) <==> Render(slots, results) == []
  {
    assert |Render(slots, results)| == |ValidSlots(slots)|;
  }

  // ---------------------------------------------------------------------------
  // The page
  // ---------------------------------------------------------------------------

  class ResultsView {
    var timeSlots: seq<TimeSlot>
    var hobbies: seq<string>
    var activityResults: map<string, seq<Activity>>
    var loading: bool

    /** The page before its first load: the mock slots and hobbies, no results, not loading. */
    constructor ()
      ensures timeSlots == MockTimeSlots && hobbies == MockHobbies
      ensures activityResults == map[] && !loading
    {
      timeSlots := MockTimeSlots;
      hobbies := MockHobbies;
      activityResults := map[];
      loading := false;
    }

    /**
     * The initial load: goes over the slots in order, fetching for each valid
     * slot whose day is not yet a key; returns the slots it fetched for.
     */
    method LoadActivities() returns (fetched: seq<TimeSlot>)
      modifies this
      ensures (activityResults, fetched) == LoadSlots(old(activityResults), timeSlots, hobbies)
      ensures timeSlots == old(timeSlots) && hobbies == old(hobbies)
      ensures !loading
    {
      loading := true;
      var slots, start := timeSlots, activityResults;
      var newResults := start;
      fetched := [];
      var i := 0;
      while i < |slots|
        invariant 0 <= i <= |slots|
        invariant (newResults, fetched) == LoadSlots(start, slots[..i], hobbies)
      {
        var slot := slots[i];
        assert slots[..i + 1][..i] == slots[..i] && slots[..i + 1][i] == slot;
        if IsValidSlot(slot) && slot.day !in newResults {
          ghost var prior := newResults;
          newResults := newResults[slot.day := []];
          var apiResponse := FetchActivities(slot, hobbies, None);
          assert newResults[slot.day] + apiResponse.results == apiResponse.results;
          newResults := newResults[slot.day := newResults[slot.day] + apiResponse.results];
          assert newResults == prior[slot.day := apiResponse.results];
          fetched := fetched + [slot];
        }
        assert newResults == LoadSlots(start, slots[..i + 1], hobbies).0;
        assert fetched == LoadSlots(start, slots[..i + 1], hobbies).1;
        i := i + 1;
      }
      assert slots[..i] == slots;
      activityResults := newResults;
      loading := false;
    }

    /**
     * "Load More" for one slot: nothing happens for an invalid slot;
     * otherwise the next page is appended to that day's list.
     */
    method LoadMoreActivities(slot: TimeSlot)
      modifies this
      ensures !IsValidSlot(slot) ==> activityResults == old(activityResults) && loading == old(loading)
      ensures IsValidSlot(slot) ==> activityResults == Appended(old(activityResults), slot, hobbies) && !loading
      ensures timeSlots == old(timeSlots) && hobbies == old(hobbies)
    {
      if !IsValidSlot(slot) {
        return;
      }
      loading := true;
      var results, h := activityResults, hobbies;
      var apiResponse := FetchActivities(slot, h, Some(NextPageToken));
      var previous := if slot.day in results then results[slot.day] else [];
      assert results[slot.day := previous + apiResponse.results] == Appended(results, slot, h);
      activityResults := results[slot.day := previous + apiResponse.results];
      loading := false;
    }
  }

  /** Helper: the initial load over the mock slots, step by step. */
  lemma MountLoad()
    ensures LoadSlots(map[], MockTimeSlots, MockHobbies)
         == (map["Monday" := FetchActivities(MockTimeSlots[0], MockHobbies, None).results,
                 "Wednesday" := FetchActivities(MockTimeSlots[2], MockHobbies, None).results],
             [MockTimeSlots[0], MockTimeSlots[2]])
  {
    var s, h := MockTimeSlots, MockHobbies;
    var monday := FetchActivities(s[0], h, None).results;
    var wednesday := FetchActivities(s[2], h, None).results;
    assert s[0].day == "Monday" && IsValidSlot(s[0]);
    assert s[2].day == "Wednesday" && IsValidSlot(s[2]);
    assert !IsValidSlot(s[1]);
    var one := LoadSlots(map[], s[..1], h);
    assert s[..1][..0] == [] && s[..1][0] == s[0];
    assert LoadSlots(map[], [], h) == (map[], []);
    assert [] + [s[0]] == [s[0]];
    assert one == (map["Monday" := monday], [s[0]]);
    var two := LoadSlots(map[], s[..2], h);
    assert s[..2][..1] == s[..1] && s[..2][1] == s[1];
    assert two == one;
    assert s[..3][..2] == s[..2] && s[..3][2] == s[2] && s[..3] == s;
    assert "Wednesday" !in one.0;
    assert [s[0]] + [s[2]] == [s[0], s[2]];
  }

  /**
   * Mounting the page: Monday and Wednesday are loaded with two activities
   * each, tied to "Sports" and "Art"; the empty Tuesday slot is neither
   * fetched for nor rendered.
   */
  lemma MountScenario()
    ensures var (r, fetched) := LoadSlots(map[], MockTimeSlots, MockHobbies);
      && r.Keys == {"Monday", "Wednesday"}
      && fetched == [MockTimeSlots[0], MockTimeSlots[2]]
      && |r["Monday"]| == 2 && r["Monday"][0].hobby == Some("Sports") && r["Monday"][1].hobby == Some("Art")
    ensures |Render(MockTimeSlots, LoadSlots(map[], MockTimeSlots, MockHobbies).0)| == 2
    ensures !ShowsNoValidSlotsMessage(MockTimeSlots)
  {
    MountLoad();
    var s := MockTimeSlots;
    assert !IsValidSlot(s[1]) && IsValidSlot(s[0]) && IsValidSlot(s[2]);
    assert s[1..][1..] == [s[2]];
    assert ValidSlots(s) == [s[0], s[2]];
  }
}
