/**
 * The free-time form of the client (website/client/src/Pages/FreeTime/FreeTimePage.js):
 * up to two `HH:MM` windows per weekday and a home location, checked before
 * moving on to the results page.
 *
 * The component's state (`timeSlots`, `currentLocation`, `errorMessage`) is
 * the class `FreeTimeForm`; a state setter is a plain field assignment, and a
 * call to `navigate` is the route a handler returns.
 */
module FreeTimePage {
  import opened Common

  /** One time window as typed: the start and end text. */
  datatype Slot = Slot(start: string, end: string)

  /** The two inputs of a slot. */
  datatype Field = Start | End

  const DaysOfWeek: seq<string> := ["Monday", "Tuesday", "Wednesday", "Thursday", "Friday", "Saturday", "Sunday"]

  /** A day may hold at most this many slots. */
  const MaxSlotsPerDay: nat := 2

  const EmptySlot: Slot := Slot("", "")
  const LocationError: string := "Please enter your current location."
  const FreeTimeError: string := "You have not entered your free time."
  const ResultsRoute: string := "/results"

  // ---------------------------------------------------------------------------
  // Time validation
  // ---------------------------------------------------------------------------

  predicate IsDigit(c: char)
  {
    '0' <= c <= '9'
  }

  /** The 24-hour `HH:MM` check: hours 00 to 23, minutes 00 to 59, exactly five characters. */
  predicate IsValidTime(time: string)
  {
    && |time| == 5
    && (((time[0] == '0' || time[0] == '1') && IsDigit(time[1])) || (time[0] == '2' && '0' <= time[1] <= '3'))
    && time[2] == ':'
    && '0' <= time[3] <= '5' && IsDigit(time[4])
  }

  /** The digit character for `d`. */
  function DigitChar(d: nat): (c: char)
    requires d < 10
    ensures IsDigit(c) && DigitValue(c) == d
  {
    ('0' as int + d) as char
  }

  /** The value of a digit character. */
  function DigitValue(c: char): int
  {
    c as int - '0' as int
  }

  /** A number below 100 as two digits, with a leading zero. */
  function TwoDigits(n: nat): string
    requires n < 100
  {
    [DigitChar(n / 10), DigitChar(n % 10)]
  }

  /** The text of the time `h:m`, written `HH:MM`. */
  function FormatTime(h: nat, m: nat): (s: string)
    requires h < 24 && m < 60
    ensures |s| == 5
  {
    TwoDigits(h) + ":" + TwoDigits(m)
  }

  /** The hours a five-character time text denotes. */
  function HoursOf(s: string): int
    requires |s| == 5
  {
    10 * DigitValue(s[0]) + DigitValue(s[1])
  }

  /** The minutes a five-character time text denotes. */
  function MinutesOf(s: string): int
    requires |s| == 5
  {
    10 * DigitValue(s[3]) + DigitValue(s[4])
  }

  /** Every time of day, written `HH:MM`, passes the check. */
  lemma FormattedTimeIsValid(h: nat, m: nat)
    requires h < 24 && m < 60
    ensures IsValidTime(FormatTime(h, m))
    ensures HoursOf(FormatTime(h, m)) == h && MinutesOf(FormatTime(h, m)) == m
  {
    var s := FormatTime(h, m);
    assert s[0] == DigitChar(h / 10) && s[1] == DigitChar(h % 10);
    assert s[3] == DigitChar(m / 10) && s[4] == DigitChar(m % 10);
  }

  /** Every text that passes the check is a time of day written `HH:MM`. */
  lemma ValidTimeIsFormatted(s: string)
    requires IsValidTime(s)
    ensures 0 <= HoursOf(s) < 24 && 0 <= MinutesOf(s) < 60
    ensures s == FormatTime(HoursOf(s), MinutesOf(s))
  {
    var h, m := HoursOf(s), MinutesOf(s);
    assert h / 10 == DigitValue(s[0]) && h % 10 == DigitValue(s[1]);
    assert m / 10 == DigitValue(s[3]) && m % 10 == DigitValue(s[4]);
    var f := FormatTime(h, m);
    assert f[0] == s[0] && f[1] == s[1] && f[2] == s[2] && f[3] == s[3] && f[4] == s[4];
  }

  /** The check accepts exactly the `HH:MM` spellings of the times from 00:00 to 23:59. */
  lemma ValidTimeIffTimeOfDay(s: string)
    ensures IsValidTime(s) <==> exists h: nat, m: nat :: h < 24 && m < 60 && s == FormatTime(h, m)
  {
    if IsValidTime(s) {
      ValidTimeIsFormatted(s);
      var h: nat, m: nat := HoursOf(s), MinutesOf(s);
      assert h < 24 && m < 60 && s == FormatTime(h, m);
    }
    if exists h: nat, m: nat :: h < 24 && m < 60 && s == FormatTime(h, m) {
      var h: nat, m: nat :| h < 24 && m < 60 && s == FormatTime(h, m);
      FormattedTimeIsValid(h, m);
    }
  }

  /** The check does not compare start and end: a window that ends before it starts passes. */
  lemma EndBeforeStartAccepted()
    ensures BothTimesValid(Slot(FormatTime(18, 0), FormatTime(9, 30)))
  {
    FormattedTimeIsValid(18, 0);
    FormattedTimeIsValid(9, 30);
  }

  /** Whether both times of a slot pass the check. */
  predicate BothTimesValid(slot: Slot)
  {
    IsValidTime(slot.start) && IsValidTime(slot.end)
  }

  /** Whether some slot on some day has both times valid. */
  predicate AnyValidSlot(timeSlots: map<string, seq<Slot>>)
  {
    exists day, i :: day in timeSlots && 0 <= i < |timeSlots[day]| && BothTimesValid(timeSlots[day][i])
  }

  /**
   * The search for a valid slot: day by day, slot by slot, stopping at the
   * first slot whose start and end are both valid. The days are visited in
   * some order of the keys; the answer does not depend on it.
   */
  method HasValidSlot(timeSlots: map<string, seq<Slot>>) returns (found: bool)
    ensures found <==> AnyValidSlot(timeSlots)
  {
    var remaining := timeSlots.Keys;
    while remaining != {}
      invariant remaining <= timeSlots.Keys
      invariant forall day, i :: day in timeSlots && day !in remaining && 0 <= i < |timeSlots[day]| ==>
                  !BothTimesValid(timeSlots[day][i])
      decreases remaining
    {
      var day :| day in remaining;
      var slots := timeSlots[day];
      var i := 0;
      while i < |slots|
        invariant 0 <= i <= |slots|
        invariant forall k :: 0 <= k < i ==> !BothTimesValid(slots[k])
      {
        if IsValidTime(slots[i].start) && IsValidTime(slots[i].end) {
          return true;
        }
        i := i + 1;
      }
      remaining := remaining - {day};
    }
    return false;
  }

  // ---------------------------------------------------------------------------
  // Location check
  // ---------------------------------------------------------------------------

  /** The characters `String.prototype.trim` removes: white space and line terminators. */
  predicate IsTrimmable(c: char)
  {
    || c == '\t' || c == '\n' || c == '\U{B}' || c == '\U{C}' || c == '\r' || c == ' '
    || c == '\U{A0}' || c == '\U{1680}' || '\U{2000}' <= c <= '\U{200A}'
    || c == '\U{2028}' || c == '\U{2029}' || c == '\U{202F}' || c == '\U{205F}'
    || c == '\U{3000}' || c == '\U{FEFF}'
  }

  /** `s` without its leading trimmable characters. */
  function TrimStart(s: string): string
  {
    if |s| > 0 && IsTrimmable(s[0]) then TrimStart(s[1..]) else s
  }

  /** `s` without its trailing trimmable characters. */
  function TrimEnd(s: string): string
  {
    if |s| > 0 && IsTrimmable(s[|s| - 1]) then TrimEnd(s[..|s| - 1]) else s
  }

  /** `s` without leading and trailing trimmable characters. */
  function Trim(s: string): string
  {
    TrimEnd(TrimStart(s))
  }

  /** Trimming leaves nothing exactly when every character is trimmable. */
  lemma {:induction false} TrimEmptyIffBlank(s: string)
    ensures Trim(s) == "" <==> forall i :: 0 <= i < |s| ==> IsTrimmable(s[i])
  {
    TrimStartEmptyIffBlank(s);
    var t := TrimStart(s);
    if t != "" {
      TrimStartKeepsFirst(s);
      TrimEndKeepsNonTrimmableFirst(t);
    }
  }

  /** Helper: stripping the front leaves nothing exactly when every character is trimmable. */
  lemma {:induction false} TrimStartEmptyIffBlank(s: string)
    ensures TrimStart(s) == "" <==> forall i :: 0 <= i < |s| ==> IsTrimmable(s[i])
  {
    if |s| > 0 && IsTrimmable(s[0]) {
      TrimStartEmptyIffBlank(s[1..]);
      assert forall i :: 1 <= i < |s| ==> s[i] == s[1..][i - 1];
    }
  }

  /** Helper: what stripping the front leaves, when anything, starts with a character that is not trimmable. */
  lemma {:induction false} TrimStartKeepsFirst(s: string)
    ensures TrimStart(s) != "" ==> !IsTrimmable(TrimStart(s)[0])
  {
    if |s| > 0 && IsTrimmable(s[0]) {
      TrimStartKeepsFirst(s[1..]);
    }
  }

  /** Helper: stripping the back never removes a first character that is not trimmable. */
  lemma {:induction false} TrimEndKeepsNonTrimmableFirst(s: string)
    requires |s| > 0 && !IsTrimmable(s[0])
    ensures TrimEnd(s) != ""
  {
    if IsTrimmable(s[|s| - 1]) {
      TrimEndKeepsNonTrimmableFirst(s[..|s| - 1]);
    }
  }

  // ---------------------------------------------------------------------------
  // The form
  // ---------------------------------------------------------------------------

  /** The initial table: every weekday with one empty slot. */
  function InitialTimeSlots(): map<string, seq<Slot>>
  {
    map day | day in DaysOfWeek :: [EmptySlot]
  }

  /** The initial table has the seven weekdays, each with exactly one empty slot, and so no valid slot. */
  lemma InitialTimeSlotsShape()
    ensures |DaysOfWeek| == 7
    ensures forall day :: day in InitialTimeSlots() <==> day in DaysOfWeek
    ensures forall day :: day in InitialTimeSlots() ==> InitialTimeSlots()[day] == [EmptySlot]
    ensures !AnyValidSlot(InitialTimeSlots())
  {
    assert !IsValidTime(EmptySlot.start);
  }

  /** The slot with one of its times replaced. */
  function WithField(slot: Slot, field: Field, value: string): Slot
  {
    match field
    case Start => slot.(start := value)
    case End => slot.(end := value)
  }

  class FreeTimeForm {
    var timeSlots: map<string, seq<Slot>>
    var currentLocation: string
    var errorMessage: string

    /** Every weekday, and nothing else, has one or two slots. */
    ghost predicate Valid()
      reads this
    {
      && (forall day :: day in timeSlots <==> day in DaysOfWeek)
      && (forall day :: day in timeSlots ==> 1 <= |timeSlots[day]| <= MaxSlotsPerDay)
    }

    /** The form as first shown: one empty slot per weekday, no location, no error. */
    constructor ()
      ensures Valid()
      ensures timeSlots == InitialTimeSlots() && currentLocation == "" && errorMessage == ""
    {
      timeSlots := InitialTimeSlots();
      currentLocation := "";
      errorMessage := "";
    }

    /** Typing into one time input: only that field of that slot changes, and the error is cleared. */
    method HandleTimeChange(day: string, index: nat, field: Field, value: string)
      requires Valid()
      requires day in timeSlots && index < |timeSlots[day]|
      modifies this
      ensures Valid()
      ensures timeSlots == old(timeSlots)[day := old(timeSlots[day])[index := WithField(old(timeSlots[day][index]), field, value)]]
      ensures errorMessage == "" && currentLocation == old(currentLocation)
    {
      var updatedSlots := timeSlots[day];
      updatedSlots := updatedSlots[index := WithField(updatedSlots[index], field, value)];
      timeSlots := timeSlots[day := updatedSlots];
      errorMessage := "";
    }

    /** Typing into the location input. */
    method HandleLocationChange(value: string)
      requires Valid()
      modifies this
      ensures Valid()
      ensures currentLocation == value
      ensures timeSlots == old(timeSlots) && errorMessage == old(errorMessage)
    {
      currentLocation := value;
    }

    /** The `+` button: appends an empty slot to a day that has fewer than two; other days never change. */
    method AddSlot(day: string)
      requires Valid()
      requires day in timeSlots
      modifies this
      ensures Valid()
      ensures timeSlots == if |old(timeSlots[day])| < MaxSlotsPerDay
                           then old(timeSlots)[day := old(timeSlots[day]) + [EmptySlot]]
                           else old(timeSlots)
      ensures currentLocation == old(currentLocation) && errorMessage == old(errorMessage)
    {
      if |timeSlots[day]| < MaxSlotsPerDay {
        timeSlots := timeSlots[day := timeSlots[day] + [EmptySlot]];
      }
    }

    /**
     * The continue button. A location that is blank once trimmed gives the
     * location error whatever the slots; otherwise no valid slot gives the
     * free-time error; otherwise the page moves to the results.
     */
    method HandleContinue() returns (route: Option<string>)
      requires Valid()
      modifies this
      ensures Valid()
      ensures timeSlots == old(timeSlots) && currentLocation == old(currentLocation)
      ensures (forall i :: 0 <= i < |currentLocation| ==> IsTrimmable(currentLocation[i])) ==>
                route == None && errorMessage == LocationError
      ensures (exists i :: 0 <= i < |currentLocation| && !IsTrimmable(currentLocation[i])) && AnyValidSlot(timeSlots) ==>
                route == Some(ResultsRoute) && errorMessage == old(errorMessage)
      ensures (exists i :: 0 <= i < |currentLocation| && !IsTrimmable(currentLocation[i])) && !AnyValidSlot(timeSlots) ==>
                route == None && errorMessage == FreeTimeError
    {
      TrimEmptyIffBlank(currentLocation);
      if Trim(currentLocation) == "" {
        errorMessage := LocationError;
        return None;
      }
      var found := HasValidSlot(timeSlots);
      if found {
        route := Some(ResultsRoute);
      } else {
        errorMessage := FreeTimeError;
        route := None;
      }
    }
  }
}
