/** The extension popup: three allow-list inputs that are saved to and
    loaded from storage, a clear button, and the timer read-out computed
    from the stored absolute end time. */
module Popup {

  import opened Wrappers
  import opened Text
  import opened Chrome

  // ---------------------------------------------------------------------
  // Allow-list inputs

  /** `readInputs`: one string per input, the trimmed text of a present
      input and `""` for a missing one; empty strings are kept. */
  function ReadInputs(fields: seq<Option<string>>): (values: seq<string>)
    ensures |values| == |fields|
    ensures forall i :: 0 <= i < |values| ==> IsTrimmed(values[i])
    ensures forall i :: 0 <= i < |values| ==>
              values[i] == (if fields[i].Some? then Trim(fields[i].value) else "")
  {
    seq(|fields|, i requires 0 <= i < |fields| =>
      if fields[i].Some? then Trim(fields[i].value) else "")
  }

  /** `r` can be obtained from `s` by deleting elements, keeping the order. */
  predicate IsSubsequence(r: seq<string>, s: seq<string>)
    decreases |s|
  {
    if r == [] then true
    else if s == [] then false
    else if r[0] == s[0] then IsSubsequence(r[1..], s[1..])
    else IsSubsequence(r, s[1..])
  }

  /** `values.filter(v => v !== '')`. */
  function NonEmpty(values: seq<string>): (kept: seq<string>)
    ensures forall i :: 0 <= i < |kept| ==> kept[i] != ""
  {
    if values == [] then []
    else if values[0] == "" then NonEmpty(values[1..])
    else [values[0]] + NonEmpty(values[1..])
  }

  /** The filter keeps the non-empty values in their original order, each
      as often as in `values`, and nothing else. */
  lemma NonEmptySpec(values: seq<string>)
    ensures multiset(NonEmpty(values)) == multiset(values)["" := 0]
    ensures IsSubsequence(NonEmpty(values), values)
  {
    NonEmptyCounts(values);
    NonEmptyKeepsOrder(values);
  }

  lemma {:induction false} NonEmptyCounts(values: seq<string>)
    ensures multiset(NonEmpty(values)) == multiset(values)["" := 0]
  {
    if values != [] {
      NonEmptyCounts(values[1..]);
      assert values == [values[0]] + values[1..];
    }
  }

  lemma {:induction false} NonEmptyKeepsOrder(values: seq<string>)
    ensures IsSubsequence(NonEmpty(values), values)
  {
    if values != [] {
      var rest := NonEmpty(values[1..]);
      NonEmptyKeepsOrder(values[1..]);
      if values[0] == "" {
        assert rest == [] || rest[0] != values[0];
      } else {
        assert ([values[0]] + rest)[1..] == rest;
      }
    }
  }

  /** What input `i` shows on load: `urls[i] || ''`. */
  function Slot(urls: seq<string>, i: nat): (shown: string)
    ensures shown == (if i < |urls| then urls[i] else "")
  {
    if i < |urls| && urls[i] != "" then urls[i] else ""
  }

  /** The three input values after loading `urls`. */
  function Loaded(urls: seq<string>): (shown: seq<string>)
    ensures |shown| == 3
    ensures forall i :: 0 <= i < 3 ==> shown[i] == (if i < |urls| then urls[i] else "")
  {
    [Slot(urls, 0), Slot(urls, 1), Slot(urls, 2)]
  }

  function AllPresent(values: seq<string>): (fields: seq<Option<string>>)
    ensures |fields| == |values| && forall i :: 0 <= i < |values| ==> fields[i] == Some(values[i])
  {
    seq(|values|, i requires 0 <= i < |values| => Some(values[i]))
  }

  /** A saved list is non-empty, trimmed entries (what `saveAllowed` stores). */
  predicate IsSavedList(urls: seq<string>) {
    forall i :: 0 <= i < |urls| ==> urls[i] != "" && IsTrimmed(urls[i])
  }

  /** Saving stores a list of the kind `saveAllowed` stores. */
  lemma SavedListShape(fields: seq<Option<string>>)
    ensures IsSavedList(NonEmpty(ReadInputs(fields)))
  {
    var values := ReadInputs(fields);
    var kept := NonEmpty(values);
    NonEmptySpec(values);
    forall i | 0 <= i < |kept| ensures IsTrimmed(kept[i]) {
      assert kept[i] in multiset(kept);
      assert kept[i] in values;
    }
  }

  /** Loading a saved list into the inputs and saving again stores the first
      three entries unchanged; entries beyond the third are not shown and so
      are lost. */
  lemma LoadThenSave(urls: seq<string>)
    requires IsSavedList(urls)
    ensures NonEmpty(ReadInputs(AllPresent(Loaded(urls)))) == urls[..if |urls| < 3 then |urls| else 3]
  {
    LoadedReadsBack(urls);
    NonEmptyOfLoaded(urls);
  }

  /** The loaded inputs read back as they were shown. */
  lemma LoadedReadsBack(urls: seq<string>)
    requires IsSavedList(urls)
    ensures ReadInputs(AllPresent(Loaded(urls))) == Loaded(urls)
  {
    assert IsTrimmed("");
    ReadTrimmedInputs(Loaded(urls));
  }

  /** Filtering the shown values drops exactly the blank slots. */
  lemma NonEmptyOfLoaded(urls: seq<string>)
    requires IsSavedList(urls)
    ensures NonEmpty(Loaded(urls)) == urls[..if |urls| < 3 then |urls| else 3]
  {
    var n := if |urls| < 3 then |urls| else 3;
    var shown := Loaded(urls);
    var head, tail := urls[..n], shown[n..];
    assert shown[..n] == head;
    assert shown == head + tail by {
      assert shown == shown[..n] + shown[n..];
    }
    NonEmptyAppend(head, tail);
    NonEmptyOfNonEmpty(head);
    NonEmptyOfBlanks(tail);
  }

  /** Inputs that already hold trimmed text read back as that text. */
  lemma ReadTrimmedInputs(values: seq<string>)
    requires forall i :: 0 <= i < |values| ==> IsTrimmed(values[i])
    ensures ReadInputs(AllPresent(values)) == values
  {
    forall i | 0 <= i < |values| ensures ReadInputs(AllPresent(values))[i] == values[i] {
      TrimOfTrimmed(values[i]);
    }
  }

  lemma {:induction false} NonEmptyAppend(a: seq<string>, b: seq<string>)
    ensures NonEmpty(a + b) == NonEmpty(a) + NonEmpty(b)
  {
    if a == [] {
      assert a + b == b;
    } else {
      assert (a + b)[0] == a[0];
      assert (a + b)[1..] == a[1..] + b;
      NonEmptyAppend(a[1..], b);
      if a[0] != "" {
        assert NonEmpty(a + b) == [a[0]] + (NonEmpty(a[1..]) + NonEmpty(b));
      }
    }
  }

  lemma {:induction false} NonEmptyOfNonEmpty(s: seq<string>)
    requires forall i :: 0 <= i < |s| ==> s[i] != ""
    ensures NonEmpty(s) == s
  {
    if s != [] {
      NonEmptyOfNonEmpty(s[1..]);
    }
  }

  lemma {:induction false} NonEmptyOfBlanks(s: seq<string>)
    requires forall i :: 0 <= i < |s| ==> s[i] == ""
    ensures NonEmpty(s) == []
  {
    if s != [] {
      NonEmptyOfBlanks(s[1..]);
    }
  }

  // ---------------------------------------------------------------------
  // Storage edits made by the popup

  /** Clear: only `allowedWebsites` is removed. */
  function AfterClear(items: map<string, Value>): (r: map<string, Value>)
    ensures AllowedWebsitesKey !in r
    ensures forall k :: k != AllowedWebsitesKey ==> Get(r, k) == Get(items, k)
  {
    items - {AllowedWebsitesKey}
  }

  /** Reset: only `timerEndTime` and `isBreak` are removed. */
  function AfterReset(items: map<string, Value>): (r: map<string, Value>)
    ensures TimerEndTimeKey !in r && IsBreakKey !in r
    ensures forall k :: k != TimerEndTimeKey && k != IsBreakKey ==> Get(r, k) == Get(items, k)
  {
    items - {TimerEndTimeKey, IsBreakKey}
  }

  /** After a clear, reopening the popup shows three empty inputs. */
  lemma ClearThenLoad(items: map<string, Value>)
    ensures Loaded(AllowedWebsites(AfterClear(items))) == ["", "", ""]
  {
  }

  // ---------------------------------------------------------------------
  // Timer read-out

  const MillisPerMinute: int := 60 * 1000

  /** `Math.ceil`. */
  function Ceil(x: real): (c: int)
    ensures c as real - 1.0 < x <= c as real
  {
    -((-x).Floor)
  }

  /** `Math.max(0, Math.ceil((endTime - now) / 60000))`: whole minutes left,
      rounded up, never negative. */
  function TimeLeft(endTime: real, now: int): (t: nat)
    ensures t == 0 <==> endTime <= now as real
    ensures t > 0 ==>
              (t - 1) as real * MillisPerMinute as real < endTime - now as real
              <= t as real * MillisPerMinute as real
  {
    var c := Ceil((endTime - now as real) / MillisPerMinute as real);
    if c > 0 then c else 0
  }

  /** At least one minute is shown while the end time is in the future. */
  lemma TimeLeftPositiveBeforeEnd(endTime: real, now: int)
    requires now as real < endTime
    ensures TimeLeft(endTime, now) >= 1
  {
  }

  /** For a fixed end time the minutes left never go up as time passes. */
  lemma {:induction false} TimeLeftNonIncreasing(endTime: real, now1: int, now2: int)
    requires now1 <= now2
    ensures TimeLeft(endTime, now2) <= TimeLeft(endTime, now1)
  {
    var t1, t2 := TimeLeft(endTime, now1), TimeLeft(endTime, now2);
    if t2 > 0 {
      assert t1 > 0;
      assert (t2 - 1) as real * MillisPerMinute as real < t1 as real * MillisPerMinute as real;
    }
  }

  /** `minutes.toString().padStart(2, '0')`. */
  function Pad2(m: nat): (s: string)
    requires m < 100
    ensures |s| == 2 && AllDigits(s)
    ensures ParseNat(s) == Some(m)
  {
    var d := NatToString(m);
    ParseNatToString(m);
    if |d| < 2 then
      assert ParseNat("0" + d) == Some(m) by {
        assert ("0" + d)[..1] == "0";
      }
      "0" + d
    else
      d
  }

  /** The read-out text for `timeLeft` minutes: `Time Up!` at zero, `H:MM`
      from one hour on, `Mm` below an hour. */
  function Countdown(timeLeft: nat): (s: string)
    ensures s == "Time Up!" <==> timeLeft == 0
    ensures 0 < timeLeft < 60 ==> |s| >= 2 && s[|s| - 1] == 'm' && IsDigit(s[0])
    ensures timeLeft >= 60 ==> |s| >= 4 && s[|s| - 3] == ':' && IsDigit(s[0]) && IsDigit(s[|s| - 1])
  {
    if timeLeft <= 0 then "Time Up!"
    else
      var hours := timeLeft / 60;
      var minutes := timeLeft % 60;
      if hours > 0 then
        var r := NatToString(hours) + ":" + Pad2(minutes);
        assert IsDigit(r[0]);
        r
      else
        var r := NatToString(minutes) + "m";
        assert IsDigit(r[0]);
        r
  }

  /** Reads a read-out text back into minutes. Only the texts `Countdown`
      writes are read: `Mm` for 1 to 59 minutes, and `H:MM` with at least
      one hour and two digits below 60; numerals have no leading zero. */
  function ParseCountdown(s: string): Option<nat> {
    if s == "Time Up!" then Some(0)
    else if |s| >= 2 && s[|s| - 1] == 'm' then
      var digits := s[..|s| - 1];
      match ParseNat(digits)
      case Some(m) => if IsCanonicalNumeral(digits) && 1 <= m < 60 then Some(m) else None
      case None => None
    else if |s| >= 4 && s[|s| - 3] == ':' then
      var digits := s[..|s| - 3];
      match (ParseNat(digits), ParseNat(s[|s| - 2..]))
      case (Some(h), Some(m)) =>
        if IsCanonicalNumeral(digits) && h >= 1 && m < 60 then Some(h * 60 + m) else None
      case _ => None
    else None
  }

  /** The read-out text determines the minutes left: reading it back gives
      `hours * 60 + minutes == timeLeft`. */
  lemma CountdownRoundTrip(timeLeft: nat)
    ensures ParseCountdown(Countdown(timeLeft)) == Some(timeLeft)
  {
    if timeLeft > 0 {
      var hours, minutes := timeLeft / 60, timeLeft % 60;
      if hours > 0 {
        HoursReadoutRoundTrip(hours, minutes);
      } else {
        MinutesReadoutRoundTrip(minutes);
      }
    }
  }

  lemma HoursReadoutRoundTrip(hours: nat, minutes: nat)
    requires hours > 0 && minutes < 60
    ensures ParseCountdown(NatToString(hours) + ":" + Pad2(minutes)) == Some(hours * 60 + minutes)
  {
    ParseNatToString(hours);
    ParseHoursForm(NatToString(hours), Pad2(minutes), hours, minutes);
  }

  /** `H:MM` reads back from its two numerals, whatever they are. */
  lemma ParseHoursForm(h: string, p: string, hours: nat, minutes: nat)
    requires IsCanonicalNumeral(h) && |p| == 2 && IsDigit(p[1])
    requires ParseNat(h) == Some(hours) && ParseNat(p) == Some(minutes)
    requires hours >= 1 && minutes < 60
    ensures ParseCountdown(h + ":" + p) == Some(hours * 60 + minutes)
  {
    var s := h + ":" + p;
    assert s[..|s| - 3] == h;
    assert s[|s| - 2..] == p;
    assert s[|s| - 3] == ':' && s[|s| - 1] == p[1];
    assert s != "Time Up!" by { assert IsDigit(s[0]); }
  }

  lemma MinutesReadoutRoundTrip(minutes: nat)
    requires 0 < minutes < 60
    ensures ParseCountdown(NatToString(minutes) + "m") == Some(minutes)
  {
    ParseNatToString(minutes);
    ParseMinutesForm(NatToString(minutes), minutes);
  }

  /** `Mm` reads back from its numeral, whatever it is. */
  lemma ParseMinutesForm(d: string, minutes: nat)
    requires IsCanonicalNumeral(d) && ParseNat(d) == Some(minutes) && 0 < minutes < 60
    ensures ParseCountdown(d + "m") == Some(minutes)
  {
    var s := d + "m";
    assert s[..|s| - 1] == d;
    assert s != "Time Up!" by { assert IsDigit(s[0]); }
  }

  /** Every text that reads as some number of minutes is the text the popup
      shows for it: so `Mm` only below an hour, `H:MM` only from one hour on,
      always with two minute digits below 60. */
  lemma ParseCountdownCanonical(s: string, t: nat)
    requires ParseCountdown(s) == Some(t)
    ensures s == Countdown(t)
  {
    if s != "Time Up!" {
      if |s| >= 2 && s[|s| - 1] == 'm' {
        MinutesTextCanonical(s, t);
      } else {
        HoursTextCanonical(s, t);
      }
    }
  }

  lemma MinutesTextCanonical(s: string, t: nat)
    requires s != "Time Up!" && |s| >= 2 && s[|s| - 1] == 'm'
    requires ParseCountdown(s) == Some(t)
    ensures s == Countdown(t)
  {
    var digits := s[..|s| - 1];
    NatToStringOfParse(digits);
    assert 0 < t < 60 && NatToString(t) == digits;
    assert t / 60 == 0 && t % 60 == t;
    assert s == digits + "m";
  }

  lemma HoursTextCanonical(s: string, t: nat)
    requires s != "Time Up!" && !(|s| >= 2 && s[|s| - 1] == 'm')
    requires ParseCountdown(s) == Some(t)
    ensures s == Countdown(t)
  {
    var digits, mm := s[..|s| - 3], s[|s| - 2..];
    var h, m := ParseNat(digits).value, ParseNat(mm).value;
    assert IsCanonicalNumeral(digits) && h >= 1 && m < 60 && t == h * 60 + m;
    NatToStringOfParse(digits);
    assert t / 60 == h && t % 60 == m;
    ParseNatSameLength(Pad2(m), mm);
    assert s == digits + ":" + mm;
  }

  /** Distinct minute counts never show the same text. */
  lemma CountdownInjective(t1: nat, t2: nat)
    requires Countdown(t1) == Countdown(t2)
    ensures t1 == t2
  {
    CountdownRoundTrip(t1);
    CountdownRoundTrip(t2);
  }

  /** The period label: `isBreak ? 'Break Period' : 'Study Period'`. */
  function PeriodLabel(isBreak: Option<Value>): (name: string)
    ensures name == "Break Period" <==> TruthyOpt(isBreak)
    ensures name == "Study Period" <==> !TruthyOpt(isBreak)
  {
    if TruthyOpt(isBreak) then "Break Period" else "Study Period"
  }

  /** JavaScript's numeric reading of a stored end time in `endTime - now`;
      `None` stands for NaN. */
  function EndTimeNumber(v: Value): (r: Option<real>)
    ensures v.Num? ==> r == Some(v.x)
    ensures (v.Null? || v.Bool?) ==> r == Some(if Truthy(v) then 1.0 else 0.0)
    ensures r.None? <==> v.Str? || v.StrList?
  {
    match v
    case Num(x) => Some(x)
    case Bool(b) => Some(if b then 1.0 else 0.0)
    case Null => Some(0.0)
    case Str(_) => None
    case StrList(_) => None
  }

  /** The two texts the popup shows for the timer. */
  datatype Readout = Readout(display: string, period: string)

  const NoTimer: Readout := Readout("No Timer", "Timer Not Started")

  /** `updateTimerDisplay`'s storage callback. A NaN end time falls through
      every test to the `Mm` branch and shows `NaNm`. */
  function TimerReadout(items: map<string, Value>, now: int): (r: Readout)
    ensures !TruthyOpt(Get(items, TimerEndTimeKey)) ==> r == NoTimer
    ensures TruthyOpt(Get(items, TimerEndTimeKey)) ==> r.period == PeriodLabel(Get(items, IsBreakKey))
  {
    var endTime := Get(items, TimerEndTimeKey);
    if !TruthyOpt(endTime) then NoTimer
    else
      var period := PeriodLabel(Get(items, IsBreakKey));
      match EndTimeNumber(endTime.value)
      case Some(e) => Readout(Countdown(TimeLeft(e, now)), period)
      case None => Readout("NaNm", period)
  }

  /** "No Timer" is shown exactly when `timerEndTime` is missing or falsy. */
  lemma NoTimerIff(items: map<string, Value>, now: int)
    ensures TimerReadout(items, now) == NoTimer <==> !TruthyOpt(Get(items, TimerEndTimeKey))
    ensures TimerReadout(items, now).display == "No Timer" <==> !TruthyOpt(Get(items, TimerEndTimeKey))
  {
    if TruthyOpt(Get(items, TimerEndTimeKey)) {
      var r := TimerReadout(items, now);
      assert r.display != "No Timer" by {
        match EndTimeNumber(items[TimerEndTimeKey])
        case Some(e) => {
          var t := TimeLeft(e, now);
          if t > 0 && t / 60 > 0 {
            assert IsDigit(r.display[0]);
          } else if t > 0 {
            assert r.display[|r.display| - 1] == 'm';
          }
        }
        case None => {}
      }
    }
  }

  /** With a numeric end time, "Time Up!" is shown exactly when the end time
      has been reached; otherwise the text reads back as the minutes left,
      which is at least one. */
  lemma ReadoutOfNumericEnd(items: map<string, Value>, e: real, now: int)
    requires Get(items, TimerEndTimeKey) == Some(Num(e)) && e != 0.0
    ensures TimerReadout(items, now).display == "Time Up!" <==> e <= now as real
    ensures e > now as real ==>
              ParseCountdown(TimerReadout(items, now).display) == Some(TimeLeft(e, now))
              && TimeLeft(e, now) >= 1
    ensures TimerReadout(items, now).period == PeriodLabel(Get(items, IsBreakKey))
  {
    var t := TimeLeft(e, now);
    CountdownRoundTrip(t);
    if Countdown(t) == "Time Up!" {
      CountdownInjective(t, 0);
    }
  }

  /** `!data.timerEndTime`: a start request is sent exactly when the popup
      finds no timer. */
  function StartRequest(items: map<string, Value>): (request: Option<Action>)
    ensures request.Some? ==> request.value == StartTimer
  {
    if !TruthyOpt(Get(items, TimerEndTimeKey)) then Some(StartTimer) else None
  }

  /** A start is requested exactly when the read-out says "No Timer". */
  lemma StartRequestIffNoTimer(items: map<string, Value>, now: int)
    ensures StartRequest(items) == Some(StartTimer) <==> TimerReadout(items, now).display == "No Timer"
  {
    NoTimerIff(items, now);
  }

  /** After a reset the popup shows no timer and would request a start,
      and the allow-list is untouched. */
  lemma ResetShowsNoTimer(items: map<string, Value>, now: int)
    ensures TimerReadout(AfterReset(items), now) == NoTimer
    ensures StartRequest(AfterReset(items)) == Some(StartTimer)
    ensures AllowedWebsites(AfterReset(items)) == AllowedWebsites(items)
  {
    assert Get(AfterReset(items), AllowedWebsitesKey) == Get(items, AllowedWebsitesKey);
  }

  // ---------------------------------------------------------------------
  // The popup page

  /** The popup's state: the three inputs (`None` for an element the page
      does not have), the status line, and the two timer texts. */
  class Page {
    const inputs: array<Option<string>>
    var status: string
    var timerDisplay: string
    var timerPeriod: string

    ghost predicate Valid()
      reads this
    {
      inputs.Length == 3
    }

    constructor (fields: seq<Option<string>>)
      requires |fields| == 3
      ensures Valid() && fresh(inputs) && inputs[..] == fields
      ensures status == "" && timerDisplay == "" && timerPeriod == ""
    {
      inputs := new Option<string>[3](i requires 0 <= i < 3 => fields[i]);
      status, timerDisplay, timerPeriod := "", "", "";
    }

    /** `saveAllowed`: stores the non-empty trimmed inputs, in order, under
        `allowedWebsites` and reports "Saved!". */
    method SaveAllowed(store: LocalStore)
      requires Valid()
      modifies store, this`status
      ensures store.items == old(store.items)[AllowedWebsitesKey := StrList(NonEmpty(ReadInputs(inputs[..])))]
      ensures status == "Saved!"
    {
      var filtered := NonEmpty(ReadInputs(inputs[..]));
      var update := map[AllowedWebsitesKey := StrList(filtered)];
      assert old(store.items) + update == old(store.items)[AllowedWebsitesKey := StrList(filtered)];
      store.Set(update);
      status := "Saved!";
    }

    method LoadSlot(urls: seq<string>, i: nat)
      requires Valid() && i < 3
      modifies inputs
      ensures inputs[i] == (if old(inputs[i]).Some? then Some(Slot(urls, i)) else None)
      ensures forall j :: 0 <= j < 3 && j != i ==> inputs[j] == old(inputs[j])
    {
      if inputs[i].Some? {
        inputs[i] := Some(Slot(urls, i));
      }
    }

    /** On open: each present input `i` shows `urls[i]`, or `""`. */
    method LoadSaved(store: LocalStore)
      requires Valid()
      modifies inputs
      ensures forall i :: 0 <= i < 3 ==>
                inputs[i] == (if old(inputs[i]).Some? then Some(Loaded(AllowedWebsites(store.items))[i]) else None)
    {
      var urls := AllowedWebsites(store.items);
      LoadSlot(urls, 0);
      LoadSlot(urls, 1);
      LoadSlot(urls, 2);
    }

    /** The clear button: removes `allowedWebsites`, empties every present
        input and reports "Cleared!". */
    method Clear(store: LocalStore)
      requires Valid()
      modifies store, inputs, this`status
      ensures store.items == AfterClear(old(store.items))
      ensures forall i :: 0 <= i < 3 ==> inputs[i] == (if old(inputs[i]).Some? then Some("") else None)
      ensures status == "Cleared!"
    {
      store.Remove({AllowedWebsitesKey});
      for i := 0 to inputs.Length
        invariant forall j :: 0 <= j < i ==> inputs[j] == (if old(inputs[j]).Some? then Some("") else None)
        invariant forall j :: i <= j < inputs.Length ==> inputs[j] == old(inputs[j])
        invariant store.items == AfterClear(old(store.items))
      {
        if inputs[i].Some? {
          inputs[i] := Some("");
        }
      }
      status := "Cleared!";
    }

    /** `updateTimerDisplay`. */
    method UpdateTimerDisplay(store: LocalStore, now: int)
      modifies this`timerDisplay, this`timerPeriod
      ensures Readout(timerDisplay, timerPeriod) == TimerReadout(store.items, now)
    {
      var r := TimerReadout(store.items, now);
      timerDisplay, timerPeriod := r.display, r.period;
    }

    /** The reset button: removes `timerEndTime` and `isBreak`, then asks
        the background script to restart the timer. */
    method ResetTimer(store: LocalStore) returns (request: Action)
      modifies store
      ensures store.items == AfterReset(old(store.items))
      ensures request == Action.ResetTimer
    {
      store.Remove({TimerEndTimeKey, IsBreakKey});
      request := Action.ResetTimer;
    }

    /** The reply to the reset request: on success, "Timer reset!" and a
        fresh read-out; otherwise nothing changes. */
    method OnResetReply(store: LocalStore, success: bool, now: int)
      modifies this`status, this`timerDisplay, this`timerPeriod
      ensures success ==> status == "Timer reset!"
                          && Readout(timerDisplay, timerPeriod) == TimerReadout(store.items, now)
      ensures !success ==> status == old(status) && timerDisplay == old(timerDisplay)
                           && timerPeriod == old(timerPeriod)
    {
      if success {
        status := "Timer reset!";
        UpdateTimerDisplay(store, now);
      }
    }

    /** The reply to the start request: on success a fresh read-out;
        otherwise nothing changes. */
    method OnStartReply(store: LocalStore, success: bool, now: int)
      modifies this`timerDisplay, this`timerPeriod
      ensures success ==> Readout(timerDisplay, timerPeriod) == TimerReadout(store.items, now)
      ensures !success ==> timerDisplay == old(timerDisplay) && timerPeriod == old(timerPeriod)
    {
      if success {
        UpdateTimerDisplay(store, now);
      }
    }

    /** On open: asks for a timer start only when storage holds no timer. */
    method StartIfAbsent(store: LocalStore) returns (request: Option<Action>)
      ensures request == Some(StartTimer) <==> !TruthyOpt(Get(store.items, TimerEndTimeKey))
      ensures request.None? <==> TruthyOpt(Get(store.items, TimerEndTimeKey))
    {
      request := StartRequest(store.items);
    }
  }
}
