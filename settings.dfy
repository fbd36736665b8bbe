/** The settings page: study and break minutes, validated before they are
    stored, preset buttons that go through the same validation, and a
    reset that removes both stored values. */
module Settings {

  import opened Wrappers
  import opened Text
  import opened Chrome

  /** What `Number(input.value)` gives for an input's text: a finite number,
      or one of NaN and the infinities, which `isFinite` rejects. An empty
      text is `Finite(0.0)`, as `Number('')` is 0. */
  datatype Num = Finite(x: real) | NonFinite

  /** The outcome of `validateValues`: success, or the first check that failed. */
  datatype Verdict = Accepted | StudyNotPositive | BreakNegative | BreakOverHalf

  /** The durations the page accepts: a positive study time and a break
      that is not negative and at most half the study time. */
  predicate AcceptableDurations(study: real, brk: real) {
    0.0 < study && 0.0 <= brk && 2.0 * brk <= study
  }

  /** The checks of `validateValues`, in the order the page makes them.
      Validation succeeds exactly for finite, acceptable durations. */
  function Validate(study: Num, brk: Num): (v: Verdict)
    ensures v == Accepted <==>
              study.Finite? && brk.Finite? && AcceptableDurations(study.x, brk.x)
  {
    if study.NonFinite? || study.x <= 0.0 then StudyNotPositive
    else if brk.NonFinite? || brk.x < 0.0 then BreakNegative
    else if brk.x > 0.5 * study.x then BreakOverHalf
    else Accepted
  }

  /** The first failing check decides the verdict: a bad study time is
      reported whatever the break is, a bad break before the ratio, and the
      ratio only when both times are fine on their own. */
  lemma FirstFailureDecides(study: Num, brk: Num)
    ensures (study.NonFinite? || study.x <= 0.0) <==> Validate(study, brk) == StudyNotPositive
    ensures Validate(study, brk) == BreakNegative <==>
              study.Finite? && study.x > 0.0 && (brk.NonFinite? || brk.x < 0.0)
    ensures Validate(study, brk) == BreakOverHalf <==>
              study.Finite? && study.x > 0.0 && brk.Finite? && brk.x >= 0.0 && 2.0 * brk.x > study.x
  {
  }

  /** The limit is inclusive: a break of exactly half the study time is
      accepted (10 and 5), anything above it is not (10 and 6). */
  lemma HalfIsTheLimit(study: real, brk: real)
    requires study > 0.0 && brk >= 0.0
    ensures Validate(Finite(study), Finite(study / 2.0)) == Accepted
    ensures brk > study / 2.0 ==> Validate(Finite(study), Finite(brk)) == BreakOverHalf
    ensures Validate(Finite(10.0), Finite(5.0)) == Accepted
    ensures Validate(Finite(10.0), Finite(6.0)) == BreakOverHalf
  {
  }

  /** The text `showMessage` puts up for a verdict, and whether it is shown
      as an error (in crimson rather than green). */
  function MessageFor(v: Verdict): (m: (string, bool))
    ensures m.1 <==> v != Accepted
    ensures m.0 == "" <==> v == Accepted
  {
    match v
    case Accepted => ("", false)
    case StudyNotPositive => ("Error: Study time must be greater than zero.", true)
    case BreakNegative => ("Error: Break time must be zero or greater.", true)
    case BreakOverHalf => ("Error: Break must be less than or equal to 50% of study time.", true)
  }

  /** The stored settings are a pair of numbers the page would accept. */
  predicate StoredSettingsAcceptable(items: map<string, Value>) {
    && StudyMinutesKey in items && items[StudyMinutesKey].Num?
    && BreakMinutesKey in items && items[BreakMinutesKey].Num?
    && AcceptableDurations(items[StudyMinutesKey].x, items[BreakMinutesKey].x)
  }

  /** The storage write made by a submit or a preset: both values are stored
      when validation passes, and storage is left as it was otherwise. */
  function SaveIfValid(items: map<string, Value>, study: Num, brk: Num): (r: map<string, Value>)
    ensures Validate(study, brk) == Accepted ==>
              StoredSettingsAcceptable(r)
              && r[StudyMinutesKey] == Num(study.x) && r[BreakMinutesKey] == Num(brk.x)
              && forall k :: k != StudyMinutesKey && k != BreakMinutesKey ==> Get(r, k) == Get(items, k)
    ensures Validate(study, brk) != Accepted ==> r == items
  {
    if Validate(study, brk) == Accepted then
      items + map[StudyMinutesKey := Num(study.x), BreakMinutesKey := Num(brk.x)]
    else
      items
  }

  /** Reset: exactly `studyMinutes` and `breakMinutes` are removed. */
  function AfterReset(items: map<string, Value>): (r: map<string, Value>)
    ensures StudyMinutesKey !in r && BreakMinutesKey !in r
    ensures forall k :: k != StudyMinutesKey && k != BreakMinutesKey ==> Get(r, k) == Get(items, k)
  {
    items - {StudyMinutesKey, BreakMinutesKey}
  }

  /** Saving keeps stored settings acceptable: a store whose settings are
      acceptable still has acceptable settings after any submit. */
  lemma SaveKeepsSettingsAcceptable(items: map<string, Value>, study: Num, brk: Num)
    requires StoredSettingsAcceptable(items)
    ensures StoredSettingsAcceptable(SaveIfValid(items, study, brk))
  {
  }

  /** Saving a stored acceptable pair again changes nothing. */
  lemma SaveStoredIsIdempotent(items: map<string, Value>)
    requires StoredSettingsAcceptable(items)
    ensures SaveIfValid(items, Finite(items[StudyMinutesKey].x), Finite(items[BreakMinutesKey].x)) == items
  {
    var r := SaveIfValid(items, Finite(items[StudyMinutesKey].x), Finite(items[BreakMinutesKey].x));
    assert r.Keys == items.Keys;
    forall k | k in items ensures r[k] == items[k] {
      assert Get(r, k) == Get(items, k);
    }
  }

  /** The preset confirmation, `Preset applied: ${study}min study, ${breakTime}min break`. */
  function PresetMessage(study: nat, brk: nat): (m: string)
    ensures StartsWith(m, "Preset applied: ")
    ensures |m| >= 9 && m[|m| - 9..] == "min break"
  {
    var m := "Preset applied: " + NatToString(study) + "min study, " + NatToString(brk) + "min break";
    assert m[..16] == "Preset applied: ";
    m
  }

  /** The confirmation names the preset: two presets with the same text
      are the same preset. */
  lemma PresetMessageDeterminesPreset(s1: nat, b1: nat, s2: nat, b2: nat)
    requires PresetMessage(s1, b1) == PresetMessage(s2, b2)
    ensures s1 == s2 && b1 == b2
  {
    var a1, a2 := NatToString(s1), NatToString(s2);
    var c1, c2 := NatToString(b1), NatToString(b2);
    var r1, r2 := "min study, " + (c1 + "min break"), "min study, " + (c2 + "min break");
    PresetMessageParts(s1, b1);
    PresetMessageParts(s2, b2);
    PrefixCancel("Preset applied: ", a1 + r1, a2 + r2);
    NumeralSplit(a1, r1, a2, r2);
    PrefixCancel("min study, ", c1 + "min break", c2 + "min break");
    SuffixCancel(c1, c2, "min break");
    ParseNatToString(s1);
    ParseNatToString(s2);
    ParseNatToString(b1);
    ParseNatToString(b2);
  }

  lemma PresetMessageParts(study: nat, brk: nat)
    ensures PresetMessage(study, brk) ==
              "Preset applied: " + (NatToString(study) + ("min study, " + (NatToString(brk) + "min break")))
  {
  }

  /** `parseInt` of a preset's attribute, as a field value: NaN when it is not a number. */
  function PresetNum(n: Option<int>): (v: Num)
    ensures n.Some? <==> v.Finite?
    ensures n.Some? ==> v.x == n.value as real
  {
    match n
    case Some(k) => Finite(k as real)
    case None => NonFinite
  }

  /** The settings page's state: the two inputs and the message line. */
  class Page {
    var study: Num
    var brk: Num
    var msg: string
    var msgIsError: bool

    constructor (study0: Num, brk0: Num)
      ensures study == study0 && brk == brk0 && msg == "" && !msgIsError
    {
      study, brk := study0, brk0;
      msg, msgIsError := "", false;
    }

    /** `validateValues`: reports the verdict's message and returns whether
        the inputs are acceptable. */
    method ValidateValues() returns (ok: bool)
      modifies this`msg, this`msgIsError
      ensures ok <==> Validate(study, brk) == Accepted
      ensures (msg, msgIsError) == MessageFor(Validate(study, brk))
    {
      var v := Validate(study, brk);
      msg, msgIsError := MessageFor(v).0, MessageFor(v).1;
      ok := v == Accepted;
    }

    /** The form's submit: stores both numbers and asks the background
        script to apply them when they are acceptable; otherwise storage is
        untouched and the error stays on screen. */
    method Submit(store: LocalStore) returns (request: Option<Action>)
      modifies this`msg, this`msgIsError, store
      ensures store.items == SaveIfValid(old(store.items), study, brk)
      ensures request.Some? <==> Validate(study, brk) == Accepted
      ensures request.Some? ==> request.value == UpdateSettings && msg == "Settings saved." && !msgIsError
      ensures request.None? ==> (msg, msgIsError) == MessageFor(Validate(study, brk))
    {
      var ok := ValidateValues();
      if !ok {
        request := None;
        return;
      }
      store.Set(map[StudyMinutesKey := Num(study.x), BreakMinutesKey := Num(brk.x)]);
      msg, msgIsError := "Settings saved.", false;
      request := Some(UpdateSettings);
    }

    /** The reset button: removes both stored values and empties both inputs. */
    method Reset(store: LocalStore)
      modifies this, store
      ensures store.items == AfterReset(old(store.items))
      ensures study == Finite(0.0) && brk == Finite(0.0)
      ensures msg == "Settings reset." && !msgIsError
    {
      store.Remove({StudyMinutesKey, BreakMinutesKey});
      study, brk := Finite(0.0), Finite(0.0);
      msg, msgIsError := "Settings reset.", false;
    }

    /** A preset button: fills both inputs with the preset's numbers and
        saves them only if they pass the same validation as a submit. */
    method ApplyPreset(store: LocalStore, presetStudy: Option<int>, presetBreak: Option<int>)
      returns (request: Option<Action>)
      modifies this, store
      ensures study == PresetNum(presetStudy) && brk == PresetNum(presetBreak)
      ensures store.items == SaveIfValid(old(store.items), study, brk)
      ensures request.Some? <==> Validate(study, brk) == Accepted
      ensures request.Some? ==>
                request.value == UpdateSettings && !msgIsError
                && presetStudy.Some? && presetStudy.value > 0
                && presetBreak.Some? && presetBreak.value >= 0
                && msg == PresetMessage(presetStudy.value, presetBreak.value)
      ensures request.None? ==> (msg, msgIsError) == MessageFor(Validate(study, brk))
    {
      study, brk := PresetNum(presetStudy), PresetNum(presetBreak);
      var ok := ValidateValues();
      if !ok {
        request := None;
        return;
      }
      var s, b := presetStudy.value, presetBreak.value;
      store.Set(map[StudyMinutesKey := Num(s as real), BreakMinutesKey := Num(b as real)]);
      msg, msgIsError := PresetMessage(s, b), false;
      request := Some(UpdateSettings);
    }
  }
}
