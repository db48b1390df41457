/**
 * The time-saved badge (frontend/src/components/TimeSavedMeter.tsx): when it is shown, how
 * it words the number of hours, and the icon and colour bands. Hours are reals; JavaScript's
 * printing of a fractional number is the parameter `printNumber`.
 */
module TimeSavedMeter {
  import opened Common
  import opened Text

  /** `Math.round`: the nearest integer, halves rounding up. */
  function Round(x: real): (n: int)
    ensures n as real <= x + 0.5 < n as real + 1.0
  {
    (x + 0.5).Floor
  }

  /** The four cases of `formatTime`. */
  datatype TimeLabel = Minutes(minutes: int) | OneHour | WholeHours(hours: int) | FractionalHours(exact: real)

  /** `hours % 1 === 0` for a positive number. */
  predicate Whole(h: real) {
    h.Floor as real == h
  }

  /** `Math.round` leaves a whole number as it is. */
  lemma RoundOfWhole(h: real)
    requires Whole(h)
    ensures Round(h) == h.Floor
  {
    assert h.Floor as real <= h + 0.5 < h.Floor as real + 1.0;
  }

  /** `formatTime`; `Math.round(hours)` in the whole-hours case is `hours` itself, as `RoundOfWhole` shows. */
  function FormatTime(h: real): (t: TimeLabel)
    ensures t.Minutes? <==> h < 1.0
    ensures t.Minutes? ==> t.minutes == Round(h * 60.0)
    ensures t.OneHour? <==> h == 1.0
    ensures t.WholeHours? <==> h > 1.0 && Whole(h)
    ensures t.WholeHours? ==> t.hours as real == h
    ensures t.FractionalHours? <==> h > 1.0 && !Whole(h)
    ensures t.FractionalHours? ==> t.exact == h
  {
    if h < 1.0 then Minutes(Round(h * 60.0))
    else if h == 1.0 then OneHour
    else if Whole(h) then WholeHours(h.Floor)
    else FractionalHours(h)
  }

  /** Less than an hour is worded as a whole number of minutes between 0 and 60. */
  lemma MinutesInRange(h: real)
    requires 0.0 < h < 1.0
    ensures 0 <= FormatTime(h).minutes <= 60
  {
    assert 0.0 < h * 60.0 < 60.0;
  }

  /** The text of a label. */
  function TimeText(t: TimeLabel, printNumber: real -> string): string {
    match t
    case Minutes(m) => IntToString(m) + " minutes"
    case OneHour => "1 hour"
    case WholeHours(n) => IntToString(n) + " hours"
    case FractionalHours(x) => printNumber(x) + " hours"
  }

  /** Only exactly one hour is worded in the singular; every other label ends in "s". */
  lemma SingularOnlyForOneHour(h: real, printNumber: real -> string)
    ensures TimeText(FormatTime(h), printNumber) == "1 hour" <==> h == 1.0
  {
    var text := TimeText(FormatTime(h), printNumber);
    if h != 1.0 {
      assert text[|text| - 1] == 's';
      assert "1 hour"[5] == 'r';
    }
  }

  /** The three icons of `getTimeIcon`. */
  datatype Icon = Rocket | Lightning | AlarmClock

  function IconOf(h: real): (i: Icon)
    ensures i == Rocket <==> h >= 8.0
    ensures i == Lightning <==> 4.0 <= h < 8.0
    ensures i == AlarmClock <==> h < 4.0
  {
    if h >= 8.0 then Rocket else if h >= 4.0 then Lightning else AlarmClock
  }

  function Glyph(i: Icon): string {
    match i
    case Rocket => "\U{1F680}"
    case Lightning => "\U{26A1}"
    case AlarmClock => "\U{23F0}"
  }

  const Green: string := "text-green-600 bg-green-50 border-green-200"
  const Blue: string := "text-blue-600 bg-blue-50 border-blue-200"
  const Purple: string := "text-purple-600 bg-purple-50 border-purple-200"

  /** `getTimeColor`, with its own copy of the thresholds. */
  function ColourOf(h: real): (c: string)
    ensures h >= 8.0 ==> c == Green
    ensures 4.0 <= h < 8.0 ==> c == Blue
    ensures h < 4.0 ==> c == Purple
  {
    if h >= 8.0 then Green else if h >= 4.0 then Blue else Purple
  }

  /** The colour each icon goes with. */
  function ColourFor(i: Icon): string {
    match i
    case Rocket => Green
    case Lightning => Blue
    case AlarmClock => Purple
  }

  /** Colour and icon always agree: the colour is a function of the icon, and distinct icons get distinct colours. */
  lemma ColourAgreesWithIcon(h: real, g: real)
    ensures ColourOf(h) == ColourFor(IconOf(h))
    ensures IconOf(h) != IconOf(g) ==> ColourOf(h) != ColourOf(g)
  {
    assert Green[5] == 'g' && Blue[5] == 'b' && Purple[5] == 'p';
  }

  /** What the component renders, when it renders anything. */
  datatype Meter = Meter(icon: Icon, colour: string, time: TimeLabel)

  /** `if (!timeSavedHours || timeSavedHours <= 0) return null`. */
  function MeterOf(timeSavedHours: Option<real>): (m: Option<Meter>)
    ensures m.Some? <==> timeSavedHours.Some? && timeSavedHours.value > 0.0
    ensures m.Some? ==> m.value == Meter(IconOf(timeSavedHours.value), ColourOf(timeSavedHours.value), FormatTime(timeSavedHours.value))
  {
    if timeSavedHours.None? || timeSavedHours.value <= 0.0 then None
    else
      var h := timeSavedHours.value;
      Some(Meter(IconOf(h), ColourOf(h), FormatTime(h)))
  }

  /** The three bands split the positive hours: every shown meter falls in exactly one. */
  lemma BandsPartitionPositiveHours(h: real)
    requires h > 0.0
    ensures var m := MeterOf(Some(h)).value;
      (m.icon == AlarmClock && 0.0 < h < 4.0) || (m.icon == Lightning && 4.0 <= h < 8.0) || (m.icon == Rocket && 8.0 <= h)
  {
  }
}
