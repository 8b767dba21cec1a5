/**
 * What one run of `update` (jQuery.textGauge.js:50-109), one `keyup` through
 * `setNeedsRecount` (lines 39-48) and one firing of the timer that
 * `setNeedsRecount` schedules do to an instance's `data` record, and which of
 * the `kEvents` (lines 18-24) they trigger, in order. The class
 * Gauge.TextGauge performs these steps in place and is proved against them.
 */
module Engine {
  import opened Wrappers
  import opened ByteLength
  import opened Uri
  import Settings
  type Config = Settings.Config

  /** The five `kEvents`. */
  datatype Event = FellUnderWarning | WentOverWarning | FellUnderLimit | AtLimit | WentOverLimit

  /** The event name a listener binds to. */
  function EventName(e: Event): string
  {
    match e
    case FellUnderWarning => "textGauge_fellUnderWarningThreshold"
    case WentOverWarning => "textGauge_wentOverWarningThreshold"
    case FellUnderLimit => "textGauge_fellUnderLimit"
    case AtLimit => "textGauge_textAtLimit"
    case WentOverLimit => "textGauge_wentOverLimit"
  }

  /** Listeners can tell the five events apart by name. */
  lemma EventNamesDistinct(e1: Event, e2: Event)
    ensures EventName(e1) == EventName(e2) ==> e1 == e2
  {
  }

  /**
   * The engine part of an instance's `data` record, plus `pending`: the
   * number of timers `setTimeout` has scheduled that have not fired yet.
   * `strlen`, `lastGoodLength` and `textBeforeKey` are `undefined` (None)
   * until first set.
   */
  datatype Data = Data(
    needsRecount: bool,
    pending: nat,
    strlen: Option<int>,
    overLimit: bool,
    overWarning: bool,
    lastGoodLength: Option<int>,
    textBeforeKey: Option<Text>)

  /** The record `init` attaches to an element (jQuery.textGauge.js:130-139), before any timer. */
  const Fresh: Data := Data(false, 0, None, false, false, None, None)

  /** The length `update` measures (jQuery.textGauge.js:54-58); `encodeURI` may throw. */
  function Measure(c: Config, text: Text): Result<int, UriError>
  {
    if c.byteMode then
      match EncodeUri(text)
      case Success(escaped) => Success(ByteLen(escaped))
      case Failure(err) => Failure(err)
    else
      Success(|text|)
  }

  /**
   * The warning test of jQuery.textGauge.js:96 on `percent = strlen / limit`
   * (line 89). A zero limit makes `percent` NaN or infinite, and the test false.
   */
  predicate InWarningBand(c: Config, n: int)
  {
    c.limit != 0.0 && n as real / c.limit < 1.0 && n as real / c.limit > c.warningThreshold
  }

  /** The record after a step, the events it triggered in order, and whether it threw. */
  datatype Step = Step(data: Data, emitted: seq<Event>, threw: bool)

  /** `update` after the measurement `n` (jQuery.textGauge.js:59-108). */
  function Thresholds(c: Config, d: Data, n: int, text: Text): Step
  {
    var measured := d.(strlen := Some(n), needsRecount := false);
    if n as real > c.limit then
      Step(measured.(overLimit := true), [WentOverLimit], false)
    else
      var fell := if d.overLimit then [FellUnderLimit] else [];
      var at := if n as real == c.limit then [AtLimit] else [];
      var kept := if n as real < c.limit then measured.(lastGoodLength := Some(n), textBeforeKey := Some(text)) else measured;
      var band := InWarningBand(c, n);
      var warn := if band && !d.overWarning then [WentOverWarning]
                  else if !band && d.overWarning then [FellUnderWarning]
                  else [];
      Step(kept.(overLimit := false, overWarning := band), fell + at + warn, false)
  }

  /** `update` on the element's current `text`; a URIError leaves the record as it was. */
  function UpdateStep(c: Config, d: Data, text: Text): Step
  {
    match Measure(c, text)
    case Failure(_) => Step(d, [], true)
    case Success(n) => Thresholds(c, d, n, text)
  }

  /** `setNeedsRecount` for one `keyup`; `text` is read only by an immediate update. */
  function SignalStep(c: Config, d: Data, text: Text): Step
  {
    if c.recalculateDelay == 0.0 then UpdateStep(c, d, text)
    else if d.needsRecount then Step(d, [], false)
    else Step(d.(needsRecount := true, pending := d.pending + 1), [], false)
  }

  /** One scheduled timer fires and runs `update` on the text current at that moment. */
  function FireStep(c: Config, d: Data, text: Text): Step
    requires d.pending > 0
  {
    UpdateStep(c, d.(pending := d.pending - 1), text)
  }

  /** A burst of `keyup`s, the i-th seeing `texts[i]`. */
  function SignalAll(c: Config, d: Data, texts: seq<Text>): Step
    decreases |texts|
  {
    if texts == [] then Step(d, [], false)
    else
      var first := SignalStep(c, d, texts[0]);
      var rest := SignalAll(c, first.data, texts[1..]);
      Step(rest.data, first.emitted + rest.emitted, first.threw || rest.threw)
  }

  // ---------------------------------------------------------------------
  // Measurement

  /**
   * `strlen` is the number of code units unless `lengthUnit` is 'bytes'; in
   * byte mode the measurement succeeds exactly on well-formed text and is
   * then its UTF-8 length.
   */
  lemma CountingMode(c: Config, text: Text)
    ensures !c.byteMode ==> Measure(c, text) == Success(|text|)
    ensures c.byteMode ==> (Measure(c, text).Success? <==> WellFormed(text))
    ensures c.byteMode && Measure(c, text).Success? ==> Measure(c, text).value == Utf8Len(text)
    ensures Measure(c, text).Success? ==> Measure(c, text).value >= 0
  {
    EncodeSucceedsIffWellFormed(text);
    if EncodeUri(text).Success? {
      ByteLenIsUtf8Length(text);
    }
  }

  /**
   * Every `update` that measures records the length and closes the debounce
   * window; one whose measurement throws changes nothing and triggers nothing.
   */
  lemma UpdateRecords(c: Config, d: Data, text: Text)
    ensures var s := UpdateStep(c, d, text);
            && (s.threw <==> Measure(c, text).Failure?)
            && (s.threw ==> s.data == d && s.emitted == [])
            && (!s.threw ==> s.data.strlen == Some(Measure(c, text).value) && !s.data.needsRecount)
            && s.data.pending == d.pending
  {
  }

  // ---------------------------------------------------------------------
  // Thresholds

  /**
   * Over the limit, `update` sets `overLimit` and triggers WENT_OVER_LIMIT
   * on every run, not only on crossing; the warning flag and the last good
   * length are untouched and nothing else is triggered.
   */
  lemma OverLimit(c: Config, d: Data, text: Text, n: int)
    requires Measure(c, text) == Success(n) && n as real > c.limit
    ensures var s := UpdateStep(c, d, text);
            && s.data.overLimit
            && s.emitted == [WentOverLimit]
            && s.data.overWarning == d.overWarning
            && s.data.lastGoodLength == d.lastGoodLength
            && s.data.textBeforeKey == d.textBeforeKey
  {
  }

  /** Listing order of the events of one `update` that is not over the limit. */
  function Rank(e: Event): nat
  {
    match e
    case FellUnderLimit => 0
    case AtLimit => 1
    case WentOverWarning => 2
    case FellUnderWarning => 2
    case WentOverLimit => 3
  }

  /**
   * At or under the limit, `overLimit` ends false, FELL_UNDER_LIMIT fires
   * exactly when it was set, AT_LIMIT fires on every run exactly at the
   * limit, and they come before at most one warning event.
   */
  lemma AtOrUnderLimit(c: Config, d: Data, text: Text, n: int)
    requires Measure(c, text) == Success(n) && n as real <= c.limit
    ensures var s := UpdateStep(c, d, text);
            && !s.data.overLimit
            && (FellUnderLimit in s.emitted <==> d.overLimit)
            && (AtLimit in s.emitted <==> n as real == c.limit)
            && WentOverLimit !in s.emitted
            && (forall i, j :: 0 <= i < j < |s.emitted| ==> Rank(s.emitted[i]) < Rank(s.emitted[j]))
  {
  }

  /** `lastGoodLength` and `textBeforeKey` are overwritten only strictly below the limit. */
  lemma LastGoodLength(c: Config, d: Data, text: Text, n: int)
    requires Measure(c, text) == Success(n)
    ensures var s := UpdateStep(c, d, text);
            && s.data.lastGoodLength == (if n as real < c.limit then Some(n) else d.lastGoodLength)
            && s.data.textBeforeKey == (if n as real < c.limit then Some(text) else d.textBeforeKey)
  {
  }

  /**
   * At or under a positive limit, `overWarning` ends true exactly inside the
   * warning band, WENT_OVER_WARNING fires only when it turns on and
   * FELL_UNDER_WARNING only when it turns off.
   */
  lemma WarningFlag(c: Config, d: Data, text: Text, n: int)
    requires Measure(c, text) == Success(n) && n as real <= c.limit && c.limit > 0.0
    ensures var s := UpdateStep(c, d, text);
            && (s.data.overWarning <==> c.warningThreshold < n as real / c.limit < 1.0)
            && (WentOverWarning in s.emitted <==> !d.overWarning && s.data.overWarning)
            && (FellUnderWarning in s.emitted <==> d.overWarning && !s.data.overWarning)
  {
  }

  /**
   * Reaching exactly the limit from inside the warning band also fires
   * FELL_UNDER_WARNING, since `percent` is then 1 and not below 1.
   */
  lemma LimitLeavesWarningBand(c: Config, d: Data, text: Text, n: int)
    requires Measure(c, text) == Success(n) && n as real == c.limit && c.limit > 0.0
    requires d.overWarning && !d.overLimit
    ensures UpdateStep(c, d, text).emitted == [AtLimit, FellUnderWarning]
    ensures !UpdateStep(c, d, text).data.overWarning
  {
    assert UpdateStep(c, d, text) == Thresholds(c, d, n, text);
    AtLimitOutOfBand(c, n);
  }

  /** At the limit `percent` is exactly 1, outside the warning band. */
  lemma AtLimitOutOfBand(c: Config, n: int)
    requires n as real == c.limit && c.limit > 0.0
    ensures !InWarningBand(c, n)
  {
    assert n as real / c.limit == c.limit / c.limit == 1.0;
  }

  /**
   * In character mode with a zero limit, empty text is at the limit (AT_LIMIT,
   * no warning) and any other text is over it.
   */
  lemma ZeroLimit(c: Config, d: Data, text: Text)
    requires c.limit == 0.0 && !c.byteMode
    ensures var s := UpdateStep(c, d, text);
            && (text == [] ==> AtLimit in s.emitted && !s.data.overWarning && !s.data.overLimit)
            && (text != [] ==> s.emitted == [WentOverLimit] && s.data.overLimit)
  {
  }

  /**
   * A sequence of direct updates with a limit of 10 and a 0.8 threshold,
   * the texts having 5, 8, 9, 10, 11 and 6 characters.
   */
  lemma TypingScenario(t5: Text, t8: Text, t9: Text, t10: Text, t11: Text, t6: Text)
    requires |t5| == 5 && |t8| == 8 && |t9| == 9 && |t10| == 10 && |t11| == 11 && |t6| == 6
    ensures var c := Settings.Config(10.0, 0.0, 0.8, false);
            var s5 := UpdateStep(c, Fresh, t5);
            var s8 := UpdateStep(c, s5.data, t8);
            var s9 := UpdateStep(c, s8.data, t9);
            var s10 := UpdateStep(c, s9.data, t10);
            var s11 := UpdateStep(c, s10.data, t11);
            var s6 := UpdateStep(c, s11.data, t6);
            && s5.emitted == [] && s8.emitted == [] && s9.emitted == [WentOverWarning]
            && s10.emitted == [AtLimit, FellUnderWarning]
            && s11.emitted == [WentOverLimit]
            && s6.emitted == [FellUnderLimit]
            && s6.data.lastGoodLength == Some(6)
  {
  }

  // ---------------------------------------------------------------------
  // Debounce

  /** With a zero delay every `keyup` runs `update` at once. */
  lemma ZeroDelayUpdatesAtOnce(c: Config, d: Data, text: Text)
    requires c.recalculateDelay == 0.0
    ensures SignalStep(c, d, text) == UpdateStep(c, d, text)
    ensures SignalStep(c, d, text).data.pending == d.pending
  {
  }

  /** While the window is open, further `keyup`s change nothing. */
  lemma {:induction false} OpenWindowIgnoresSignals(c: Config, d: Data, texts: seq<Text>)
    requires c.recalculateDelay != 0.0 && d.needsRecount
    ensures SignalAll(c, d, texts) == Step(d, [], false)
    decreases |texts|
  {
    if texts != [] {
      OpenWindowIgnoresSignals(c, d, texts[1..]);
    }
  }

  /**
   * A burst of `keyup`s with a positive delay opens the window once and
   * schedules exactly one timer, triggering nothing and reading no text.
   */
  lemma {:induction false} BurstSchedulesOnce(c: Config, d: Data, texts: seq<Text>)
    requires c.recalculateDelay != 0.0 && !d.needsRecount && |texts| >= 1
    ensures SignalAll(c, d, texts) == Step(d.(needsRecount := true, pending := d.pending + 1), [], false)
  {
    var open := d.(needsRecount := true, pending := d.pending + 1);
    OpenWindowIgnoresSignals(c, open, texts[1..]);
  }

  /**
   * The one timer of a burst runs `update` on the text current when it fires,
   * as if that were the only change, and closes the window.
   */
  lemma BurstThenFire(c: Config, d: Data, texts: seq<Text>, text: Text)
    requires c.recalculateDelay != 0.0 && !d.needsRecount && |texts| >= 1
    ensures SignalAll(c, d, texts).data.pending > 0
    ensures var s := FireStep(c, SignalAll(c, d, texts).data, text);
            && s.emitted == UpdateStep(c, d, text).emitted
            && s.threw == UpdateStep(c, d, text).threw
            && (!s.threw ==> s.data == UpdateStep(c, d, text).data && !s.data.needsRecount)
            && s.data.pending == d.pending
  {
    BurstSchedulesOnce(c, d, texts);
  }

  /**
   * If the timer's `update` throws, `needsRecount` stays set, so the `keyup`s
   * that follow are ignored and schedule nothing, until an `update` that
   * measures (a `recount`, or another timer still pending) clears the flag.
   */
  lemma ThrowKeepsWindowOpen(c: Config, d: Data, text: Text, texts: seq<Text>)
    requires c.recalculateDelay != 0.0 && d.needsRecount && d.pending > 0
    requires FireStep(c, d, text).threw
    ensures FireStep(c, d, text).data.needsRecount
    ensures SignalAll(c, FireStep(c, d, text).data, texts).data == FireStep(c, d, text).data
  {
    OpenWindowIgnoresSignals(c, FireStep(c, d, text).data, texts);
  }

  /**
   * `recount` closes the window while its timer is still pending, so the
   * next `keyup` schedules a second timer.
   */
  lemma RecountAllowsSecondTimer(c: Config, d: Data, t1: Text, t2: Text, t3: Text)
    requires c.recalculateDelay != 0.0 && !d.needsRecount
    requires Measure(c, t2).Success?
    ensures var s1 := SignalStep(c, d, t1);
            var s2 := UpdateStep(c, s1.data, t2);
            var s3 := SignalStep(c, s2.data, t3);
            s3.data.pending == d.pending + 2 && s3.data.needsRecount
  {
  }

  /**
   * The first measurement is not silent: with a zero delay the `keyup` that
   * `init` triggers (jQuery.textGauge.js:165) runs `update`, which can fire
   * events at once.
   */
  lemma FirstMeasurementFires(c: Config, text: Text)
    requires c.recalculateDelay == 0.0 && !c.byteMode && |text| as real > c.limit
    ensures SignalStep(c, Fresh, text).emitted == [WentOverLimit]
  {
  }
}
