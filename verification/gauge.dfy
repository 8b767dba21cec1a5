/**
 * One text gauge instance: the `data` record that `init` attaches to an
 * element, updated in place by `update`, `setNeedsRecount`, the debounce
 * timer and `recount` (jQuery.textGauge.js:39-109, 113-180). Triggered
 * events are appended to `triggered`; each method is proved to do what the
 * matching step of module Engine describes.
 */
module Gauge {
  import opened Wrappers
  import opened ByteLength
  import opened Uri
  import Settings
  import opened Engine

  class TextGauge {
    /** The merged settings, fixed at `init`. */
    const config: Config

    var needsRecount: bool
    /** Timers scheduled by `setTimeout` that have not fired yet. */
    var pending: nat
    var strlen: Option<int>
    var overLimit: bool
    var overWarning: bool
    var lastGoodLength: Option<int>
    var textBeforeKey: Option<Text>
    /** Every event triggered on the element so far, oldest first. */
    var triggered: seq<Event>

    function Record(): Engine.Data
      reads this
    {
      Engine.Data(needsRecount, pending, strlen, overLimit, overWarning, lastGoodLength, textBeforeKey)
    }

    /** The record `init` attaches to an element (jQuery.textGauge.js:130-139). */
    constructor (config: Config)
      ensures this.config == config
      ensures Record() == Fresh && triggered == []
    {
      this.config := config;
      needsRecount, pending, strlen := false, 0, None;
      overLimit, overWarning := false, false;
      lastGoodLength, textBeforeKey := None, None;
      triggered := [];
    }

    /** `update` (jQuery.textGauge.js:50-109) on the element's current `text`. */
    method Update(text: Text) returns (threw: bool)
      modifies this
      ensures var s := UpdateStep(config, old(Record()), text);
              Record() == s.data && triggered == old(triggered) + s.emitted && threw == s.threw
    {
      var n: int;
      if config.byteMode {
        var escaped := EncodeUri(text);
        if escaped.Failure? {
          return true;
        }
        n := ByteLen(escaped.value);
      } else {
        n := |text|;
      }
      threw := false;
      ApplyThresholds(n, text);
    }

    /** The part of `update` after the measurement `n` (jQuery.textGauge.js:55-108). */
    method ApplyThresholds(n: int, text: Text)
      modifies this
      ensures var s := Thresholds(config, old(Record()), n, text);
              Record() == s.data && triggered == old(triggered) + s.emitted
    {
      strlen := Some(n);
      if needsRecount {
        needsRecount := false;
      }
      if n as real > config.limit {
        overLimit := true;
        triggered := triggered + [WentOverLimit];
      } else {
        ApplyAtOrUnderLimit(n, text);
        ApplyWarning(n);
      }
    }

    /** Leaving the over-limit state, the exact limit and the last good length (jQuery.textGauge.js:77-88). */
    method ApplyAtOrUnderLimit(n: int, text: Text)
      modifies this`overLimit, this`triggered, this`lastGoodLength, this`textBeforeKey
      ensures !overLimit
      ensures triggered == old(triggered) + (if old(overLimit) then [FellUnderLimit] else [])
                                          + (if n as real == config.limit then [AtLimit] else [])
      ensures lastGoodLength == if n as real < config.limit then Some(n) else old(lastGoodLength)
      ensures textBeforeKey == if n as real < config.limit then Some(text) else old(textBeforeKey)
    {
      if overLimit {
        overLimit := false;
        triggered := triggered + [FellUnderLimit];
      }
      if n as real == config.limit {
        triggered := triggered + [AtLimit];
      } else if n as real < config.limit {
        lastGoodLength := Some(n);
        textBeforeKey := Some(text);
      }
    }

    /** The warning band test of jQuery.textGauge.js:89, 96-107. */
    method ApplyWarning(n: int)
      modifies this`overWarning, this`triggered
      ensures var band := InWarningBand(config, n);
              && overWarning == band
              && triggered == old(triggered) + (if band && !old(overWarning) then [WentOverWarning]
                                                else if !band && old(overWarning) then [FellUnderWarning]
                                                else [])
    {
      var inBand := false;
      if config.limit != 0.0 {
        var percent := n as real / config.limit;
        inBand := percent < 1.0 && percent > config.warningThreshold;
      }
      if inBand {
        if !overWarning {
          triggered := triggered + [WentOverWarning];
          overWarning := true;
        }
      } else {
        if overWarning {
          triggered := triggered + [FellUnderWarning];
          overWarning := false;
        }
      }
    }

    /** `setNeedsRecount` (jQuery.textGauge.js:39-48): the `keyup` handler. */
    method SetNeedsRecount(text: Text) returns (threw: bool)
      modifies this
      ensures var s := SignalStep(config, old(Record()), text);
              Record() == s.data && triggered == old(triggered) + s.emitted && threw == s.threw
    {
      threw := false;
      if config.recalculateDelay == 0.0 {
        threw := Update(text);
      } else if !needsRecount {
        needsRecount := true;
        pending := pending + 1;
      }
    }

    /** A timer scheduled at jQuery.textGauge.js:46 fires and runs `update`. */
    method Fire(text: Text) returns (threw: bool)
      requires pending > 0
      modifies this
      ensures var s := FireStep(config, old(Record()), text);
              Record() == s.data && triggered == old(triggered) + s.emitted && threw == s.threw
    {
      pending := pending - 1;
      threw := Update(text);
    }

    /** `methods.recount` (jQuery.textGauge.js:176-180): `update` without the scheduler. */
    method Recount(text: Text) returns (threw: bool)
      modifies this
      ensures var s := UpdateStep(config, old(Record()), text);
              Record() == s.data && triggered == old(triggered) + s.emitted && threw == s.threw
    {
      threw := Update(text);
    }
  }

  /**
   * `methods.init` for one element (jQuery.textGauge.js:113-166): the checked
   * and merged settings, then a gauge with a fresh record whose first `keyup`
   * (jQuery.textGauge.js:165) sees `text`. When that `keyup` throws, the
   * source has already attached the record and bound the handler, and the
   * exception leaves `init`: the gauge is returned with `threw` set.
   */
  method Init(options: Settings.JsValue, text: Text) returns (r: Result<TextGauge, Settings.InitError>, threw: bool)
    requires Settings.InitSettings(options).Success? ==>
               Settings.ConfigOf(Settings.InitSettings(options).value).Some?
    ensures r.Failure? <==> Settings.InitSettings(options).Failure?
    ensures r.Failure? ==> r.error == Settings.InitSettings(options).error && !threw
    ensures r.Success? ==>
              var c := Settings.ConfigOf(Settings.InitSettings(options).value).value;
              var s := SignalStep(c, Fresh, text);
              && fresh(r.value)
              && r.value.config == c
              && r.value.Record() == s.data
              && r.value.triggered == s.emitted
              && threw == s.threw
  {
    var settings := Settings.InitSettings(options);
    if settings.Failure? {
      return Failure(settings.error), false;
    }
    var gauge := new TextGauge(Settings.ConfigOf(settings.value).value);
    threw := gauge.SetNeedsRecount(text);
    return Success(gauge), threw;
  }

  /** Two quick keystrokes schedule one timer, which fires on the latest text. */
  method DebounceExample(gauge: TextGauge, t1: Text, t2: Text, t3: Text)
    requires gauge.config.recalculateDelay == 100.0 && !gauge.config.byteMode
    requires !gauge.needsRecount && gauge.pending == 0
    modifies gauge
    ensures gauge.pending == 0 && !gauge.needsRecount
    ensures gauge.strlen == Some(|t3|)
  {
    var threw := gauge.SetNeedsRecount(t1);
    threw := gauge.SetNeedsRecount(t2);
    assert gauge.pending == 1;
    threw := gauge.Fire(t3);
  }
}
