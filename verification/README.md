# textGauge: a verified model of the measurement-and-threshold engine

textGauge is a jQuery plugin that puts a "room left" meter under a text
input. As the user types, it measures the text against a configured limit
and triggers events when the text crosses the warning band, reaches the
limit, or goes over it. This project models the engine behind the meter and
proves properties of it. The meter bar and the DOM are not modelled.

- **Byte counter** (`ByteLength`, `Uri`). `byteLen` percent-encodes the text
  with `encodeURI`, splits the result on `%`, and counts every `%XX`
  triplet as one unit. `encodeURI` is modelled as section 15.1.3.3 of
  ECMAScript 5.1 defines it. Text is a sequence of UTF-16 code units, so a
  text's `length` is its number of code units. Two results are proved:
  - `encodeURI` throws URIError exactly when the text has a lone surrogate;
  - otherwise `byteLen` returns exactly the UTF-8 length of the text.

  For well-formed text, then, the count is exact and not an approximation.
- **Options** (`Settings`). `methods.init` checks the options. The merge is
  `$.extend({}, defaults, options)` over a small model of JavaScript
  values. The engine then reads a numeric `Config` from the merged
  settings.
- **Engine** (`Engine`). Pure step functions give the effect of one
  `update`, one `keyup` through `setNeedsRecount`, and one timer firing.
  Each step returns:
  - the new `data` record;
  - the events it triggered, in order;
  - whether `encodeURI` threw.

  Scheduled timers are an explicit `pending` counter. Lemmas state what the
  source promises about these steps.
- **Instance** (`Gauge.TextGauge`). A class whose fields are the `data`
  record. Its methods update the fields step by step, as the source does,
  and append triggered events to `triggered`. `Update`, `ApplyThresholds`,
  `SetNeedsRecount`, `Fire` and `Recount` are each proved equal to an
  Engine step. `ApplyAtOrUnderLimit` and `ApplyWarning` have no step of
  their own: each states its effect field by field, and together they make
  up the at-or-under-limit branch of `Engine.Thresholds`.

The model follows the code where the code differs from what a reader might
expect:
- `WENT_OVER_LIMIT` fires on every update while the text is over the
  limit, not only when the limit is crossed.
- `AT_LIMIT` fires on every update exactly at the limit.
- Reaching the limit from inside the warning band fires both `AT_LIMIT` and
  `FELL_UNDER_WARNING`, because `percent` is then 1 and not below 1. So the
  sequence 5, 8, 9, 10, 11, 6 (limit 10, threshold 0.8) triggers
  `[]`, `[]`, `[WENT_OVER_WARNING]`, `[AT_LIMIT, FELL_UNDER_WARNING]`,
  `[WENT_OVER_LIMIT]`, `[FELL_UNDER_LIMIT]`.
- Byte mode is chosen by the setting `lengthUnit`, not by the checked option
  `limitUnits`. The defaults always count characters.
- The first measurement is not silent. `init` triggers `keyup` itself.
- `limit` is never checked. A zero limit makes `percent` NaN, so the
  warning test is false.
- `recount` clears `needsRecount` while a timer may still be pending, so a
  second timer can be scheduled.
- In byte mode, a URIError thrown inside the timer's `update` leaves
  `needsRecount` set. Later `keyup`s are then ignored until an `update`
  that measures clears the flag: a `recount`, or another timer that was
  still pending.
- When the `keyup` that `init` triggers throws, the record is already
  attached and the handler bound; the URIError then leaves `init`.
- `init` with undefined or null options throws a TypeError at line 114. It
  reads `options.limitUnits` before the `if (options)` guard.

## Model

| member | source | states |
|---|---|---|
| `ByteLength.Split` | jQuery.textGauge.js:31 | `split('%')`; its contract gives at least one piece, and `SplitJoin` and `SplitPieces` state the rest |
| `ByteLength.ByteLen` | jQuery.textGauge.js:27-37 | `byteLen` on the escaped text; no contract of its own, stated by `ByteLenFormula`, `TripletsCountOnce` and `Uri.ByteLenIsUtf8Length` |
| `ByteLength.SplitJoin` | jQuery.textGauge.js:31 | splitting the escaped text on '%' and joining the pieces again gives the text back |
| `ByteLength.SplitPieces` | jQuery.textGauge.js:31 | `split('%')` has one piece more than there are '%' characters, and no piece contains '%' |
| `ByteLength.ByteLenFormula` | jQuery.textGauge.js:27-37 | `byteLen` is the escaped length minus two for every '%'; with no '%' it is the escaped length |
| `ByteLength.TripletsCountOnce` | jQuery.textGauge.js:27-37 | when every '%' opens a `%XX` triplet, `byteLen` counts each triplet once and each other character once, and lies between 0 and the escaped length |
| `ByteLength.LonePercentCountsNegative` | jQuery.textGauge.js:30-32 | the count depends on the triplet guarantee: a bare "%" would count -1 |
| `Uri.Utf8Bytes` | jQuery.textGauge.js:29 | `encodeURI` writes a code point as 1 to 4 octets, each below 256 |
| `Uri.Utf8RoundTrip` | jQuery.textGauge.js:29 | those octets are continuation octets after the first and decode back to the code point |
| `Uri.Escape` | jQuery.textGauge.js:29 | escaping n octets gives 3n characters, correctly escaped, that count as n units |
| `Uri.EncodeUri` | jQuery.textGauge.js:29 | `encodeURI`; no contract of its own, stated by `EncodeSucceedsIffWellFormed` and `EncodeCountsUtf8` |
| `Uri.EncodeSucceedsIffWellFormed` | jQuery.textGauge.js:29 | `encodeURI` throws URIError exactly on text with a lone surrogate |
| `Uri.EncodeCountsUtf8` | jQuery.textGauge.js:29 | what `encodeURI` returns is correctly escaped, and its units are the UTF-8 octets of the text |
| `Uri.ByteLenIsUtf8Length` | jQuery.textGauge.js:27-37 | `byteLen` of well-formed text is its UTF-8 length, never more than the escaped length |
| `Uri.EuroSignExample` | jQuery.textGauge.js:27-37 | "€abcd" is 5 code units and 7 bytes |
| `Settings.InitSettings` | jQuery.textGauge.js:113-124 | the checks and the merge of `init`; no contract of its own, stated by `InitRejects`, `InitMerges`, `PrimitiveOptions` and `StringOptions` |
| `Settings.Extend` | jQuery.textGauge.js:123 | `$.extend({}, defaults, options)`; no contract of its own, stated by `ExtendEntries` and `InitMerges` |
| `Settings.ExtendEntries` | jQuery.textGauge.js:123 | a key is in the result iff one of the two maps defines it; a defined value of the later map wins, otherwise the earlier map's value is kept |
| `Settings.StringFields` | jQuery.textGauge.js:123 | the properties "0", "1", … that `$.extend` enumerates on a string; each is an `Other` key with a defined value |
| `Settings.IndexName` | jQuery.textGauge.js:123 | the decimal property name of a string index: non-empty, all digits, and never one of the names the plugin reads |
| `Settings.InitRejects` | jQuery.textGauge.js:113-119 | init fails exactly for undefined or null options, a string `limitUnits` other than 'bytes'/'chars', or a non-null non-function `wentOverLimit`/`fellUnderLimit`; the checks run in that order and the first failing one names the error (TypeError, limitUnits, wentOverLimit, fellUnderLimit); a `limitUnits` that is not a string is never rejected |
| `Settings.InitMerges` | jQuery.textGauge.js:121-124 | accepted settings hold every supplied option, every default that was not overridden, and nothing else |
| `Settings.PrimitiveOptions` | jQuery.textGauge.js:121-124 | a truthy number, boolean or function as options is accepted and yields exactly the defaults |
| `Settings.StringOptions` | jQuery.textGauge.js:121-124 | a non-empty string as options is accepted; its first character becomes the setting "0" and every default is kept |
| `Settings.ConfigOf` | jQuery.textGauge.js:54-64 | the settings the engine reads; no contract of its own, stated by `DefaultConfig` and `ByteModeFromLengthUnit` |
| `Settings.DefaultConfig` | jQuery.textGauge.js:9-15 | the constant `Settings.Defaults` models `defaults`; the defaults are limit 100, delay 100, threshold 0.8, counting characters |
| `Settings.ByteModeFromLengthUnit` | jQuery.textGauge.js:54-58 | after init, bytes are counted exactly when the option `lengthUnit` is 'bytes', whatever `limitUnits` says |
| `Engine.EventName` | jQuery.textGauge.js:18-24 | the `kEvents` table; no contract of its own |
| `Engine.EventNamesDistinct` | jQuery.textGauge.js:18-24 | documents `kEvents`: the five event names are pairwise distinct |
| `Engine.Measure` | jQuery.textGauge.js:54-58 | the length `update` measures; no contract of its own, stated by `CountingMode` |
| `Engine.Thresholds` | jQuery.textGauge.js:59-108 | `update` after the measurement; no contract of its own, stated by `OverLimit`, `AtOrUnderLimit`, `LastGoodLength` and `WarningFlag` |
| `Engine.UpdateStep` | jQuery.textGauge.js:50-109 | one `update`; no contract of its own, stated by `UpdateRecords` and the lemmas on `Thresholds` |
| `Engine.SignalStep` | jQuery.textGauge.js:39-48 | one `keyup`; no contract of its own, stated by `ZeroDelayUpdatesAtOnce`, `OpenWindowIgnoresSignals` and `BurstSchedulesOnce` |
| `Engine.FireStep` | jQuery.textGauge.js:46 | a scheduled timer firing; no contract of its own, stated by `BurstThenFire` and `ThrowKeepsWindowOpen` |
| `Engine.CountingMode` | jQuery.textGauge.js:54-58 | `strlen` is the code-unit length in character mode; in byte mode the measurement succeeds exactly on well-formed text and is its UTF-8 length |
| `Engine.UpdateRecords` | jQuery.textGauge.js:51-61 | an update that measures stores `strlen` and clears `needsRecount`; one whose `encodeURI` throws changes nothing and triggers nothing |
| `Engine.OverLimit` | jQuery.textGauge.js:64-68 | over the limit, `overLimit` is set and exactly `WENT_OVER_LIMIT` fires, on every update; `overWarning`, `lastGoodLength` and `textBeforeKey` are kept |
| `Engine.AtOrUnderLimit` | jQuery.textGauge.js:76-108 | at or under the limit, `overLimit` ends false; `FELL_UNDER_LIMIT` fires iff it was set; `AT_LIMIT` fires iff exactly at the limit; these come first, then at most one warning event |
| `Engine.LastGoodLength` | jQuery.textGauge.js:85-88 | `lastGoodLength` and `textBeforeKey` change only strictly below the limit |
| `Engine.WarningFlag` | jQuery.textGauge.js:89-107 | at or under a positive limit, `overWarning` ends true iff threshold < strlen/limit < 1; `WENT_OVER_WARNING` fires only when the flag turns on, `FELL_UNDER_WARNING` only when it turns off |
| `Engine.LimitLeavesWarningBand` | jQuery.textGauge.js:82-106 | in either counting mode, a measurement that reaches a positive limit from the warning band triggers `AT_LIMIT` then `FELL_UNDER_WARNING` and clears `overWarning` |
| `Engine.ZeroLimit` | jQuery.textGauge.js:64-107 | in character mode with limit 0, empty text triggers `AT_LIMIT` and no warning, and any other text is over the limit |
| `Engine.TypingScenario` | jQuery.textGauge.js:50-109 | the event lists of the 5, 8, 9, 10, 11, 6 sequence above, and `lastGoodLength` 6 at the end |
| `Engine.ZeroDelayUpdatesAtOnce` | jQuery.textGauge.js:42-43 | with delay 0, every `keyup` runs `update` at once and schedules nothing |
| `Engine.OpenWindowIgnoresSignals` | jQuery.textGauge.js:44 | while `needsRecount` is set, any number of `keyup`s change nothing |
| `Engine.BurstSchedulesOnce` | jQuery.textGauge.js:44-47 | a burst of `keyup`s sets `needsRecount` and schedules exactly one timer, triggering nothing |
| `Engine.BurstThenFire` | jQuery.textGauge.js:39-61 | that timer runs `update` on the text current when it fires, with the same effect as a single update, and leaves `needsRecount` false |
| `Engine.ThrowKeepsWindowOpen` | jQuery.textGauge.js:44-61 | if the timer's `update` throws, `needsRecount` stays set, so the `keyup`s that follow are ignored |
| `Engine.RecountAllowsSecondTimer` | jQuery.textGauge.js:176-180 | `keyup`, then `recount`, then `keyup` leaves two timers pending |
| `Engine.FirstMeasurementFires` | jQuery.textGauge.js:165 | with delay 0, the `keyup` that init triggers can fire `WENT_OVER_LIMIT` at once |
| `Gauge.TextGauge.constructor` | jQuery.textGauge.js:130-139 | a fresh `data` record, the constant `Engine.Fresh`: all flags false, nothing measured, nothing pending, nothing triggered |
| `Gauge.TextGauge.Update` | jQuery.textGauge.js:50-109 | the fields and triggered events after `update` are those of `Engine.UpdateStep` |
| `Gauge.TextGauge.ApplyThresholds` | jQuery.textGauge.js:55-108 | once the length is measured, the fields and events are those of `Engine.Thresholds` |
| `Gauge.TextGauge.ApplyAtOrUnderLimit` | jQuery.textGauge.js:77-88 | `overLimit` is cleared with `FELL_UNDER_LIMIT`; `AT_LIMIT` fires at the limit; the last good length is stored below it |
| `Gauge.TextGauge.ApplyWarning` | jQuery.textGauge.js:89-107 | `overWarning` becomes the band test; the event fires only on a change |
| `Gauge.TextGauge.SetNeedsRecount` | jQuery.textGauge.js:39-48 | the fields and events after a `keyup` are those of `Engine.SignalStep` |
| `Gauge.TextGauge.Fire` | jQuery.textGauge.js:46 | one pending timer is consumed and `update` runs on the text given at fire time |
| `Gauge.TextGauge.Recount` | jQuery.textGauge.js:176-180 | `recount` is `update` without the scheduler |
| `Gauge.Init` | jQuery.textGauge.js:113-166 | init fails exactly when the option checks fail, with the same error; otherwise it returns a fresh gauge with the merged configuration, after its first `keyup`, and reports whether that `keyup` threw URIError |
| `Gauge.DebounceExample` | jQuery.textGauge.js:39-61 | two quick `keyup`s and the timer leave `strlen` equal to the length of the latest text, with nothing pending |

## Left out

- Rendering is not modelled: bar width and position, CSS classes, `animate`, and creating and inserting elements (lines 62, 65-66, 69-75, 80, 90-95, 97, 141-163). The source states no behaviour for them beyond display.
- `destroy` (lines 168-175) is DOM removal. It reads `originalBottomProperty`, which is never set, and it does not cancel a pending timer.
- The `$.fn.textGauge` dispatcher, the element filter and `this.each` (lines 183-191, 126, 169, 177) are jQuery routing. The model covers a single instance.
- `setTimeout` is an explicit `pending` count of timers that have not fired. The delay length and the order of timers of different instances are not modelled.
- The element's current text (`$el.val()`) is a parameter of each step.
- `encodeURI` is modelled from section 15.1.3.3 of ECMAScript 5.1, not from a host implementation.
- Numbers are Dafny reals. Floating-point rounding in `strlen / limit` is not modelled, and neither is NaN as an option value.
- `Gauge.Init`: requires `limit`, `recalculateDelay` and `warningThreshold` to be numbers after the merge. JavaScript's coercions of other values in `>`, `==` and `/` are not modelled.
- Objects of the JavaScript value model have only the properties they list. `Other` stands for any property name the plugin does not read; its type `Settings.OtherName` excludes the eight names it reads. Of the primitives, only a string has enumerable properties (its characters); non-enumerable properties such as a string's `length`, and properties assigned to a function, are not modelled.
- When a `keyup` or `init` throws, the model returns a `threw` flag and leaves the record unchanged. It does not model the exception leaving the jQuery event handler or `init`; in particular `Gauge.Init` returns the attached gauge with `threw` set where the source has no return value.
- Event listeners are assumed not to throw, not to re-enter the plugin (for example by calling `recount`), and not to change the element's value. The `$el.trigger` calls at lines 68, 79, 84, 99 and 104 run listeners synchronously in the middle of `update`, and line 87 reads `$el.val()` again after them; the model uses the text given to the step.
- The callbacks `wentOverLimit` and `fellUnderLimit` are only type-checked, never called. The code does the same.
- With falsy options, `init` shares the `defaults` object itself rather than a copy (line 121). Values in the model are immutable, so that sharing cannot be observed here; nothing in the core writes to `settings`.
