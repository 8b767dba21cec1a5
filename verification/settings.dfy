/**
 * Option checking and defaults merging of `methods.init`
 * (jQuery.textGauge.js:8-15, 113-124), over a small model of JavaScript
 * values, and the numeric configuration the engine reads from the merged
 * settings.
 */
module Settings {
  import opened Wrappers

  /** The option names the plugin reads (jQuery.textGauge.js:9-15, 54, 114-118). */
  const ReadNames: set<string> := {
    "limit", "limitUnits", "recalculateDelay", "warningThreshold",
    "animate", "lengthUnit", "wentOverLimit", "fellUnderLimit"
  }

  predicate IsReadName(name: string)
  {
    name in ReadNames
  }

  /** Any other property name. */
  type OtherName = name: string | !IsReadName(name) witness "0"

  /**
   * Property names of the options and settings objects: the ones the plugin
   * reads, and `Other` for any further name a caller may pass.
   */
  datatype Key =
    | Limit | LimitUnits | RecalculateDelay | WarningThreshold | Animate
    | LengthUnit | WentOverLimit | FellUnderLimit
    | Other(name: OtherName)

  /** The JavaScript values an options object can hold. */
  datatype JsValue =
    | Undefined
    | Null
    | Bool(b: bool)
    | Num(n: real)
    | Str(s: string)
    | Function(id: nat)
    | Object(fields: map<Key, JsValue>)

  /** The `typeof` operator. */
  function TypeOf(v: JsValue): string
  {
    match v
    case Undefined => "undefined"
    case Null => "object"
    case Bool(_) => "boolean"
    case Num(_) => "number"
    case Str(_) => "string"
    case Function(_) => "function"
    case Object(_) => "object"
  }

  /** `!!v`; NaN is not modelled. */
  predicate Truthy(v: JsValue)
  {
    match v
    case Undefined => false
    case Null => false
    case Bool(b) => b
    case Num(n) => n != 0.0
    case Str(s) => s != ""
    case Function(_) => true
    case Object(_) => true
  }

  /** `v != null`: loose inequality, so both `undefined` and `null` are "null". */
  predicate IsNonNull(v: JsValue)
  {
    !v.Undefined? && !v.Null?
  }

  /** The decimal name of an array index, as `for (name in v)` spells it. */
  function IndexName(i: nat): (r: string)
    ensures |r| >= 1 && forall j :: 0 <= j < |r| ==> '0' <= r[j] <= '9'
    ensures !IsReadName(r)
  {
    if i < 10 then ["0123456789"[i]]
    else
      var r := IndexName(i / 10) + ["0123456789"[i % 10]];
      assert r[0] == IndexName(i / 10)[0];
      r
  }

  /** The characters of a string primitive as its enumerable properties "0", "1", .... */
  function StringFields(s: string): (r: map<Key, JsValue>)
    ensures forall k :: k in r ==> k.Other? && r[k] != Undefined
  {
    if s == [] then map[]
    else StringFields(s[..|s| - 1])[Other(IndexName(|s| - 1)) := Str([s[|s| - 1]])]
  }

  /**
   * The own enumerable properties of `v`: an object's fields, a string's
   * characters, and none for the other primitives and for functions (inherited
   * properties such as a string's `length` are not modelled).
   */
  function OwnFields(v: JsValue): map<Key, JsValue>
  {
    match v
    case Object(fields) => fields
    case Str(s) => StringFields(s)
    case _ => map[]
  }

  /** The property read `v.key`. */
  function Get(v: JsValue, key: Key): JsValue
  {
    if key in OwnFields(v) then OwnFields(v)[key] else Undefined
  }

  /** The `defaults` object (jQuery.textGauge.js:9-15). */
  const Defaults: map<Key, JsValue> := map[
    Limit := Num(100.0),
    LimitUnits := Str("chars"),
    RecalculateDelay := Num(100.0),
    WarningThreshold := Num(0.8),
    Animate := Bool(true)
  ]

  /** `$.extend({}, base, over)`: a shallow copy in which defined values of `over` win. */
  function Extend(base: map<Key, JsValue>, over: map<Key, JsValue>): map<Key, JsValue>
  {
    var copy := map k | k in base && base[k] != Undefined :: base[k];
    copy + map k | k in over && over[k] != Undefined :: over[k]
  }

  datatype InitError =
    | TypeError         // reading a property of undefined or null options
    | BadLimitUnits     // jQuery.textGauge.js:115
    | BadWentOverLimit  // jQuery.textGauge.js:117
    | BadFellUnderLimit // jQuery.textGauge.js:119

  /** The `limitUnits` test of jQuery.textGauge.js:114. */
  predicate RejectsLimitUnits(v: JsValue)
  {
    TypeOf(v) == "string" && v.s != "bytes" && v.s != "chars"
  }

  /** The callback tests of jQuery.textGauge.js:116 and 118. */
  predicate RejectsCallback(v: JsValue)
  {
    IsNonNull(v) && TypeOf(v) != "function"
  }

  /**
   * `methods.init` up to the settings it hands to every element. The
   * dispatcher passes an object or a falsy value (jQuery.textGauge.js:187),
   * and `textGauge('init', x)` passes any `x` (jQuery.textGauge.js:185-186).
   */
  function InitSettings(options: JsValue): Result<map<Key, JsValue>, InitError>
  {
    if !IsNonNull(options) then Failure(TypeError)
    else if RejectsLimitUnits(Get(options, LimitUnits)) then Failure(BadLimitUnits)
    else if RejectsCallback(Get(options, WentOverLimit)) then Failure(BadWentOverLimit)
    else if RejectsCallback(Get(options, FellUnderLimit)) then Failure(BadFellUnderLimit)
    else if Truthy(options) then Success(Extend(Defaults, OwnFields(options)))
    else Success(Defaults)
  }

  /** The option `key` is supplied with a defined value. */
  predicate Supplies(options: JsValue, key: Key)
  {
    Get(options, key) != Undefined
  }

  /**
   * Init fails exactly when the options are undefined or null, or one of the
   * three checked options has the wrong type; the first failing check names
   * the error.
   */
  lemma InitRejects(options: JsValue)
    ensures InitSettings(options).Failure? <==>
              || !IsNonNull(options)
              || RejectsLimitUnits(Get(options, LimitUnits))
              || RejectsCallback(Get(options, WentOverLimit))
              || RejectsCallback(Get(options, FellUnderLimit))
    ensures !IsNonNull(options) ==> InitSettings(options) == Failure(TypeError)
    ensures IsNonNull(options) && RejectsLimitUnits(Get(options, LimitUnits)) ==>
              InitSettings(options) == Failure(BadLimitUnits)
    ensures IsNonNull(options) && !RejectsLimitUnits(Get(options, LimitUnits))
            && RejectsCallback(Get(options, WentOverLimit)) ==>
              InitSettings(options) == Failure(BadWentOverLimit)
    ensures IsNonNull(options) && !RejectsLimitUnits(Get(options, LimitUnits))
            && !RejectsCallback(Get(options, WentOverLimit))
            && RejectsCallback(Get(options, FellUnderLimit)) ==>
              InitSettings(options) == Failure(BadFellUnderLimit)
    ensures TypeOf(Get(options, LimitUnits)) != "string" ==> !RejectsLimitUnits(Get(options, LimitUnits))
  {
  }

  /**
   * Accepted settings are a fresh merge: every supplied option overrides the
   * default, every other default is kept, and nothing else appears.
   */
  lemma InitMerges(options: JsValue, settings: map<Key, JsValue>)
    requires InitSettings(options) == Success(settings)
    ensures forall k :: k in settings <==> k in Defaults || Supplies(options, k)
    ensures forall k :: k in settings && Supplies(options, k) ==> settings[k] == Get(options, k)
    ensures forall k :: k in settings && !Supplies(options, k) ==> settings[k] == Defaults[k]
  {
    var own := OwnFields(options);
    if Truthy(options) {
      assert settings == Extend(Defaults, own);
      assert forall k :: k in Defaults ==> Defaults[k] != Undefined;
      ExtendEntries(Defaults, own);
    } else {
      assert own == map[];
      assert settings == Defaults;
    }
  }

  /** The entries of `$.extend({}, base, over)`, key by key. */
  lemma ExtendEntries(base: map<Key, JsValue>, over: map<Key, JsValue>)
    ensures forall k :: k in Extend(base, over) <==>
              (k in base && base[k] != Undefined) || (k in over && over[k] != Undefined)
    ensures forall k :: k in over && over[k] != Undefined ==> Extend(base, over)[k] == over[k]
    ensures forall k :: k in base && base[k] != Undefined && !(k in over && over[k] != Undefined) ==>
              Extend(base, over)[k] == base[k]
  {
  }

  /**
   * A truthy number, boolean or function passed as options enumerates no
   * properties, so `$.extend` yields a copy of the defaults.
   */
  lemma PrimitiveOptions(options: JsValue)
    requires options.Bool? || options.Num? || options.Function?
    requires Truthy(options)
    ensures InitSettings(options) == Success(Defaults)
  {
    assert Extend(Defaults, OwnFields(options)) == Defaults;
  }

  /**
   * A non-empty string passed as options contributes its first character as
   * the setting "0" and leaves every setting the plugin reads at its default.
   */
  lemma StringOptions(s: string)
    requires s != ""
    ensures InitSettings(Str(s)).Success?
    ensures Other("0") in InitSettings(Str(s)).value
    ensures InitSettings(Str(s)).value[Other("0")] == Str([s[0]])
    ensures forall k :: k in Defaults ==> k in InitSettings(Str(s)).value && InitSettings(Str(s)).value[k] == Defaults[k]
  {
    var fields := StringFields(s);
    StringPassesChecks(s);
    StringFieldsFirst(s);
    forall k | k in Defaults
      ensures k in Extend(Defaults, fields) && Extend(Defaults, fields)[k] == Defaults[k]
    {
      assert k !in fields;
    }
  }

  lemma StringPassesChecks(s: string)
    requires s != ""
    ensures InitSettings(Str(s)) == Success(Extend(Defaults, StringFields(s)))
  {
    var fields := StringFields(s);
    assert OwnFields(Str(s)) == fields;
    assert Get(Str(s), LimitUnits) == Undefined by { assert LimitUnits !in fields; }
    assert Get(Str(s), WentOverLimit) == Undefined by { assert WentOverLimit !in fields; }
    assert Get(Str(s), FellUnderLimit) == Undefined by { assert FellUnderLimit !in fields; }
    ChecksPassed(Str(s));
  }

  /** Truthy options that pass the three checks are merged over the defaults. */
  lemma ChecksPassed(options: JsValue)
    requires IsNonNull(options) && Truthy(options)
    requires !RejectsLimitUnits(Get(options, LimitUnits))
    requires !RejectsCallback(Get(options, WentOverLimit)) && !RejectsCallback(Get(options, FellUnderLimit))
    ensures InitSettings(options) == Success(Extend(Defaults, OwnFields(options)))
  {
  }

  lemma {:induction false} StringFieldsFirst(s: string)
    requires s != ""
    ensures Other("0") in StringFields(s) && StringFields(s)[Other("0")] == Str([s[0]])
  {
    if |s| > 1 {
      var p := s[..|s| - 1];
      StringFieldsFirst(p);
      IndexNameNotZero(|s| - 1);
      assert p[0] == s[0];
    }
  }

  lemma IndexNameNotZero(i: nat)
    requires i > 0
    ensures IndexName(i) != "0"
  {
  }

  /** The numeric configuration `update` and `setNeedsRecount` read from the settings. */
  datatype Config = Config(limit: real, recalculateDelay: real, warningThreshold: real, byteMode: bool)

  /**
   * The settings the engine reads: `limit`, `recalculateDelay`,
   * `warningThreshold`, and `lengthUnit == 'bytes'` (jQuery.textGauge.js:54);
   * None when one of the three numbers is not a number.
   */
  function ConfigOf(settings: map<Key, JsValue>): Option<Config>
  {
    var limit := if Limit in settings then settings[Limit] else Undefined;
    var delay := if RecalculateDelay in settings then settings[RecalculateDelay] else Undefined;
    var threshold := if WarningThreshold in settings then settings[WarningThreshold] else Undefined;
    var unit := if LengthUnit in settings then settings[LengthUnit] else Undefined;
    if limit.Num? && delay.Num? && threshold.Num? then
      Some(Config(limit.n, delay.n, threshold.n, unit == Str("bytes")))
    else
      None
  }

  /** The defaults count characters against a limit of 100 with a 100 ms debounce. */
  lemma DefaultConfig()
    ensures ConfigOf(Defaults) == Some(Config(100.0, 100.0, 0.8, false))
  {
  }

  /**
   * Byte counting is switched on by the option `lengthUnit` alone; the
   * validated option `limitUnits` has no effect on the count.
   */
  lemma ByteModeFromLengthUnit(options: JsValue, settings: map<Key, JsValue>, c: Config)
    requires InitSettings(options) == Success(settings) && ConfigOf(settings) == Some(c)
    ensures c.byteMode <==> Get(options, LengthUnit) == Str("bytes")
  {
    InitMerges(options, settings);
    assert LengthUnit !in Defaults;
    var unit := if LengthUnit in settings then settings[LengthUnit] else Undefined;
    assert unit == Get(options, LengthUnit);
  }
}
