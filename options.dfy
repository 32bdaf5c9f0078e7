/**
 * The option resolver: the three layers (library defaults, the caller's
 * options object, the element's `data-*` attributes), the `Object.assign`
 * merge between them, and `normalizeOptions`, which turns any merged object
 * into a validated configuration without ever failing.
 */
module CarouselOptions {
  import opened JsValues

  datatype RunMode = Always | Hover
  datatype Direction = Left | Right
  datatype MotionPolicy = Stop | Ignore

  /** A normalised configuration, as `normalizeOptions` returns it. */
  datatype Config = Config(
    speed: real,
    duration: Option<real>,
    gap: real,
    run: RunMode,
    hoverPause: bool,
    direction: Direction,
    reducedMotion: MotionPolicy)

  predicate ValidConfig(c: Config) {
    && c.speed >= 1.0
    && c.gap >= 0.0
    && (c.duration.Some? ==> c.duration.value > 0.0)
  }

  /** An options object as `normalizeOptions` reads it: one value per key,
      `Undef` where the object has no such key. */
  datatype RawOptions = RawOptions(
    speed: JsValue,
    duration: JsValue,
    gap: JsValue,
    run: JsValue,
    hoverPause: JsValue,
    direction: JsValue,
    reducedMotion: JsValue)

  /** An options object as `Object.assign` copies it: `None` where the key is
      absent, `Some(Undef)` where it is present and holds `undefined`. */
  datatype Layer = Layer(
    speed: Option<JsValue>,
    duration: Option<JsValue>,
    gap: Option<JsValue>,
    run: Option<JsValue>,
    hoverPause: Option<JsValue>,
    direction: Option<JsValue>,
    reducedMotion: Option<JsValue>)

  /** `options || {}` when the caller passes no options. */
  const NoOptions: Layer := Layer(None, None, None, None, None, None, None)

  /** The element's `dataset` for the seven attributes `data-speed`,
      `data-duration`, `data-gap`, `data-run`, `data-hover-pause`,
      `data-direction` and `data-reduced-motion`; `None` where absent. */
  datatype Dataset = Dataset(
    speed: Option<string>,
    duration: Option<string>,
    gap: Option<string>,
    run: Option<string>,
    hoverPause: Option<string>,
    direction: Option<string>,
    reducedMotion: Option<string>)

  const DefaultSpeed: real := 90.0
  const DefaultGap: real := 10.0
  const DefaultHoverPause: bool := false

  /** The library's `DEFAULTS` object. */
  const Defaults: RawOptions :=
    RawOptions(Num(DefaultSpeed), Null, Num(DefaultGap), Str("always"), Bool(DefaultHoverPause), Str("left"), Str("stop"))

  function Override(base: JsValue, layer: Option<JsValue>): JsValue {
    match layer
    case Some(v) => v
    case None => base
  }

  /** `Object.assign({}, base, layer)`, restricted to the seven option keys:
      every key present in the layer wins, even when it holds `undefined`. */
  function Assign(base: RawOptions, layer: Layer): (r: RawOptions)
    ensures layer.speed.Some? ==> r.speed == layer.speed.value
    ensures layer.speed.None? ==> r.speed == base.speed
    ensures layer.duration.Some? ==> r.duration == layer.duration.value
    ensures layer.duration.None? ==> r.duration == base.duration
    ensures layer.gap.Some? ==> r.gap == layer.gap.value
    ensures layer.gap.None? ==> r.gap == base.gap
    ensures layer.run.Some? ==> r.run == layer.run.value
    ensures layer.run.None? ==> r.run == base.run
    ensures layer.hoverPause.Some? ==> r.hoverPause == layer.hoverPause.value
    ensures layer.hoverPause.None? ==> r.hoverPause == base.hoverPause
    ensures layer.direction.Some? ==> r.direction == layer.direction.value
    ensures layer.direction.None? ==> r.direction == base.direction
    ensures layer.reducedMotion.Some? ==> r.reducedMotion == layer.reducedMotion.value
    ensures layer.reducedMotion.None? ==> r.reducedMotion == base.reducedMotion
  {
    RawOptions(
      Override(base.speed, layer.speed),
      Override(base.duration, layer.duration),
      Override(base.gap, layer.gap),
      Override(base.run, layer.run),
      Override(base.hoverPause, layer.hoverPause),
      Override(base.direction, layer.direction),
      Override(base.reducedMotion, layer.reducedMotion))
  }

  function DatasetValue(attribute: Option<string>): JsValue {
    match attribute
    case Some(s) => Str(s)
    case None => Undef
  }

  /** `getDatasetOptions(element)`: an object that always has all seven keys,
      holding `undefined` for every absent attribute. */
  function DatasetLayer(ds: Dataset): (r: Layer)
    ensures r.speed.Some? && r.duration.Some? && r.gap.Some? && r.run.Some?
    ensures r.hoverPause.Some? && r.direction.Some? && r.reducedMotion.Some?
  {
    Layer(
      Some(DatasetValue(ds.speed)),
      Some(DatasetValue(ds.duration)),
      Some(DatasetValue(ds.gap)),
      Some(DatasetValue(ds.run)),
      Some(DatasetValue(ds.hoverPause)),
      Some(DatasetValue(ds.direction)),
      Some(DatasetValue(ds.reducedMotion)))
  }

  function RunName(run: RunMode): string {
    match run
    case Always => "always"
    case Hover => "hover"
  }

  function DirectionName(d: Direction): string {
    match d
    case Left => "left"
    case Right => "right"
  }

  function PolicyName(p: MotionPolicy): string {
    match p
    case Stop => "stop"
    case Ignore => "ignore"
  }

  /** A normalised configuration read back as an options object (the base
      layer of `applyOptionsFromDataset`): numbers, null, strings, a boolean. */
  function ConfigObject(c: Config): RawOptions {
    RawOptions(
      Num(c.speed),
      match c.duration case Some(d) => Num(d) case None => Null,
      Num(c.gap),
      Str(RunName(c.run)),
      Bool(c.hoverPause),
      Str(DirectionName(c.direction)),
      Str(PolicyName(c.reducedMotion)))
  }

  function Max(a: real, b: real): real {
    if a >= b then a else b
  }

  /** `normalizeOptions(raw)`. Total: every field degrades to a safe value,
      and every fallback is the hard-coded default, never a merged layer. */
  function Normalize(raw: RawOptions, parse: NumberParser): (c: Config)
    ensures ValidConfig(c)
    ensures c.run == Hover <==> raw.run == Str("hover")
    ensures c.direction == Right <==> raw.direction == Str("right")
    ensures c.reducedMotion == Ignore <==> raw.reducedMotion == Str("ignore")
    ensures FiniteNumber(raw.speed, parse).None? ==> c.speed == DefaultSpeed
    ensures FiniteNumber(raw.speed, parse).Some? ==> c.speed == Max(1.0, FiniteNumber(raw.speed, parse).value)
    ensures FiniteNumber(raw.gap, parse).None? ==> c.gap == DefaultGap
    ensures FiniteNumber(raw.gap, parse).Some? ==> c.gap == Max(0.0, FiniteNumber(raw.gap, parse).value)
    ensures c.duration.Some? <==> FiniteNumber(raw.duration, parse).Some? && FiniteNumber(raw.duration, parse).value > 0.0
    ensures c.duration.Some? ==> c.duration == FiniteNumber(raw.duration, parse)
    ensures c.hoverPause == ToBoolean(raw.hoverPause, DefaultHoverPause)
  {
    var run := if raw.run == Str("hover") then Hover else Always;
    var direction := if raw.direction == Str("right") then Right else Left;
    var reducedMotion := if raw.reducedMotion == Str("ignore") then Ignore else Stop;
    var speed := Max(1.0, ToNumber(raw.speed, DefaultSpeed, parse));
    var duration := FiniteNumber(raw.duration, parse);
    var gap := Max(0.0, ToNumber(raw.gap, DefaultGap, parse));
    var duration' := if duration.None? || duration.value <= 0.0 then None else duration;
    Config(speed, duration', gap, run, ToBoolean(raw.hoverPause, DefaultHoverPause), direction, reducedMotion)
  }

  /** The constructor's `baseOptions`: defaults overlaid with the caller's options. */
  function BaseOptions(callerOptions: Layer, parse: NumberParser): (c: Config)
    ensures ValidConfig(c)
  {
    Normalize(Assign(Defaults, callerOptions), parse)
  }

  /** `applyOptionsFromDataset`: the base options overlaid with the dataset. */
  function Resolve(base: Config, ds: Dataset, parse: NumberParser): (c: Config)
    ensures ValidConfig(c)
  {
    Normalize(Assign(ConfigObject(base), DatasetLayer(ds)), parse)
  }

  /** Because the dataset layer carries all seven keys, the resolved options
      depend on the dataset alone: the base layer, and with it every option the
      caller passed, is always overwritten. */
  lemma ResolveIgnoresBase(base1: Config, base2: Config, ds: Dataset, parse: NumberParser)
    ensures Resolve(base1, ds, parse) == Resolve(base2, ds, parse)
  {
    assert Assign(ConfigObject(base1), DatasetLayer(ds)) == Assign(ConfigObject(base2), DatasetLayer(ds));
  }

  /** With no `data-*` attributes at all, the resolved options are exactly the
      library defaults, whatever the caller asked for. */
  lemma NoAttributesGiveDefaults(base: Config, parse: NumberParser)
    ensures Resolve(base, Dataset(None, None, None, None, None, None, None), parse)
         == Config(DefaultSpeed, None, DefaultGap, Always, DefaultHoverPause, Left, Stop)
  {
  }

  /** Normalisation is idempotent: a normalised configuration, read back as
      an options object, normalises to itself. */
  lemma NormalizeFixesConfig(c: Config, parse: NumberParser)
    requires ValidConfig(c)
    ensures Normalize(ConfigObject(c), parse) == c
  {
    var raw := ConfigObject(c);
    assert raw.run == Str("hover") <==> c.run == Hover;
    assert raw.direction == Str("right") <==> c.direction == Right;
    assert raw.reducedMotion == Str("ignore") <==> c.reducedMotion == Ignore;
  }

  /** The `DEFAULTS` object is the default configuration written as an
      options object; without caller options the base options are that
      configuration. */
  lemma DefaultsAreDefaultConfig(parse: NumberParser)
    ensures Defaults == ConfigObject(Config(DefaultSpeed, None, DefaultGap, Always, DefaultHoverPause, Left, Stop))
    ensures BaseOptions(NoOptions, parse) == Config(DefaultSpeed, None, DefaultGap, Always, DefaultHoverPause, Left, Stop)
  {
    NormalizeFixesConfig(Config(DefaultSpeed, None, DefaultGap, Always, DefaultHoverPause, Left, Stop), parse);
    assert Assign(Defaults, NoOptions) == Defaults;
  }

  /** The base layer of `applyOptionsFromDataset` keeps every normalised
      option: distinct configurations give distinct options objects. */
  lemma ConfigObjectInjective(c1: Config, c2: Config)
    requires ConfigObject(c1) == ConfigObject(c2)
    ensures c1 == c2
  {
    assert RunName(c1.run) == RunName(c2.run);
    assert DirectionName(c1.direction) == DirectionName(c2.direction);
    assert PolicyName(c1.reducedMotion) == PolicyName(c2.reducedMotion);
  }

  /** A `data-duration` of "0" counts as absent, so the cycle time falls back to
      the speed. */
  lemma ZeroDurationIsAbsent(base: Config, ds: Dataset, parse: NumberParser)
    requires ds.duration == Some("0") && parse("0") == Some(0.0)
    ensures Resolve(base, ds, parse).duration.None?
  {
  }
}
