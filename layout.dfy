/**
 * The arithmetic of a refresh pass (how many clone groups cover the
 * container, how long one cycle lasts) and the play-state rule that combines
 * run mode, hover and the reduced-motion preference.
 */
module Layout {
  import opened JsValues
  import opened CarouselOptions

  /** `Math.ceil`. */
  function Ceil(x: real): (n: int)
    ensures x <= n as real < x + 1.0
  {
    -((-x).Floor)
  }

  /** `Math.max(2, Math.ceil(1 + containerWidth / sourceWidth))`: the number of
      groups on the track, the source group included. */
  function RequiredGroups(sourceWidth: real, containerWidth: real): int
    requires sourceWidth > 0.0 && containerWidth >= 0.0
  {
    var k := Ceil(1.0 + containerWidth / sourceWidth);
    if k < 2 then 2 else k
  }

  lemma ScaleBound(q: real, k: real, s: real)
    requires s > 0.0
    ensures k >= q ==> k * s >= q * s
    ensures k < q ==> k * s < q * s
  {
  }

  /** The number of clone groups a refresh creates. With the source group
      they span at least the container plus one full cycle, and no smaller
      count of at least one clone does. */
  function CloneCount(sourceWidth: real, containerWidth: real): (n: nat)
    requires sourceWidth > 0.0 && containerWidth >= 0.0
    ensures n >= 1
    ensures (n + 1) as real * sourceWidth >= containerWidth + sourceWidth
    ensures n == 1 || (n as real) * sourceWidth < containerWidth + sourceWidth
  {
    var q := 1.0 + containerWidth / sourceWidth;
    var k := Ceil(q);
    assert q * sourceWidth == containerWidth + sourceWidth;
    ScaleBound(q, k as real, sourceWidth);
    assert (k - 1) as real < q;
    ScaleBound(q, (k - 1) as real, sourceWidth);
    if k < 2 then
      assert containerWidth / sourceWidth <= 1.0;
      ScaleBound(1.0, containerWidth / sourceWidth, sourceWidth);
      1
    else
      var n := k - 1;
      assert (n + 1) as real == k as real;
      assert (n + 1) as real * sourceWidth == (k as real) * sourceWidth;
      assert (n as real) * sourceWidth == ((k - 1) as real) * sourceWidth;
      assert ((k - 1) as real) * sourceWidth < q * sourceWidth;
      assert (n as real) * sourceWidth < containerWidth + sourceWidth;
      n
  }

  lemma CloneCountIsRequiredMinusOne(sourceWidth: real, containerWidth: real)
    requires sourceWidth > 0.0 && containerWidth >= 0.0
    ensures CloneCount(sourceWidth, containerWidth) == RequiredGroups(sourceWidth, containerWidth) - 1
  {
  }

  /** The value written to `--carousel-duration`: the configured duration when
      there is one, else the time to travel one cycle at `speed` pixels per
      second; never below 0.1 seconds. */
  function CycleDuration(cfg: Config, sourceWidth: real): (d: real)
    requires ValidConfig(cfg) && sourceWidth >= 0.0
    ensures d >= 0.1
    ensures cfg.duration.Some? ==> d == cfg.duration.value || (d == 0.1 && cfg.duration.value < 0.1)
    ensures cfg.duration.None? ==> d * cfg.speed == sourceWidth || (d == 0.1 && sourceWidth < 0.1 * cfg.speed)
  {
    var duration := if cfg.duration.Some? then cfg.duration.value else sourceWidth / cfg.speed;
    ScaleBound(0.1, duration, cfg.speed);
    Max(0.1, duration)
  }

  /** The outcome of one layout pass: animation suppressed, or this many clone
      groups with this cycle width and duration. */
  datatype LayoutResult = Suppressed | Looping(clones: nat, cycleWidth: real, duration: real)

  /** Measured widths, whether the source group holds any element, and the
      options, to the layout the refresh pass applies. */
  function ComputeLayout(sourceWidth: real, containerWidth: real, hasContent: bool, cfg: Config): (l: LayoutResult)
    requires ValidConfig(cfg) && sourceWidth >= 0.0 && containerWidth >= 0.0
    ensures l.Suppressed? <==> sourceWidth == 0.0 || containerWidth == 0.0 || !hasContent
    ensures l.Looping? ==> l.clones >= 1 && l.cycleWidth == sourceWidth && l.duration >= 0.1
  {
    if sourceWidth == 0.0 || containerWidth == 0.0 || !hasContent then Suppressed
    else Looping(CloneCount(sourceWidth, containerWidth), sourceWidth, CycleDuration(cfg, sourceWidth))
  }

  /** Source 500px wide, container 1200px, speed 100px/s and no duration:
      three clone groups and a five second cycle. */
  lemma ScenarioSpeedDerived(cfg: Config)
    requires ValidConfig(cfg) && cfg.speed == 100.0 && cfg.duration.None?
    ensures ComputeLayout(500.0, 1200.0, true, cfg) == Looping(3, 500.0, 5.0)
  {
    assert Ceil(1.0 + 1200.0 / 500.0) == 4;
  }

  datatype PlayState = Running | Paused

  /** `updatePlayState` once a track exists, written as the code computes it. */
  function PlayStateOf(cfg: Config, prefersReducedMotion: bool, hovered: bool): (p: PlayState)
    ensures cfg.reducedMotion == Stop && prefersReducedMotion ==> p == Paused
    ensures !(cfg.reducedMotion == Stop && prefersReducedMotion) && cfg.run == Hover ==>
              (p == Running <==> hovered)
    ensures !(cfg.reducedMotion == Stop && prefersReducedMotion) && cfg.run == Always ==>
              (p == Paused <==> cfg.hoverPause && hovered)
  {
    if cfg.reducedMotion == Stop && prefersReducedMotion then Paused
    else
      var isRunning := cfg.run == Always;
      var isRunning := if cfg.run == Hover then hovered else isRunning;
      var isRunning := if cfg.run == Always && cfg.hoverPause && hovered then false else isRunning;
      if isRunning then Running else Paused
  }
}
