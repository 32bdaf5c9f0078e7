/**
 * The observable state of one carousel (its element's content, classes,
 * style properties and dataset, and the instance's own fields) as a value,
 * and one function per operation giving the state that operation leaves
 * behind. The `Controller.Carousel` methods are proved to compute exactly
 * these functions; the properties of the carousel are proved about them here.
 */
module Lifecycle {
  import opened JsValues
  import opened CarouselOptions
  import opened Layout
  import opened Focus

  const IsEnhancedClass: string := "is-enhanced"
  const DirectionLeftClass: string := "is-direction-left"
  const DirectionRightClass: string := "is-direction-right"

  const GapProperty: string := "--carousel-gap"
  const PlayStateProperty: string := "--carousel-play-state"
  const CycleWidthProperty: string := "--carousel-cycle-width"
  const DurationProperty: string := "--carousel-duration"

  /** A style property's value: a length in pixels, a time in seconds, or a
      play-state token. */
  datatype StyleValue = Length(px: real) | Time(seconds: real) | Play(state: PlayState)

  /** What `onPointerLeave` is told: a `mouseleave`, or a `focusout` whose
      `relatedTarget` is or is not inside the element. */
  datatype LeaveEvent = MouseLeave | FocusOut(relatedTargetInside: bool)

  /** `children`, `classes`, `style` and `dataset` belong to the element;
      `hasTrack` says `this.track` is set, `trackAttached` that it is a child
      of the element; `sourceGroup` is the content of `this.sourceGroup`;
      `prefersReducedMotion` is the media query's current `matches`. */
  datatype State = State(
    children: seq<Node>,
    classes: set<string>,
    style: map<string, StyleValue>,
    dataset: Dataset,
    baseOptions: Config,
    options: Config,
    hasTrack: bool,
    trackAttached: bool,
    sourceGroup: Option<seq<Node>>,
    cloneGroups: seq<Group>,
    rafId: Option<nat>,
    isHovered: bool,
    prefersReducedMotion: bool)

  /** The one direction class a refresh adds. */
  function DirectionClass(d: Direction): (r: string)
    ensures r in {DirectionLeftClass, DirectionRightClass}
    ensures r == DirectionRightClass <==> d == Right
  {
    match d
    case Left => DirectionLeftClass
    case Right => DirectionRightClass
  }

  /** `sourceGroup.cloneNode(true)`, marked `aria-hidden` and taken out of the
      tab order. */
  function CloneOf(source: seq<Node>): Group {
    Group(true, DisableAll(source))
  }

  /** The `n` groups the clone loop of `refresh` appends. */
  function Clones(source: seq<Node>, n: nat): (r: seq<Group>)
    ensures |r| == n
    ensures forall i :: 0 <= i < n ==> r[i].ariaHidden && r[i].nodes == DisableAll(source)
  {
    seq(n, _ => CloneOf(source))
  }

  /** What every reachable state satisfies. */
  predicate Inv(st: State) {
    && ValidConfig(st.baseOptions)
    && ValidConfig(st.options)
    && (st.hasTrack <==> st.sourceGroup.Some?)
    && (!st.hasTrack ==> !st.trackAttached && st.cloneGroups == [])
    && (st.sourceGroup.Some? ==>
          forall i :: 0 <= i < |st.cloneGroups| ==> st.cloneGroups[i] == CloneOf(st.sourceGroup.value))
  }

  /** The state right after the constructor's field initialisers. */
  function Initial(children: seq<Node>, classes: set<string>, style: map<string, StyleValue>, dataset: Dataset,
                   callerOptions: Layer, parse: NumberParser, prefersReducedMotion: bool): (st: State)
    ensures Inv(st)
    ensures st.children == children && !st.hasTrack && st.rafId.None? && !st.isHovered
  {
    var base := BaseOptions(callerOptions, parse);
    State(children, classes, style, dataset, base, Resolve(base, dataset, parse),
          false, false, None, [], None, false, prefersReducedMotion)
  }

  /** `setupStructure`: with at least one element child, all child nodes move,
      in order, into a new source group on a new track inside the element. */
  function SetupSpec(st: State): State
    requires !st.hasTrack
  {
    if !HasElement(st.children) then st
    else st.(hasTrack := true, trackAttached := true, sourceGroup := Some(st.children), children := [],
             classes := st.classes + {IsEnhancedClass})
  }

  /** `applyOptionsFromDataset`. */
  function ApplyOptionsSpec(st: State, parse: NumberParser): State {
    st.(options := Resolve(st.baseOptions, st.dataset, parse))
  }

  /** `clearClones`. */
  function ClearClonesSpec(st: State): State {
    if !st.hasTrack then st else st.(cloneGroups := [])
  }

  /** The groups `clearClones` removes from the track, after `restoreFocusable`. */
  function DisposedClones(st: State): (r: seq<Group>)
    ensures st.hasTrack ==> |r| == |st.cloneGroups|
  {
    if !st.hasTrack then []
    else seq(|st.cloneGroups|, i requires 0 <= i < |st.cloneGroups| =>
               st.cloneGroups[i].(nodes := RestoreAll(st.cloneGroups[i].nodes)))
  }

  /** `updatePlayState`. */
  function UpdatePlayStateSpec(st: State): State {
    if !st.hasTrack then st
    else st.(style := st.style[PlayStateProperty := Play(PlayStateOf(st.options, st.prefersReducedMotion, st.isHovered))])
  }

  /** The writes every refresh pass makes once a track exists: the gap
      property and exactly one direction class. */
  function MarkSpec(st: State): State {
    st.(style := st.style[GapProperty := Length(st.options.gap)],
        classes := st.classes - {DirectionLeftClass, DirectionRightClass} + {DirectionClass(st.options.direction)})
  }

  /** The rest of a refresh pass, after the layout has been computed. */
  function LayoutSpec(st: State, layout: LayoutResult): State
    requires st.sourceGroup.Some?
  {
    match layout
    case Suppressed =>
      st.(style := st.style[PlayStateProperty := Play(Paused)])
    case Looping(n, width, duration) =>
      UpdatePlayStateSpec(st.(
        cloneGroups := Clones(st.sourceGroup.value, n),
        style := st.style[CycleWidthProperty := Length(width)][DurationProperty := Time(duration)]))
  }

  /** `refresh`, given the measured widths of the source group and the element. */
  function RefreshSpec(st: State, sourceWidth: real, containerWidth: real, parse: NumberParser): State
    requires sourceWidth >= 0.0 && containerWidth >= 0.0
  {
    if !st.hasTrack || st.sourceGroup.None? then st
    else
      var marked := MarkSpec(ClearClonesSpec(ApplyOptionsSpec(st, parse)));
      LayoutSpec(marked, ComputeLayout(sourceWidth, containerWidth, HasElement(marked.sourceGroup.value), marked.options))
  }

  /** `scheduleRefresh`, where `token` is what `requestAnimationFrame` returns. */
  function ScheduleSpec(st: State, token: nat): State {
    if st.rafId.Some? then st else st.(rafId := Some(token))
  }

  /** The animation-frame callback: clear `rafId`, then refresh. */
  function FireSpec(st: State, sourceWidth: real, containerWidth: real, parse: NumberParser): State
    requires sourceWidth >= 0.0 && containerWidth >= 0.0
  {
    RefreshSpec(st.(rafId := None), sourceWidth, containerWidth, parse)
  }

  /** `onPointerEnter` (`mouseenter` and `focusin`). */
  function PointerEnterSpec(st: State): State {
    UpdatePlayStateSpec(st.(isHovered := true))
  }

  /** `onPointerLeave` (`mouseleave` and `focusout`). */
  function PointerLeaveSpec(st: State, event: LeaveEvent): State {
    if event.FocusOut? && event.relatedTargetInside then st
    else UpdatePlayStateSpec(st.(isHovered := false))
  }

  /** The reduced-motion media query's `change` event. */
  function ReducedMotionChangeSpec(st: State, matches: bool): State {
    UpdatePlayStateSpec(st.(prefersReducedMotion := matches))
  }

  /** The part of `destroy` that hands the source group's nodes back to the
      element and detaches the track. */
  function ReturnContentSpec(st: State): State {
    if st.hasTrack && st.sourceGroup.Some? then
      st.(children := st.children + st.sourceGroup.value, sourceGroup := Some([]), trackAttached := false)
    else st
  }

  /** The part of `destroy` that drops the carousel's classes and style
      properties. */
  function UnmarkSpec(st: State): State {
    st.(classes := st.classes - {IsEnhancedClass, DirectionLeftClass, DirectionRightClass},
        style := st.style - {GapProperty, DurationProperty, CycleWidthProperty, PlayStateProperty})
  }

  /** `destroy`: cancel the pending frame, dispose the clones, move the source
      group's nodes back into the element, detach the track, and drop the
      classes and style properties the carousel writes. */
  function DestroySpec(st: State): State {
    UnmarkSpec(ReturnContentSpec(ClearClonesSpec(st.(rafId := None))))
  }

  // ---------------------------------------------------------------------------
  // The invariant is kept by every operation.

  lemma SetupKeepsInv(st: State)
    requires Inv(st) && !st.hasTrack
    ensures Inv(SetupSpec(st))
  {
  }

  lemma {:induction false} RefreshKeepsInv(st: State, sourceWidth: real, containerWidth: real, parse: NumberParser)
    requires Inv(st) && sourceWidth >= 0.0 && containerWidth >= 0.0
    ensures Inv(RefreshSpec(st, sourceWidth, containerWidth, parse))
    ensures Inv(FireSpec(st, sourceWidth, containerWidth, parse))
  {
    RefreshKeepsInvOnce(st, sourceWidth, containerWidth, parse);
    RefreshKeepsInvOnce(st.(rafId := None), sourceWidth, containerWidth, parse);
  }

  lemma RefreshKeepsInvOnce(st: State, sourceWidth: real, containerWidth: real, parse: NumberParser)
    requires Inv(st) && sourceWidth >= 0.0 && containerWidth >= 0.0
    ensures Inv(RefreshSpec(st, sourceWidth, containerWidth, parse))
  {
    if st.hasTrack && st.sourceGroup.Some? {
      var marked := MarkSpec(ClearClonesSpec(ApplyOptionsSpec(st, parse)));
      LayoutKeepsInv(marked, ComputeLayout(sourceWidth, containerWidth, HasElement(marked.sourceGroup.value), marked.options));
    }
  }

  /** Whatever the layout, applying it to a track without clones keeps the
      invariant: the clones it adds are copies of the source group. */
  lemma LayoutKeepsInv(st: State, layout: LayoutResult)
    requires Inv(st) && st.sourceGroup.Some? && st.cloneGroups == []
    ensures Inv(LayoutSpec(st, layout))
  {
  }

  lemma EventsKeepInv(st: State, token: nat, event: LeaveEvent, matches: bool)
    requires Inv(st)
    ensures Inv(ScheduleSpec(st, token))
    ensures Inv(PointerEnterSpec(st)) && Inv(PointerLeaveSpec(st, event))
    ensures Inv(ReducedMotionChangeSpec(st, matches))
    ensures Inv(DestroySpec(st))
  {
  }

  // ---------------------------------------------------------------------------
  // Refresh.

  /** Degenerate inputs (a zero width, or a source group without elements):
      no clones, the play state forced to "paused"; only the gap property and
      the direction classes are written besides. Cycle width and duration keep
      whatever values they had, and the hover rule is not consulted. */
  lemma RefreshSuppressed(st: State, sourceWidth: real, containerWidth: real, parse: NumberParser)
    requires Inv(st) && st.hasTrack && sourceWidth >= 0.0 && containerWidth >= 0.0
    requires sourceWidth == 0.0 || containerWidth == 0.0 || !HasElement(st.sourceGroup.value)
    ensures var r := RefreshSpec(st, sourceWidth, containerWidth, parse);
            var options := Resolve(st.baseOptions, st.dataset, parse);
            && r.cloneGroups == []
            && r.options == options
            && r.style == st.style[GapProperty := Length(options.gap)][PlayStateProperty := Play(Paused)]
            && r.classes == st.classes - {DirectionLeftClass, DirectionRightClass} + {DirectionClass(options.direction)}
            && r.style.Keys == st.style.Keys + {GapProperty, PlayStateProperty}
            && (CycleWidthProperty in st.style ==> r.style[CycleWidthProperty] == st.style[CycleWidthProperty])
            && (DurationProperty in st.style ==> r.style[DurationProperty] == st.style[DurationProperty])
  {
    var options := Resolve(st.baseOptions, st.dataset, parse);
    assert ComputeLayout(sourceWidth, containerWidth, HasElement(st.sourceGroup.value), options).Suppressed?;
  }

  /** Non-degenerate inputs: exactly `max(2, ceil(1 + c/s)) - 1` clone groups,
      each a disabled copy of the source group; cycle width `s`; the cycle
      duration from the options; and the play state from the hover rule. */
  lemma RefreshLooping(st: State, sourceWidth: real, containerWidth: real, parse: NumberParser)
    requires Inv(st) && st.hasTrack && sourceWidth > 0.0 && containerWidth > 0.0
    requires HasElement(st.sourceGroup.value)
    ensures var r := RefreshSpec(st, sourceWidth, containerWidth, parse);
            var options := Resolve(st.baseOptions, st.dataset, parse);
            && |r.cloneGroups| == RequiredGroups(sourceWidth, containerWidth) - 1
            && |r.cloneGroups| >= 1
            && (|r.cloneGroups| + 1) as real * sourceWidth >= containerWidth + sourceWidth
            && (forall i :: 0 <= i < |r.cloneGroups| ==> r.cloneGroups[i] == CloneOf(st.sourceGroup.value))
            && r.style == st.style[GapProperty := Length(options.gap)]
                                  [CycleWidthProperty := Length(sourceWidth)]
                                  [DurationProperty := Time(CycleDuration(options, sourceWidth))]
                                  [PlayStateProperty := Play(PlayStateOf(options, st.prefersReducedMotion, st.isHovered))]
  {
    var options := Resolve(st.baseOptions, st.dataset, parse);
    CloneCountIsRequiredMinusOne(sourceWidth, containerWidth);
    assert ComputeLayout(sourceWidth, containerWidth, true, options)
        == Looping(CloneCount(sourceWidth, containerWidth), sourceWidth, CycleDuration(options, sourceWidth));
  }

  lemma UpdateSame<V>(m: map<string, V>, k: string, v: V)
    requires k in m && m[k] == v
    ensures m[k := v] == m
  {
  }

  /** Clones are cleared before new ones are made, so a second refresh with
      the same geometry and attributes changes nothing. */
  lemma RefreshIdempotent(st: State, sourceWidth: real, containerWidth: real, parse: NumberParser)
    requires sourceWidth >= 0.0 && containerWidth >= 0.0
    ensures var once := RefreshSpec(st, sourceWidth, containerWidth, parse);
            RefreshSpec(once, sourceWidth, containerWidth, parse) == once
  {
    var once := RefreshSpec(st, sourceWidth, containerWidth, parse);
    if st.hasTrack && st.sourceGroup.Some? {
      var marked := MarkSpec(ClearClonesSpec(ApplyOptionsSpec(st, parse)));
      var layout := ComputeLayout(sourceWidth, containerWidth, HasElement(marked.sourceGroup.value), marked.options);
      assert once == LayoutSpec(marked, layout);
      assert once.options == marked.options && once.sourceGroup == marked.sourceGroup;
      assert once.classes == marked.classes;
      assert ApplyOptionsSpec(once, parse) == once;
      var again := MarkSpec(ClearClonesSpec(once));
      var d := DirectionClass(once.options.direction);
      assert once.classes - {DirectionLeftClass, DirectionRightClass} + {d} == once.classes;
      UpdateSame(once.style, GapProperty, Length(once.options.gap));
      assert again == once.(cloneGroups := []);
      match layout
      case Suppressed =>
        UpdateSame(once.style, PlayStateProperty, Play(Paused));
      case Looping(n, width, duration) =>
        UpdateSame(once.style, CycleWidthProperty, Length(width));
        UpdateSame(once.style, DurationProperty, Time(duration));
        UpdateSame(once.style, PlayStateProperty, Play(PlayStateOf(once.options, once.prefersReducedMotion, once.isHovered)));
    }
  }

  /** A clone, once disposed and restored, is an exact copy of the source
      group again, provided the source carried no saved tabindex of its own. */
  lemma DisposedClonesMatchSource(st: State)
    requires Inv(st) && st.hasTrack && NoSavedTabindex(st.sourceGroup.value)
    ensures forall i :: 0 <= i < |DisposedClones(st)| ==> DisposedClones(st)[i].nodes == st.sourceGroup.value
  {
    RestoreAfterDisable(st.sourceGroup.value);
  }

  // ---------------------------------------------------------------------------
  // The frame token and the hover flag.

  /** A call while a frame is pending changes nothing; otherwise it records
      the new token. */
  lemma ScheduleWhilePending(st: State, token: nat, later: nat)
    ensures ScheduleSpec(st, token).rafId.Some?
    ensures st.rafId.Some? ==> ScheduleSpec(st, token) == st
    ensures ScheduleSpec(ScheduleSpec(st, token), later) == ScheduleSpec(st, token)
  {
  }

  /** The frame callback and `destroy` both leave no frame pending. */
  lemma FrameAndDestroyClearToken(st: State, sourceWidth: real, containerWidth: real, parse: NumberParser)
    requires sourceWidth >= 0.0 && containerWidth >= 0.0
    ensures FireSpec(st, sourceWidth, containerWidth, parse).rafId.None?
    ensures DestroySpec(st).rafId.None?
  {
  }

  /** Entering sets the hover flag and a `focusout` to a target inside the
      element leaves every part of the state as it was. */
  lemma HoverFlag(st: State, event: LeaveEvent)
    ensures PointerEnterSpec(st).isHovered
    ensures event == FocusOut(true) ==> PointerLeaveSpec(st, event) == st
    ensures event != FocusOut(true) ==> !PointerLeaveSpec(st, event).isHovered
  {
  }

  // ---------------------------------------------------------------------------
  // Set-up and teardown.

  /** The element's original child nodes are held either in the source group
      (once set up) or still in the element (when there was nothing to set up). */
  predicate ContentHeld(st: State, original: seq<Node>) {
    if st.hasTrack then st.sourceGroup == Some(original) && st.children == []
    else st.children == original
  }

  lemma SetupHoldsContent(st: State)
    requires !st.hasTrack
    ensures ContentHeld(SetupSpec(st), st.children)
  {
  }

  /** `setupStructure` builds a track exactly when the element has an element
      child, and the source group it fills then has one too, so the
      `children.length === 0` test of `refresh` only holds for content the
      page changed after set-up. */
  lemma SetupNeedsElement(st: State)
    requires !st.hasTrack
    ensures SetupSpec(st).hasTrack <==> HasElement(st.children)
    ensures SetupSpec(st).hasTrack ==> HasElement(SetupSpec(st).sourceGroup.value)
  {
  }

  /** A refresh leaves the element's child nodes, the track and the source
      group as they are. */
  lemma RefreshKeepsStructure(st: State, sourceWidth: real, containerWidth: real, parse: NumberParser)
    requires sourceWidth >= 0.0 && containerWidth >= 0.0
    ensures var r := RefreshSpec(st, sourceWidth, containerWidth, parse);
            r.children == st.children && r.hasTrack == st.hasTrack && r.sourceGroup == st.sourceGroup
  {
    if st.hasTrack && st.sourceGroup.Some? {
      var marked := MarkSpec(ClearClonesSpec(ApplyOptionsSpec(st, parse)));
      LayoutKeepsStructure(marked, ComputeLayout(sourceWidth, containerWidth, HasElement(marked.sourceGroup.value), marked.options));
    }
  }

  lemma LayoutKeepsStructure(st: State, layout: LayoutResult)
    requires st.sourceGroup.Some?
    ensures var r := LayoutSpec(st, layout);
            r.children == st.children && r.hasTrack == st.hasTrack && r.sourceGroup == st.sourceGroup
  {
  }

  /** Everything but `destroy` leaves the held content where it is. */
  lemma EventsKeepContent(st: State, original: seq<Node>, sourceWidth: real, containerWidth: real,
                          parse: NumberParser, token: nat, event: LeaveEvent, matches: bool)
    requires ContentHeld(st, original) && sourceWidth >= 0.0 && containerWidth >= 0.0
    ensures ContentHeld(RefreshSpec(st, sourceWidth, containerWidth, parse), original)
    ensures ContentHeld(FireSpec(st, sourceWidth, containerWidth, parse), original)
    ensures ContentHeld(ScheduleSpec(st, token), original)
    ensures ContentHeld(PointerEnterSpec(st), original)
    ensures ContentHeld(PointerLeaveSpec(st, event), original)
    ensures ContentHeld(ReducedMotionChangeSpec(st, matches), original)
  {
    RefreshKeepsStructure(st, sourceWidth, containerWidth, parse);
    RefreshKeepsStructure(st.(rafId := None), sourceWidth, containerWidth, parse);
  }

  /** Teardown from any state that holds the original content: the element
      has exactly its original child nodes in their original order, the track
      is detached, no clone and no pending frame remain, and the carousel's
      classes and four style properties are gone. */
  lemma TeardownRestores(st: State, original: seq<Node>)
    requires Inv(st) && ContentHeld(st, original)
    ensures var d := DestroySpec(st);
            && d.children == original
            && !d.trackAttached
            && (st.hasTrack ==> d.cloneGroups == [])
            && d.rafId.None?
            && d.classes == st.classes - {IsEnhancedClass, DirectionLeftClass, DirectionRightClass}
            && d.style.Keys == st.style.Keys - {GapProperty, DurationProperty, CycleWidthProperty, PlayStateProperty}
  {
    if st.hasTrack {
      assert DestroySpec(st).children == [] + original;
    }
  }

  const CarouselProperties: set<string> := {GapProperty, DurationProperty, CycleWidthProperty, PlayStateProperty}
  const DirectionClasses: set<string> := {DirectionLeftClass, DirectionRightClass}

  lemma UpdateErased<V>(m: map<string, V>, k: string, v: V, erased: set<string>)
    requires k in erased
    ensures m[k := v] - erased == m - erased
  {
  }

  /** A refresh writes no class but the direction classes and no style
      property but the carousel's four. */
  lemma RefreshWritesOnlyItsOwn(st: State, sourceWidth: real, containerWidth: real, parse: NumberParser)
    requires sourceWidth >= 0.0 && containerWidth >= 0.0
    ensures var r := RefreshSpec(st, sourceWidth, containerWidth, parse);
            && r.style - CarouselProperties == st.style - CarouselProperties
            && r.classes - DirectionClasses == st.classes - DirectionClasses
  {
    var r := RefreshSpec(st, sourceWidth, containerWidth, parse);
    if st.hasTrack && st.sourceGroup.Some? {
      var options := Resolve(st.baseOptions, st.dataset, parse);
      var gapped := st.style[GapProperty := Length(options.gap)];
      UpdateErased(st.style, GapProperty, Length(options.gap), CarouselProperties);
      match ComputeLayout(sourceWidth, containerWidth, HasElement(st.sourceGroup.value), options)
      case Suppressed =>
        UpdateErased(gapped, PlayStateProperty, Play(Paused), CarouselProperties);
      case Looping(n, width, duration) =>
        var widened := gapped[CycleWidthProperty := Length(width)];
        var timed := widened[DurationProperty := Time(duration)];
        UpdateErased(gapped, CycleWidthProperty, Length(width), CarouselProperties);
        UpdateErased(widened, DurationProperty, Time(duration), CarouselProperties);
        UpdateErased(timed, PlayStateProperty, Play(PlayStateOf(options, st.prefersReducedMotion, st.isHovered)), CarouselProperties);
    }
  }

  /** Construction followed by teardown hands the element back as it was,
      minus the carousel's own classes and style properties. */
  lemma {:induction false} SetupThenTeardown(st: State, sourceWidth: real, containerWidth: real, parse: NumberParser)
    requires Inv(st) && !st.hasTrack && sourceWidth >= 0.0 && containerWidth >= 0.0
    ensures var d := DestroySpec(RefreshSpec(SetupSpec(st), sourceWidth, containerWidth, parse));
            && d.children == st.children
            && !d.trackAttached
            && d.cloneGroups == []
            && d.classes == st.classes - {IsEnhancedClass, DirectionLeftClass, DirectionRightClass}
            && d.style == st.style - CarouselProperties
  {
    var setUp := SetupSpec(st);
    SetupHoldsContent(st);
    SetupKeepsInv(st);
    var refreshed := RefreshSpec(setUp, sourceWidth, containerWidth, parse);
    EventsKeepContent(setUp, st.children, sourceWidth, containerWidth, parse, 0, MouseLeave, false);
    RefreshKeepsInv(setUp, sourceWidth, containerWidth, parse);
    TeardownRestores(refreshed, st.children);
    RefreshWritesOnlyItsOwn(setUp, sourceWidth, containerWidth, parse);
    var d := DestroySpec(refreshed);
    assert d.style == refreshed.style - CarouselProperties;
    OwnClassesDropped(st.classes, setUp.classes, refreshed.classes);
  }

  /** Class-list algebra of a set-up, a refresh and a teardown: adding
      `is-enhanced`, then changing only the direction classes, then dropping the
      three leaves the original classes minus those three. */
  lemma OwnClassesDropped(original: set<string>, setUp: set<string>, refreshed: set<string>)
    requires setUp == original || setUp == original + {IsEnhancedClass}
    requires refreshed - DirectionClasses == setUp - DirectionClasses
    ensures refreshed - {IsEnhancedClass, DirectionLeftClass, DirectionRightClass}
         == original - {IsEnhancedClass, DirectionLeftClass, DirectionRightClass}
  {
    assert refreshed - {IsEnhancedClass, DirectionLeftClass, DirectionRightClass}
        == (refreshed - DirectionClasses) - {IsEnhancedClass};
  }
}
