/**
 * The carousel controller: the host element, the `Carousel` instance whose
 * methods update its fields and the element in place, and `initAll`, which
 * keeps one instance per element.
 *
 * Every method that models an operation of the carousel is proved to keep
 * `Valid()` and to leave `Snapshot()` equal to the matching `Lifecycle`
 * function of the state it started from; the helpers `MoveChildren`,
 * `AppendClones` and `ReturnContent`, which hold the loops of
 * `setupStructure`, `refresh` and `destroy`, state their own part of that
 * change.
 * Events, timers and measurements are inputs: the environment calls the
 * handlers, passes the token `requestAnimationFrame` returned and the widths
 * `getBoundingClientRect` measured.
 */
module Controller {
  import opened JsValues
  import opened CarouselOptions
  import opened Layout
  import opened Focus
  import opened Lifecycle

  /** The host element: its descendant nodes outside the track, in document
      order, its class list, inline style properties, dataset, and the
      instance registered on it (`__carouselInstance`). */
  class Element {
    var children: seq<Node>
    var classes: set<string>
    var style: map<string, StyleValue>
    var dataset: Dataset
    var instance: Carousel?

    constructor (children: seq<Node>, classes: set<string>, style: map<string, StyleValue>, dataset: Dataset)
      ensures this.children == children && this.classes == classes && this.style == style
      ensures this.dataset == dataset && instance == null
    {
      this.children := children;
      this.classes := classes;
      this.style := style;
      this.dataset := dataset;
      instance := null;
    }
  }

  class Carousel {
    const element: Element
    const parse: NumberParser
    var baseOptions: Config
    var options: Config
    var hasTrack: bool
    var trackAttached: bool
    var sourceGroup: Option<seq<Node>>
    var cloneGroups: seq<Group>
    var rafId: Option<nat>
    var isHovered: bool
    var prefersReducedMotion: bool
    /** Animation-frame callbacks requested and neither run nor cancelled. */
    ghost var outstandingFrames: nat

    ghost function Snapshot(): State
      reads this, element
    {
      State(element.children, element.classes, element.style, element.dataset, baseOptions, options,
            hasTrack, trackAttached, sourceGroup, cloneGroups, rafId, isHovered, prefersReducedMotion)
    }

    /** The state invariant, and at most one outstanding frame: exactly one
        while `rafId` is set, none otherwise. */
    ghost predicate Valid()
      reads this, element
    {
      Inv(Snapshot()) && outstandingFrames == (if rafId.Some? then 1 else 0)
    }

    constructor (element: Element, callerOptions: Layer, parse: NumberParser, prefersReducedMotion: bool,
                 sourceWidth: real, containerWidth: real)
      requires sourceWidth >= 0.0 && containerWidth >= 0.0
      modifies element
      ensures Valid() && this.element == element && this.parse == parse
      ensures Snapshot() == RefreshSpec(SetupSpec(Initial(old(element.children), old(element.classes), old(element.style),
                                                          old(element.dataset), callerOptions, parse, prefersReducedMotion)),
                                        sourceWidth, containerWidth, parse)
      ensures element.instance == old(element.instance)
    {
      this.element := element;
      this.parse := parse;
      var base := BaseOptions(callerOptions, parse);
      baseOptions := base;
      options := Resolve(base, element.dataset, parse);
      hasTrack := false;
      trackAttached := false;
      sourceGroup := None;
      cloneGroups := [];
      rafId := None;
      isHovered := false;
      this.prefersReducedMotion := prefersReducedMotion;
      outstandingFrames := 0;
      new;
      SetupStructure();
      Refresh(sourceWidth, containerWidth);
    }

    /** `setupStructure`, called once, by the constructor. */
    method SetupStructure()
      requires Valid() && !hasTrack
      modifies this, element
      ensures Valid() && Snapshot() == SetupSpec(old(Snapshot()))
      ensures element.instance == old(element.instance) && outstandingFrames == old(outstandingFrames)
    {
      SetupKeepsInv(Snapshot());
      if !HasElement(element.children) {
        return;
      }
      hasTrack := true;
      var group := MoveChildren(element);
      sourceGroup := Some(group);
      trackAttached := true;
      element.classes := element.classes + {IsEnhancedClass};
    }

    /** The `while` loop of `setupStructure`: moves the element's first child
        node into the source group until none is left. */
    static method MoveChildren(element: Element) returns (group: seq<Node>)
      modifies element
      ensures group == old(element.children) && element.children == []
      ensures element.classes == old(element.classes) && element.style == old(element.style)
      ensures element.dataset == old(element.dataset) && element.instance == old(element.instance)
    {
      group := [];
      while element.children != []
        invariant group + element.children == old(element.children)
        invariant element.classes == old(element.classes) && element.style == old(element.style)
        invariant element.dataset == old(element.dataset) && element.instance == old(element.instance)
        decreases |element.children|
      {
        group := group + [element.children[0]];
        element.children := element.children[1..];
      }
    }

    /** `scheduleRefresh`: requests a frame only when none is pending. The
        token is the handle `requestAnimationFrame` returns, which is never
        0; the code tests `this.rafId` for truthiness, so a 0 token would read
        as no frame pending. */
    method ScheduleRefresh(token: nat)
      requires Valid() && token > 0
      modifies this
      ensures Valid() && Snapshot() == ScheduleSpec(old(Snapshot()), token)
      ensures outstandingFrames <= 1
      ensures old(rafId).Some? ==> outstandingFrames == old(outstandingFrames)
    {
      EventsKeepInv(Snapshot(), token, MouseLeave, false);
      if rafId.Some? {
        return;
      }
      rafId := Some(token);
      outstandingFrames := outstandingFrames + 1;
    }

    /** The callback passed to `requestAnimationFrame`; the environment runs
        it only while it is outstanding. */
    method OnAnimationFrame(sourceWidth: real, containerWidth: real)
      requires Valid() && outstandingFrames > 0
      requires sourceWidth >= 0.0 && containerWidth >= 0.0
      modifies this, element
      ensures Valid() && Snapshot() == FireSpec(old(Snapshot()), sourceWidth, containerWidth, parse)
      ensures outstandingFrames == 0 && element.instance == old(element.instance)
    {
      outstandingFrames := outstandingFrames - 1;
      rafId := None;
      Refresh(sourceWidth, containerWidth);
    }

    /** `clearClones`: restores and removes every clone group, returned in
        `disposed` as they were when removed. */
    method ClearClones() returns (disposed: seq<Group>)
      requires Valid()
      modifies this
      ensures Valid() && Snapshot() == ClearClonesSpec(old(Snapshot()))
      ensures disposed == DisposedClones(old(Snapshot()))
      ensures outstandingFrames == old(outstandingFrames)
    {
      disposed := [];
      if !hasTrack {
        return;
      }
      var i := 0;
      while i < |cloneGroups|
        invariant 0 <= i <= |cloneGroups|
        invariant |disposed| == i
        invariant forall k :: 0 <= k < i ==> disposed[k] == cloneGroups[k].(nodes := RestoreAll(cloneGroups[k].nodes))
        invariant Snapshot() == old(Snapshot()) && outstandingFrames == old(outstandingFrames)
      {
        var group := cloneGroups[i];
        var restored := RestoreFocusable(group.nodes);
        disposed := disposed + [group.(nodes := restored)];
        i := i + 1;
      }
      assert disposed == DisposedClones(old(Snapshot()));
      cloneGroups := [];
    }

    /** `applyOptionsFromDataset`. */
    method ApplyOptionsFromDataset()
      requires Valid()
      modifies this
      ensures Valid() && Snapshot() == ApplyOptionsSpec(old(Snapshot()), parse)
      ensures outstandingFrames == old(outstandingFrames)
    {
      options := Resolve(baseOptions, element.dataset, parse);
    }

    /** `refresh`. */
    method Refresh(sourceWidth: real, containerWidth: real)
      requires Valid() && sourceWidth >= 0.0 && containerWidth >= 0.0
      modifies this, element
      ensures Valid() && Snapshot() == RefreshSpec(old(Snapshot()), sourceWidth, containerWidth, parse)
      ensures element.instance == old(element.instance) && outstandingFrames == old(outstandingFrames)
    {
      RefreshKeepsInv(Snapshot(), sourceWidth, containerWidth, parse);
      if !hasTrack || sourceGroup.None? {
        return;
      }
      ghost var start := Snapshot();
      ApplyOptionsFromDataset();
      ghost var applied := Snapshot();
      var disposed := ClearClones();
      ghost var cleared := Snapshot();
      MarkTrack();
      ghost var marked := Snapshot();
      assert marked == MarkSpec(ClearClonesSpec(ApplyOptionsSpec(start, parse))) by {
        assert applied == ApplyOptionsSpec(start, parse);
        assert cleared == ClearClonesSpec(applied);
      }
      assert RefreshSpec(start, sourceWidth, containerWidth, parse)
          == LayoutSpec(marked, ComputeLayout(sourceWidth, containerWidth, HasElement(sourceGroup.value), options));
      ApplyLayout(sourceWidth, containerWidth);
    }

    /** The second half of `refresh`, once the track is marked: either pause
        the animation, or build the clone groups and write the cycle width,
        duration and play state. */
    method ApplyLayout(sourceWidth: real, containerWidth: real)
      requires Valid() && sourceGroup.Some? && cloneGroups == []
      requires sourceWidth >= 0.0 && containerWidth >= 0.0
      modifies this, element
      ensures Valid()
      ensures Snapshot() == LayoutSpec(old(Snapshot()),
                                       ComputeLayout(sourceWidth, containerWidth, HasElement(old(sourceGroup.value)), old(options)))
      ensures element.instance == old(element.instance) && outstandingFrames == old(outstandingFrames)
    {
      ghost var marked := Snapshot();
      var source := sourceGroup.value;
      ghost var layout := ComputeLayout(sourceWidth, containerWidth, HasElement(source), options);
      if sourceWidth == 0.0 || containerWidth == 0.0 || !HasElement(source) {
        element.style := element.style[PlayStateProperty := Play(Paused)];
        return;
      }
      var requiredGroups := RequiredGroups(sourceWidth, containerWidth);
      CloneCountIsRequiredMinusOne(sourceWidth, containerWidth);
      AppendClones(requiredGroups);
      var duration := if options.duration.Some? then options.duration.value else sourceWidth / options.speed;
      duration := Max(0.1, duration);
      assert duration == CycleDuration(options, sourceWidth);
      element.style := element.style[CycleWidthProperty := Length(sourceWidth)][DurationProperty := Time(duration)];
      ghost var laid := Snapshot();
      assert layout == Looping(requiredGroups - 1, sourceWidth, duration);
      assert laid == marked.(cloneGroups := Clones(source, requiredGroups - 1),
                             style := marked.style[CycleWidthProperty := Length(sourceWidth)][DurationProperty := Time(duration)]);
      UpdatePlayState();
    }

    /** The gap property and the direction class, written by every refresh
        pass that has a track. */
    method MarkTrack()
      requires Valid()
      modifies element
      ensures Valid() && Snapshot() == MarkSpec(old(Snapshot()))
      ensures element.instance == old(element.instance)
    {
      element.style := element.style[GapProperty := Length(options.gap)];
      element.classes := element.classes - {DirectionLeftClass, DirectionRightClass};
      element.classes := element.classes + {DirectionClass(options.direction)};
    }

    /** The clone loop of `refresh`: groups 1 to `requiredGroups - 1`, each a
        copy of the source group, hidden and taken out of the tab order. */
    method AppendClones(requiredGroups: int)
      requires Valid() && sourceGroup.Some? && cloneGroups == [] && requiredGroups >= 1
      modifies this
      ensures Valid() && Snapshot() == old(Snapshot()).(cloneGroups := Clones(old(sourceGroup.value), requiredGroups - 1))
      ensures outstandingFrames == old(outstandingFrames)
    {
      var source := sourceGroup.value;
      var i := 1;
      while i < requiredGroups
        invariant 1 <= i <= requiredGroups
        invariant Snapshot() == old(Snapshot()).(cloneGroups := Clones(source, i - 1))
        invariant outstandingFrames == old(outstandingFrames)
      {
        var clone := Group(true, source);
        var disabled := SetFocusableDisabled(clone.nodes);
        clone := clone.(nodes := disabled);
        cloneGroups := cloneGroups + [clone];
        assert cloneGroups == Clones(source, i);
        i := i + 1;
      }
    }

    /** `updatePlayState`. */
    method UpdatePlayState()
      requires Valid()
      modifies element
      ensures Valid() && Snapshot() == UpdatePlayStateSpec(old(Snapshot()))
      ensures element.instance == old(element.instance)
    {
      if !hasTrack {
        return;
      }
      if options.reducedMotion == Stop && prefersReducedMotion {
        element.style := element.style[PlayStateProperty := Play(Paused)];
        return;
      }
      var isRunning := options.run == Always;
      if options.run == Hover {
        isRunning := isHovered;
      }
      if options.run == Always && options.hoverPause && isHovered {
        isRunning := false;
      }
      element.style := element.style[PlayStateProperty := Play(if isRunning then Running else Paused)];
    }

    /** `onPointerEnter`, bound to `mouseenter` and `focusin`. */
    method OnPointerEnter()
      requires Valid()
      modifies this, element
      ensures Valid() && Snapshot() == PointerEnterSpec(old(Snapshot()))
      ensures element.instance == old(element.instance) && outstandingFrames == old(outstandingFrames)
    {
      EventsKeepInv(Snapshot(), 0, MouseLeave, false);
      isHovered := true;
      UpdatePlayState();
    }

    /** `onPointerLeave`, bound to `mouseleave` and `focusout`. */
    method OnPointerLeave(event: LeaveEvent)
      requires Valid()
      modifies this, element
      ensures Valid() && Snapshot() == PointerLeaveSpec(old(Snapshot()), event)
      ensures element.instance == old(element.instance) && outstandingFrames == old(outstandingFrames)
    {
      if event.FocusOut? && event.relatedTargetInside {
        return;
      }
      isHovered := false;
      UpdatePlayState();
    }

    /** The media query's `change` listener, which is `updatePlayState`; the
        new `matches` is passed in. */
    method OnReducedMotionChange(matches: bool)
      requires Valid()
      modifies this, element
      ensures Valid() && Snapshot() == ReducedMotionChangeSpec(old(Snapshot()), matches)
      ensures element.instance == old(element.instance) && outstandingFrames == old(outstandingFrames)
    {
      prefersReducedMotion := matches;
      UpdatePlayState();
    }

    /** `destroy`. */
    method Destroy()
      requires Valid()
      modifies this, element
      ensures Valid() && Snapshot() == DestroySpec(old(Snapshot()))
      ensures outstandingFrames == 0 && element.instance == null
    {
      ghost var start := Snapshot();
      EventsKeepInv(start, 0, MouseLeave, false);
      if rafId.Some? {
        outstandingFrames := outstandingFrames - 1;
        rafId := None;
      }
      assert Snapshot() == start.(rafId := None);
      var disposed := ClearClones();
      ReturnContent();
      element.classes := element.classes - {IsEnhancedClass, DirectionLeftClass, DirectionRightClass};
      element.style := element.style - {GapProperty, DurationProperty, CycleWidthProperty, PlayStateProperty};
      element.instance := null;
    }

    /** The part of `destroy` that moves the source group's nodes back into the
        element and detaches the track. */
    method ReturnContent()
      requires Valid() && rafId.None?
      modifies this, element
      ensures Snapshot() == ReturnContentSpec(old(Snapshot()))
      ensures outstandingFrames == 0
    {
      if !hasTrack || sourceGroup.None? {
        return;
      }
      ghost var start := Snapshot();
      while sourceGroup.value != []
        invariant sourceGroup.Some?
        invariant element.children + sourceGroup.value == start.children + start.sourceGroup.value
        invariant Snapshot() == start.(children := element.children, sourceGroup := sourceGroup)
        invariant outstandingFrames == 0
        decreases |sourceGroup.value|
      {
        element.children := element.children + [sourceGroup.value[0]];
        sourceGroup := Some(sourceGroup.value[1..]);
      }
      assert element.children == start.children + start.sourceGroup.value;
      trackAttached := false;
    }
  }

  /** The state a new instance is constructed into, from the element's child
      nodes, classes, style and dataset at construction time. */
  ghost function Constructed(children: seq<Node>, classes: set<string>, style: map<string, StyleValue>, dataset: Dataset,
                             callerOptions: Layer, parse: NumberParser, prefersReducedMotion: bool,
                             sourceWidth: real, containerWidth: real): State
    requires sourceWidth >= 0.0 && containerWidth >= 0.0
  {
    RefreshSpec(SetupSpec(Initial(children, classes, style, dataset, callerOptions, parse, prefersReducedMotion)),
                sourceWidth, containerWidth, parse)
  }

  /** The callback `initAll` maps over the matched elements: the registered
      instance if there is one, else a new one, registered on the element. */
  method InstanceFor(element: Element, callerOptions: Layer, parse: NumberParser, prefersReducedMotion: bool,
                     sourceWidth: real, containerWidth: real) returns (instance: Carousel)
    requires sourceWidth >= 0.0 && containerWidth >= 0.0
    requires element.instance != null ==> element.instance.element == element && element.instance.Valid()
    modifies element
    ensures instance.element == element && element.instance == instance && instance.Valid()
    ensures old(element.instance) != null ==> instance == old(element.instance) && unchanged(element)
    ensures old(element.instance) == null ==>
              && fresh(instance)
              && instance.Snapshot() == Constructed(old(element.children), old(element.classes), old(element.style),
                                                     old(element.dataset), callerOptions, parse, prefersReducedMotion,
                                                     sourceWidth, containerWidth)
  {
    if element.instance != null {
      instance := element.instance;
      return;
    }
    instance := new Carousel(element, callerOptions, parse, prefersReducedMotion, sourceWidth, containerWidth);
    element.instance := instance;
  }

  /** What `initAll` reads of an element: its content, classes, style,
      dataset and registered instance. */
  datatype ElementView = ElementView(children: seq<Node>, classes: set<string>, style: map<string, StyleValue>,
                                     dataset: Dataset, instance: Carousel?)

  ghost function View(e: Element): ElementView
    reads e
  {
    ElementView(e.children, e.classes, e.style, e.dataset, e.instance)
  }

  /** Element `e`, whose view was `view` before `initAll`, holds the valid
      instance `c`: the one it had, or a new one in state `expected`. */
  ghost predicate Settled(e: Element, c: Carousel, view: ElementView, expected: State)
    reads e, c
  {
    && c.element == e && e.instance == c && c.Valid()
    && (view.instance != null ==> c == view.instance)
    && (view.instance == null ==> c.Snapshot() == expected)
  }

  /** After `initAll` has handled the first `i` elements, each of them is
      settled. */
  ghost predicate Progress(elements: seq<Element>, instances: seq<Carousel>, i: nat,
                           views: seq<ElementView>, expected: seq<State>)
    reads elements, instances
  {
    && |views| == |expected| == |elements| && i <= |elements| && |instances| == i
    && (forall k :: 0 <= k < i ==> Settled(elements[k], instances[k], views[k], expected[k]))
  }

  /** One step of `initAll`: the callback applied to element `i`, whose
      content holds none of the other matched elements. */
  method InitNext(elements: seq<Element>, instances: seq<Carousel>, i: nat, callerOptions: Layer, parse: NumberParser,
                  prefersReducedMotion: bool, widths: seq<(real, real)>,
                  ghost views: seq<ElementView>, ghost expected: seq<State>) returns (next: seq<Carousel>)
    requires Progress(elements, instances, i, views, expected) && i < |elements| == |widths|
    requires View(elements[i]) == views[i]
    requires forall k :: 0 <= k < |elements| && k != i ==> elements[k] != elements[i]
    requires widths[i].0 >= 0.0 && widths[i].1 >= 0.0
    requires views[i].instance != null ==> views[i].instance.element == elements[i] && views[i].instance.Valid()
    requires expected[i] == Constructed(views[i].children, views[i].classes, views[i].style, views[i].dataset,
                                        callerOptions, parse, prefersReducedMotion, widths[i].0, widths[i].1)
    modifies elements[i]
    ensures Progress(elements, next, i + 1, views, expected)
    ensures forall k :: 0 <= k < i ==> next[k] == instances[k]
    ensures views[i].instance == null ==> fresh(next[i])
    ensures forall k :: 0 <= k < |elements| && (k != i || views[i].instance != null) ==> unchanged(elements[k])
  {
    var instance := InstanceFor(elements[i], callerOptions, parse, prefersReducedMotion, widths[i].0, widths[i].1);
    next := instances + [instance];
  }

  /** `Carousel.initAll` over the elements the selector matched (distinct, as
      `querySelectorAll` returns them, and taken not to be nested in one
      another: no element lies in another's content), each with its measured
      widths. An
      element that already has an instance gets that instance back and is
      left untouched; any other gets a new, fully set-up instance, registered
      on the element. */
  method InitAll(elements: seq<Element>, callerOptions: Layer, parse: NumberParser, prefersReducedMotion: bool,
                 widths: seq<(real, real)>) returns (instances: seq<Carousel>)
    requires |widths| == |elements|
    requires forall i, j :: 0 <= i < j < |elements| ==> elements[i] != elements[j]
    requires forall i :: 0 <= i < |widths| ==> widths[i].0 >= 0.0 && widths[i].1 >= 0.0
    requires forall i :: 0 <= i < |elements| && elements[i].instance != null ==>
               elements[i].instance.element == elements[i] && elements[i].instance.Valid()
    modifies elements
    ensures |instances| == |elements|
    ensures forall i :: 0 <= i < |elements| ==> instances[i].element == elements[i] && elements[i].instance == instances[i]
    ensures forall i :: 0 <= i < |elements| ==> instances[i].Valid()
    ensures forall i :: 0 <= i < |elements| && old(elements[i].instance) != null ==>
              instances[i] == old(elements[i].instance) && unchanged(elements[i])
    ensures forall i :: 0 <= i < |elements| && old(elements[i].instance) == null ==>
              && fresh(instances[i])
              && instances[i].Snapshot()
                 == Constructed(old(elements[i].children), old(elements[i].classes), old(elements[i].style),
                                old(elements[i].dataset), callerOptions, parse, prefersReducedMotion,
                                widths[i].0, widths[i].1)
  {
    ghost var views := seq(|elements|, k requires 0 <= k < |elements| reads elements => View(elements[k]));
    ghost var expected := seq(|elements|, k requires 0 <= k < |elements| =>
                                Constructed(views[k].children, views[k].classes, views[k].style, views[k].dataset,
                                            callerOptions, parse, prefersReducedMotion, widths[k].0, widths[k].1));
    instances := [];
    var i := 0;
    while i < |elements|
      invariant Progress(elements, instances, i, views, expected)
      invariant forall k :: 0 <= k < i && views[k].instance == null ==> fresh(instances[k])
      invariant forall k :: i <= k < |elements| ==> unchanged(elements[k])
      invariant forall k :: 0 <= k < i && views[k].instance != null ==> unchanged(elements[k])
    {
      instances := InitNext(elements, instances, i, callerOptions, parse, prefersReducedMotion, widths, views, expected);
      i := i + 1;
    }
  }
}
