# Carousel controller, modelled in Dafny

This project models `scripts/carousel.js`, a horizontal carousel controller, and proves properties of the model. The controller takes a host element and does the following:

- moves the element's children into a "source group" on a track;
- appends hidden clone groups until the track covers the container plus one cycle;
- turns the geometry and the options into CSS custom properties (`--carousel-gap`, `--carousel-cycle-width`, `--carousel-duration`, `--carousel-play-state`) and direction classes;
- undoes all of this in `destroy`.

The model has six modules:

- `JsValues`: loosely typed JavaScript values, `toNumber` and `toBoolean`.
- `CarouselOptions`: the option layers.
  - the library `DEFAULTS`;
  - the caller's options object;
  - the element's `data-*` attributes;
  - the `Object.assign` merge between them;
  - `normalizeOptions`.
- `Layout`: the arithmetic of a refresh pass (clone count, cycle duration) and the play-state rule of `updatePlayState`.
- `Focus`: `setFocusableDisabled` and `restoreFocusable`, over the nodes of a group.
- `Lifecycle`: the observable state of one carousel as a value, and one function per operation saying what state that operation leaves behind. The invariant, the idempotence of `refresh`, the frame-token rules and the set-up/teardown round trip are proved here.
- `Controller`: the imperative part.
  - The `Element` class is a host element, including its `__carouselInstance` slot.
  - The `Carousel` class has the source's fields and methods, with the same loops. Each method that models an operation of the carousel keeps `Valid()` and is proved to leave `Snapshot()` equal to the matching `Lifecycle` function of the state it started from. The loops of `setupStructure`, `refresh` and `destroy` are the helpers `MoveChildren`, `AppendClones` and `ReturnContent`, and each states its own part of that change.
  - `InitAll` is the per-element registry. Its `map` callback is the helper `InitNext`.

Some parts of the environment become inputs:

- Measured widths are method parameters.
- The token `requestAnimationFrame` returns is a method parameter.
- The reduced-motion media query's `matches` is a parameter and a field.
- JavaScript's `Number(string)` grammar is a parameter `parse: string -> Option<real>`. It gives the finite value a string denotes, or `None`.

A ghost counter `outstandingFrames` tracks animation-frame callbacks that were requested and have neither run nor been cancelled. `Valid()` ties the counter to `rafId`, so at most one frame is ever outstanding.

Two behaviours of the code may look unintended; the model reproduces them as written:

- Fallbacks are hard-coded. A field that cannot be parsed falls back to the library default. It does not fall back to the value of an earlier layer.
- The options object built from the dataset always has all seven keys, `undefined` where an attribute is missing. So `Object.assign` overwrites every option the caller passed. `ResolveIgnoresBase` and `NoAttributesGiveDefaults` prove this.

## Model

| member | source | states |
|---|---|---|
| JsValues.FiniteNumber | scripts/carousel.js:14-17 | `Number(v)` when it is finite. `undefined` and non-finite values give none, `null` gives 0, booleans give 1 or 0, strings go through the number grammar |
| JsValues.ToNumber | scripts/carousel.js:14-17 | the finite number the value denotes, otherwise the fallback |
| JsValues.AsciiLower | scripts/carousel.js:28 | `String(value).toLowerCase()` on a string: same length; each ASCII capital becomes its small letter and every other character is kept; no capital is left |
| JsValues.LowerMatchesWord | scripts/carousel.js:28-33 | lower-casing `s` gives a lower-case word exactly when `s` equals that word ignoring case (both directions) |
| JsValues.ToBoolean | scripts/carousel.js:19-35 | booleans pass through; "true"/"false" in any case give true/false; the result differs from the fallback only for a boolean or one of those two words |
| CarouselOptions.DefaultsAreDefaultConfig | scripts/carousel.js:4-12 | `DEFAULTS` is the default configuration (speed 90, no duration, gap 10, "always", no hover pause, "left", "stop") written as an options object; with no caller options the base options are exactly that configuration |
| CarouselOptions.Assign | scripts/carousel.js:109-111 | every key present in the later layer wins, even when it holds `undefined`; absent keys keep the earlier value |
| CarouselOptions.DatasetLayer | scripts/carousel.js:37-47 | the dataset object always carries all seven keys |
| CarouselOptions.Normalize | scripts/carousel.js:49-72 | total, and yields a validated configuration: speed at least 1; gap at least 0; duration absent or positive; run/direction/reducedMotion are "hover"/"right"/"ignore" exactly for those literals; unparsable speed/gap fall back to the hard-coded 90/10; hoverPause via `toBoolean` with fallback false |
| CarouselOptions.BaseOptions | scripts/carousel.js:109 | the constructor's base options are a validated configuration |
| CarouselOptions.Resolve | scripts/carousel.js:221-224 | the dataset-overlaid options are a validated configuration |
| CarouselOptions.ResolveIgnoresBase | scripts/carousel.js:221-224 | the resolved options are the same for any two base configurations: the dataset layer overwrites the caller's options |
| CarouselOptions.NoAttributesGiveDefaults | scripts/carousel.js:37-72 | with no `data-*` attributes, the options are exactly the library defaults, whatever the caller passed |
| CarouselOptions.ConfigObjectInjective | scripts/carousel.js:110-112 | `this.baseOptions` as the first source of `Object.assign` (here and at lines 222-224) keeps every normalised option: distinct configurations give distinct options objects |
| CarouselOptions.NormalizeFixesConfig | scripts/carousel.js:49-72 | normalisation is idempotent: a normalised configuration read back as an object normalises to itself |
| CarouselOptions.ZeroDurationIsAbsent | scripts/carousel.js:56-61 | a `data-duration` of "0" yields no duration |
| Layout.Ceil | scripts/carousel.js:249 | `Math.ceil`: the least integer not below `x` |
| Layout.CloneCount | scripts/carousel.js:249-256 | at least one clone; source plus clones span at least container plus one cycle; no smaller count of at least one clone does |
| Layout.RequiredGroups | scripts/carousel.js:249 | `Math.max(2, Math.ceil(1 + containerWidth / sourceWidth))`, the number of groups including the source group |
| Layout.CloneCountIsRequiredMinusOne | scripts/carousel.js:249-250 | the number of loop iterations is `max(2, ceil(1 + c/s)) - 1` |
| Layout.CycleDuration | scripts/carousel.js:258-262 | at least 0.1 s; the configured duration when there is one, else `sourceWidth / speed`, raised to 0.1 when below it |
| Layout.ComputeLayout | scripts/carousel.js:244-262 | suppressed exactly when a width is zero or the source has no element; otherwise at least one clone, cycle width equal to the source width, duration at least 0.1 |
| Layout.ScenarioSpeedDerived | scripts/carousel.js:249-262 | a 500px source in a 1200px container at 100px/s gives three clones and a 5 s cycle |
| Layout.PlayStateOf | scripts/carousel.js:269-294 | precedence: "stop" with the preference active gives paused; otherwise "hover" runs exactly while hovered; otherwise "always" pauses exactly when hoverPause is set and hovered |
| Focus.Disabled | scripts/carousel.js:78-83 | one node under `setFocusableDisabled`: a selected node gets tabindex "-1" and a prior tabindex saved; any other node is unchanged |
| Focus.DisableAll | scripts/carousel.js:74-84 | every node of a group under `setFocusableDisabled`, same length, node by node |
| Focus.Restored | scripts/carousel.js:90-100 | one node under `restoreFocusable`: a saved tabindex put back and the saved copy dropped; else a tabindex of "-1" removed; any other node unchanged |
| Focus.RestoreAll | scripts/carousel.js:86-101 | every node of a group under `restoreFocusable`, same length, node by node |
| Focus.SetFocusableDisabled | scripts/carousel.js:74-84 | every selected node ends with tabindex "-1" and any prior tabindex saved; unselected nodes are unchanged |
| Focus.RestoreFocusable | scripts/carousel.js:86-101 | every selected node loses its saved copy; a saved tabindex is put back; unselected nodes are unchanged |
| Focus.SelectorSeesDisabled | scripts/carousel.js:75-89 | the selector `a, button, input, select, textarea, [tabindex]` of `restoreFocusable` (lines 87-89) matches, on a disabled group, exactly the nodes that of `setFocusableDisabled` (lines 75-77) matched |
| Focus.DisableKeepsElements | scripts/carousel.js:74-84 | a disabled copy has an element exactly when the original has one |
| Focus.RestoreAfterDisable | scripts/carousel.js:74-101 | restoring a disabled copy gives back the original nodes exactly, when none carried a saved tabindex beforehand |
| Focus.SavedTabindexIsNotRoundTripped | scripts/carousel.js:79-94 | a node that already had `data-original-tabindex` and no tabindex does not come back unchanged |
| Lifecycle.DirectionClass | scripts/carousel.js:237-239 | one of the two direction classes, and `is-direction-right` exactly when the direction is "right" |
| Lifecycle.Clones | scripts/carousel.js:250-256 | the groups the `for` loop appends: as many as asked for, each `aria-hidden` and holding the source group's nodes taken out of the tab order |
| Lifecycle.CloneOf | scripts/carousel.js:251-253 | a clone group is the source group's nodes, deep-copied, marked `aria-hidden` and with every focusable node taken out of the tab order |
| Lifecycle.SetupSpec | scripts/carousel.js:135-153 | the state after `setupStructure`: nothing changes without an element child; otherwise all child nodes move, in order, into the source group, the track is attached and `is-enhanced` is added |
| Lifecycle.ApplyOptionsSpec | scripts/carousel.js:221-225 | the state after `applyOptionsFromDataset`: only the options change, re-resolved from the base options and the dataset |
| Lifecycle.ClearClonesSpec | scripts/carousel.js:209-219 | the state after `clearClones`: no clone groups once a track exists, no change without one |
| Lifecycle.UpdatePlayStateSpec | scripts/carousel.js:269-294 | the state after `updatePlayState`: once a track exists, only the play-state property changes, to the value of the precedence rule |
| Lifecycle.MarkSpec | scripts/carousel.js:235-239 | the gap property and exactly one direction class, written by every refresh pass that has a track |
| Lifecycle.LayoutSpec | scripts/carousel.js:244-266 | the rest of a refresh pass: "paused" for a suppressed layout; otherwise the clone groups, cycle width, duration and play state |
| Lifecycle.RefreshSpec | scripts/carousel.js:227-267 | the state after `refresh`: unchanged without a track or source group, otherwise options re-read, clones cleared, track marked and layout applied, in that order |
| Lifecycle.ScheduleSpec | scripts/carousel.js:197-207 | the state after `scheduleRefresh`: unchanged while a frame is pending, otherwise the new token recorded |
| Lifecycle.FireSpec | scripts/carousel.js:203-206 | the frame callback: the token cleared, then a refresh |
| Lifecycle.PointerEnterSpec | scripts/carousel.js:296-299 | the hover flag set, then the play state updated |
| Lifecycle.PointerLeaveSpec | scripts/carousel.js:301-308 | unchanged for a `focusout` to a target inside; otherwise the hover flag cleared, then the play state updated |
| Lifecycle.ReducedMotionChangeSpec | scripts/carousel.js:127-128 | the new preference recorded, then the play state updated |
| Lifecycle.ReturnContentSpec | scripts/carousel.js:342-347 | with a track and a source group, the source group's nodes appended, in order, to the element's children and the track detached |
| Lifecycle.UnmarkSpec | scripts/carousel.js:349-353 | the three classes and the four style properties removed, nothing else |
| Lifecycle.DestroySpec | scripts/carousel.js:310-355 | the state after `destroy`: token cleared, clones disposed, content returned, classes and properties removed, in that order |
| Lifecycle.Initial | scripts/carousel.js:108-117 | the constructor's initial fields satisfy the invariant: no track, no pending frame, not hovered |
| Lifecycle.DisposedClones | scripts/carousel.js:209-219 | `clearClones` disposes one restored group per clone group |
| Lifecycle.SetupNeedsElement | scripts/carousel.js:136-244 | the `children.length === 0` tests at line 136 and line 244: set-up builds a track exactly when the element has an element child, and the source group then has one, so the test in `refresh` only holds for content changed after set-up |
| Lifecycle.SetupKeepsInv | scripts/carousel.js:135-153 | `setupStructure` keeps the invariant |
| Lifecycle.RefreshKeepsInv | scripts/carousel.js:227-267 | `refresh`, and the frame callback that runs it, keep the invariant: validated options; a track exactly when a source group; every clone a disabled copy of the source |
| Lifecycle.EventsKeepInv | scripts/carousel.js:197-355 | scheduling, pointer enter/leave, a preference change and `destroy` keep the invariant |
| Lifecycle.RefreshSuppressed | scripts/carousel.js:244-247 | degenerate inputs leave no clones and the play state "paused". Besides, only the gap property and the direction class are written; cycle width and duration keep their old values |
| Lifecycle.RefreshLooping | scripts/carousel.js:249-266 | otherwise exactly `max(2, ceil(1 + c/s)) - 1` clones, each a disabled copy of the source, covering container plus one cycle. The style gets gap, cycle width, duration and the play state from the precedence rule |
| Lifecycle.RefreshIdempotent | scripts/carousel.js:227-267 | a second refresh with the same widths and attributes changes nothing |
| Lifecycle.RefreshWritesOnlyItsOwn | scripts/carousel.js:235-265 | a refresh changes no class but the direction classes and no style property but the carousel's four |
| Lifecycle.DisposedClonesMatchSource | scripts/carousel.js:209-219 | each disposed clone, after restoration, has exactly the source group's nodes, when no source node already carries `data-original-tabindex` |
| Lifecycle.ScheduleWhilePending | scripts/carousel.js:197-207 | after scheduling a frame is pending; a call while one is pending changes nothing; scheduling twice equals scheduling once |
| Lifecycle.FrameAndDestroyClearToken | scripts/carousel.js:203-206 | the frame callback and `destroy` both leave `rafId` cleared |
| Lifecycle.HoverFlag | scripts/carousel.js:296-308 | entering sets the hover flag; a `focusout` to a target inside leaves the whole state unchanged; any other leave clears the flag |
| Lifecycle.SetupHoldsContent | scripts/carousel.js:135-153 | after set-up, the original children are held in the source group, or in the element when nothing was set up |
| Lifecycle.RefreshKeepsStructure | scripts/carousel.js:227-267 | a refresh leaves the element's child nodes, the track and the source group as they are |
| Lifecycle.EventsKeepContent | scripts/carousel.js:197-308 | refresh, the frame callback, scheduling, pointer events and preference changes all keep the held content where it is |
| Lifecycle.TeardownRestores | scripts/carousel.js:340-354 | teardown puts the original children back in order. Afterwards the track is detached, there are no clones and no pending frame, and the three classes and four style properties are gone |
| Lifecycle.SetupThenTeardown | scripts/carousel.js:135-354 | construction (`setupStructure`, lines 135-153) then `destroy` (lines 340-354) hands the element back with its original children, in order. Its classes and style are as before, minus the carousel's own |
| Controller.Carousel.constructor | scripts/carousel.js:103-133 | computes base and resolved options, sets up the structure and refreshes; the new state is the composition of those functions |
| Controller.Carousel.SetupStructure | scripts/carousel.js:135-153 | nothing without an element child; otherwise every descendant node, in document order, moves into the source group, the track is attached and `is-enhanced` is added |
| Controller.Carousel.MoveChildren | scripts/carousel.js:146-148 | the `while` loop: the group ends with exactly the element's former nodes, in order, and the element has none left. The model moves one node of the flattened descendant list per pass, where the code moves one child subtree; a subtree is a contiguous run of that list, so the result is the same |
| Controller.Carousel.ScheduleRefresh | scripts/carousel.js:197-207 | requests a frame only when none is pending; at most one stays outstanding |
| Controller.Carousel.OnAnimationFrame | scripts/carousel.js:203-206 | clears the token, then refreshes; no frame is outstanding afterwards |
| Controller.Carousel.ClearClones | scripts/carousel.js:209-219 | returns each clone restored, then empties the clone list |
| Controller.Carousel.ApplyOptionsFromDataset | scripts/carousel.js:221-225 | re-resolves the options from the base options and the live dataset |
| Controller.Carousel.Refresh | scripts/carousel.js:227-267 | leaves exactly the state the refresh function describes |
| Controller.Carousel.MarkTrack | scripts/carousel.js:235-239 | writes the gap property and exactly one direction class |
| Controller.Carousel.ApplyLayout | scripts/carousel.js:241-266 | pauses on degenerate inputs; otherwise builds the clones and writes cycle width, duration and play state |
| Controller.Carousel.AppendClones | scripts/carousel.js:249-256 | the `for` loop appends `requiredGroups - 1` disabled, hidden copies of the source group |
| Controller.Carousel.UpdatePlayState | scripts/carousel.js:269-294 | writes the play state given by the precedence rule, only once a track exists |
| Controller.Carousel.OnPointerEnter | scripts/carousel.js:296-299 | sets the hover flag and updates the play state |
| Controller.Carousel.OnPointerLeave | scripts/carousel.js:301-308 | ignores a `focusout` to a target inside; otherwise clears the hover flag and updates the play state |
| Controller.Carousel.OnReducedMotionChange | scripts/carousel.js:127-128 | records the new preference and updates the play state |
| Controller.Carousel.Destroy | scripts/carousel.js:310-355 | cancels the pending frame, disposes the clones, returns the content, drops the classes and properties, and unregisters the instance |
| Controller.Carousel.ReturnContent | scripts/carousel.js:342-347 | the `while` loop moves the source group's descendant nodes back to the end of the element's, in document order, and detaches the track. One flattened node moves per pass, where the code moves one child subtree |
| Controller.Constructed | scripts/carousel.js:103-133 | the state a new instance is constructed into: set-up then refresh of the initial state |
| Controller.InstanceFor | scripts/carousel.js:360-368 | an element with a registered instance gets it back and is left untouched; any other gets a fresh, valid instance in the constructed state, registered on the element |
| Controller.InitNext | scripts/carousel.js:360-368 | the `map` callback on one element: that element settled, every element settled before kept so, every other element unchanged |
| Controller.InitAll | scripts/carousel.js:357-370 | for distinct elements: one valid instance per element. An element that has one gets it back, unchanged; any other gets a fresh instance in the constructed state, registered on the element |

## Left out

- Event subscription (`bindEvents` and the listener removals in `destroy`, `ResizeObserver`, `MutationObserver`, `matchMedia` listener fallbacks, `DOMContentLoaded`): browser plumbing. The handlers are methods the environment calls, and every observer callback is `ScheduleRefresh`.
- `onSourceLoad` (lines 191-195): it only calls `scheduleRefresh` for image loads, and event targets are not modelled.
- `requestAnimationFrame`/`cancelAnimationFrame` timing: the frame is a token passed to `ScheduleRefresh` and a callback the environment runs while it is outstanding. Browsers return a non-zero handle; `ScheduleRefresh` requires a positive token, because the code tests `this.rafId` for truthiness and a 0 would read as no frame pending.
- `getBoundingClientRect`: widths are non-negative `real` parameters.
- `cloneNode(true)` and `querySelectorAll`: a group's content is its descendant nodes in document order. A node is selected when it is an element and is natively focusable or has a `tabindex`.
- IEEE-754 arithmetic and the `Number(string)` grammar: widths and durations are exact reals, and the grammar is the `parse` parameter. `Infinity` and `NaN` are the single value `NonFinite`.
- The formatting of style values as `"…px"`/`"…s"` strings, and the CSS animation itself: style values are typed (`Length`, `Time`, `Play`).
- The `HTMLElement` check in the constructor (line 104): the constructor takes an `Element`, so this error path cannot arise.
- A second `new Carousel` on an element that is already enhanced: the track is not one of the element's child nodes in the model, so such an element looks empty and the second instance sets nothing up. In the code (lines 136-151) the second instance counts the first one's track as a child, moves it into its own source group and clones it. Only the registry of `initAll` prevents this, and `InitAll` is modelled with that registry.
- The selector argument of `initAll` and its `.filter(Boolean)`: `InitAll` takes the matched elements. Every instance is truthy, so the filter removes nothing.
- Controller.InitAll: the matched elements are taken not to contain one another. `querySelectorAll` (line 359) also returns a match nested inside an earlier match, in document order. Setting up the outer one moves the inner one into its source group and clones it (lines 146-151, 251). Setting up the inner one then rewrites nodes inside that source group, and the outer carousel's clones stay stale until its mutation observer schedules a refresh. In the model every element is a separate object and node lists are values, so this nesting cannot arise, and `InitAll` promises the constructed state for every new instance.
- Controller.InitNext: for the same reason, it promises that the elements handled before stay as they were set up. With nested matches the code breaks this for an outer match whose content holds the current element.
- The page changing the source content between refreshes: the mutation observer only schedules a refresh, so the model holds the content fixed.
- JsValues.ToBoolean: `String(value).toLowerCase()` is modelled as ASCII lower-casing of strings, because only equality with "true" and "false" matters. Non-string, non-boolean values yield the fallback, which is what their string forms give.
- Controller.Carousel.SetupStructure: requires that no track exists yet; the constructor is its only caller.
