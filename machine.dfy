/** The Lens Controller of content.js as a state machine over values: one
    function per handler, the events that reach them, and the properties the
    controller keeps. The class in controller.dfy runs the same handlers in
    place and is proved to follow these functions step by step. */
module LensMachine {
  import opened LensConfig
  import opened Geometry

  datatype Option<T> = None | Some(value: T)

  /** The `animationFrame` slot. Pending: a handle is stored and its callback
      will run. Stale: a handle is stored but no callback will ever run for it
      (it was cancelled, or its callback returned early); the slot is never
      cleared again, so updateMagnifier never schedules another frame. */
  datatype Frame = NoFrame | Pending | Stale

  /** The lens element: its inline width and height, and its left/top once a
      frame has placed it. */
  datatype LensElement = LensElement(width: int, height: int, corner: Option<Point>)

  /** The magnified-content container: its inline size and its transform. */
  datatype CloneElement = CloneElement(extent: Extent, transform: Transform)

  /** The status messages the controller shows, in the order shown. */
  datatype Status = Opened | Closed | ZoomShown(zoom: real) | SizeShown(width: int) | ResetShown

  /** The module-level state of content.js. `listening` is whether the
      mousemove and keydown listeners are installed. */
  datatype State = State(
    active: bool,
    listening: bool,
    lens: Option<LensElement>,
    clone: Option<CloneElement>,
    frame: Frame,
    lastMouse: Point,
    config: Config,
    shown: seq<Status>)

  /** The state when the script is loaded. */
  const Initial: State := State(false, false, None, None, NoFrame, Point(0.0, 0.0), Defaults, [])

  /** What every reachable state satisfies. The overlay exists only while
      active (the converse fails after BeforeUnload, which removes it and
      leaves the controller active), the listeners are installed exactly while active,
      lens and clone come and go together, and the live lens is circular and
      within the size bounds. */
  predicate Valid(s: State) {
    InBounds(s.config) &&
    s.listening == s.active &&
    s.lens.Some? == s.clone.Some? &&
    (s.lens.Some? ==> s.active) &&
    (s.lens.Some? ==> MinSize <= s.lens.value.width <= MaxSize && s.lens.value.height == s.lens.value.width)
  }

  lemma InitialValid()
    ensures Valid(Initial) && !Initial.active && Initial.lens.None?
  {
  }

  // ----- configuration handlers -----

  /** adjustZoom: clamp-add to the zoom; show the new zoom only if it changed. */
  function AdjustZoom(s: State, delta: real): (r: State)
    ensures MinZoom <= r.config.zoom <= MaxZoom
    ensures r.config.zoom == ClampZoom(s.config.zoom, delta)
    ensures r.config.lensWidth == s.config.lensWidth && r.config.lensHeight == s.config.lensHeight
    ensures r.shown == s.shown + if r.config.zoom != s.config.zoom then [ZoomShown(r.config.zoom)] else []
    ensures r == s.(config := r.config, shown := r.shown)
    ensures Valid(s) ==> Valid(r)
  {
    var zoom := ClampZoom(s.config.zoom, delta);
    s.(config := s.config.(zoom := zoom),
       shown := if zoom != s.config.zoom then s.shown + [ZoomShown(zoom)] else s.shown)
  }

  /** adjustSize: clamp-add to the width and copy it to the height; only when
      the width changed and a lens exists is the lens resized and the size shown. */
  function AdjustSize(s: State, delta: int): (r: State)
    ensures MinSize <= r.config.lensWidth <= MaxSize && r.config.lensHeight == r.config.lensWidth
    ensures r.config.lensWidth == ClampSize(s.config.lensWidth, delta) && r.config.zoom == s.config.zoom
    ensures r.config.lensWidth != s.config.lensWidth && s.lens.Some? ==>
              r.lens == Some(s.lens.value.(width := r.config.lensWidth, height := r.config.lensWidth)) &&
              r.shown == s.shown + [SizeShown(r.config.lensWidth)]
    ensures r.config.lensWidth == s.config.lensWidth || s.lens.None? ==>
              r.lens == s.lens && r.shown == s.shown
    ensures r == s.(config := r.config, lens := r.lens, shown := r.shown)
    ensures Valid(s) ==> Valid(r)
  {
    var width := ClampSize(s.config.lensWidth, delta);
    var s' := s.(config := s.config.(lensWidth := width, lensHeight := width));
    if width != s.config.lensWidth && s.lens.Some? then
      s'.(lens := Some(s.lens.value.(width := width, height := width)),
          shown := s.shown + [SizeShown(width)])
    else
      s'
  }

  /** resetConfig: factory zoom and size, always a status message, and the
      live lens element left at whatever size it had. */
  function ResetConfig(s: State): (r: State)
    ensures InBounds(r.config) && r.config == Defaults
    ensures r.shown == s.shown + [ResetShown]
    ensures r.lens == s.lens
    ensures r == s.(config := Defaults, shown := r.shown)
    ensures Valid(s) ==> Valid(r)
  {
    s.(config := Defaults, shown := s.shown + [ResetShown])
  }

  // ----- overlay lifecycle -----

  /** createMagnifier, up to its guard: if a lens exists nothing happens;
      otherwise a lens of the configured size and a clone sized to the
      document, scaled by the zoom, are created. */
  function CreateMagnifier(s: State, doc: Measurements): (r: State)
    ensures s.lens.Some? ==> r == s
    ensures s.lens.None? ==>
              r.lens == Some(LensElement(s.config.lensWidth, s.config.lensHeight, None)) &&
              r.clone == Some(CloneElement(DocumentSize(doc), InitialTransform(s.config.zoom)))
    ensures r == s.(lens := r.lens, clone := r.clone)
  {
    if s.lens.Some? then s
    else
      s.(lens := Some(LensElement(s.config.lensWidth, s.config.lensHeight, None)),
         clone := Some(CloneElement(DocumentSize(doc), InitialTransform(s.config.zoom))))
  }

  /** removeMagnifier: drop lens and clone when a lens exists. */
  function RemoveMagnifier(s: State): (r: State)
    ensures r.lens.None?
    ensures s.lens.Some? ==> r.clone.None?
    ensures s.lens.None? ==> r == s
    ensures r == s.(lens := None, clone := r.clone)
    ensures Valid(s) ==> Valid(r)
  {
    if s.lens.Some? then s.(lens := None, clone := None) else s
  }

  /** toggleMagnifier. Activation creates the overlay (unless one exists) and
      installs the listeners; deactivation cancels the stored frame without
      clearing the slot, removes the overlay and the listeners. */
  function Toggle(s: State, doc: Measurements): (r: State)
    ensures r.active == !s.active && r.listening == r.active
    ensures r.config == s.config && r.lastMouse == s.lastMouse
    ensures r.active ==>
              r.lens.Some? && r.frame == s.frame &&
              (s.lens.Some? ==> r.lens == s.lens && r.clone == s.clone) &&
              r.shown == s.shown + [Opened]
    ensures !s.active ==>
              r.lens == CreateMagnifier(s, doc).lens && r.clone == CreateMagnifier(s, doc).clone
    ensures !r.active ==>
              r.lens.None? && (s.lens.Some? ==> r.clone.None?) &&
              r.frame == (if s.frame == NoFrame then NoFrame else Stale) &&
              r.shown == s.shown + [Closed]
    ensures Valid(s) ==> Valid(r)
  {
    if !s.active then
      CreateMagnifier(s, doc).(active := true, listening := true, shown := s.shown + [Opened])
    else
      var cancelled := s.(frame := if s.frame == NoFrame then NoFrame else Stale);
      RemoveMagnifier(cancelled).(active := false, listening := false, shown := s.shown + [Closed])
  }

  // ----- keyboard -----

  /** The keys handleKeyDown acts on. `_` is not among them. */
  predicate IsShortcut(key: string) {
    key in {"Escape", "+", "=", "-", "[", "]", "r", "R"}
  }

  /** Whether handleKeyDown calls preventDefault: every shortcut but Escape. */
  predicate PreventsDefault(key: string) {
    IsShortcut(key) && key != "Escape"
  }

  /** handleKeyDown: Escape toggles, `+`/`=` and `-` step the zoom, `]` and
      `[` step the size, `r`/`R` reset; any other key changes nothing. */
  function HandleKeyDown(s: State, key: string, doc: Measurements): (r: State)
    ensures !IsShortcut(key) ==> r == s
    ensures key != "Escape" ==> r.active == s.active && r.frame == s.frame && r.lastMouse == s.lastMouse
    ensures InBounds(s.config) ==> InBounds(r.config)
    ensures Valid(s) ==> Valid(r)
  {
    match key
    case "Escape" => Toggle(s, doc)
    case "+" => AdjustZoom(s, ZoomStep)
    case "=" => AdjustZoom(s, ZoomStep)
    case "-" => AdjustZoom(s, -ZoomStep)
    case "[" => AdjustSize(s, -SizeStep)
    case "]" => AdjustSize(s, SizeStep)
    case "r" => ResetConfig(s)
    case "R" => ResetConfig(s)
    case _ => s
  }

  /** A keydown on the document reaches handleKeyDown only while its listener is installed. */
  function OnKeyDown(s: State, key: string, doc: Measurements): (r: State)
    ensures !s.listening ==> r == s
  {
    if s.listening then HandleKeyDown(s, key, doc) else s
  }

  // ----- rendering -----

  /** updateMagnifier: always record the sample; claim the frame slot only if it is empty. */
  function UpdateMagnifier(s: State, mouse: Point): (r: State)
    ensures r.lastMouse == mouse
    ensures s.frame == NoFrame ==> r.frame == Pending
    ensures s.frame != NoFrame ==> r.frame == s.frame
    ensures r == s.(lastMouse := mouse, frame := r.frame)
    ensures Valid(s) ==> Valid(r)
  {
    s.(lastMouse := mouse, frame := if s.frame == NoFrame then Pending else s.frame)
  }

  /** A mousemove reaches updateMagnifier only while its listener is installed. */
  function OnMouseMove(s: State, mouse: Point): (r: State)
    ensures !s.listening ==> r == s
  {
    if s.listening then UpdateMagnifier(s, mouse) else s
  }

  /** Half the configured lens width: the `halfSize` of the frame callback. */
  function HalfSize(c: Config): real {
    (c.lensWidth as real) / 2.0
  }

  /** The requestAnimationFrame callback, run when the display refreshes with
      the page scrolled by `scroll`. Only a Pending slot has a callback to run.
      Without a lens or clone it returns early and leaves the slot Stale;
      otherwise it places the lens corner halfSize before the last sample,
      transforms the clone so that the page point under the sample is drawn at
      the sample, and empties the slot. */
  function FireFrame(s: State, scroll: Point): (r: State)
    requires s.config.zoom > 0.0
    ensures s.frame != Pending ==> r == s
    ensures s.frame == Pending && (s.lens.None? || s.clone.None?) ==> r == s.(frame := Stale)
    ensures s.frame == Pending && s.lens.Some? && s.clone.Some? ==>
              var page := Point(s.lastMouse.x + scroll.x, s.lastMouse.y + scroll.y);
              r.frame == NoFrame &&
              r.lens.Some? && r.lens.value.corner.Some? && r.clone.Some? &&
              r.lens.value.width == s.lens.value.width &&
              r.lens.value.height == s.lens.value.height &&
              r.lens.value.corner == Some(LensCorner(s.lastMouse, HalfSize(s.config))) &&
              r.clone.value.extent == s.clone.value.extent &&
              r.clone.value.transform.scale == s.config.zoom &&
              OnScreen(r.lens.value.corner.value, r.clone.value.transform, page) == s.lastMouse &&
              r == s.(lens := r.lens, clone := r.clone, frame := NoFrame)
    ensures Valid(s) ==> Valid(r)
  {
    if s.frame != Pending then s
    else if s.lens.None? || s.clone.None? then s.(frame := Stale)
    else
      var half := HalfSize(s.config);
      var page := Point(s.lastMouse.x + scroll.x, s.lastMouse.y + scroll.y);
      CursorPointDrawnAtCursor(s.lastMouse, scroll, half, s.config.zoom, page);
      s.(lens := Some(s.lens.value.(corner := Some(LensCorner(s.lastMouse, half)))),
         clone := Some(s.clone.value.(transform := CentringTransform(s.config.zoom, half, page))),
         frame := NoFrame)
  }

  // ----- window handlers -----

  /** The resize handler: the clone, if any, takes the measured document size. */
  function OnResize(s: State, doc: Measurements): (r: State)
    ensures s.clone.Some? ==> r.clone == Some(s.clone.value.(extent := DocumentSize(doc)))
    ensures s.clone.None? ==> r == s
    ensures r == s.(clone := r.clone)
    ensures Valid(s) ==> Valid(r)
  {
    if s.clone.Some? then s.(clone := Some(s.clone.value.(extent := DocumentSize(doc)))) else s
  }

  /** The scroll handler: re-run updateMagnifier with the last sample, but
      only while active and with both coordinates strictly positive. */
  function OnScroll(s: State): (r: State)
    ensures r.frame == Pending <==>
              s.frame == Pending ||
              (s.frame == NoFrame && s.active && s.lastMouse.x > 0.0 && s.lastMouse.y > 0.0)
    ensures !(s.active && s.lastMouse.x > 0.0 && s.lastMouse.y > 0.0) ==> r == s
    ensures s.frame != NoFrame ==> r.frame == s.frame
    ensures r == s.(frame := r.frame)
    ensures Valid(s) ==> Valid(r)
  {
    if s.active && s.lastMouse.x > 0.0 && s.lastMouse.y > 0.0 then UpdateMagnifier(s, s.lastMouse) else s
  }

  // ----- events -----

  /** What reaches the controller. ToggleMessage is the relay's
      `{action: "toggleMagnifier"}`; AnimationFrame is a display refresh. */
  datatype Event =
    | ToggleMessage(doc: Measurements)
    | KeyDown(key: string, doc: Measurements)
    | MouseMove(mouse: Point)
    | AnimationFrame(scroll: Point)
    | Resize(doc: Measurements)
    | Scroll
    | BeforeUnload

  /** The handler each event reaches. */
  function Step(s: State, e: Event): (r: State)
    requires InBounds(s.config)
    ensures InBounds(r.config)
    ensures e.ToggleMessage? ==> r.active == !s.active && r.listening == r.active
    ensures (e.KeyDown? || e.MouseMove?) && !s.listening ==> r == s
    ensures e.MouseMove? && s.listening ==> r.lastMouse == e.mouse
    ensures e.Resize? && s.clone.Some? ==> r.clone == Some(s.clone.value.(extent := DocumentSize(e.doc)))
    ensures e.BeforeUnload? ==> r.lens.None? && r.active == s.active
  {
    match e
    case ToggleMessage(doc) => Toggle(s, doc)
    case KeyDown(key, doc) => OnKeyDown(s, key, doc)
    case MouseMove(mouse) => OnMouseMove(s, mouse)
    case AnimationFrame(scroll) => FireFrame(s, scroll)
    case Resize(doc) => OnResize(s, doc)
    case Scroll => OnScroll(s)
    case BeforeUnload => RemoveMagnifier(s)
  }

  /** The state after the events `es`, in order. */
  function Run(s: State, es: seq<Event>): (r: State)
    requires InBounds(s.config)
    ensures InBounds(r.config)
    decreases |es|
  {
    if es == [] then s else Run(Step(s, es[0]), es[1..])
  }
}
