/** Properties of the Lens Controller over whole event sequences: the state
    invariant, toggling, keyboard gating and bindings, render coalescing,
    centring, and the consequences of the frame slot never being cleared. */
module LensProperties {
  import opened LensConfig
  import opened Geometry
  import opened LensMachine

  /** Every handler keeps the invariant. */
  lemma StepPreservesValid(s: State, e: Event)
    requires Valid(s)
    ensures Valid(Step(s, e))
  {
  }

  /** Any sequence of events from a valid state ends in a valid state. */
  lemma {:induction false} RunPreservesValid(s: State, es: seq<Event>)
    requires Valid(s)
    ensures Valid(Run(s, es))
    decreases |es|
  {
    if es != [] {
      StepPreservesValid(s, es[0]);
      RunPreservesValid(Step(s, es[0]), es[1..]);
    }
  }

  /** So every state reachable from page load satisfies the invariant: zoom
      and width within bounds, height equal to width, no overlay while inactive. */
  lemma ReachableValid(es: seq<Event>)
    ensures Valid(Run(Initial, es))
  {
    InitialValid();
    RunPreservesValid(Initial, es);
  }

  /** Running `a` then `b` is running `a + b`. */
  lemma {:induction false} RunConcat(s: State, a: seq<Event>, b: seq<Event>)
    requires InBounds(s.config)
    ensures Run(s, a + b) == Run(Run(s, a), b)
    decreases |a|
  {
    if a != [] {
      assert (a + b)[0] == a[0];
      assert (a + b)[1..] == a[1..] + b;
      RunConcat(Step(s, a[0]), a[1..], b);
    } else {
      assert a + b == b;
    }
  }

  /** Running a single event is taking that step. */
  lemma RunOne(s: State, e: Event)
    requires InBounds(s.config)
    ensures Run(s, [e]) == Step(s, e)
  {
  }

  /** Running `[e] + rest` is taking the step `e`, then running `rest`. */
  lemma RunCons(s: State, e: Event, rest: seq<Event>)
    requires InBounds(s.config)
    ensures Run(s, [e] + rest) == Run(Step(s, e), rest)
  {
  }

  /** Running two events is taking the two steps in order. */
  lemma RunPair(s: State, e1: Event, e2: Event)
    requires InBounds(s.config)
    ensures Run(s, [e1, e2]) == Step(Step(s, e1), e2)
  {
    assert [e1, e2][1..] == [e2];
    RunOne(Step(s, e1), e2);
  }

  // ----- toggling -----

  /** One relay message per element of `docs`, each carrying the measurements
      the page reports at that moment. */
  function Toggles(docs: seq<Measurements>): seq<Event> {
    seq(|docs|, i requires 0 <= i < |docs| => ToggleMessage(docs[i]))
  }

  /** From a state whose overlay agrees with its activity, every toggle flips
      the activity and the overlay follows it: after n toggles the controller
      is active exactly when n is odd (relative to where it started), and the
      lens exists exactly when it is active. */
  lemma {:induction false} TogglesAlternate(s: State, docs: seq<Measurements>)
    requires Valid(s) && s.lens.Some? == s.active
    ensures var r := Run(s, Toggles(docs));
            r.active == (s.active != (|docs| % 2 == 1)) &&
            r.listening == r.active &&
            (r.lens.Some? <==> r.active) &&
            r.config == s.config
    decreases |docs|
  {
    if docs != [] {
      var es := Toggles(docs);
      assert es[0] == ToggleMessage(docs[0]);
      assert es[1..] == Toggles(docs[1..]);
      TogglesAlternate(Toggle(s, docs[0]), docs[1..]);
    }
  }

  /** From page load, after any number of toggles the lens exists if and only
      if the controller is active, which is when the number is odd. */
  lemma TogglesFromLoad(docs: seq<Measurements>)
    ensures var r := Run(Initial, Toggles(docs));
            r.active == (|docs| % 2 == 1) && (r.lens.Some? <==> r.active)
  {
    TogglesAlternate(Initial, docs);
  }

  /** Toggling twice from Inactive returns to Inactive with no overlay, no
      listeners and the configuration untouched. */
  lemma ToggleTwice(s: State, first: Measurements, second: Measurements)
    requires Valid(s) && !s.active
    ensures var r := Toggle(Toggle(s, first), second);
            !r.active && !r.listening && r.lens.None? && r.clone.None? && r.config == s.config
  {
  }

  /** removeMagnifier is idempotent. */
  lemma RemoveIdempotent(s: State)
    ensures RemoveMagnifier(RemoveMagnifier(s)) == RemoveMagnifier(s)
  {
  }

  /** The beforeunload handler removes the overlay but leaves the controller
      active with its listeners installed: "overlay if and only if active"
      does not survive it. */
  lemma UnloadLeavesActive(s: State, doc: Measurements)
    requires Valid(s) && !s.active
    ensures var r := Run(s, [ToggleMessage(doc), BeforeUnload]);
            r.active && r.listening && r.lens.None? && r.clone.None?
  {
    RunPair(s, ToggleMessage(doc), BeforeUnload);
  }

  // ----- keyboard -----

  /** While inactive no listener is installed, so keys and mouse moves change nothing. */
  lemma InactiveIgnoresInput(s: State, key: string, doc: Measurements, mouse: Point)
    requires Valid(s) && !s.active
    ensures Step(s, KeyDown(key, doc)) == s
    ensures Step(s, MouseMove(mouse)) == s
  {
  }

  /** While active, each shortcut runs its handler (toggleMagnifier,
      adjustZoom, adjustSize or resetConfig, whose contracts give the whole
      new state); any other key, `_` among them, changes nothing. */
  lemma ShortcutsWhileActive(s: State, key: string, doc: Measurements)
    requires Valid(s) && s.active
    ensures var r := Step(s, KeyDown(key, doc));
            (key == "Escape" ==> !r.active && r.lens.None? && r.config == s.config) &&
            (key == "+" || key == "=" ==> r.config.zoom == MinReal(MaxZoom, s.config.zoom + ZoomStep)) &&
            (key == "-" ==> r.config.zoom == MaxReal(MinZoom, s.config.zoom - ZoomStep)) &&
            (key == "]" ==> r.config.lensWidth == MinInt(MaxSize, s.config.lensWidth + SizeStep)) &&
            (key == "[" ==> r.config.lensWidth == MaxInt(MinSize, s.config.lensWidth - SizeStep)) &&
            (key == "r" || key == "R" ==> r.config == Defaults && r.lens == s.lens) &&
            (key != "Escape" ==> r.active && r.lens.Some? == s.lens.Some?) &&
            (!IsShortcut(key) ==> r == s)
    ensures var r := Step(s, KeyDown(key, doc));
            (key == "Escape" ==> r == Toggle(s, doc)) &&
            (key == "+" || key == "=" ==> r == AdjustZoom(s, ZoomStep)) &&
            (key == "-" ==> r == AdjustZoom(s, -ZoomStep)) &&
            (key == "[" ==> r == AdjustSize(s, -SizeStep)) &&
            (key == "]" ==> r == AdjustSize(s, SizeStep)) &&
            (key == "r" || key == "R" ==> r == ResetConfig(s))
  {
  }

  /** `n` presses of the same key. */
  function Presses(key: string, doc: Measurements, n: nat): seq<Event> {
    seq(n, _ => KeyDown(key, doc))
  }

  /** Pressing a zoom key n times moves the zoom n steps, stopping at the
      bound it runs into and staying there. */
  lemma {:induction false} RepeatedZoomKeys(s: State, key: string, doc: Measurements, n: nat)
    requires Valid(s) && s.active && (key == "+" || key == "=" || key == "-")
    ensures var r := Run(s, Presses(key, doc, n));
            Valid(r) && r.active && r.config.lensWidth == s.config.lensWidth &&
            r.config.zoom == if key == "-" then MaxReal(MinZoom, s.config.zoom - (n as real) * ZoomStep)
                             else MinReal(MaxZoom, s.config.zoom + (n as real) * ZoomStep)
    decreases n
  {
    if n > 0 {
      var t := Step(s, KeyDown(key, doc));
      ShortcutsWhileActive(s, key, doc);
      StepPreservesValid(s, KeyDown(key, doc));
      assert Presses(key, doc, n)[0] == KeyDown(key, doc);
      assert Presses(key, doc, n)[1..] == Presses(key, doc, n - 1);
      RepeatedZoomKeys(t, key, doc, n - 1);
    }
  }

  /** Pressing a size key n times moves the width n steps of 20 pixels,
      stopping at the bound it runs into; the height follows the width. */
  lemma {:induction false} RepeatedSizeKeys(s: State, key: string, doc: Measurements, n: nat)
    requires Valid(s) && s.active && (key == "[" || key == "]")
    ensures var r := Run(s, Presses(key, doc, n));
            Valid(r) && r.active && r.config.zoom == s.config.zoom &&
            r.config.lensHeight == r.config.lensWidth &&
            r.config.lensWidth == if key == "[" then MaxInt(MinSize, s.config.lensWidth - n * SizeStep)
                                  else MinInt(MaxSize, s.config.lensWidth + n * SizeStep)
    decreases n
  {
    if n > 0 {
      var t := Step(s, KeyDown(key, doc));
      ShortcutsWhileActive(s, key, doc);
      StepPreservesValid(s, KeyDown(key, doc));
      assert Presses(key, doc, n)[0] == KeyDown(key, doc);
      assert Presses(key, doc, n)[1..] == Presses(key, doc, n - 1);
      RepeatedSizeKeys(t, key, doc, n - 1);
    }
  }

  // ----- rendering -----

  /** One mousemove per sample. */
  function Moves(ps: seq<Point>): seq<Event> {
    seq(|ps|, i requires 0 <= i < |ps| => MouseMove(ps[i]))
  }

  /** Mouse moves before a refresh only overwrite the sample and claim the
      slot once: lens and clone are untouched and nothing else changes. */
  lemma {:induction false} MovesCoalesce(s: State, ps: seq<Point>)
    requires Valid(s) && s.active && s.frame != Stale && |ps| > 0
    ensures Run(s, Moves(ps)) == s.(lastMouse := ps[|ps| - 1], frame := Pending)
    decreases |ps|
  {
    var es := Moves(ps);
    var t := Step(s, MouseMove(ps[0]));
    assert es[0] == MouseMove(ps[0]);
    assert es[1..] == Moves(ps[1..]);
    if |ps| == 1 {
      assert es[1..] == [];
    } else {
      MovesCoalesce(t, ps[1..]);
    }
  }

  /** N mouse moves followed by one refresh render exactly what the last move
      alone would have rendered: one transform, from the last sample. */
  lemma CoalescedRender(s: State, ps: seq<Point>, scroll: Point)
    requires Valid(s) && s.active && s.frame != Stale && |ps| > 0
    ensures Run(s, Moves(ps) + [AnimationFrame(scroll)]) ==
            Run(s, [MouseMove(ps[|ps| - 1]), AnimationFrame(scroll)])
  {
    var last := ps[|ps| - 1];
    var m := s.(lastMouse := last, frame := Pending);
    RunConcat(s, Moves(ps), [AnimationFrame(scroll)]);
    MovesCoalesce(s, ps);
    MovesCoalesce(s, [last]);
    assert Moves([last]) == [MouseMove(last)];
    RunConcat(s, [MouseMove(last)], [AnimationFrame(scroll)]);
    assert [MouseMove(last)] + [AnimationFrame(scroll)] == [MouseMove(last), AnimationFrame(scroll)];
  }

  /** The frame callback draws the page point under the cursor at the
      cursor. The lens element's centre is at the cursor too exactly when its
      width equals the configured width; otherwise it is off by half the difference. */
  lemma FrameCentres(s: State, scroll: Point)
    requires Valid(s) && s.frame == Pending && s.lens.Some?
    ensures var r := FireFrame(s, scroll);
            var page := Point(s.lastMouse.x + scroll.x, s.lastMouse.y + scroll.y);
            var w := s.lens.value.width;
            r.lens.Some? && r.lens.value.corner.Some? && r.clone.Some? &&
            OnScreen(r.lens.value.corner.value, r.clone.value.transform, page) == s.lastMouse &&
            r.lens.value.corner.value.x + (w as real) / 2.0 == s.lastMouse.x + ((w - s.config.lensWidth) as real) / 2.0 &&
            r.lens.value.corner.value.y + (w as real) / 2.0 == s.lastMouse.y + ((w - s.config.lensWidth) as real) / 2.0
  {
  }

  /** resetConfig does not resize the live lens: after a reset from any other
      lens size, the next frame draws the cursor's page point at the cursor but
      the lens element is no longer centred on it. */
  lemma ResetOffCentre(s: State, scroll: Point)
    requires Valid(s) && s.frame == Pending && s.lens.Some? && s.lens.value.width != DefaultSize
    ensures var r := FireFrame(ResetConfig(s), scroll);
            r.lens.Some? && r.lens.value.corner.Some? &&
            r.lens.value.corner.value.x + (r.lens.value.width as real) / 2.0 != s.lastMouse.x
  {
    FrameCentres(ResetConfig(s), scroll);
  }

  /** A scroll without mouse movement renders from the last sample with the new scroll. */
  lemma ScrollRerenders(s: State, scroll: Point)
    requires Valid(s) && s.active && s.frame == NoFrame && s.lens.Some?
    requires s.lastMouse.x > 0.0 && s.lastMouse.y > 0.0
    ensures var r := Run(s, [Scroll, AnimationFrame(scroll)]);
            var page := Point(s.lastMouse.x + scroll.x, s.lastMouse.y + scroll.y);
            r.frame == NoFrame && r.clone.Some? && r.lens.Some? && r.lens.value.corner.Some? &&
            OnScreen(r.lens.value.corner.value, r.clone.value.transform, page) == s.lastMouse
  {
    RunPair(s, Scroll, AnimationFrame(scroll));
    var s1 := OnScroll(s);
    assert s1 == s.(frame := Pending);
  }

  // ----- the frame slot that is never cleared -----

  /** Once the slot is Stale it stays Stale whatever happens, and a refresh
      then changes nothing: the lens is never moved and the clone never
      re-transformed again, even after toggling off and on. */
  lemma {:induction false} StaleIsPermanent(s: State, es: seq<Event>)
    requires InBounds(s.config) && s.frame == Stale
    ensures Run(s, es).frame == Stale
    ensures forall scroll :: Step(s, AnimationFrame(scroll)) == s
    decreases |es|
  {
    if es != [] {
      var t := Step(s, es[0]);
      assert t.frame == Stale by {
        match es[0]
        case KeyDown(key, doc) =>
          assert OnKeyDown(s, key, doc).frame == Stale;
        case Scroll =>
          assert OnScroll(s).frame != Pending;
        case _ =>
      }
      StaleIsPermanent(t, es[1..]);
    }
  }

  /** Pressing Escape while a frame is pending leaves the slot Stale for good. */
  lemma EscapeWithFramePending(s: State, doc: Measurements, mouse: Point, later: seq<Event>)
    requires Valid(s) && !s.active && s.frame != Stale
    ensures var r := Run(s, [ToggleMessage(doc), MouseMove(mouse), KeyDown("Escape", doc)]);
            !r.active && r.frame == Stale && Run(r, later).frame == Stale
  {
    var s1 := Toggle(s, doc);
    var s2 := UpdateMagnifier(s1, mouse);
    assert s2.frame == Pending && s2.listening;
    var s3 := Toggle(s2, doc);
    assert !s3.active && s3.frame == Stale;
    RunCons(s, ToggleMessage(doc), [MouseMove(mouse), KeyDown("Escape", doc)]);
    RunPair(s1, MouseMove(mouse), KeyDown("Escape", doc));
    assert Step(s2, KeyDown("Escape", doc)) == s3 by {
      assert OnKeyDown(s2, "Escape", doc) == HandleKeyDown(s2, "Escape", doc);
    }
    StaleIsPermanent(s3, later);
  }

  /** The callback's early return also leaves the slot set: a frame pending
      when beforeunload removes the lens makes the slot Stale. */
  lemma UnloadWithFramePending(s: State, doc: Measurements, mouse: Point, scroll: Point)
    requires Valid(s) && !s.active && s.frame != Stale
    ensures Run(s, [ToggleMessage(doc), MouseMove(mouse), BeforeUnload, AnimationFrame(scroll)]).frame == Stale
  {
    var s1 := Toggle(s, doc);
    var s2 := UpdateMagnifier(s1, mouse);
    assert s2.frame == Pending && s2.listening;
    var s3 := RemoveMagnifier(s2);
    assert s3.frame == Pending && s3.lens.None?;
    assert FireFrame(s3, scroll).frame == Stale;
    RunCons(s, ToggleMessage(doc), [MouseMove(mouse), BeforeUnload, AnimationFrame(scroll)]);
    RunCons(s1, MouseMove(mouse), [BeforeUnload, AnimationFrame(scroll)]);
    RunPair(s2, BeforeUnload, AnimationFrame(scroll));
  }
}
