# Magnifier lens controller, modelled in Dafny

This project models the Lens Controller of a browser extension that shows a
circular magnifying lens over a web page (`content.js`). The controller is a
small state machine held in module-level variables: whether the magnifier is
active, the lens element and the scaled clone of the page inside it, the
pending animation-frame handle, the last pointer sample, and the `config`
record (zoom and lens size with their bounds). Around that state sit the
handlers: clamped zoom and size adjustment, reset, toggle, keyboard
dispatch, pointer tracking with single-slot render coalescing, the frame
callback that centres the magnified page under the cursor, and the resize,
scroll and beforeunload handlers.

Files:

- `config.dfy` (module `LensConfig`): the configuration record, its bounds
  and factory values, and the clamped adjustments.
- `geometry.dfy` (module `Geometry`): `getDocumentSize` and the affine
  arithmetic of the frame callback, with the centring guarantee.
- `machine.dfy` (module `LensMachine`): the controller's state as a value,
  one function per handler, the events that reach them, and the invariant.
- `properties.dfy` (module `LensProperties`): lemmas over event sequences.
- `controller.dfy` (module `LensController`): class `Magnifier`, whose fields
  are the script's variables and whose methods update them in place as the
  handlers do. Each method is proved to produce exactly the state the
  matching `LensMachine` function gives, so the lemmas apply to the object.

Modelling choices:

- The DOM is reduced to what the controller reads and writes. The lens is its
  inline width, height and left/top. The clone is its inline size and its
  transform `scale(s) translate(dx, dy)`. Status toasts become a log of
  `Status` values. `listening` records whether the mousemove and keydown
  listeners are installed.
- `requestAnimationFrame` becomes the frame slot `NoFrame | Pending | Stale`
  plus an explicit `FireFrame(scroll)` for a display refresh. `Stale` means a
  handle is stored but no callback will run for it. The code reaches it in two
  ways: deactivation cancels the frame without clearing the slot
  (content.js:223), and the callback's early return leaves the slot set
  (content.js:160). Nothing clears a `Stale` slot, so no frame is ever rendered
  again (`StaleIsPermanent`).
- Measurements of the page (`scrollWidth`, `offsetWidth`, … and the scroll
  offsets) are parameters of the handlers that read them.
- Zoom and coordinates are `real`. Every zoom the handlers produce is a
  multiple of 0.5, so the clamping is exact.

Details of the code the model keeps:

- The zoom-out key is `-` alone; `_` is not mapped (content.js:237).
- Escape does not call `preventDefault` (content.js:234). Only the other
  shortcuts do.
- `resetConfig` does not resize the live lens (content.js:207-212). The frame
  callback takes `halfSize` from the configured width. After a reset the
  page point under the cursor is still drawn at the cursor, but the lens
  element is no longer centred on it (`FrameCentres`, `ResetOffCentre`).
- Along toggles the lens exists exactly while the controller is active
  (`TogglesAlternate`). After `beforeunload` that no longer holds: the handler
  removes the lens and leaves the controller active (`UnloadLeavesActive`).
  The invariant `Valid` therefore states only that a lens implies active.
- For pointer (100, 100), no scroll, zoom 2.5 and a 150-pixel lens, the offset
  is (70, 70). The transform draws document point (100, 100), the one under
  the pointer, at the lens centre (75, 75). Document point (70, 70) lands on
  the lens corner (0, 0) (`WorkedExample`).

## Model

| member | source | states |
|---|---|---|
| `LensConfig.ClampZoom` | content.js:188 | the new zoom lies in [1, 5]; it is the requested zoom when that is in range and the bound it overshot otherwise |
| `LensConfig.ClampSize` | content.js:197 | the new width lies in [80, 300]; it is the requested width when in range and the bound it overshot otherwise |
| `LensConfig.DefaultsInBounds` | content.js:12-20 | the factory configuration is zoom 2.5, 150×150, and is within the bounds |
| `LensConfig.ClampSaturates` | content.js:186-204 | an example of the clamps at the bounds: one step up from the maximum or down from the minimum returns that bound, for zoom and size (the general n-step form is `RepeatedZoomKeys` / `RepeatedSizeKeys`) |
| `Geometry.DocumentSize` | content.js:58-73 | per axis, the result is at least each of the four measurements and equal to one of them |
| `Geometry.Offset` | content.js:176-177 | with zoom > 0, `zoom * (page - offset) == halfSize` |
| `Geometry.CentringTransform` | content.js:175-179 | the transform scales by the zoom and draws the page point under the cursor at (halfSize, halfSize) inside the lens |
| `Geometry.InitialTransform` | content.js:114-115 | the clone's initial transform scales every point by the zoom about the origin |
| `Geometry.LensCorner` | content.js:166-167 | the lens corner plus halfSize is the cursor position |
| `Geometry.CursorPointDrawnAtCursor` | content.js:163-179 | the page point under the cursor is drawn exactly at the cursor; every other point is drawn zoom times farther from the cursor than it lies in the page |
| `Geometry.WorkedExample` | content.js:170-179 | pointer (100, 100), zoom 2.5, 150-pixel lens: offset 70; document point (70, 70) lands at the lens corner and (100, 100) at the lens centre |
| `LensMachine.InitialValid` | content.js:4-20 | the load-time state is inactive, has no lens, and satisfies the invariant |
| `LensMachine.AdjustZoom` | content.js:186-192 | zoom stays in bounds and the size is untouched; a status is shown exactly when the zoom changed; nothing else changes; the invariant is kept |
| `LensMachine.AdjustSize` | content.js:195-204 | width stays in bounds and height equals it; the lens is resized and a status shown only when the width changed and a lens exists; nothing else changes |
| `LensMachine.ResetConfig` | content.js:207-212 | configuration becomes zoom 2.5, 150×150; a status is always shown; the live lens is left as it was |
| `LensMachine.CreateMagnifier` | content.js:76-142 | with a lens present nothing happens; otherwise a lens of the configured size and a clone of the document's size scaled by the zoom appear |
| `LensMachine.RemoveMagnifier` | content.js:145-151 | afterwards there is no lens (nor clone when a lens was there); with no lens nothing changes; the invariant is kept, also while active as under beforeunload |
| `LensMachine.Toggle` | content.js:215-229 | activity flips and listeners follow it; activation yields exactly the lens and clone `CreateMagnifier` builds (the configured size, the document extent at scale zoom), keeping an existing one; deactivation removes the overlay and leaves a stored frame handle Stale; config and sample untouched |
| `LensMachine.HandleKeyDown` | content.js:232-243 | an unmapped key changes nothing; keys other than Escape leave activity, frame slot and sample alone; bounds and invariant are kept; which handler each mapped key runs is stated by `ShortcutsWhileActive` |
| `LensMachine.OnKeyDown` | content.js:219-226 | without the keydown listener a key changes nothing |
| `LensMachine.UpdateMagnifier` | content.js:154-158 | the sample is always overwritten; an empty slot becomes Pending, an occupied one (Pending or Stale) is left as it was; nothing else changes |
| `LensMachine.OnMouseMove` | content.js:219-225 | without the mousemove listener a move changes nothing |
| `LensMachine.FireFrame` | content.js:159-181 | only a Pending slot runs; without lens or clone the slot is left Stale; otherwise the lens corner is the sample minus halfSize, the page point under the sample is drawn at the sample, the scale is the zoom, width, height and extent are kept and the slot empties |
| `LensMachine.OnResize` | content.js:274-280 | if a clone exists its size becomes the measured document size; nothing else changes |
| `LensMachine.OnScroll` | content.js:283-288 | when inactive or a sample coordinate is not positive nothing changes; a frame is pending afterwards exactly when one was, or the slot was empty and the controller active with both sample coordinates positive; an occupied slot keeps its value; only the slot can change |
| `LensMachine.Step` | content.js:215-288 | the listener wiring: a relay message toggles; keys and moves reach their handlers only while the listeners are installed; a move while listening records the sample; a resize with a clone resizes it to the document; beforeunload always removes the lens and leaves the activity as it was; the configuration stays within its bounds |
| `LensProperties.StepPreservesValid` | content.js:145-288 | every handler keeps the invariant |
| `LensProperties.RunPreservesValid` | content.js:145-288 | any event sequence from a valid state ends in a valid state |
| `LensProperties.ReachableValid` | content.js:4-20 | every state reachable from page load has zoom in [1, 5], width in [80, 300], height equal to width, and no overlay while inactive |
| `LensProperties.TogglesAlternate` | content.js:215-229 | along toggles, activity alternates, listeners follow it, the lens exists iff active, and config is untouched |
| `LensProperties.TogglesFromLoad` | content.js:215-229 | from page load, after n toggles the controller is active iff n is odd and the lens exists iff active |
| `LensProperties.ToggleTwice` | content.js:215-229 | two toggles from Inactive return to Inactive with no lens, no clone, no listeners, config unchanged |
| `LensProperties.RemoveIdempotent` | content.js:145-151 | removing twice is removing once |
| `LensProperties.UnloadLeavesActive` | content.js:271 | after activation and beforeunload the controller is active and listening with no overlay |
| `LensProperties.InactiveIgnoresInput` | content.js:219-226 | while inactive, keys and mouse moves change nothing |
| `LensProperties.ShortcutsWhileActive` | content.js:232-243 | while active: Escape deactivates; `+`/`=` and `-` step the zoom by 0.5 up to the bound; `]` and `[` step the width by 20 up to the bound; `r`/`R` reset; other keys, `_` among them, change nothing; and the whole new state is the one its handler gives: Escape is `Toggle`, `+`/`=` are `AdjustZoom(+0.5)`, `-` is `AdjustZoom(−0.5)`, `[` is `AdjustSize(−20)`, `]` is `AdjustSize(+20)`, `r`/`R` are `ResetConfig` |
| `LensProperties.RepeatedZoomKeys` | content.js:186-192 | n presses of a zoom key give min(5, z + 0.5n) or max(1, z − 0.5n) |
| `LensProperties.RepeatedSizeKeys` | content.js:195-204 | n presses of a size key give min(300, w + 20n) or max(80, w − 20n), height equal |
| `LensProperties.MovesCoalesce` | content.js:154-158 | N moves before a refresh only overwrite the sample and leave the slot Pending once |
| `LensProperties.CoalescedRender` | content.js:154-181 | N moves and a refresh render exactly what the last move alone and a refresh render |
| `LensProperties.FrameCentres` | content.js:162-179 | after a frame the page point under the cursor is drawn at the cursor; the lens centre is off the cursor by half the difference between element and configured width |
| `LensProperties.ResetOffCentre` | content.js:207-212 | after a reset from a lens size other than 150, the next frame leaves the lens element off-centre from the cursor |
| `LensProperties.ScrollRerenders` | content.js:283-288 | a scroll without movement, then a refresh, redraws the last sample's page point at the cursor with the new scroll |
| `LensProperties.StaleIsPermanent` | content.js:158-180 | once the slot is Stale it stays Stale under every event, and a refresh changes nothing |
| `LensProperties.EscapeWithFramePending` | content.js:223 | activate, move, Escape before the refresh: the slot is Stale for good |
| `LensProperties.UnloadWithFramePending` | content.js:160 | activate, move, beforeunload, refresh: the early return leaves the slot Stale |
| `LensController.Magnifier.constructor` | content.js:4-20 | the object starts in the load-time state, which satisfies the invariant |
| `LensController.Magnifier.ShowStatus` | content.js:23-55 | a status message is appended to the log and nothing else changes |
| `LensController.Magnifier.AdjustZoom` | content.js:186-192 | the object's new state is `LensMachine.AdjustZoom` of its old state |
| `LensController.Magnifier.AdjustSize` | content.js:195-204 | the new state is `LensMachine.AdjustSize` of the old |
| `LensController.Magnifier.ResetConfig` | content.js:207-212 | the new state is `LensMachine.ResetConfig` of the old |
| `LensController.Magnifier.CreateMagnifier` | content.js:76-142 | the new state is `LensMachine.CreateMagnifier` of the old |
| `LensController.Magnifier.RemoveMagnifier` | content.js:145-151 | the new state is `LensMachine.RemoveMagnifier` of the old |
| `LensController.Magnifier.ToggleMagnifier` | content.js:215-229 | the new state is `LensMachine.Toggle` of the old |
| `LensController.Magnifier.HandleKeyDown` | content.js:232-243 | preventDefault is called exactly for shortcuts other than Escape; the new state is `LensMachine.HandleKeyDown` of the old |
| `LensController.Magnifier.UpdateMagnifier` | content.js:154-158 | the new state is `LensMachine.UpdateMagnifier` of the old |
| `LensController.Magnifier.FireFrame` | content.js:159-181 | the new state is `LensMachine.FireFrame` of the old |
| `LensController.Magnifier.OnMouseMove` | content.js:219-225 | the new state is `LensMachine.OnMouseMove` of the old |
| `LensController.Magnifier.OnKeyDown` | content.js:219-226 | the default is prevented only while listening; the new state is `LensMachine.OnKeyDown` of the old |
| `LensController.Magnifier.OnResize` | content.js:274-280 | the new state is `LensMachine.OnResize` of the old |
| `LensController.Magnifier.OnScroll` | content.js:283-288 | the new state is `LensMachine.OnScroll` of the old |
| `LensController.Magnifier.OnBeforeUnload` | content.js:271 | the new state is `LensMachine.RemoveMagnifier` of the old |
| `LensController.Magnifier.Dispatch` | content.js:245-288 | delivering an event takes one `LensMachine.Step` and keeps the invariant |

## Left out

- The activation relay (background.js) and the `chrome.runtime.onMessage` listener (content.js:246-253): platform messaging. Only its effect, a toggle, is modelled, as the `ToggleMessage` event; the `{success: true}` reply is not.
- `showStatus` DOM work, its 2-second fade timer, and the load-time help toast (content.js:23-55, 256-268): DOM styling and timers. Shown messages are only logged.
- The DOM clone of the page body, the filtering of scripts, iframes, videos and the extension's own elements, the crosshair, and all `cssText` strings (content.js:81-141): foreign DOM calls. They are reduced to the recorded sizes and transform.
- The lens's 3-pixel border, which shifts the clone's origin inside the lens. The centring statements measure from the lens's content box.
- The placement of the cloned body inside the clone container (content.js:125-135: margin and padding reset, absolutely positioned at (0, 0)). The centring statements take the clone's local coordinates to be document coordinates, which that placement is meant to ensure.
- Real `requestAnimationFrame` timing: a refresh is the explicit `AnimationFrame` event.
- Console logging, floating-point rounding, `toFixed` and `Math.round` in messages, and CSS pixel-string formatting. Zoom and coordinates are exact reals.
