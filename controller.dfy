/** The Lens Controller of content.js as the object it is: the module-level
    `let` variables and the fields of `config` become fields of one class, and
    each handler updates them in place as the script does. Every method is
    proved to leave exactly the state the matching LensMachine function gives,
    so the lemmas of LensProperties hold of the object. */
module LensController {
  import opened LensConfig
  import opened Geometry
  import M = LensMachine
  import LensProperties

  class Magnifier {
    var isMagnifierActive: bool
    /** Whether the mousemove and keydown listeners are installed. */
    var listening: bool
    var lens: M.Option<M.LensElement>
    var contentClone: M.Option<M.CloneElement>
    var animationFrame: M.Frame
    var lastMouseX: real
    var lastMouseY: real
    /** The mutable fields of `config`; its bounds are the LensConfig constants. */
    var zoom: real
    var lensWidth: int
    var lensHeight: int
    /** The status messages shown so far. */
    var shown: seq<M.Status>

    /** The object's state as a LensMachine value. */
    function Snapshot(): M.State
      reads this
    {
      M.State(isMagnifierActive, listening, lens, contentClone, animationFrame,
              Point(lastMouseX, lastMouseY), Config(zoom, lensWidth, lensHeight), shown)
    }

    ghost predicate Valid()
      reads this
    {
      M.Valid(Snapshot())
    }

    /** The state when the script is loaded. */
    constructor ()
      ensures Snapshot() == M.Initial && Valid()
    {
      isMagnifierActive := false;
      listening := false;
      lens := M.None;
      contentClone := M.None;
      animationFrame := M.NoFrame;
      lastMouseX, lastMouseY := 0.0, 0.0;
      zoom, lensWidth, lensHeight := DefaultZoom, DefaultSize, DefaultSize;
      shown := [];
      M.InitialValid();
    }

    /** showStatus, reduced to recording the message. */
    method ShowStatus(message: M.Status)
      modifies this
      ensures Snapshot() == old(Snapshot()).(shown := old(shown) + [message])
    {
      shown := shown + [message];
    }

    method AdjustZoom(delta: real)
      modifies this
      ensures Snapshot() == M.AdjustZoom(old(Snapshot()), delta)
    {
      var oldZoom := zoom;
      zoom := MaxReal(MinZoom, MinReal(MaxZoom, zoom + delta));
      if zoom != oldZoom {
        ShowStatus(M.ZoomShown(zoom));
      }
    }

    method AdjustSize(delta: int)
      modifies this
      ensures Snapshot() == M.AdjustSize(old(Snapshot()), delta)
    {
      var oldWidth := lensWidth;
      lensWidth := MaxInt(MinSize, MinInt(MaxSize, lensWidth + delta));
      lensHeight := lensWidth;
      if lensWidth != oldWidth && lens.Some? {
        lens := M.Some(lens.value.(width := lensWidth, height := lensHeight));
        ShowStatus(M.SizeShown(lensWidth));
      }
    }

    method ResetConfig()
      modifies this
      ensures Snapshot() == M.ResetConfig(old(Snapshot()))
    {
      zoom := 2.5;
      lensWidth := 150;
      lensHeight := 150;
      ShowStatus(M.ResetShown);
    }

    /** createMagnifier: the DOM construction is reduced to the recorded sizes
        and the initial transform. */
    method CreateMagnifier(doc: Measurements)
      modifies this
      ensures Snapshot() == M.CreateMagnifier(old(Snapshot()), doc)
    {
      if lens.Some? {
        return;
      }
      var size := DocumentSize(doc);
      lens := M.Some(M.LensElement(lensWidth, lensHeight, M.None));
      contentClone := M.Some(M.CloneElement(size, Transform(zoom, 0.0, 0.0)));
    }

    method RemoveMagnifier()
      modifies this
      ensures Snapshot() == M.RemoveMagnifier(old(Snapshot()))
    {
      if lens.Some? {
        lens := M.None;
        contentClone := M.None;
      }
    }

    method ToggleMagnifier(doc: Measurements)
      modifies this
      ensures Snapshot() == M.Toggle(old(Snapshot()), doc)
    {
      isMagnifierActive := !isMagnifierActive;
      if isMagnifierActive {
        CreateMagnifier(doc);
        listening := true;
        ShowStatus(M.Opened);
      } else {
        if animationFrame != M.NoFrame {
          // cancelAnimationFrame; the handle itself stays stored
          animationFrame := M.Stale;
        }
        RemoveMagnifier();
        listening := false;
        ShowStatus(M.Closed);
      }
    }

    /** handleKeyDown; `prevented` is whether it called preventDefault. */
    method HandleKeyDown(key: string, doc: Measurements) returns (prevented: bool)
      modifies this
      ensures prevented == M.PreventsDefault(key)
      ensures Snapshot() == M.HandleKeyDown(old(Snapshot()), key, doc)
    {
      prevented := false;
      match key
      case "Escape" =>
        ToggleMagnifier(doc);
      case "+" =>
        prevented := true;
        AdjustZoom(ZoomStep);
      case "=" =>
        prevented := true;
        AdjustZoom(ZoomStep);
      case "-" =>
        prevented := true;
        AdjustZoom(-ZoomStep);
      case "[" =>
        prevented := true;
        AdjustSize(-SizeStep);
      case "]" =>
        prevented := true;
        AdjustSize(SizeStep);
      case "r" =>
        prevented := true;
        ResetConfig();
      case "R" =>
        prevented := true;
        ResetConfig();
      case _ =>
    }

    /** updateMagnifier for a pointer sample in viewport coordinates. */
    method UpdateMagnifier(clientX: real, clientY: real)
      modifies this
      ensures Snapshot() == M.UpdateMagnifier(old(Snapshot()), Point(clientX, clientY))
    {
      lastMouseX := clientX;
      lastMouseY := clientY;
      if animationFrame == M.NoFrame {
        animationFrame := M.Pending;
      }
    }

    /** The requestAnimationFrame callback, run at a display refresh with the
        window scrolled by (scrollX, scrollY). */
    method FireFrame(scrollX: real, scrollY: real)
      requires zoom > 0.0
      modifies this
      ensures Snapshot() == M.FireFrame(old(Snapshot()), Point(scrollX, scrollY))
    {
      if animationFrame != M.Pending {
        return;
      }
      if lens.None? || contentClone.None? {
        // the callback returns early and the handle stays stored
        animationFrame := M.Stale;
        return;
      }
      var halfSize := (lensWidth as real) / 2.0;
      lens := M.Some(lens.value.(corner := M.Some(Point(lastMouseX - halfSize, lastMouseY - halfSize))));
      var pageX := lastMouseX + scrollX;
      var pageY := lastMouseY + scrollY;
      var offsetX := pageX - halfSize / zoom;
      var offsetY := pageY - halfSize / zoom;
      contentClone := M.Some(contentClone.value.(transform := Transform(zoom, -offsetX, -offsetY)));
      animationFrame := M.NoFrame;
    }

    /** A document mousemove: it reaches updateMagnifier only while listening. */
    method OnMouseMove(clientX: real, clientY: real)
      modifies this
      ensures Snapshot() == M.OnMouseMove(old(Snapshot()), Point(clientX, clientY))
    {
      if listening {
        UpdateMagnifier(clientX, clientY);
      }
    }

    /** A document keydown: it reaches handleKeyDown only while listening. */
    method OnKeyDown(key: string, doc: Measurements) returns (prevented: bool)
      modifies this
      ensures prevented == (old(listening) && M.PreventsDefault(key))
      ensures Snapshot() == M.OnKeyDown(old(Snapshot()), key, doc)
    {
      prevented := false;
      if listening {
        prevented := HandleKeyDown(key, doc);
      }
    }

    method OnResize(doc: Measurements)
      modifies this
      ensures Snapshot() == M.OnResize(old(Snapshot()), doc)
    {
      if contentClone.Some? {
        var size := DocumentSize(doc);
        contentClone := M.Some(contentClone.value.(extent := size));
      }
    }

    method OnScroll()
      modifies this
      ensures Snapshot() == M.OnScroll(old(Snapshot()))
    {
      if isMagnifierActive && lastMouseX > 0.0 && lastMouseY > 0.0 {
        UpdateMagnifier(lastMouseX, lastMouseY);
      }
    }

    method OnBeforeUnload()
      modifies this
      ensures Snapshot() == M.RemoveMagnifier(old(Snapshot()))
    {
      RemoveMagnifier();
    }

    /** Deliver one event to the handler it reaches; the invariant is kept. */
    method Dispatch(e: M.Event)
      requires Valid()
      modifies this
      ensures Snapshot() == M.Step(old(Snapshot()), e)
      ensures Valid()
    {
      LensProperties.StepPreservesValid(Snapshot(), e);
      match e
      case ToggleMessage(doc) =>
        ToggleMagnifier(doc);
      case KeyDown(key, doc) =>
        var _ := OnKeyDown(key, doc);
      case MouseMove(mouse) =>
        OnMouseMove(mouse.x, mouse.y);
      case AnimationFrame(scroll) =>
        FireFrame(scroll.x, scroll.y);
      case Resize(doc) =>
        OnResize(doc);
      case Scroll =>
        OnScroll();
      case BeforeUnload =>
        OnBeforeUnload();
    }
  }
}
