/** The hook procedures as they run: four global variables updated in place by the
    handlers, and a ghost log of the calls made out of the hook module. Each method is
    proved to do what the matching function of module Drag says. */
module Hooks {
  import opened Platform
  import opened Drag

  /** The globals shared by every instance of the hook library. */
  class HookState {
    var currentState: DragState
    var draggingButton: MouseButton
    var modifierDown: bool
    var haveDragged: bool

    /** Every window action and every CallNextHookEx made so far, in order. */
    ghost var log: seq<Call>

    /** The four globals as one value. */
    function Snapshot(): Drag.Globals
      reads this
    {
      Drag.Globals(currentState, draggingButton, modifierDown, haveDragged)
    }

    /** The state when the hooks are installed: no session, modifier up, no drag yet.
        draggingButton is only read during a session, so its first value does not matter. */
    constructor ()
      ensures Snapshot() == Drag.Globals(None, Left, false, false) && log == []
    {
      currentState := None;
      draggingButton := Left;
      modifierDown := false;
      haveDragged := false;
      log := [];
    }

    /** The window actions. Their bodies belong to the window-manipulation code; here each
        one is recorded in the log and touches none of the four globals. */
    method StartMoveAction(window: Window, mousePos: Point)
      modifies this`log
      ensures log == old(log) + [StartMove(window, mousePos)]
    {
      log := log + [StartMove(window, mousePos)];
    }

    method DoMoveAction(mousePos: Point)
      modifies this`log
      ensures log == old(log) + [DoMove(mousePos)]
    {
      log := log + [DoMove(mousePos)];
    }

    method EndMoveAction()
      modifies this`log
      ensures log == old(log) + [EndMove]
    {
      log := log + [EndMove];
    }

    method StartResizeAction(window: Window, mousePos: Point)
      modifies this`log
      ensures log == old(log) + [StartResize(window, mousePos)]
    {
      log := log + [StartResize(window, mousePos)];
    }

    method DoResizeAction(mousePos: Point)
      modifies this`log
      ensures log == old(log) + [DoResize(mousePos)]
    {
      log := log + [DoResize(mousePos)];
    }

    method EndResizeAction()
      modifies this`log
      ensures log == old(log) + [EndResize]
    {
      log := log + [EndResize];
    }

    /** CallNextHookEx: passes the event along the hook chain and returns what the next
        hook returned, which is an input of the model. */
    method CallNextHookEx(next: int) returns (res: int)
      modifies this`log
      ensures log == old(log) + [NextHook] && res == next
    {
      log := log + [NextHook];
      res := next;
    }

    /** handleButtonDown. */
    method HandleButtonDown(cfg: Config, desk: Desktop, button: MouseButton, window: Window, mousePos: Point)
      returns (eaten: bool)
      modifies this
      ensures var h := ButtonDown(old(Snapshot()), cfg, desk, button, window, mousePos);
        Snapshot() == h.after && log == old(log) + h.calls && eaten == h.swallow
    {
      if modifierDown && currentState == None && (button == cfg.moveButton || button == cfg.resizeButton) {
        draggingButton := button;
        haveDragged := true;
        var root := desk.root(window);
        if button == cfg.moveButton && desk.movable(root) {
          currentState := Moving;
          StartMoveAction(root, mousePos);
        } else if button == cfg.resizeButton && desk.resizable(root) {
          currentState := Resizing;
          StartResizeAction(root, mousePos);
        } else if button == cfg.moveButton || button == cfg.resizeButton {
          currentState := Ignoring;
        }
        eaten := true;
      } else {
        eaten := false;
      }
    }

    /** handleButtonUp. */
    method HandleButtonUp(button: MouseButton, mousePos: Point) returns (eaten: bool)
      modifies this
      ensures var h := ButtonUp(old(Snapshot()), button, mousePos);
        Snapshot() == h.after && log == old(log) + h.calls && eaten == h.swallow
    {
      if button == draggingButton {
        match currentState
        case Moving =>
          EndMoveAction();
          currentState := None;
          return true;
        case Resizing =>
          EndResizeAction();
          currentState := None;
          return true;
        case Ignoring =>
          currentState := None;
          return true;
        case None =>
      }
      return false;
    }

    /** handleMove. */
    method HandleMove(mousePos: Point) returns (eaten: bool)
      modifies this
      ensures var h := Move(old(Snapshot()), mousePos);
        Snapshot() == h.after && log == old(log) + h.calls && eaten == h.swallow
    {
      if currentState == Moving {
        DoMoveAction(mousePos);
        return true;
      } else if currentState == Resizing {
        DoResizeAction(mousePos);
        return true;
      } else if currentState == Ignoring {
        return true;
      }
      return false;
    }

    /** mouseProc: `next` is what CallNextHookEx returns for this event. */
    method MouseProc(cfg: Config, desk: Desktop, nCode: int, wParam: int, hwnd: Window, pt: Point, next: int)
      returns (res: int)
      modifies this
      ensures var r := MouseHook(old(Snapshot()), cfg, desk, nCode, wParam, hwnd, pt, next);
        Snapshot() == r.after && log == old(log) + r.calls && res == r.result
    {
      var processed := false;
      if nCode >= 0 && nCode == HC_ACTION {
        match Classify(wParam)
        case Pressed(b) =>
          processed := HandleButtonDown(cfg, desk, b, hwnd, pt);
        case Released(b) =>
          processed := HandleButtonUp(b, pt);
        case Moved =>
          processed := HandleMove(pt);
        case Unhandled =>
      }
      res := CallNextHookEx(next);
      if processed {
        res := 1;
      }
    }

    /** keyboardProc: `keys` is what GetAsyncKeyState reports at this moment and `next` is
        what CallNextHookEx returns for this event. */
    method KeyboardProc(cfg: Config, nCode: int, keys: KeyboardState, next: int) returns (res: int)
      modifies this
      ensures var r := KeyboardHook(old(Snapshot()), cfg, nCode, keys, next);
        Snapshot() == r.after && log == old(log) + r.calls && res == r.result
    {
      if nCode >= 0 && nCode == HC_ACTION {
        var wasDown := modifierDown;
        modifierDown := keys(cfg.modifier) & 0x8000 != 0;
        if wasDown && !modifierDown {
          if haveDragged {
            return 1;
          }
          haveDragged := false;
        } else if !wasDown && modifierDown {
          haveDragged := false;
        }
      }
      res := CallNextHookEx(next);
    }
  }
}
