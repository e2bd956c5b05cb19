/** The drag state machine of the hook procedures, as pure functions from the four global
    variables before an event to the globals after it, the calls the event causes and the
    verdict returned to the system. These functions are the specification that the methods
    of module Hooks are proved against. */
module Drag {
  import opened Platform

  /** The drag session the hooks are in (dsNone, dsMoving, dsResizing, dsIgnoring). */
  datatype DragState = None | Moving | Resizing | Ignoring

  /** The four global variables the hooks share: the session state, the button that
      started the session (meaningful only while currentState != None), whether the
      modifier key is down, and whether a session was started since the modifier was
      last pressed. */
  datatype Globals = Globals(currentState: DragState, draggingButton: MouseButton,
                             modifierDown: bool, haveDragged: bool)

  /** A call the hooks make out of this module: the six window actions, and
      CallNextHookEx, which passes the event on along the hook chain. */
  datatype Call =
    | StartMove(window: Window, at: Point)
    | DoMove(at: Point)
    | EndMove
    | StartResize(window: Window, at: Point)
    | DoResize(at: Point)
    | EndResize
    | NextHook

  /** What a handler does: the globals after it, the calls it made in order, and
      whether the event is to be eaten (not passed on to the application). */
  datatype Handled = Handled(after: Globals, calls: seq<Call>, swallow: bool)

  /** What a hook procedure does: the globals after it, its calls, and the LRESULT it returns. */
  datatype HookResult = HookResult(after: Globals, calls: seq<Call>, result: int)

  /** A button one of the two drag actions is bound to. */
  predicate Bound(cfg: Config, button: MouseButton) {
    button == cfg.moveButton || button == cfg.resizeButton
  }

  /** handleButtonDown: a session starts only from None, with the modifier down, on a bound
      button; the root window decides between moving, resizing and ignoring. Anything else
      is passed on and changes nothing. */
  function ButtonDown(g: Globals, cfg: Config, desk: Desktop, button: MouseButton, window: Window, mousePos: Point): (h: Handled)
    ensures h.swallow <==> g.modifierDown && g.currentState == None && Bound(cfg, button)
    ensures !h.swallow ==> h.after == g && h.calls == []
    ensures h.swallow ==>
      h.after.currentState != None && h.after.draggingButton == button &&
      h.after.haveDragged && h.after.modifierDown == g.modifierDown
    ensures h.swallow ==>
      var root := desk.root(window);
      var moves := button == cfg.moveButton && desk.movable(root);
      var resizes := !moves && button == cfg.resizeButton && desk.resizable(root);
      (h.after.currentState == Moving <==> moves) &&
      (h.after.currentState == Resizing <==> resizes) &&
      h.calls == (if moves then [StartMove(root, mousePos)]
                  else if resizes then [StartResize(root, mousePos)]
                  else [])
  {
    if g.modifierDown && g.currentState == None && Bound(cfg, button) then
      var started := g.(draggingButton := button, haveDragged := true);
      var root := desk.root(window);
      if button == cfg.moveButton && desk.movable(root) then
        Handled(started.(currentState := Moving), [StartMove(root, mousePos)], true)
      else if button == cfg.resizeButton && desk.resizable(root) then
        Handled(started.(currentState := Resizing), [StartResize(root, mousePos)], true)
      else if Bound(cfg, button) then
        Handled(started.(currentState := Ignoring), [], true)
      else
        // The source has no branch here: the state stays None. The guard above makes
        // this case dead, which the third ensures clause records.
        Handled(started, [], true)
    else
      Handled(g, [], false)
  }

  /** handleButtonUp: releasing the button that started the session ends it (and its action)
      and is eaten; any other release, or one outside a session, is passed on unchanged. */
  function ButtonUp(g: Globals, button: MouseButton, mousePos: Point): (h: Handled)
    ensures h.swallow <==> button == g.draggingButton && g.currentState != None
    ensures h.swallow ==> h.after == g.(currentState := None)
    ensures !h.swallow ==> h.after == g && h.calls == []
    ensures h.calls == (if h.swallow && g.currentState == Moving then [EndMove]
                        else if h.swallow && g.currentState == Resizing then [EndResize]
                        else [])
  {
    if button == g.draggingButton then
      match g.currentState
      case Moving => Handled(g.(currentState := None), [EndMove], true)
      case Resizing => Handled(g.(currentState := None), [EndResize], true)
      case Ignoring => Handled(g.(currentState := None), [], true)
      case None => Handled(g, [], false)
    else
      Handled(g, [], false)
  }

  /** handleMove: never changes the globals; inside a session the move is eaten and
      forwarded to the running action, if any. */
  function Move(g: Globals, mousePos: Point): (h: Handled)
    ensures h.after == g
    ensures h.swallow <==> g.currentState != None
    ensures forall c :: c in h.calls ==>
      (c == DoMove(mousePos) && g.currentState == Moving) ||
      (c == DoResize(mousePos) && g.currentState == Resizing)
    ensures g.currentState in {Moving, Resizing} <==> |h.calls| == 1
  {
    match g.currentState
    case Moving => Handled(g, [DoMove(mousePos)], true)
    case Resizing => Handled(g, [DoResize(mousePos)], true)
    case Ignoring => Handled(g, [], true)
    case None => Handled(g, [], false)
  }

  /** The handler a mouse hook event reaches, or none. */
  function Dispatch(g: Globals, cfg: Config, desk: Desktop, nCode: int, message: int, hwnd: Window, pt: Point): (h: Handled)
    ensures !(nCode == HC_ACTION && message in HandledMessages) ==> h == Handled(g, [], false)
    ensures NextHook !in h.calls
  {
    if nCode >= 0 && nCode == HC_ACTION then
      match Classify(message)
      case Pressed(b) => ButtonDown(g, cfg, desk, b, hwnd, pt)
      case Released(b) => ButtonUp(g, b, pt)
      case Moved => Move(g, pt)
      case Unhandled => Handled(g, [], false)
    else
      Handled(g, [], false)
  }

  /** mouseProc: the handler runs first, then the event is always passed along the hook
      chain; the hook returns 1 when the handler ate the event and the next hook's result
      otherwise. */
  function MouseHook(g: Globals, cfg: Config, desk: Desktop, nCode: int, message: int, hwnd: Window, pt: Point, next: int): (r: HookResult)
    ensures var h := Dispatch(g, cfg, desk, nCode, message, hwnd, pt);
      r.after == h.after && r.calls == h.calls + [NextHook] &&
      r.result == (if h.swallow then 1 else next)
    ensures !(nCode == HC_ACTION && message in HandledMessages) ==> r == HookResult(g, [NextHook], next)
  {
    var h := Dispatch(g, cfg, desk, nCode, message, hwnd, pt);
    HookResult(h.after, h.calls + [NextHook], if h.swallow then 1 else next)
  }

  /** keyboardProc: every keyboard event samples the modifier. A release after a session is
      eaten (and not passed along the chain); a press clears haveDragged; the drag session
      itself is never touched. */
  function KeyboardHook(g: Globals, cfg: Config, nCode: int, keys: KeyboardState, next: int): (r: HookResult)
    ensures r.after.currentState == g.currentState && r.after.draggingButton == g.draggingButton
    ensures nCode != HC_ACTION ==> r == HookResult(g, [NextHook], next)
    ensures nCode == HC_ACTION ==> r.after.modifierDown == KeyHeld(keys, cfg.modifier)
    // falling edge: eaten exactly when a session was started; haveDragged is left as it was
    ensures nCode == HC_ACTION && g.modifierDown && !KeyHeld(keys, cfg.modifier) ==>
      r.after.haveDragged == g.haveDragged &&
      (g.haveDragged <==> NextHook !in r.calls) &&
      (g.haveDragged ==> r.result == 1 && r.calls == []) &&
      (!g.haveDragged ==> r.result == next && r.calls == [NextHook])
    // rising edge: a new press, no session since
    ensures nCode == HC_ACTION && !g.modifierDown && KeyHeld(keys, cfg.modifier) ==>
      !r.after.haveDragged && r.result == next && r.calls == [NextHook]
    // no edge: nothing changes and the event goes on
    ensures nCode == HC_ACTION && g.modifierDown == KeyHeld(keys, cfg.modifier) ==>
      r == HookResult(g, [NextHook], next)
  {
    if nCode >= 0 && nCode == HC_ACTION then
      var wasDown := g.modifierDown;
      var sampled := g.(modifierDown := KeyHeld(keys, cfg.modifier));
      if wasDown && !sampled.modifierDown then
        if g.haveDragged then HookResult(sampled, [], 1)
        else HookResult(sampled.(haveDragged := false), [NextHook], next)
      else if !wasDown && sampled.modifierDown then
        HookResult(sampled.(haveDragged := false), [NextHook], next)
      else
        HookResult(sampled, [NextHook], next)
    else
      HookResult(g, [NextHook], next)
  }
}
