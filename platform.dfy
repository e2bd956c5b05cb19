/** The parts of the Win32 platform that the hook procedures look at: window handles, cursor
    positions, the mouse messages they recognise, the user's configuration and the answers of
    the window system, which are inputs here rather than calls. */
module Platform {

  /** A window handle (HWND). */
  type Window = int

  /** A screen position (POINT). */
  datatype Point = Point(x: int, y: int)

  /** The bindable mouse buttons; the non-client variant of a message maps to the same button. */
  datatype MouseButton = Left | Middle | Right

  /** The configured modifier key (a virtual-key code) and the two bound buttons.
      They are fixed before the hooks are installed and never change while they run. */
  datatype Config = Config(moveButton: MouseButton, resizeButton: MouseButton, modifier: int)

  /** What the window system answers at the moment of a mouse event:
      `root` is GetAncestor(w, GA_ROOT), `movable` and `resizable` are
      isMovableWindow and isResizableWindow. */
  datatype Desktop = Desktop(root: Window -> Window, movable: Window -> bool, resizable: Window -> bool)

  /** GetAsyncKeyState at one instant: the state word of every virtual key. */
  type KeyboardState = int -> bv16

  /** A hook code that carries an event (HC_ACTION). */
  const HC_ACTION := 0

  const WM_MOUSEMOVE := 0x0200
  const WM_LBUTTONDOWN := 0x0201
  const WM_LBUTTONUP := 0x0202
  const WM_RBUTTONDOWN := 0x0204
  const WM_RBUTTONUP := 0x0205
  const WM_MBUTTONDOWN := 0x0207
  const WM_MBUTTONUP := 0x0208
  const WM_NCMOUSEMOVE := 0x00A0
  const WM_NCLBUTTONDOWN := 0x00A1
  const WM_NCLBUTTONUP := 0x00A2
  const WM_NCRBUTTONDOWN := 0x00A4
  const WM_NCRBUTTONUP := 0x00A5
  const WM_NCMBUTTONDOWN := 0x00A7
  const WM_NCMBUTTONUP := 0x00A8

  /** The fourteen mouse messages the mouse hook passes to a handler; every other
      message (double clicks, the wheel, X buttons, ...) goes straight to the next hook. */
  const HandledMessages: set<int> := {
    WM_LBUTTONDOWN, WM_MBUTTONDOWN, WM_RBUTTONDOWN,
    WM_NCLBUTTONDOWN, WM_NCMBUTTONDOWN, WM_NCRBUTTONDOWN,
    WM_LBUTTONUP, WM_MBUTTONUP, WM_RBUTTONUP,
    WM_NCLBUTTONUP, WM_NCMBUTTONUP, WM_NCRBUTTONUP,
    WM_MOUSEMOVE, WM_NCMOUSEMOVE }

  /** How the mouse hook sorts a message. */
  datatype MouseMessage = Pressed(button: MouseButton) | Released(button: MouseButton) | Moved | Unhandled

  /** The message code Windows uses for a sorted message, in the client or the
      non-client area. */
  function MessageCode(k: MouseMessage, nonClient: bool): (code: int)
    requires k != Unhandled
    ensures code in HandledMessages
  {
    match k
    case Pressed(b) =>
      (match b
       case Left => if nonClient then WM_NCLBUTTONDOWN else WM_LBUTTONDOWN
       case Middle => if nonClient then WM_NCMBUTTONDOWN else WM_MBUTTONDOWN
       case Right => if nonClient then WM_NCRBUTTONDOWN else WM_RBUTTONDOWN)
    case Released(b) =>
      (match b
       case Left => if nonClient then WM_NCLBUTTONUP else WM_LBUTTONUP
       case Middle => if nonClient then WM_NCMBUTTONUP else WM_MBUTTONUP
       case Right => if nonClient then WM_NCRBUTTONUP else WM_RBUTTONUP)
    case Moved => if nonClient then WM_NCMOUSEMOVE else WM_MOUSEMOVE
  }

  /** The switch of the mouse hook together with the message-to-button mapping:
      six button-down codes, six button-up codes, two move codes, and nothing else. */
  function Classify(message: int): (k: MouseMessage)
    ensures k == Unhandled <==> message !in HandledMessages
    ensures k != Unhandled ==> message == MessageCode(k, false) || message == MessageCode(k, true)
  {
    if message == WM_LBUTTONDOWN || message == WM_NCLBUTTONDOWN then Pressed(Left)
    else if message == WM_MBUTTONDOWN || message == WM_NCMBUTTONDOWN then Pressed(Middle)
    else if message == WM_RBUTTONDOWN || message == WM_NCRBUTTONDOWN then Pressed(Right)
    else if message == WM_LBUTTONUP || message == WM_NCLBUTTONUP then Released(Left)
    else if message == WM_MBUTTONUP || message == WM_NCMBUTTONUP then Released(Middle)
    else if message == WM_RBUTTONUP || message == WM_NCRBUTTONUP then Released(Right)
    else if message == WM_MOUSEMOVE || message == WM_NCMOUSEMOVE then Moved
    else Unhandled
  }

  /** Sorting a message code gives back the message it encodes. */
  lemma ClassifyMessageCode(k: MouseMessage, nonClient: bool)
    requires k != Unhandled
    ensures Classify(MessageCode(k, nonClient)) == k
  {
  }

  /** Whether the high bit (0x8000) of a key's state word is set, i.e. the key is down now. */
  predicate KeyHeld(keys: KeyboardState, key: int) {
    keys(key) & 0x8000 != 0
  }
}
