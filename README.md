# Taekwindow hook procedures in Dafny

Taekwindow lets the user move or resize a window by holding a modifier key and dragging
anywhere inside it with a mouse button. This project models the part that makes that work.
It is a small state machine in the system-wide mouse and keyboard hooks. Four global
variables drive it:

- `currentState`: no session, moving, resizing, or ignoring an unmovable window.
- `draggingButton`: the button that started the session.
- `modifierDown`: whether the modifier key is held.
- `haveDragged`: whether a session started since the modifier was last pressed.

Each hook invocation sees one event. It updates these globals and may start, continue or
end a window action. Then it either lets the event reach the application or eats it.

The project has five modules:

- `Platform` (`platform.dfy`): the Win32 side.
  - Window handles, cursor points and the three buttons.
  - The user's configuration: the move button, the resize button and the modifier key.
  - The fourteen mouse messages the hook recognises, and how `mouseProc` sorts them.
  - What the window system answers during an event. The root ancestor, the movable and
    resizable tests, and `GetAsyncKeyState` are fields of plain values, so they are inputs.
- `Drag` (`drag.dfy`): each handler and each hook procedure as a pure function. It maps the
  globals before the event to the globals after it, the calls made in order, and the
  verdict. These functions are the specification.
- `Hooks` (`hooks.dfy`): the code as written. `HookState` is a class whose four fields are
  the globals. One method per handler assigns them in place. A ghost `log` records every
  window action and every `CallNextHookEx`. Each method is proved to do exactly what the
  matching `Drag` function says.
- `Traces` (`traces.dfy`): runs. A sequence of hook invocations is folded through the step
  functions, collecting the final globals, all calls, all return values, and the mouse input
  the hooks kept from the applications.
- `Sessions` (`sessions.dfy`): what holds of every run, and concrete scenarios.
  - Window actions are well nested: a start only when no action is open, steps and the end
    only of the open action.
  - The eaten mouse input forms press/release pairs.
  - The modifier's release is eaten exactly when a drag was started while it was held,
    whatever mouse input, key repeats or other keys come in between.

## Model

| member | source | states |
|---|---|---|
| Platform.MessageCode | taekwindowhooks/hooks.cpp:128-145 | every button-down, button-up and move message, client or non-client, is one of the fourteen codes the mouse hook handles |
| Platform.Classify | taekwindowhooks/hooks.cpp:127-148 | a message reaches a handler exactly when it is one of the fourteen handled codes, and then it is the client or non-client code of the press, release or move it is sorted as |
| Platform.ClassifyMessageCode | taekwindowhooks/hooks.cpp:127-148 | sorting the code of a press, release or move (client or non-client) gives back that press, release or move of that button |
| Drag.ButtonDown | taekwindowhooks/hooks.cpp:37-74 | eaten iff the modifier is down, no session runs and the button is bound. Otherwise nothing changes and no action runs, so no nested session can start. If eaten: draggingButton is the button and haveDragged is set. The state is Moving with one startMoveAction on the root window when it is the move button on a movable root. Otherwise it is Resizing with one startResizeAction when it is the resize button on a resizable root. Otherwise it is Ignoring with no action. It never stays None |
| Drag.ButtonUp | taekwindowhooks/hooks.cpp:79-100 | eaten iff the button is draggingButton and a session runs. Then the state becomes None with endMoveAction, endResizeAction or no call for Moving, Resizing or Ignoring. Any other release, or one in None, changes nothing and calls nothing |
| Drag.Move | taekwindowhooks/hooks.cpp:105-117 | never changes the globals. Eaten iff a session runs. The only call is doMoveAction in Moving or doResizeAction in Resizing, and one is made exactly in those two states |
| Drag.Dispatch | taekwindowhooks/hooks.cpp:125-149 | for nCode other than HC_ACTION, or a message outside the fourteen codes, no handler runs: nothing changes, nothing is called and nothing is eaten. No handler calls the next hook |
| Drag.MouseHook | taekwindowhooks/hooks.cpp:122-155 | the handler's effect followed by exactly one CallNextHookEx. The result is 1 when the handler ate the event and the next hook's result otherwise. Unhandled events leave everything unchanged and return the next hook's result |
| Drag.KeyboardHook | taekwindowhooks/hooks.cpp:170-189 | never touches the session or draggingButton. For nCode other than HC_ACTION, nothing changes. Otherwise modifierDown is the sampled high bit. On a falling edge the event is eaten (1, next hook not called) iff haveDragged, which is kept. On a rising edge haveDragged is cleared and the event is passed on. With no edge, nothing changes and the event is passed on |
| Hooks.HookState.constructor | taekwindowhooks/hooks.cpp:10-26 | the globals start with no session, the modifier up and no drag, and the log is empty |
| Hooks.HookState.StartMoveAction | taekwindowhooks/hooks.cpp:54 | the call is appended to the log and the globals are untouched |
| Hooks.HookState.DoMoveAction | taekwindowhooks/hooks.cpp:108 | the call is appended to the log and the globals are untouched |
| Hooks.HookState.EndMoveAction | taekwindowhooks/hooks.cpp:86 | the call is appended to the log and the globals are untouched |
| Hooks.HookState.StartResizeAction | taekwindowhooks/hooks.cpp:58 | the call is appended to the log and the globals are untouched |
| Hooks.HookState.DoResizeAction | taekwindowhooks/hooks.cpp:111 | the call is appended to the log and the globals are untouched |
| Hooks.HookState.EndResizeAction | taekwindowhooks/hooks.cpp:90 | the call is appended to the log and the globals are untouched |
| Hooks.HookState.CallNextHookEx | taekwindowhooks/hooks.cpp:151 | the call is logged and returns what the next hook returns |
| Hooks.HookState.HandleButtonDown | taekwindowhooks/hooks.cpp:37-74 | the new globals, the calls appended to the log and the verdict are exactly those of Drag.ButtonDown |
| Hooks.HookState.HandleButtonUp | taekwindowhooks/hooks.cpp:79-100 | the new globals, the calls appended to the log and the verdict are exactly those of Drag.ButtonUp |
| Hooks.HookState.HandleMove | taekwindowhooks/hooks.cpp:105-117 | the new globals, the calls appended to the log and the verdict are exactly those of Drag.Move |
| Hooks.HookState.MouseProc | taekwindowhooks/hooks.cpp:122-155 | the new globals, the calls appended to the log and the returned LRESULT are exactly those of Drag.MouseHook |
| Hooks.HookState.KeyboardProc | taekwindowhooks/hooks.cpp:160-190 | the new globals, the calls appended to the log and the returned LRESULT are exactly those of Drag.KeyboardHook |
| Traces.EatenBy | taekwindowhooks/hooks.cpp:122-155 | an invocation keeps exactly one mouse event (the one it was handed) from the applications when it is a mouse event the handler ate, and none otherwise |
| Traces.Step | taekwindowhooks/hooks.cpp:160-190 | a keyboard invocation keeps no mouse input from the applications |
| Traces.Fold | taekwindowhooks/hooks.cpp:122-190 | a run of hook invocations returns one value per invocation |
| Traces.FoldAppendAfter | taekwindowhooks/hooks.cpp:122-190 | two runs back to back end in the same globals as the run of the concatenated events |
| Traces.FoldAppendCalls | taekwindowhooks/hooks.cpp:122-190 | the calls of a concatenated run are those of the first part followed by those of the second |
| Traces.FoldAppendResults | taekwindowhooks/hooks.cpp:122-190 | the values returned over a concatenated run are those of the first part followed by those of the second |
| Traces.FoldAppendEaten | taekwindowhooks/hooks.cpp:122-155 | the mouse input kept over a concatenated run is that of the first part followed by that of the second |
| Sessions.RunAppend | taekwindowhooks/hooks.cpp:122-190 | running two event sequences one after the other equals running their concatenation: same globals, calls, results and eaten input |
| Sessions.RunCons | taekwindowhooks/hooks.cpp:122-190 | a run is its first invocation followed by the run of the rest from the globals that invocation left |
| Sessions.NestedAppend | taekwindowhooks/hooks.cpp:51-64 | two well-nested action logs that meet in the same phase join into one well-nested log |
| Sessions.DispatchNested | taekwindowhooks/hooks.cpp:37-149 | the handler an event reaches makes its window actions in order, from the action the old state names to the one the new state names |
| Sessions.StepNested | taekwindowhooks/hooks.cpp:37-117 | every hook invocation makes its window actions in order, from the action the old state names to the one the new state names |
| Sessions.RunNested | taekwindowhooks/hooks.cpp:37-117 | over any run, a move or resize starts only when no action is open, is continued and ended only while open, and the open action at the end is the one the final state names |
| Sessions.NestedCounts | taekwindowhooks/hooks.cpp:51-96 | in a well-nested log the starts plus an action open before equal the ends plus an action open after |
| Sessions.RunBalanced | taekwindowhooks/hooks.cpp:51-96 | a run from no session back to no session makes exactly as many start actions as end actions |
| Sessions.PairedAppend | taekwindowhooks/hooks.cpp:37-100 | two well-paired stretches of eaten input that meet at the same gate join into one |
| Sessions.StepPaired | taekwindowhooks/hooks.cpp:37-117 | each invocation eats input in order: a press only with no session, motion only in a session, a release only of draggingButton |
| Sessions.RunPaired | taekwindowhooks/hooks.cpp:37-155 | over any run, the mouse input the applications miss is well paired. No second press is eaten while one is pending, motion only while one is, and a release only of the pending button. The pending button at the end is the one the final globals name |
| Sessions.KeepingStepFlags | taekwindowhooks/hooks.cpp:37-189 | an event that leaves the modifier where it is (any mouse event, a keyboard event without HC_ACTION, or one sampling the modifier in the same position) never changes modifierDown and sets haveDragged exactly when it eats a press |
| Sessions.KeepingRunFlags | taekwindowhooks/hooks.cpp:37-189 | over any run of such events, modifierDown is unchanged and haveDragged ends set iff it was set or some press was eaten |
| Sessions.ReleaseEatenIffDragged | taekwindowhooks/hooks.cpp:160-189 | modifier pressed, then any events that leave it held (mouse input, its own key repeats, other keys, non-action calls), then modifier released: the release is eaten (result 1, next hook not called) iff some press was eaten in between, and otherwise returns the next hook's result |
| Sessions.MoveScenario | taekwindowhooks/hooks.cpp:37-189 | modifier down, move-button press on a movable window, move, release, modifier up: exactly one startMoveAction, one doMoveAction and one endMoveAction. Results are next, 1, 1, 1, 1, so the modifier's release is eaten. The three mouse events are eaten and no session is left open |
| Sessions.MoveScenarioPress | taekwindowhooks/hooks.cpp:37-189 | the first two steps of that scenario: the modifier goes down and the press starts a move on the root window |
| Sessions.MoveScenarioDrag | taekwindowhooks/hooks.cpp:79-189 | the last three steps: the move is forwarded, the release ends the move, and the modifier's release is eaten |
| Sessions.MoveScenarioRelease | taekwindowhooks/hooks.cpp:79-189 | the last two steps: the release ends the move and the modifier's release is eaten |
| Sessions.NoModifierScenario | taekwindowhooks/hooks.cpp:37-74 | a move-button press (here non-client) with the modifier up changes nothing, calls only the next hook and is passed on |
| Sessions.IgnoredWindowScenario | taekwindowhooks/hooks.cpp:37-100 | a resize-button press on a window that can be neither moved nor resized enters Ignoring with no action. The press and its release are both eaten and the state returns to None |

## Left out

- The worker thread (src/workerthread.cpp, src/workerthread.hpp): thread start and stop, the message loop, posting events to it, and the handlers it notifies. These are concurrency and OS message plumbing. In the hook code modelled here, the window actions and `GetAncestor` run directly inside the hook, while src/workerthread.cpp:61-95 passes the same messages on to a list of handlers that is not part of this model. The model follows hooks.cpp.
- The shared data segment (taekwindow/shared.cpp) and hook installation (taekwindow/main.hpp): linker layout and lifecycle, with no logic.
- Races between hook invocations on different threads: the globals are unsynchronised. Each invocation is modelled as one atomic step, and runs are sequences of such steps.
- The debug panic button (Q in debug builds) and the `DEBUGLOG`/`CONDDEBUGLOG` diagnostics.
- The window actions are assumed never to write the four globals: `Hooks.HookState.StartMoveAction` and the other five modify only the log. Their bodies are not part of this model. `Sessions.RunNested` and `Sessions.RunPaired` rely on this.
- The bodies of the window actions (`startMoveAction` … `endResizeAction`) and of `isMovableWindow`, `isResizableWindow`, `GetAncestor`, `GetAsyncKeyState` and `CallNextHookEx`. These are not part of this model. The actions are recorded in a ghost log, and the answers of the other five are inputs (`Desktop`, `KeyboardState`, `next`).
- `eventToButton` (util.hpp) is not part of this model. The model maps each client or non-client button message to its left, middle or right button, as the message names say.
- The initial values of the globals live in a file that is not part of this model. `Hooks.HookState.constructor` starts with no session, the modifier up and no drag; `draggingButton` is only read while a session runs.
- Mouse-wheel, double-click and X-button messages: `mouseProc` passes them on untouched, which the model states (they are outside the fourteen handled codes). Nothing more about them is modelled.
- The `MOUSEHOOKSTRUCT` and `LPARAM` layouts: the model receives the target window and cursor point directly.
- `keyboardProc` looks only at the modifier's asynchronous state, not at `wParam`. The model therefore has no key code either.
- In `handleButtonDown`, the third branch (`button == moveButton || button == resizeButton`) is always true under the outer guard. `Drag.ButtonDown` keeps the code's shape, and its contract proves the state never stays None.
