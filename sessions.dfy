/** What holds of every run of the hook procedures: the window actions
    form well-nested move and resize sessions, the mouse input kept from the applications
    forms well-nested press/release pairs, and the modifier's release is kept from the
    application exactly when a session was started while it was held. */
module Sessions {
  import opened Platform
  import opened Drag
  import opened Traces

  /** Running two sequences one after the other is running their concatenation. */
  lemma RunAppend(g: Globals, cfg: Config, a: seq<HookEvent>, b: seq<HookEvent>)
    ensures var ta := Run(g, cfg, a);
            var tb := Run(ta.after, cfg, b);
            var t := Run(g, cfg, a + b);
            t.after == tb.after && t.calls == ta.calls + tb.calls &&
            t.results == ta.results + tb.results && t.eaten == ta.eaten + tb.eaten
  {
    FoldAppendAfter((h, e) => Step(h, cfg, e), g, a, b);
    FoldAppendCalls((h, e) => Step(h, cfg, e), g, a, b);
    FoldAppendResults((h, e) => Step(h, cfg, e), g, a, b);
    FoldAppendEaten((h, e) => Step(h, cfg, e), g, a, b);
  }

  /** A run is its first step followed by the run of the rest. */
  lemma RunCons(g: Globals, cfg: Config, e: HookEvent, rest: seq<HookEvent>)
    ensures var o := Step(g, cfg, e);
            var t := Run(o.after, cfg, rest);
            Run(g, cfg, [e] + rest) == Trace(t.after, o.calls + t.calls, [o.result] + t.results, o.eaten + t.eaten)
  {
    assert ([e] + rest)[0] == e;
    assert ([e] + rest)[1..] == rest;
  }

  // ---------------------------------------------------------------------------------
  // Window actions come in well-nested sessions.

  /** Which action is open: none, a move, or a resize. */
  datatype Phase = Idle | InMove | InResize

  function PhaseOf(s: DragState): Phase {
    match s
    case Moving => InMove
    case Resizing => InResize
    case _ => Idle
  }

  /** Where one call takes the action phase, or Stuck when it is out of order. */
  datatype Advance = Stuck | To(phase: Phase)

  /** One call moves the action phase from `p` on, or is out of order.
      CallNextHookEx may come at any point. */
  function NextPhase(p: Phase, c: Call): Advance {
    match c
    case NextHook => To(p)
    case StartMove(_, _) => if p == Idle then To(InMove) else Stuck
    case DoMove(_) => if p == InMove then To(InMove) else Stuck
    case EndMove => if p == InMove then To(Idle) else Stuck
    case StartResize(_, _) => if p == Idle then To(InResize) else Stuck
    case DoResize(_) => if p == InResize then To(InResize) else Stuck
    case EndResize => if p == InResize then To(Idle) else Stuck
  }

  /** The calls, made from phase `p`, are all in order and end in phase `q`:
      a start only when no action is open, do-steps only of the open action, and an end
      only of the open action. */
  predicate Nested(p: Phase, calls: seq<Call>, q: Phase)
    decreases |calls|
  {
    if calls == [] then p == q
    else match NextPhase(p, calls[0])
      case Stuck => false
      case To(p') => Nested(p', calls[1..], q)
  }

  lemma {:induction false} NestedAppend(p: Phase, a: seq<Call>, q: Phase, b: seq<Call>, r: Phase)
    requires Nested(p, a, q) && Nested(q, b, r)
    ensures Nested(p, a + b, r)
    decreases |a|
  {
    if a != [] {
      var p' := NextPhase(p, a[0]).phase;
      assert (a + b)[0] == a[0];
      assert (a + b)[1..] == a[1..] + b;
      NestedAppend(p', a[1..], q, b, r);
      assert Nested(p', (a + b)[1..], r);
    } else {
      assert a + b == b;
    }
  }

  /** Each hook invocation keeps the action log in order. */
  lemma StepNested(g: Globals, cfg: Config, e: HookEvent)
    ensures var s := Step(g, cfg, e);
            Nested(PhaseOf(g.currentState), s.calls, PhaseOf(s.after.currentState))
  {
    match e
    case MouseEvent(nCode, message, hwnd, pt, desk, _) =>
      var h := Dispatch(g, cfg, desk, nCode, message, hwnd, pt);
      var q := PhaseOf(h.after.currentState);
      DispatchNested(g, cfg, desk, nCode, message, hwnd, pt);
      assert [NextHook][1..] == [];
      NestedAppend(PhaseOf(g.currentState), h.calls, q, [NextHook], q);
    case KeyEvent(_, _, _) =>
      var s := Step(g, cfg, e);
      if s.calls != [] {
        assert s.calls[1..] == [];
      }
  }

  /** The handlers make their window actions in order. */
  lemma DispatchNested(g: Globals, cfg: Config, desk: Desktop, nCode: int, message: int, hwnd: Window, pt: Point)
    ensures var h := Dispatch(g, cfg, desk, nCode, message, hwnd, pt);
            Nested(PhaseOf(g.currentState), h.calls, PhaseOf(h.after.currentState))
  {
    var h := Dispatch(g, cfg, desk, nCode, message, hwnd, pt);
    if h.calls != [] {
      assert h.calls[1..] == [];
    }
  }

  /** Over any run, the window actions are well nested: a move or resize is started only
      when no action is open, continued and ended only while it is open, and the action
      open at the end is the one the final drag state names. */
  lemma {:induction false} RunNested(g: Globals, cfg: Config, events: seq<HookEvent>)
    ensures var t := Run(g, cfg, events);
            Nested(PhaseOf(g.currentState), t.calls, PhaseOf(t.after.currentState))
    decreases |events|
  {
    if events != [] {
      var s := Step(g, cfg, events[0]);
      StepNested(g, cfg, events[0]);
      RunNested(s.after, cfg, events[1..]);
      NestedAppend(PhaseOf(g.currentState), s.calls, PhaseOf(s.after.currentState),
                   Run(s.after, cfg, events[1..]).calls, PhaseOf(Run(g, cfg, events).after.currentState));
    }
  }

  /** How many calls of a kind a log holds. */
  function Count(calls: seq<Call>, kind: Call -> bool): (n: nat)
    ensures n <= |calls|
    decreases |calls|
  {
    if calls == [] then 0
    else (if kind(calls[0]) then 1 else 0) + Count(calls[1..], kind)
  }

  predicate IsStart(c: Call) { c.StartMove? || c.StartResize? }
  predicate IsEnd(c: Call) { c == EndMove || c == EndResize }

  /** In a well-nested log the ends never outnumber the starts, and from no open action
      back to no open action every start has its end. */
  lemma {:induction false} NestedCounts(p: Phase, calls: seq<Call>, q: Phase)
    requires Nested(p, calls, q)
    ensures Count(calls, IsStart) + (if p == Idle then 0 else 1) ==
            Count(calls, IsEnd) + (if q == Idle then 0 else 1)
    decreases |calls|
  {
    if calls != [] {
      NestedCounts(NextPhase(p, calls[0]).phase, calls[1..], q);
    }
  }

  /** A run that starts and ends outside a session makes exactly as many ends as starts. */
  lemma RunBalanced(g: Globals, cfg: Config, events: seq<HookEvent>)
    requires g.currentState == None
    requires Run(g, cfg, events).after.currentState == None
    ensures var calls := Run(g, cfg, events).calls;
            Count(calls, IsStart) == Count(calls, IsEnd)
  {
    RunNested(g, cfg, events);
    NestedCounts(Idle, Run(g, cfg, events).calls, Idle);
  }

  // ---------------------------------------------------------------------------------
  // The mouse input kept from the applications comes in well-nested pairs.

  /** No press eaten and pending (Free), or a press of `button` eaten and not yet released. */
  datatype Gate = Free | Held(button: MouseButton)

  function GateOf(g: Globals): Gate {
    if g.currentState == Drag.None then Free else Held(g.draggingButton)
  }

  /** The eaten input, from gate `p`, ends at gate `q` and is in order: a press is eaten
      only when none is pending, motion only while one is, and a release only of the
      pending button. */
  predicate Paired(p: Gate, eaten: seq<Eaten>, q: Gate)
    decreases |eaten|
  {
    if eaten == [] then p == q
    else match eaten[0]
      case EatenPress(b) => p == Free && Paired(Held(b), eaten[1..], q)
      case EatenMotion => p.Held? && Paired(p, eaten[1..], q)
      case EatenRelease(b) => p == Held(b) && Paired(Free, eaten[1..], q)
  }

  lemma {:induction false} PairedAppend(p: Gate, a: seq<Eaten>, q: Gate, b: seq<Eaten>, r: Gate)
    requires Paired(p, a, q) && Paired(q, b, r)
    ensures Paired(p, a + b, r)
    decreases |a|
  {
    if a != [] {
      assert (a + b)[0] == a[0];
      assert (a + b)[1..] == a[1..] + b;
      var p' := match a[0] case EatenPress(b0) => Held(b0) case EatenMotion => p case EatenRelease(_) => Free;
      PairedAppend(p', a[1..], q, b, r);
      assert Paired(p', (a + b)[1..], r);
    } else {
      assert a + b == b;
    }
  }

  lemma StepPaired(g: Globals, cfg: Config, e: HookEvent)
    ensures Paired(GateOf(g), EatenBy(g, cfg, e), GateOf(Step(g, cfg, e).after))
  {
    var eaten := EatenBy(g, cfg, e);
    if |eaten| == 1 {
      assert eaten[1..] == [];
    }
  }

  /** Over any run, the applications miss exactly well-nested gestures: no second press is
      eaten while one is pending, motion is eaten only while a press is pending, and a
      release is eaten only for the pending button; the gate at the end is the one the
      final globals name. */
  lemma {:induction false} RunPaired(g: Globals, cfg: Config, events: seq<HookEvent>)
    ensures var t := Run(g, cfg, events);
            Paired(GateOf(g), t.eaten, GateOf(t.after))
    decreases |events|
  {
    if events != [] {
      var s := Step(g, cfg, events[0]);
      StepPaired(g, cfg, events[0]);
      RunPaired(s.after, cfg, events[1..]);
      PairedAppend(GateOf(g), EatenBy(g, cfg, events[0]), GateOf(s.after),
                   Run(s.after, cfg, events[1..]).eaten, GateOf(Run(g, cfg, events).after));
    }
  }

  // ---------------------------------------------------------------------------------
  // The modifier's release is eaten exactly after a drag.

  /** An event that cannot change modifierDown while it is `down`: any mouse event, a
      keyboard event that carries no action, or one that samples the modifier in the same
      position (for instance the repeated key-downs of a held modifier, or any other key). */
  predicate KeepsModifier(cfg: Config, down: bool, e: HookEvent) {
    e.MouseEvent? || e.nCode != HC_ACTION || KeyHeld(e.keys, cfg.modifier) == down
  }

  predicate SomePress(eaten: seq<Eaten>) {
    exists i :: 0 <= i < |eaten| && eaten[i].EatenPress?
  }

  /** Events that keep the modifier where it is leave modifierDown alone and only ever set
      haveDragged, exactly when they start a session (a press is eaten). */
  lemma {:induction false} KeepingRunFlags(g: Globals, cfg: Config, events: seq<HookEvent>)
    requires forall i :: 0 <= i < |events| ==> KeepsModifier(cfg, g.modifierDown, events[i])
    ensures var t := Run(g, cfg, events);
            t.after.modifierDown == g.modifierDown &&
            t.after.haveDragged == (g.haveDragged || SomePress(t.eaten))
    decreases |events|
  {
    if events != [] {
      var e := events[0];
      var s := Step(g, cfg, e);
      var rest := Run(s.after, cfg, events[1..]);
      var t := Run(g, cfg, events);
      KeepingStepFlags(g, cfg, e);
      forall i | 0 <= i < |events[1..]|
        ensures KeepsModifier(cfg, s.after.modifierDown, events[1..][i])
      {
        assert events[1..][i] == events[i + 1];
      }
      KeepingRunFlags(s.after, cfg, events[1..]);
      assert t.eaten == s.eaten + rest.eaten;
      if SomePress(rest.eaten) {
        var i :| 0 <= i < |rest.eaten| && rest.eaten[i].EatenPress?;
        assert t.eaten[|s.eaten| + i] == rest.eaten[i];
      }
      if |s.eaten| == 1 && s.eaten[0].EatenPress? {
        assert t.eaten[0] == s.eaten[0];
      }
      if SomePress(t.eaten) {
        var i :| 0 <= i < |t.eaten| && t.eaten[i].EatenPress?;
        if i >= |s.eaten| {
          assert rest.eaten[i - |s.eaten|] == t.eaten[i];
        }
      }
    }
  }

  /** One event that keeps the modifier where it is leaves modifierDown alone and sets
      haveDragged exactly when it starts a session, which is when a press is eaten. */
  lemma KeepingStepFlags(g: Globals, cfg: Config, e: HookEvent)
    requires KeepsModifier(cfg, g.modifierDown, e)
    ensures var o := Step(g, cfg, e);
            o.after.modifierDown == g.modifierDown &&
            o.after.haveDragged == (g.haveDragged || (|o.eaten| == 1 && o.eaten[0].EatenPress?))
  {
  }

  /** Pressing the modifier, then any events that leave it held (mouse input, its own
      key repeats, other keys), then releasing it: the release is eaten (returns 1 without
      reaching the next hook) exactly when some press was eaten in between, i.e. a drag
      session was started; otherwise it is passed on. */
  lemma ReleaseEatenIffDragged(g: Globals, cfg: Config, press: HookEvent, held: seq<HookEvent>, release: HookEvent)
    requires !g.modifierDown
    requires press.KeyEvent? && press.nCode == HC_ACTION && KeyHeld(press.keys, cfg.modifier)
    requires forall i :: 0 <= i < |held| ==> KeepsModifier(cfg, true, held[i])
    requires release.KeyEvent? && release.nCode == HC_ACTION && !KeyHeld(release.keys, cfg.modifier)
    ensures var pressed := Step(g, cfg, press).after;
            var middle := Run(pressed, cfg, held);
            var last := Step(middle.after, cfg, release);
            var t := Run(g, cfg, [press] + held + [release]);
            t.results[|held| + 1] == last.result &&
            (SomePress(middle.eaten) <==> NextHook !in last.calls) &&
            last.result == (if SomePress(middle.eaten) then 1 else release.next)
  {
    var pressed := Step(g, cfg, press).after;
    var middle := Run(pressed, cfg, held);
    KeepingRunFlags(pressed, cfg, held);
    RunAppend(g, cfg, [press], held);
    RunAppend(g, cfg, [press] + held, [release]);
    assert Run(pressed, cfg, []) == Trace(pressed, [], [], []);
    assert Run(middle.after, cfg, []) == Trace(middle.after, [], [], []);
  }

  // ---------------------------------------------------------------------------------
  // Scenarios.

  /** Modifier down, press the move button on a movable window, move, release, modifier up:
      one start, one move step and one end, every mouse event eaten, the release of the
      modifier eaten too, and no session left open. */
  lemma MoveScenario(cfg: Config, desk: Desktop, w: Window, down: KeyboardState, up: KeyboardState, n: int)
    requires desk.movable(desk.root(w))
    requires KeyHeld(down, cfg.modifier) && !KeyHeld(up, cfg.modifier)
    ensures
      var g := Globals(Drag.None, Left, false, false);
      var events := [
        KeyEvent(HC_ACTION, down, n),
        MouseEvent(HC_ACTION, MessageCode(Pressed(cfg.moveButton), false), w, Point(100, 100), desk, n),
        MouseEvent(HC_ACTION, WM_MOUSEMOVE, w, Point(150, 120), desk, n),
        MouseEvent(HC_ACTION, MessageCode(Released(cfg.moveButton), false), w, Point(150, 120), desk, n),
        KeyEvent(HC_ACTION, up, n)];
      var t := Run(g, cfg, events);
      t.calls == [NextHook, StartMove(desk.root(w), Point(100, 100)), NextHook,
                  DoMove(Point(150, 120)), NextHook, EndMove, NextHook] &&
      t.results == [n, 1, 1, 1, 1] &&
      t.eaten == [EatenPress(cfg.moveButton), EatenMotion, EatenRelease(cfg.moveButton)] &&
      t.after.currentState == Drag.None
  {
    var b := cfg.moveButton;
    var e1 := KeyEvent(HC_ACTION, down, n);
    var e2 := MouseEvent(HC_ACTION, MessageCode(Pressed(b), false), w, Point(100, 100), desk, n);
    var e3 := MouseEvent(HC_ACTION, WM_MOUSEMOVE, w, Point(150, 120), desk, n);
    var e4 := MouseEvent(HC_ACTION, MessageCode(Released(b), false), w, Point(150, 120), desk, n);
    var e5 := KeyEvent(HC_ACTION, up, n);
    MoveScenarioPress(cfg, desk, w, down, n);
    MoveScenarioDrag(cfg, desk, w, up, n);
    RunAppend(Globals(Drag.None, Left, false, false), cfg, [e1, e2], [e3, e4, e5]);
    assert [e1, e2, e3, e4, e5] == [e1, e2] + [e3, e4, e5];
  }

  /** The first two steps of MoveScenario: the modifier goes down, then the press starts a move. */
  lemma MoveScenarioPress(cfg: Config, desk: Desktop, w: Window, down: KeyboardState, n: int)
    requires desk.movable(desk.root(w)) && KeyHeld(down, cfg.modifier)
    ensures Run(Globals(Drag.None, Left, false, false), cfg,
                [KeyEvent(HC_ACTION, down, n),
                 MouseEvent(HC_ACTION, MessageCode(Pressed(cfg.moveButton), false), w, Point(100, 100), desk, n)]) ==
            Trace(Globals(Moving, cfg.moveButton, true, true),
                  [NextHook, StartMove(desk.root(w), Point(100, 100)), NextHook], [n, 1], [EatenPress(cfg.moveButton)])
  {
    ClassifyMessageCode(Pressed(cfg.moveButton), false);
    var e1 := KeyEvent(HC_ACTION, down, n);
    var e2 := MouseEvent(HC_ACTION, MessageCode(Pressed(cfg.moveButton), false), w, Point(100, 100), desk, n);
    var g1 := Globals(Drag.None, Left, true, false);
    assert Step(Globals(Drag.None, Left, false, false), cfg, e1) == Outcome(g1, [NextHook], n, []);
    RunCons(g1, cfg, e2, []);
    RunCons(Globals(Drag.None, Left, false, false), cfg, e1, [e2]);
    assert [e1, e2] == [e1] + [e2];
    assert [e2] == [e2] + [];
  }

  /** The last three steps of MoveScenario: move, release the button, release the modifier. */
  lemma MoveScenarioDrag(cfg: Config, desk: Desktop, w: Window, up: KeyboardState, n: int)
    requires !KeyHeld(up, cfg.modifier)
    ensures Run(Globals(Moving, cfg.moveButton, true, true), cfg,
                [MouseEvent(HC_ACTION, WM_MOUSEMOVE, w, Point(150, 120), desk, n),
                 MouseEvent(HC_ACTION, MessageCode(Released(cfg.moveButton), false), w, Point(150, 120), desk, n),
                 KeyEvent(HC_ACTION, up, n)]) ==
            Trace(Globals(Drag.None, cfg.moveButton, false, true),
                  [DoMove(Point(150, 120)), NextHook, EndMove, NextHook], [1, 1, 1],
                  [EatenMotion, EatenRelease(cfg.moveButton)])
  {
    var moving := Globals(Moving, cfg.moveButton, true, true);
    var e3 := MouseEvent(HC_ACTION, WM_MOUSEMOVE, w, Point(150, 120), desk, n);
    var e4 := MouseEvent(HC_ACTION, MessageCode(Released(cfg.moveButton), false), w, Point(150, 120), desk, n);
    var e5 := KeyEvent(HC_ACTION, up, n);
    MoveScenarioRelease(cfg, desk, w, up, n);
    assert Step(moving, cfg, e3) == Outcome(moving, [DoMove(Point(150, 120)), NextHook], 1, [EatenMotion]);
    RunCons(moving, cfg, e3, [e4, e5]);
    assert [e3, e4, e5] == [e3] + [e4, e5];
  }

  /** The last two steps of MoveScenario: release the button, then the modifier. */
  lemma MoveScenarioRelease(cfg: Config, desk: Desktop, w: Window, up: KeyboardState, n: int)
    requires !KeyHeld(up, cfg.modifier)
    ensures Run(Globals(Moving, cfg.moveButton, true, true), cfg,
                [MouseEvent(HC_ACTION, MessageCode(Released(cfg.moveButton), false), w, Point(150, 120), desk, n),
                 KeyEvent(HC_ACTION, up, n)]) ==
            Trace(Globals(Drag.None, cfg.moveButton, false, true), [EndMove, NextHook], [1, 1],
                  [EatenRelease(cfg.moveButton)])
  {
    ClassifyMessageCode(Released(cfg.moveButton), false);
    var e4 := MouseEvent(HC_ACTION, MessageCode(Released(cfg.moveButton), false), w, Point(150, 120), desk, n);
    var e5 := KeyEvent(HC_ACTION, up, n);
    var released := Globals(Drag.None, cfg.moveButton, true, true);
    assert Step(Globals(Moving, cfg.moveButton, true, true), cfg, e4) ==
           Outcome(released, [EndMove, NextHook], 1, [EatenRelease(cfg.moveButton)]);
    RunCons(released, cfg, e5, []);
    RunCons(Globals(Moving, cfg.moveButton, true, true), cfg, e4, [e5]);
    assert [e4, e5] == [e4] + [e5];
    assert [e5] == [e5] + [];
  }

  /** The move button pressed without the modifier: nothing happens and the press is
      passed on. */
  lemma NoModifierScenario(g: Globals, cfg: Config, desk: Desktop, w: Window, pt: Point, n: int)
    requires !g.modifierDown
    ensures var t := Run(g, cfg, [MouseEvent(HC_ACTION, MessageCode(Pressed(cfg.moveButton), true), w, pt, desk, n)]);
            t.after == g && t.calls == [NextHook] && t.results == [n] && t.eaten == []
  {
    var e := MouseEvent(HC_ACTION, MessageCode(Pressed(cfg.moveButton), true), w, pt, desk, n);
    ClassifyMessageCode(Pressed(cfg.moveButton), true);
    RunCons(g, cfg, e, []);
    assert [e] == [e] + [];
  }

  /** Modifier down, press and release the resize button on a window that can be neither
      moved nor resized: both events are eaten, no window action runs, and the session goes
      from None through Ignoring back to None. */
  lemma IgnoredWindowScenario(cfg: Config, desk: Desktop, w: Window, down: KeyboardState, n: int)
    requires !desk.movable(desk.root(w)) && !desk.resizable(desk.root(w))
    requires KeyHeld(down, cfg.modifier)
    ensures
      var g := Globals(Drag.None, Left, false, false);
      var events := [
        KeyEvent(HC_ACTION, down, n),
        MouseEvent(HC_ACTION, MessageCode(Pressed(cfg.resizeButton), false), w, Point(0, 0), desk, n),
        MouseEvent(HC_ACTION, MessageCode(Released(cfg.resizeButton), false), w, Point(0, 0), desk, n)];
      var t := Run(g, cfg, events);
      Run(g, cfg, events[..2]).after.currentState == Ignoring &&
      t.after.currentState == Drag.None &&
      t.calls == [NextHook, NextHook, NextHook] &&
      t.results == [n, 1, 1] &&
      t.eaten == [EatenPress(cfg.resizeButton), EatenRelease(cfg.resizeButton)]
  {
    var b := cfg.resizeButton;
    ClassifyMessageCode(Pressed(b), false);
    ClassifyMessageCode(Released(b), false);
    var g0 := Globals(Drag.None, Left, false, false);
    var e1 := KeyEvent(HC_ACTION, down, n);
    var e2 := MouseEvent(HC_ACTION, MessageCode(Pressed(b), false), w, Point(0, 0), desk, n);
    var e3 := MouseEvent(HC_ACTION, MessageCode(Released(b), false), w, Point(0, 0), desk, n);
    var o1 := Step(g0, cfg, e1);
    assert o1 == Outcome(Globals(Drag.None, Left, true, false), [NextHook], n, []);
    var o2 := Step(o1.after, cfg, e2);
    assert o2 == Outcome(Globals(Ignoring, b, true, true), [NextHook], 1, [EatenPress(b)]);
    var o3 := Step(o2.after, cfg, e3);
    assert o3 == Outcome(Globals(Drag.None, b, true, true), [NextHook], 1, [EatenRelease(b)]);
    RunCons(o2.after, cfg, e3, []);
    RunCons(o1.after, cfg, e2, [e3]);
    RunCons(o1.after, cfg, e2, []);
    RunCons(g0, cfg, e1, [e2, e3]);
    RunCons(g0, cfg, e1, [e2]);
    assert [e1, e2, e3][..2] == [e1] + [e2];
    assert [e1, e2, e3] == [e1] + [e2, e3];
    assert [e2, e3] == [e2] + [e3];
    assert [e3] == [e3] + [];
    assert [e2] == [e2] + [];
  }
}
