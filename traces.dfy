/** Runs of the hook procedures. The hooks are modelled as atomic steps taken one after
    another (the globals are not locked, so interleavings inside one step are not modelled);
    a run feeds any sequence of keyboard and mouse events through the step functions of
    module Drag. */
module Traces {
  import opened Platform
  import opened Drag

  /** One invocation of a hook procedure with the answers the system gives during it. */
  datatype HookEvent =
    | MouseEvent(nCode: int, message: int, hwnd: Window, pt: Point, desk: Desktop, next: int)
    | KeyEvent(nCode: int, keys: KeyboardState, next: int)

  /** A mouse event the hook ate, i.e. that no application received. */
  datatype Eaten = EatenPress(button: MouseButton) | EatenMotion | EatenRelease(button: MouseButton)

  /** The mouse input one hook invocation keeps from the applications. */
  function EatenBy(g: Globals, cfg: Config, e: HookEvent): (eaten: seq<Eaten>)
    ensures |eaten| <= 1
    ensures |eaten| == 1 <==> e.MouseEvent? && Dispatch(g, cfg, e.desk, e.nCode, e.message, e.hwnd, e.pt).swallow
  {
    match e
    case KeyEvent(_, _, _) => []
    case MouseEvent(nCode, message, hwnd, pt, desk, _) =>
      if Dispatch(g, cfg, desk, nCode, message, hwnd, pt).swallow then
        match Classify(message)
        case Pressed(b) => [EatenPress(b)]
        case Released(b) => [EatenRelease(b)]
        case Moved => [EatenMotion]
        case Unhandled => []
      else []
  }

  /** What one hook invocation does: the globals after it, its calls, the value it
      returns, and the mouse input it keeps from the applications. */
  datatype Outcome = Outcome(after: Globals, calls: seq<Call>, result: int, eaten: seq<Eaten>)

  /** One hook invocation. */
  function Step(g: Globals, cfg: Config, e: HookEvent): (o: Outcome)
    ensures e.KeyEvent? ==> o.eaten == []
  {
    match e
    case MouseEvent(nCode, message, hwnd, pt, desk, next) =>
      var r := MouseHook(g, cfg, desk, nCode, message, hwnd, pt, next);
      Outcome(r.after, r.calls, r.result, EatenBy(g, cfg, e))
    case KeyEvent(nCode, keys, next) =>
      var r := KeyboardHook(g, cfg, nCode, keys, next);
      Outcome(r.after, r.calls, r.result, [])
  }

  /** The globals after a run, every call made in order, the value each hook returned,
      and the mouse input the run kept from the applications. */
  datatype Trace = Trace(after: Globals, calls: seq<Call>, results: seq<int>, eaten: seq<Eaten>)

  /** Takes the steps one after another, each from the globals the previous one left. */
  function Fold(step: (Globals, HookEvent) -> Outcome, g: Globals, events: seq<HookEvent>): (t: Trace)
    ensures |t.results| == |events|
    decreases |events|
  {
    if events == [] then Trace(g, [], [], [])
    else
      var o := step(g, events[0]);
      var rest := Fold(step, o.after, events[1..]);
      Trace(rest.after, o.calls + rest.calls, [o.result] + rest.results, o.eaten + rest.eaten)
  }

  /** Folding two sequences one after the other is folding their concatenation: the same
      final globals ... */
  lemma {:induction false} FoldAppendAfter(step: (Globals, HookEvent) -> Outcome, g: Globals, a: seq<HookEvent>, b: seq<HookEvent>)
    ensures Fold(step, g, a + b).after == Fold(step, Fold(step, g, a).after, b).after
    decreases |a|
  {
    if a == [] {
      assert a + b == b;
    } else {
      var o := step(g, a[0]);
      FoldAppendAfter(step, o.after, a[1..], b);
      assert (a + b)[0] == a[0];
      assert (a + b)[1..] == a[1..] + b;
    }
  }

  /** ... the calls of the first followed by those of the second ... */
  lemma {:induction false} FoldAppendCalls(step: (Globals, HookEvent) -> Outcome, g: Globals, a: seq<HookEvent>, b: seq<HookEvent>)
    ensures var ta := Fold(step, g, a);
            Fold(step, g, a + b).calls == ta.calls + Fold(step, ta.after, b).calls
    decreases |a|
  {
    if a == [] {
      assert a + b == b;
    } else {
      var o := step(g, a[0]);
      FoldAppendCalls(step, o.after, a[1..], b);
      assert (a + b)[0] == a[0];
      assert (a + b)[1..] == a[1..] + b;
      var ta' := Fold(step, o.after, a[1..]);
      var tb := Fold(step, ta'.after, b);
      assert o.calls + (ta'.calls + tb.calls) == (o.calls + ta'.calls) + tb.calls;
    }
  }

  /** ... the values returned by the first followed by those of the second ... */
  lemma {:induction false} FoldAppendResults(step: (Globals, HookEvent) -> Outcome, g: Globals, a: seq<HookEvent>, b: seq<HookEvent>)
    ensures var ta := Fold(step, g, a);
            Fold(step, g, a + b).results == ta.results + Fold(step, ta.after, b).results
    decreases |a|
  {
    if a == [] {
      assert a + b == b;
    } else {
      var o := step(g, a[0]);
      FoldAppendResults(step, o.after, a[1..], b);
      assert (a + b)[0] == a[0];
      assert (a + b)[1..] == a[1..] + b;
      var ta' := Fold(step, o.after, a[1..]);
      var tb := Fold(step, ta'.after, b);
      assert [o.result] + (ta'.results + tb.results) == ([o.result] + ta'.results) + tb.results;
    }
  }

  /** ... and the input eaten by the first followed by that eaten by the second. */
  lemma {:induction false} FoldAppendEaten(step: (Globals, HookEvent) -> Outcome, g: Globals, a: seq<HookEvent>, b: seq<HookEvent>)
    ensures var ta := Fold(step, g, a);
            Fold(step, g, a + b).eaten == ta.eaten + Fold(step, ta.after, b).eaten
    decreases |a|
  {
    if a == [] {
      assert a + b == b;
    } else {
      var o := step(g, a[0]);
      FoldAppendEaten(step, o.after, a[1..], b);
      assert (a + b)[0] == a[0];
      assert (a + b)[1..] == a[1..] + b;
      var ta' := Fold(step, o.after, a[1..]);
      var tb := Fold(step, ta'.after, b);
      assert o.eaten + (ta'.eaten + tb.eaten) == (o.eaten + ta'.eaten) + tb.eaten;
    }
  }

  /** A run of the hook procedures over a sequence of events. */
  function Run(g: Globals, cfg: Config, events: seq<HookEvent>): Trace {
    Fold((h, e) => Step(h, cfg, e), g, events)
  }
}
