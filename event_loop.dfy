/**
 * The body of the event-loop closure in `run`: window-event dispatch, the
 * redraw with its per-frame error policy, and the redraw request when the
 * main events are cleared.
 *
 * The closure receives each event together with the event loop's control
 * flow, which it may set to `Exit`. What the surface answers when a redraw
 * asks it for a texture is supplied with the event.
 */
module EventLoop {
  import opened Gpu
  import opened Graphics

  /** The event loop's control flow as far as the handler is concerned. */
  datatype ControlFlow = Continue | Exit

  /** One call of the handler: the event, and the surface's answer should it be asked for a texture. */
  datatype Delivery = Delivery(event: Event, acquire: Result<SurfaceTexture, SurfaceError>)

  /** A close request, or the Escape key going down. */
  predicate RequestsExit(event: WindowEvent) {
    event == CloseRequested
    || (event.KeyboardInput? && event.input.state == Pressed && event.input.virtualKeycode == Some(Escape))
  }

  /** The size a window event asks the renderer to resize to, if any. */
  function RequestedSize(event: WindowEvent): Option<PhysicalSize> {
    match event
    case Resized(size) => Some(size)
    case ScaleFactorChanged(_, size) => Some(size)
    case _ => None
  }

  /**
   * Dispatch of an event addressed to the renderer's window (`input` never
   * captures one): exit on a close request or Escape pressed, resize on a
   * resize or a scale-factor change, nothing otherwise.
   */
  function WindowEventHandled(s: Snapshot, controlFlow: ControlFlow, event: WindowEvent): (r: (Snapshot, ControlFlow))
    ensures r.1 == Exit <==> controlFlow == Exit || RequestsExit(event)
    ensures !RequestsExit(event) ==> r.1 == controlFlow
    ensures RequestedSize(event).Some? ==> r.0 == ResizedState(s, RequestedSize(event).value)
    ensures RequestedSize(event).None? ==> r.0 == s
  {
    match event
    case CloseRequested => (s, Exit)
    case KeyboardInput(KeyInput(_, Pressed, Some(Escape))) => (s, Exit)
    case Resized(size) => (ResizedState(s, size), controlFlow)
    case ScaleFactorChanged(_, size) => (ResizedState(s, size), controlFlow)
    case _ => (s, controlFlow)
  }

  /**
   * What the handler does with the result of `render()`: a lost surface is
   * resized to the stored size, running out of memory exits, and any other
   * error (outdated, timeout) is only reported.
   */
  function RenderResultHandled(s: Snapshot, controlFlow: ControlFlow, result: Result<(), SurfaceError>): (r: (Snapshot, ControlFlow))
    ensures r.0.window == s.window && r.0.pipeline == s.pipeline
    ensures result.Ok? ==> r == (s, controlFlow)
    ensures result == Err(Lost) ==> r == (ResizedState(s, s.size), controlFlow)
    ensures result == Err(Lost) && Consistent(s) ==>
              r.0.size == s.size && r.0.config == s.config
              && r.0.trace == s.trace + (if NonZero(s.size) then [Configure(s.config)] else [])
    ensures result == Err(OutOfMemory) ==> r == (s, Exit)
    ensures result == Err(Outdated) || result == Err(Timeout) ==> r == (s, controlFlow)
  {
    match result
    case Ok(_) => (s, controlFlow)
    case Err(Lost) => (ResizedState(s, s.size), controlFlow)
    case Err(OutOfMemory) => (s, Exit)
    case Err(_) => (s, controlFlow)
  }

  /** A redraw of the renderer's window: `update()`, then `render()` and its result's handling. */
  function Redrawn(s: Snapshot, controlFlow: ControlFlow, acquire: Result<SurfaceTexture, SurfaceError>): (r: (Snapshot, ControlFlow))
    ensures r.0.window == s.window && r.0.pipeline == s.pipeline
    ensures Consistent(s) ==> Consistent(r.0)
    ensures acquire.Ok? ==>
              r.1 == controlFlow && r.0.size == s.size && r.0.config == s.config
              && r.0.trace == s.trace + [Submit([FrameCommands(s.pipeline, acquire.value)]), Present(acquire.value)]
    ensures acquire == Err(Lost) && Consistent(s) ==>
              r.1 == controlFlow && r.0.size == s.size && r.0.config == s.config
              && r.0.trace == s.trace + (if NonZero(s.size) then [Configure(s.config)] else [])
    ensures acquire == Err(OutOfMemory) ==> r == (s, Exit)
    ensures acquire == Err(Outdated) || acquire == Err(Timeout) ==> r == (s, controlFlow)
  {
    var (rendered, result) := RenderedState(s, acquire);
    RenderResultHandled(rendered, controlFlow, result)
  }

  /** The whole handler: events for another window are ignored. */
  function Handled(s: Snapshot, controlFlow: ControlFlow, d: Delivery): (r: (Snapshot, ControlFlow))
    ensures r.0.window == s.window && r.0.pipeline == s.pipeline
    ensures r.0.config.format == s.config.format
    ensures Consistent(s) ==> Consistent(r.0)
    ensures s.trace <= r.0.trace
    ensures controlFlow == Exit ==> r.1 == Exit
    ensures d.event.OnWindow? && d.event.windowId == s.window ==>
              r == WindowEventHandled(s, controlFlow, d.event.event)
    ensures d.event.RedrawRequested? && d.event.windowId == s.window ==>
              r == Redrawn(s, controlFlow, d.acquire)
    ensures d.event.OnWindow? && d.event.windowId != s.window ==> r == (s, controlFlow)
    ensures d.event.RedrawRequested? && d.event.windowId != s.window ==> r == (s, controlFlow)
    ensures d.event == OtherEvent ==> r == (s, controlFlow)
    ensures d.event == MainEventsCleared ==>
              r == (s.(trace := s.trace + [Effect.RequestRedraw]), controlFlow)
  {
    match d.event
    case OnWindow(id, event) =>
      if id == s.window then WindowEventHandled(s, controlFlow, event) else (s, controlFlow)
    case RedrawRequested(id) =>
      if id == s.window then Redrawn(s, controlFlow, d.acquire) else (s, controlFlow)
    case MainEventsCleared =>
      (s.(trace := s.trace + [Effect.RequestRedraw]), controlFlow)
    case OtherEvent =>
      (s, controlFlow)
  }

  /**
   * The event loop delivering `ds` in order; once the control flow is `Exit`
   * the loop ends and nothing more is delivered.
   */
  function Run(s: Snapshot, controlFlow: ControlFlow, ds: seq<Delivery>): (r: (Snapshot, ControlFlow))
    decreases |ds|
    ensures r.0.window == s.window && r.0.pipeline == s.pipeline
    ensures s.trace <= r.0.trace
    ensures r.0.config.format == s.config.format
    ensures Consistent(s) ==> Consistent(r.0)
    ensures controlFlow == Exit ==> r.1 == Exit
  {
    if ds == [] || controlFlow == Exit then (s, controlFlow)
    else
      var (next, flow) := Handled(s, controlFlow, ds[0]);
      Run(next, flow, ds[1..])
  }

  /** The closure's reaction to the result of `render()`. */
  method HandleRenderResult(state: State, result: Result<(), SurfaceError>, controlFlow: ControlFlow) returns (next: ControlFlow)
    modifies state
    ensures (state.Value(), next) == RenderResultHandled(old(state.Value()), controlFlow, result)
  {
    next := controlFlow;
    match result
    case Ok(_) =>
    case Err(Lost) =>
      state.Resize(state.size);
    case Err(OutOfMemory) =>
      next := Exit;
    case Err(_) =>
      // Outdated and Timeout are printed and resolve by the next frame.
  }

  /** One call of the event-loop closure. */
  method HandleEvent(state: State, event: Event, acquire: Result<SurfaceTexture, SurfaceError>, controlFlow: ControlFlow)
    returns (next: ControlFlow)
    modifies state
    ensures (state.Value(), next) == Handled(old(state.Value()), controlFlow, Delivery(event, acquire))
    ensures old(state.Valid()) ==> state.Valid()
  {
    next := controlFlow;
    match event
    case OnWindow(id, windowEvent) =>
      if id == state.window {
        var captured := state.Input(windowEvent);
        if !captured {
          match windowEvent
          case CloseRequested =>
            next := Exit;
          case KeyboardInput(KeyInput(_, Pressed, Some(Escape))) =>
            next := Exit;
          case Resized(size) =>
            state.Resize(size);
          case ScaleFactorChanged(_, size) =>
            state.Resize(size);
          case _ =>
        }
      }
    case RedrawRequested(id) =>
      if id == state.window {
        state.Update();
        var result := state.Render(acquire);
        next := HandleRenderResult(state, result, next);
      }
    case MainEventsCleared =>
      state.RequestRedraw();
    case OtherEvent =>
  }
}
