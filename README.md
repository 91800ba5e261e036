# Window/surface state machine of a wgpu triangle renderer

This project models the state machine at the core of a small wgpu program. The
program renders one triangle per frame into a window's surface. The model covers:

- how `State` configures the surface when it is constructed;
- how `resize` reconfigures it, but only for a non-zero size;
- how `render` acquires a texture, records one render pass, submits the command
  buffer and presents;
- how the event-loop closure dispatches window events and handles each frame's
  acquisition error.

The surface, the device and the queue are reduced to a trace of effects:
`Configure(config)`, `Submit(buffers)`, `Present(texture)` and `RequestRedraw`.
The event loop's control flow is `Continue` or `Exit`.

Layout:

- `gpu.dfy` (module `Gpu`): the library values. These are sizes as unsigned 32-bit
  pairs, the surface configuration, surface errors, window events, recorded
  commands and effects.
- `encoder.dfy` (module `Encoding`): the command encoder, a class. Its render pass
  must be ended before `Finish`. This is the scoped-pass rule of the source.
- `state.dfy` (module `Graphics`): class `State` with fields `size`, `config` and
  `trace`, plus the constants `window` and `renderPipeline`. Each method's new state
  is defined by a pure function of the old state (`ResizedState`, `RenderedState`),
  taken as a `Snapshot` value.
- `event_loop.dfy` (module `EventLoop`): the closure body as the methods
  `HandleEvent` and `HandleRenderResult`. It is specified by the pure functions
  `WindowEventHandled`, `RenderResultHandled`, `Redrawn` and `Handled`. `Run`
  delivers a sequence of events and stops at `Exit`.
- `frames.dfy` (module `Frames`): what any run does to the trace. It only appends
  whole blocks. A block is a reconfiguration to a non-zero size under the
  construction policy, a frame (exactly one submit, then the present of the
  texture drawn), or a redraw request.
- `scenarios.dfy` (module `Scenarios`): client methods with concrete situations.
  These are the 450 by 400 start, resize to 800 by 600 then to 0 by 300, a lost
  surface, running out of memory, a good frame, and Escape on another window.

Three behaviours of the code are easy to misread, and the model follows the code in each:

- `Outdated` is not reconfigured. Only `Lost` leads to `resize(size)`. `Outdated`
  and `Timeout` fall into the branch that prints the error (src/lib.rs:270-271).
- The Lost recovery is `resize(self.size)`, not an unconditional reconfigure. If the
  stored size has a zero dimension, nothing is reconfigured. When the state is
  consistent, the reconfiguration re-applies the stored configuration unchanged
  (`RenderResultHandled`).
- The configuration applied at construction is not guarded. The window's inner
  size is used even when one dimension is zero (src/lib.rs:69-70, 121). Only the
  configurations applied after construction are proved non-zero (`RunAppendsBlocks`).

## Model

| member | source | states |
|---|---|---|
| `Graphics.State.New` | src/lib.rs:66-73 | the format is element 0 of the supported formats, which must be non-empty; width and height are the window's inner size, as is `size`; usage is render-attachment, present mode Fifo, alpha Auto; the pipeline's colour target has that format; the trace is exactly one `Configure` of that configuration (lines 23 and 121) |
| `Graphics.ResizedState` | src/lib.rs:138-146 | with both dimensions non-zero: `size` and the configured width and height become the new size, exactly one `Configure` of the new configuration is appended, and usage, format, present mode and alpha mode are unchanged; with a zero dimension: nothing changes; consistency of configuration and size is preserved |
| `Graphics.State.Resize` | src/lib.rs:138-146 | the new fields equal `ResizedState` of the old ones; spelled out: a non-zero size is stored and configured once, and a zero dimension leaves size, config and trace unchanged |
| `Graphics.State.Input` | src/lib.rs:148-151 | no window event is ever captured |
| `Graphics.State.Update` | src/lib.rs:153-155 | nothing changes |
| `Graphics.FrameCommands` | src/lib.rs:166-189 | the frame's command buffer has exactly one pass on the acquired texture's view, clearing to the background colour, binding the pipeline first, and its only draw is vertices [0,3) with instances [0,1) |
| `Graphics.RenderedState` | src/lib.rs:157-193 | size and config never change; a failed acquisition returns that error and appends nothing (no submit, no present); a successful one returns `Ok` and appends the `Submit` of exactly one frame buffer and then one `Present` of the acquired texture, in that order |
| `Graphics.State.EncodeFrame` | src/lib.rs:159-189 | the buffer recorded through `CommandEncoder` is exactly `FrameCommands` for the acquired texture; the encoder's contracts force the pass to be ended before `Finish` |
| `Graphics.State.Render` | src/lib.rs:157-193 | new fields and result equal `RenderedState` of the old fields |
| `Graphics.State.RequestRedraw` | src/lib.rs:274-277 | appends exactly one `RequestRedraw` and changes nothing else |
| `Encoding.CommandEncoder.constructor` | src/lib.rs:160-162 | a new encoder has no passes and no open pass |
| `Encoding.CommandEncoder.BeginRenderPass` | src/lib.rs:167-183 | requires no open pass; opens an empty pass on the view with its clear colour; ended passes unchanged |
| `Encoding.CommandEncoder.SetPipeline` | src/lib.rs:185 | requires an open pass; appends the pipeline binding to it and nothing else |
| `Encoding.CommandEncoder.Draw` | src/lib.rs:186 | requires an open pass; appends the draw with those ranges to it and nothing else |
| `Encoding.CommandEncoder.EndRenderPass` | src/lib.rs:164-187 | the scope of the pass ends: the open pass is appended to the ended passes and no pass is open |
| `Encoding.CommandEncoder.Finish` | src/lib.rs:189 | callable only when no pass is open; the buffer holds exactly the ended passes |
| `EventLoop.WindowEventHandled` | src/lib.rs:242-260 | the control flow becomes `Exit` exactly when it already was or the event is a close request or Escape pressed; `Resized(s)` and `ScaleFactorChanged` with inner size `s` act exactly as `resize(s)`; every other event leaves the state unchanged |
| `EventLoop.RenderResultHandled` | src/lib.rs:264-272 | `Ok` changes nothing; `Lost` is `resize(size)` with the control flow kept; on a consistent state that keeps size and config and appends one `Configure` of the stored configuration exactly when the size is non-zero; `OutOfMemory` sets `Exit` and changes nothing else; `Outdated` and `Timeout` change nothing |
| `EventLoop.Redrawn` | src/lib.rs:262-273 | a good frame appends a submit and then a present with the control flow kept; a lost surface appends at most one `Configure` of the stored configuration and no present; out of memory exits with no effect; outdated or timeout changes nothing; consistency is preserved |
| `EventLoop.Handled` | src/lib.rs:237-279 | an event on the renderer's window is `WindowEventHandled` and a redraw of it is `Redrawn`; events for another window id and unmatched events are ignored entirely; main-events-cleared appends one redraw request; the configured format never changes; `Exit` is never undone; the trace only grows; window, pipeline and consistency are kept |
| `EventLoop.Run` | src/lib.rs:237 | along any sequence of deliveries until exit, the window, pipeline and configured format never change, a consistent state stays consistent, the trace only grows, and `Exit` stays `Exit` |
| `EventLoop.HandleRenderResult` | src/lib.rs:264-272 | the new state and control flow equal `RenderResultHandled` of the old state |
| `EventLoop.HandleEvent` | src/lib.rs:237-279 | the new state and control flow equal `Handled` of the old state, and a consistent state stays consistent; its body asks `input` first, and on a redraw calls `update` before `render` |
| `Frames.HandledAppendsBlocks` | src/lib.rs:237-279 | from a consistent state, one handler call appends only whole blocks |
| `Frames.RunAppendsBlocks` | src/lib.rs:237-279 | from a consistent state, any run appends only whole blocks: every reconfiguration is to a non-zero size under the construction policy and format, and every submit is one frame buffer followed at once by its present |
| `Frames.PresentsMatchSubmits` | src/lib.rs:189-190 | in whole blocks the number of presents equals the number of submits |
| `Frames.PresentFollowsItsSubmit` | src/lib.rs:189-190 | in whole blocks every present comes directly after the submit of the buffer that drew into the presented texture |
| `Frames.OutOfMemoryEndsRun` | src/lib.rs:268-269 | once a redraw for the renderer's window runs out of memory, the run ends in `Exit` and no later event is handled or leaves an effect |

## Left out

- Instance, adapter and device creation (src/lib.rs:26-64) are asynchronous library calls whose failure is an `unwrap` panic. The constructor starts once they have succeeded. The limits chosen for the web target are not modelled.
- `Graphics.State.New`: indexing an empty list of supported formats panics (`get_supported_formats(&adapter)[0]`, src/lib.rs:68). The model does not model that panic. It is the constructor's precondition `|supportedFormats| > 0` instead.
- The commented-out fallback adapter enumeration (src/lib.rs:41-50) is dead code, so no fallback policy is modelled.
- The shader module, the pipeline layout and the pipeline descriptor (src/lib.rs:75-119) are opaque library objects. The pipeline is an immutable value that keeps only its colour-target format.
- The clear colour is kept as a constant of exact reals. The source's `f64` values are passed to the library unchanged and nothing is computed from them.
- Logger setup, the web canvas insertion and the panic hook (src/lib.rs:198-231) are platform I/O.
- The error printing of `Outdated` and `Timeout` (`eprintln`, src/lib.rs:271) is I/O and leaves no effect in the trace.
- winit's loop mechanics are outside the model: event sources, redraw pacing and the events it delivers after exit on a given platform. `Run` assumes that no event is delivered once the control flow is `Exit`.
- `Run`: winit's control flow has more values than `Exit` (`Poll`, `Wait`, `WaitUntil`). The handler never writes them, so they are all folded into `Continue`.
- The coupling of the surface's lifetime to the window's (src/lib.rs:28-32) is a memory-safety matter. It has no behaviour to model.
- `State::window` (src/lib.rs:134-136) is a getter. The model reads the `window` field directly.
- The acquisition of the next texture (`get_current_texture`) is a parameter of `Render` and of `HandleEvent`: the surface's answer comes from outside.
