/**
 * Clients of `State` and of the handler that walk through concrete situations,
 * using nothing but the methods' contracts.
 */
module Scenarios {
  import opened Gpu
  import opened Graphics
  import opened EventLoop

  /** Two supported formats and a 450 by 400 window: the first format wins. */
  method InitialConfiguration() {
    var first, second := TextureFormat(0), TextureFormat(1);
    var state := new State.New(WindowId(7), PhysicalSize(450, 400), [first, second]);
    assert state.config.format == first;
    assert state.config.width == 450 && state.config.height == 400;
    assert state.trace == [Configure(state.config)];
  }

  /** A resize to 800 by 600 followed by one to 0 by 300 leaves the size at 800 by 600. */
  method ResizeThenMinimise() {
    var state := new State.New(WindowId(7), PhysicalSize(450, 400), [TextureFormat(0)]);
    state.Resize(PhysicalSize(800, 600));
    var configured := state.trace;
    state.Resize(PhysicalSize(0, 300));
    assert state.size == PhysicalSize(800, 600);
    assert state.config.width == 800 && state.config.height == 600;
    assert state.trace == configured;
  }

  /** A redraw whose acquisition reports a lost surface: one reconfiguration, no present, the loop goes on. */
  method LostSurface() {
    var window := WindowId(7);
    var state := new State.New(window, PhysicalSize(450, 400), [TextureFormat(0)]);
    var before := state.trace;
    var flow := HandleEvent(state, RedrawRequested(window), Err(Lost), Continue);
    assert flow == Continue;
    assert state.trace == before + [Configure(state.config)];
    assert state.size == PhysicalSize(450, 400);
  }

  /** A redraw that runs out of memory: no reconfiguration, no present, exit. */
  method OutOfMemoryFrame() {
    var window := WindowId(7);
    var state := new State.New(window, PhysicalSize(450, 400), [TextureFormat(0)]);
    var before := state.trace;
    var flow := HandleEvent(state, RedrawRequested(window), Err(OutOfMemory), Continue);
    assert flow == Exit;
    assert state.trace == before;
  }

  /** A redraw that acquires a texture: one draw of vertices 0..3 and instances 0..1, submitted, then presented. */
  method SuccessfulFrame() {
    var window := WindowId(7);
    var state := new State.New(window, PhysicalSize(450, 400), [TextureFormat(0)]);
    var before := state.trace;
    var texture := SurfaceTexture(1);
    var flow := HandleEvent(state, RedrawRequested(window), Ok(texture), Continue);
    var buffer := FrameCommands(state.renderPipeline, texture);
    assert flow == Continue;
    assert state.trace == before + [Submit([buffer]), Present(texture)];
    assert BufferDraws(buffer) == [(Range(0, 3), Range(0, 1))];
  }

  /** Escape pressed on another window is ignored; on the renderer's window it exits. */
  method EscapeOnOtherWindow() {
    var window := WindowId(7);
    var state := new State.New(window, PhysicalSize(450, 400), [TextureFormat(0)]);
    var escape := KeyboardInput(KeyInput(1, Pressed, Some(Escape)));
    var flow := HandleEvent(state, OnWindow(WindowId(8), escape), Err(Timeout), Continue);
    assert flow == Continue;
    flow := HandleEvent(state, OnWindow(window, escape), Err(Timeout), flow);
    assert flow == Exit;
  }
}
