/**
 * Value types of the windowing and GPU libraries that the renderer talks to,
 * reduced to what the surface state machine observes: sizes, the surface
 * configuration, the window events, the errors of texture acquisition, the recorded commands and
 * the effects the renderer has on the surface and the queue.
 */
module Gpu {

  /** An unsigned 32-bit integer, the type of every pixel dimension. */
  type U32 = x: int | 0 <= x < 0x1_0000_0000

  /** A window's inner size in physical pixels. */
  datatype PhysicalSize = PhysicalSize(width: U32, height: U32)

  /** Both dimensions are non-zero (the window is not minimised or degenerate). */
  predicate NonZero(size: PhysicalSize) {
    size.width > 0 && size.height > 0
  }

  /** A pixel format; formats are opaque library values told apart by identity only. */
  datatype TextureFormat = TextureFormat(id: nat)

  /** The only usage the renderer ever requests for its surface. */
  datatype TextureUsages = RenderAttachment

  datatype PresentMode = AutoVsync | AutoNoVsync | Fifo | Immediate | Mailbox

  datatype CompositeAlphaMode = Auto | Opaque | PreMultiplied | PostMultiplied | Inherit

  /** What `configure` applies to the surface. */
  datatype SurfaceConfiguration = SurfaceConfiguration(
    usage: TextureUsages,
    format: TextureFormat,
    width: U32,
    height: U32,
    presentMode: PresentMode,
    alphaMode: CompositeAlphaMode)

  /** Why the surface could not hand out its next texture. */
  datatype SurfaceError = Timeout | Outdated | Lost | OutOfMemory

  /** A drawable texture acquired from the surface; identity only. */
  datatype SurfaceTexture = SurfaceTexture(id: nat)

  /** A view of a texture made with the default descriptor. */
  datatype TextureView = TextureView(texture: SurfaceTexture)

  /** A normalised RGBA colour, passed through to the library unchanged. */
  datatype Color = Color(r: real, g: real, b: real, a: real)

  /**
   * The compiled render pipeline. Its shader stages and fixed-function state
   * are opaque library objects; only its colour target's format is kept.
   */
  datatype RenderPipeline = RenderPipeline(colorTarget: TextureFormat)

  /** A half-open index range `start..end`. */
  datatype Range = Range(start: nat, end: nat)

  /** A command recorded inside a render pass. */
  datatype PassCommand =
    | SetPipeline(pipeline: RenderPipeline)
    | Draw(vertices: Range, instances: Range)

  /** A render pass that clears its one colour attachment, then runs `commands`. */
  datatype RenderPass = RenderPass(view: TextureView, clear: Color, commands: seq<PassCommand>)

  /** The finished recording of a command encoder. */
  datatype CommandBuffer = CommandBuffer(passes: seq<RenderPass>)

  /** What the renderer does to the surface, the queue and the window, in order. */
  datatype Effect =
    | Configure(config: SurfaceConfiguration)
    | Submit(buffers: seq<CommandBuffer>)
    | Present(texture: SurfaceTexture)
    | RequestRedraw

  /** Identifies a platform window. */
  datatype WindowId = WindowId(id: nat)

  datatype ElementState = Pressed | Released

  /** Virtual key codes; only Escape matters to the renderer. */
  datatype VirtualKeyCode = Escape | OtherKey(code: nat)

  /** A keyboard input as the window delivers it. */
  datatype KeyInput = KeyInput(scancode: U32, state: ElementState, virtualKeycode: Option<VirtualKeyCode>)

  /** Events addressed to one window. */
  datatype WindowEvent =
    | CloseRequested
    | KeyboardInput(input: KeyInput)
    | Resized(size: PhysicalSize)
    | ScaleFactorChanged(scaleFactor: real, newInnerSize: PhysicalSize)
    | OtherWindowEvent

  /** Events the event loop hands to its handler. */
  datatype Event =
    | OnWindow(windowId: WindowId, event: WindowEvent)
    | RedrawRequested(windowId: WindowId)
    | MainEventsCleared
    | OtherEvent

  datatype Option<T> = None | Some(value: T)

  datatype Result<T, E> = Ok(value: T) | Err(error: E)
}
