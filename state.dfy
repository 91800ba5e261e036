/**
 * The renderer's `State`: the window it owns, the compiled pipeline, the window
 * size it last accepted and the surface configuration, with the surface, device
 * and queue reduced to the trace of effects they receive.
 *
 * The pure functions below are the specification of the class's methods: each
 * method's new state is a function of its old state, taken as a `Snapshot`.
 */
module Graphics {
  import opened Gpu
  import opened Encoding

  /** The colour every frame's render pass clears to. */
  const Background := Color(0.1, 0.2, 0.3, 1.0)

  /** Each frame draws vertices 0..3 and instance 0..1: one triangle made in the vertex stage. */
  const TriangleVertices := Range(0, 3)
  const OneInstance := Range(0, 1)

  /** The configuration policy: render-attachment usage, Fifo presentation, automatic alpha. */
  function Configured(format: TextureFormat, size: PhysicalSize): SurfaceConfiguration {
    SurfaceConfiguration(RenderAttachment, format, size.width, size.height, Fifo, Auto)
  }

  /** The draws recorded by a sequence of pass commands, as (vertices, instances) pairs. */
  function Draws(commands: seq<PassCommand>): seq<(Range, Range)> {
    if commands == [] then []
    else
      (match commands[0]
       case Draw(v, i) => [(v, i)]
       case SetPipeline(_) => [])
      + Draws(commands[1..])
  }

  /** The draws recorded by every pass of a command buffer, in order. */
  function BufferDraws(buffer: CommandBuffer): seq<(Range, Range)>
    decreases |buffer.passes|
  {
    if buffer.passes == [] then []
    else Draws(buffer.passes[0].commands) + BufferDraws(CommandBuffer(buffer.passes[1..]))
  }

  /** The single command buffer a frame submits for the acquired `texture`. */
  function FrameCommands(pipeline: RenderPipeline, texture: SurfaceTexture): (buffer: CommandBuffer)
    ensures |buffer.passes| == 1
    ensures buffer.passes[0].view == TextureView(texture) && buffer.passes[0].clear == Background
    ensures |buffer.passes[0].commands| > 0 && buffer.passes[0].commands[0] == SetPipeline(pipeline)
    ensures BufferDraws(buffer) == [(TriangleVertices, OneInstance)]
  {
    var commands := [SetPipeline(pipeline), Draw(TriangleVertices, OneInstance)];
    assert Draws(commands[1..]) == [(TriangleVertices, OneInstance)];
    CommandBuffer([RenderPass(TextureView(texture), Background, commands)])
  }

  /** The fields of a `State`, as a value. */
  datatype Snapshot = Snapshot(
    window: WindowId,
    pipeline: RenderPipeline,
    size: PhysicalSize,
    config: SurfaceConfiguration,
    trace: seq<Effect>)

  /**
   * The configuration is the construction policy applied to the current size,
   * and the pipeline's colour target has the configured format.
   */
  predicate Consistent(s: Snapshot) {
    s.config == Configured(s.config.format, s.size) && s.pipeline.colorTarget == s.config.format
  }

  /** `resize(newSize)`: takes effect only when both dimensions are non-zero. */
  function ResizedState(s: Snapshot, newSize: PhysicalSize): (r: Snapshot)
    ensures r.window == s.window && r.pipeline == s.pipeline
    ensures r.config.usage == s.config.usage && r.config.format == s.config.format
    ensures r.config.presentMode == s.config.presentMode && r.config.alphaMode == s.config.alphaMode
    ensures NonZero(newSize) ==>
              r.size == newSize && r.config.width == newSize.width && r.config.height == newSize.height
              && r.trace == s.trace + [Configure(r.config)]
    ensures !NonZero(newSize) ==> r == s
    ensures Consistent(s) ==> Consistent(r)
  {
    if NonZero(newSize) then
      var config := s.config.(width := newSize.width, height := newSize.height);
      s.(size := newSize, config := config, trace := s.trace + [Configure(config)])
    else
      s
  }

  /**
   * `render()` given what the surface answers when asked for its next texture:
   * on failure the error comes back and nothing is submitted or presented; on
   * success one frame is submitted and then presented.
   */
  function RenderedState(s: Snapshot, acquire: Result<SurfaceTexture, SurfaceError>): (r: (Snapshot, Result<(), SurfaceError>))
    ensures r.0.window == s.window && r.0.pipeline == s.pipeline
    ensures r.0.size == s.size && r.0.config == s.config
    ensures acquire.Err? ==> r.1 == Err(acquire.error) && r.0.trace == s.trace
    ensures acquire.Ok? ==>
              r.1 == Ok(()) &&
              r.0.trace == s.trace + [Submit([FrameCommands(s.pipeline, acquire.value)]), Present(acquire.value)]
  {
    match acquire
    case Err(e) => (s, Err(e))
    case Ok(texture) =>
      (s.(trace := s.trace + [Submit([FrameCommands(s.pipeline, texture)]), Present(texture)]), Ok(()))
  }

  class State {
    const window: WindowId
    const renderPipeline: RenderPipeline
    var size: PhysicalSize
    var config: SurfaceConfiguration
    /** Everything the surface, the queue and the window have been asked to do, in order. */
    var trace: seq<Effect>

    function Value(): Snapshot
      reads this
    {
      Snapshot(window, renderPipeline, size, config, trace)
    }

    ghost predicate Valid()
      reads this
    {
      Consistent(Value())
    }

    /**
     * Construction once the window, the adapter and the device exist: the
     * first supported format wins, the size is the window's inner size, and
     * the configuration is applied to the surface once.
     */
    constructor New(window: WindowId, innerSize: PhysicalSize, supportedFormats: seq<TextureFormat>)
      requires |supportedFormats| > 0
      ensures this.window == window && size == innerSize
      ensures config.format == supportedFormats[0]
      ensures config.width == innerSize.width && config.height == innerSize.height
      ensures config.usage == RenderAttachment && config.presentMode == Fifo && config.alphaMode == Auto
      ensures renderPipeline.colorTarget == config.format
      ensures trace == [Configure(config)]
      ensures Valid()
    {
      var config := Configured(supportedFormats[0], innerSize);
      this.window := window;
      this.size := innerSize;
      this.config := config;
      this.renderPipeline := RenderPipeline(config.format);
      this.trace := [Configure(config)];
    }

    method Resize(newSize: PhysicalSize)
      modifies this
      ensures Value() == ResizedState(old(Value()), newSize)
      ensures NonZero(newSize) ==> size == newSize && trace == old(trace) + [Configure(config)]
      ensures !NonZero(newSize) ==> size == old(size) && config == old(config) && trace == old(trace)
    {
      if newSize.width > 0 && newSize.height > 0 {
        size := newSize;
        config := config.(width := newSize.width);
        config := config.(height := newSize.height);
        trace := trace + [Configure(config)];
      }
    }

    /** No window event is captured, so every one goes on to the dispatch. */
    method Input(event: WindowEvent) returns (captured: bool)
      ensures !captured
    {
      captured := false;
    }

    /** The per-frame hook; it has no effect. */
    method Update()
      modifies this
      ensures Value() == old(Value())
    {
    }

    /**
     * Records the frame for `output`: one pass on its default view that clears
     * to the background, binds the pipeline and draws one triangle; the pass
     * is ended before the encoder is finished.
     */
    method EncodeFrame(output: SurfaceTexture) returns (buffer: CommandBuffer)
      ensures buffer == FrameCommands(renderPipeline, output)
    {
      var view := TextureView(output);
      var encoder := new CommandEncoder();
      encoder.BeginRenderPass(view, Background);
      assert [] + [SetPipeline(renderPipeline)] == [SetPipeline(renderPipeline)];
      encoder.SetPipeline(renderPipeline);
      assert [SetPipeline(renderPipeline)] + [Draw(TriangleVertices, OneInstance)]
          == [SetPipeline(renderPipeline), Draw(TriangleVertices, OneInstance)];
      encoder.Draw(TriangleVertices, OneInstance);
      encoder.EndRenderPass();
      buffer := encoder.Finish();
    }

    /** Acquire, encode the frame, submit its one buffer, present. */
    method Render(acquire: Result<SurfaceTexture, SurfaceError>) returns (result: Result<(), SurfaceError>)
      modifies this
      ensures (Value(), result) == RenderedState(old(Value()), acquire)
    {
      if acquire.Err? {
        return Err(acquire.error);
      }
      var output := acquire.value;
      var buffer := EncodeFrame(output);
      ghost var before := trace;
      trace := trace + [Submit([buffer])];
      trace := trace + [Present(output)];
      assert trace == before + [Submit([buffer]), Present(output)];
      result := Ok(());
    }

    /** Asks the window for another redraw. */
    method RequestRedraw()
      modifies this
      ensures Value() == old(Value()).(trace := old(trace) + [Effect.RequestRedraw])
    {
      trace := trace + [Effect.RequestRedraw];
    }
  }
}
