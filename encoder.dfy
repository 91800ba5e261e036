/**
 * The command encoder of one frame. A render pass borrows the encoder while it
 * is open; the encoder can be finished only after the pass has been ended, which
 * `Finish` demands of its callers.
 */
module Encoding {
  import opened Gpu

  class CommandEncoder {
    /** Passes that have been ended, in order. */
    var passes: seq<RenderPass>
    /** The pass being recorded, if one is open. */
    var open: Option<RenderPass>

    constructor ()
      ensures passes == [] && open == None
    {
      passes := [];
      open := None;
    }

    /** Opens a pass on `view` that clears it to `clear`. */
    method BeginRenderPass(view: TextureView, clear: Color)
      requires open == None
      modifies this
      ensures open == Some(RenderPass(view, clear, []))
      ensures passes == old(passes)
    {
      open := Some(RenderPass(view, clear, []));
    }

    /** Binds `pipeline` for the draws that follow in the open pass. */
    method SetPipeline(pipeline: RenderPipeline)
      requires open.Some?
      modifies this
      ensures open == Some(old(open.value).(commands := old(open.value.commands) + [PassCommand.SetPipeline(pipeline)]))
      ensures passes == old(passes)
    {
      open := Some(open.value.(commands := open.value.commands + [PassCommand.SetPipeline(pipeline)]));
    }

    /** Records one draw of `vertices` and `instances` in the open pass. */
    method Draw(vertices: Range, instances: Range)
      requires open.Some?
      modifies this
      ensures open == Some(old(open.value).(commands := old(open.value.commands) + [PassCommand.Draw(vertices, instances)]))
      ensures passes == old(passes)
    {
      open := Some(open.value.(commands := open.value.commands + [PassCommand.Draw(vertices, instances)]));
    }

    /** Ends the open pass, releasing the encoder (the end of the pass's scope). */
    method EndRenderPass()
      requires open.Some?
      modifies this
      ensures open == None
      ensures passes == old(passes) + [old(open.value)]
    {
      passes := passes + [open.value];
      open := None;
    }

    /** Finalises the recording; only possible once no pass is open. */
    method Finish() returns (buffer: CommandBuffer)
      requires open == None
      ensures buffer.passes == passes
    {
      buffer := CommandBuffer(passes);
    }
  }
}
