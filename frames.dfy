/**
 * The shape of what the event loop does to the surface and the queue: any run
 * of the handler appends whole blocks to the trace, each a reconfiguration to
 * a non-zero size under the construction-time policy, a frame (one submit of
 * the triangle's command buffer and then the present of the texture it drew
 * into), or a redraw request. Presents and submits therefore pair up.
 */
module Frames {
  import opened Gpu
  import opened Graphics
  import opened EventLoop

  /** `t` is a sequence of whole blocks for a renderer whose pipeline is `pipeline`. */
  predicate Blocks(t: seq<Effect>, pipeline: RenderPipeline)
    decreases |t|
  {
    if t == [] then true
    else
      match t[0]
      case Configure(c) =>
        var size := PhysicalSize(c.width, c.height);
        NonZero(size) && c == Configured(pipeline.colorTarget, size) && Blocks(t[1..], pipeline)
      case RequestRedraw =>
        Blocks(t[1..], pipeline)
      case Submit(buffers) =>
        |t| >= 2 && t[1].Present? && buffers == [FrameCommands(pipeline, t[1].texture)]
        && Blocks(t[2..], pipeline)
      case Present(_) =>
        false
  }

  function Presents(t: seq<Effect>): nat {
    if t == [] then 0 else (if t[0].Present? then 1 else 0) + Presents(t[1..])
  }

  function Submits(t: seq<Effect>): nat {
    if t == [] then 0 else (if t[0].Submit? then 1 else 0) + Submits(t[1..])
  }

  lemma {:induction false} BlocksAppend(a: seq<Effect>, b: seq<Effect>, pipeline: RenderPipeline)
    requires Blocks(a, pipeline) && Blocks(b, pipeline)
    ensures Blocks(a + b, pipeline)
    decreases |a|
  {
    if a == [] {
      assert a + b == b;
    } else if a[0].Submit? {
      assert (a + b)[1] == a[1];
      assert (a + b)[2..] == a[2..] + b;
      BlocksAppend(a[2..], b, pipeline);
    } else {
      assert (a + b)[1..] == a[1..] + b;
      BlocksAppend(a[1..], b, pipeline);
    }
  }

  /** One call of the handler on a consistent state appends whole blocks. */
  lemma HandledAppendsBlocks(s: Snapshot, controlFlow: ControlFlow, d: Delivery)
    requires Consistent(s)
    ensures Blocks(Handled(s, controlFlow, d).0.trace[|s.trace|..], s.pipeline)
  {
  }

  /** Whole blocks appended to `a` giving `b`, then to `b` giving `c`, are whole blocks appended to `a`. */
  lemma BlocksChain(a: seq<Effect>, b: seq<Effect>, c: seq<Effect>, pipeline: RenderPipeline)
    requires a <= b <= c
    requires Blocks(b[|a|..], pipeline) && Blocks(c[|b|..], pipeline)
    ensures Blocks(c[|a|..], pipeline)
  {
    assert c[|a|..] == b[|a|..] + c[|b|..];
    BlocksAppend(b[|a|..], c[|b|..], pipeline);
  }

  /** Any run of the event loop from a consistent state appends whole blocks. */
  lemma {:induction false} RunAppendsBlocks(s: Snapshot, controlFlow: ControlFlow, ds: seq<Delivery>)
    requires Consistent(s)
    ensures Blocks(Run(s, controlFlow, ds).0.trace[|s.trace|..], s.pipeline)
    decreases |ds|
  {
    if ds == [] || controlFlow == Exit {
      assert Run(s, controlFlow, ds).0.trace[|s.trace|..] == [];
    } else {
      var step := Handled(s, controlFlow, ds[0]);
      assert Run(s, controlFlow, ds) == Run(step.0, step.1, ds[1..]);
      HandledAppendsBlocks(s, controlFlow, ds[0]);
      RunAppendsBlocks(step.0, step.1, ds[1..]);
      BlocksChain(s.trace, step.0.trace, Run(step.0, step.1, ds[1..]).0.trace, s.pipeline);
    }
  }

  /** In whole blocks every present has exactly one submit to match it. */
  lemma {:induction false} PresentsMatchSubmits(t: seq<Effect>, pipeline: RenderPipeline)
    requires Blocks(t, pipeline)
    ensures Presents(t) == Submits(t)
    decreases |t|
  {
    if t != [] {
      if t[0].Submit? {
        assert t[1..][1..] == t[2..];
        PresentsMatchSubmits(t[2..], pipeline);
      } else {
        PresentsMatchSubmits(t[1..], pipeline);
      }
    }
  }

  /**
   * In whole blocks every present comes right after the submit of the one
   * command buffer that drew the triangle into the presented texture.
   */
  lemma {:induction false} PresentFollowsItsSubmit(t: seq<Effect>, pipeline: RenderPipeline, i: nat)
    requires Blocks(t, pipeline) && i < |t| && t[i].Present?
    ensures i > 0 && t[i - 1] == Submit([FrameCommands(pipeline, t[i].texture)])
    decreases |t|
  {
    if t[0].Submit? {
      if i > 1 {
        PresentFollowsItsSubmit(t[2..], pipeline, i - 2);
      }
    } else {
      PresentFollowsItsSubmit(t[1..], pipeline, i - 1);
    }
  }

  /** Delivering `a` and then `b` is running on `a`, then on `b` from where `a` left off. */
  lemma {:induction false} RunSplit(s: Snapshot, controlFlow: ControlFlow, a: seq<Delivery>, b: seq<Delivery>)
    ensures Run(s, controlFlow, a + b) == Run(Run(s, controlFlow, a).0, Run(s, controlFlow, a).1, b)
    decreases |a|
  {
    if a == [] {
      assert a + b == b;
    } else if controlFlow == Exit {
    } else {
      var (next, flow) := Handled(s, controlFlow, a[0]);
      assert (a + b)[0] == a[0];
      assert (a + b)[1..] == a[1..] + b;
      RunSplit(next, flow, a[1..], b);
    }
  }

  /**
   * A redraw whose acquisition runs out of memory ends the run: whatever
   * follows it is never handled and nothing more reaches the trace.
   */
  lemma OutOfMemoryEndsRun(s: Snapshot, controlFlow: ControlFlow, a: seq<Delivery>, b: seq<Delivery>)
    requires Run(s, controlFlow, a).1 == Continue
    ensures Run(s, controlFlow, a + [Delivery(RedrawRequested(s.window), Err(OutOfMemory))] + b)
         == (Run(s, controlFlow, a).0, Exit)
  {
    var oom := Delivery(RedrawRequested(s.window), Err(OutOfMemory));
    var (m, f) := Run(s, controlFlow, a);
    RunSplit(s, controlFlow, a, [oom] + b);
    assert a + [oom] + b == a + ([oom] + b);
    assert ([oom] + b)[0] == oom && ([oom] + b)[1..] == b;
  }
}
