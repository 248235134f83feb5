/**
 * salviar's asynchronous renderer: a proxy that packs every state change and
 * draw into a command, queues it on a bounded buffer, and lets a single worker
 * run the commands against the real renderer in the order they were issued.
 *
 * The worker thread is modelled by `WorkerStep`, one pop-and-run at a time;
 * a caller that would block is modelled by the worker steps that must happen
 * before it can go on.
 */
module AsyncRendering {
  import opened Wrappers
  import opened RenderCommands
  import opened CommandBuffer

  class AsyncRenderer {
    /** The command buffer, newest command at the front (index 0), oldest at the back. */
    var cmds: seq<Cmd>
    /** The renderer is attached (`shared_impl_` is set); the worker loops while it is. */
    var hasImpl: bool
    /** The worker thread has been started and not yet joined. */
    var joinable: bool
    /** Every call the renderer has received, from the worker and from the direct path. */
    var target: seq<Call>

    // The cached states.
    var currentFrameBuffer: Ptr
    var vertexShaderCode: Ptr
    var pixelShaderCode: Ptr
    var vertexShader: Ptr
    var pixelShader: Ptr

    /** Every command ever pushed, in the order of issue. */
    ghost var issued: seq<Cmd>
    /** Every command the worker has run, in the order it ran them. */
    ghost var executed: seq<Cmd>

    /** The buffer invariant, on the current fields. */
    ghost predicate Consistent()
      reads this`cmds, this`issued, this`executed, this`target
    {
      Coherent(cmds, issued, executed, target)
    }

    /**
     * The invariant between two calls of the proxy: no barrier or exit is
     * pending, the worker runs exactly while its thread is joinable, and each
     * cached property holds the value last issued for it.
     */
    ghost predicate Valid()
      reads this
    {
      Invariant(cmds, issued, executed, target, joinable, hasImpl,
        vertexShader, vertexShaderCode, pixelShader, pixelShaderCode)
    }

    /** The cached value of `key`. */
    function Cached(key: CacheKey): Ptr
      reads this
    {
      match key
      case VertexShaderKey => vertexShader
      case VertexShaderCodeKey => vertexShaderCode
      case PixelShaderKey => pixelShader
      case PixelShaderCodeKey => pixelShaderCode
    }

    /** No cached state changed. */
    twostate predicate CacheKept()
      reads this`vertexShader, this`vertexShaderCode, this`pixelShader, this`pixelShaderCode, this`currentFrameBuffer
    {
      vertexShader == old(vertexShader) && vertexShaderCode == old(vertexShaderCode) &&
      pixelShader == old(pixelShader) && pixelShaderCode == old(pixelShaderCode) &&
      currentFrameBuffer == old(currentFrameBuffer)
    }

    /**
     * `c` was pushed at the front of the buffer. When the buffer was full the
     * push waited for the worker to run the oldest command first.
     */
    twostate predicate Pushed(c: Cmd)
      reads this`cmds, this`issued, this`executed, this`target, this`hasImpl, this`joinable
    {
      issued == old(issued) + [c] &&
      hasImpl == old(hasImpl) && joinable == old(joinable) &&
      cmds == [c] + Room(old(cmds)) &&
      executed == old(executed) + Overflow(old(cmds)) &&
      target == old(target) + Effects(Overflow(old(cmds)))
    }

    /** The proxy as built, before `run`: no renderer, no worker, an empty buffer of capacity 32. */
    constructor ()
      ensures Valid()
      ensures cmds == [] && !hasImpl && !joinable && target == []
      ensures issued == [] && executed == []
      ensures currentFrameBuffer == Null && vertexShader == Null && pixelShader == Null
      ensures vertexShaderCode == Null && pixelShaderCode == Null
    {
      cmds := [];
      hasImpl, joinable := false, false;
      target := [];
      currentFrameBuffer, vertexShaderCode, pixelShaderCode := Null, Null, Null;
      vertexShader, pixelShader := Null, Null;
      issued, executed := [], [];
    }

    /**
     * Attaches a renderer and starts the worker, on a proxy that has issued
     * nothing yet: the setters bind the renderer attached when they are
     * issued, so a command issued earlier would be bound to no renderer.
     */
    method Run()
      requires Valid() && !joinable && issued == []
      modifies this
      ensures Valid() && hasImpl && joinable
      ensures cmds == old(cmds) && target == old(target) && CacheKept()
      ensures issued == old(issued) && executed == old(executed)
    {
      hasImpl := true;
      joinable := true;
    }

    // -------------------------------------------------------------------------
    // The worker.

    /**
     * The worker took the oldest command off the back of the buffer and ran
     * it: the renderer received its calls, a read-back stored `fb`, and the
     * exit detached the renderer. Nothing else changed.
     */
    twostate predicate Popped(fb: Ptr)
      requires old(cmds) != []
      reads this
    {
      var c := old(cmds[|cmds| - 1]);
      cmds == old(cmds[..|cmds| - 1]) &&
      executed == old(executed) + [c] &&
      target == old(target) + Forward(c) &&
      hasImpl == !c.ExitRenderingThread? &&
      currentFrameBuffer == (if c.GetFramebufferImpl? then fb else old(currentFrameBuffer))
    }

    /**
     * One turn of the worker loop: pop the oldest command and run it. `fb`
     * stands for the framebuffer the renderer reports, used only when the
     * command is the framebuffer read-back.
     */
    method WorkerStep(fb: Ptr)
      requires Consistent() && hasImpl && cmds != []
      modifies this`cmds, this`executed, this`target, this`currentFrameBuffer, this`hasImpl
      ensures Consistent() && Popped(fb)
    {
      var c := cmds[|cmds| - 1];
      PopKeepsCoherent(cmds, issued, executed, target);
      cmds, executed, target, currentFrameBuffer, hasImpl :=
        cmds[..|cmds| - 1], executed + [c], target + Forward(c),
        if c.GetFramebufferImpl? then fb else currentFrameBuffer, !c.ExitRenderingThread?;
    }

    /**
     * Pushes `c` at the front of the buffer. A push on a full buffer waits
     * until the worker has removed one command, so it needs a live worker.
     */
    method Push(c: Cmd)
      requires Consistent() && DeferredFrom(cmds, 0)
      requires c.IsQueueable() && (|cmds| < Capacity || hasImpl)
      modifies this`cmds, this`issued, this`executed, this`target
      ensures Consistent()
      ensures issued == old(issued) + [c] && cmds == [c] + Room(old(cmds))
      ensures executed == old(executed) + Overflow(old(cmds)) && target == old(target) + Effects(Overflow(old(cmds)))
      ensures DeferredFrom(cmds, 1)
      ensures c.IsDeferred() ==> DeferredFrom(cmds, 0)
      ensures target + Effects(Reversed(cmds)) == old(target) + Effects(Reversed(old(cmds)) + [c])
    {
      PushedCoherent(c, cmds, issued, executed, target);
      PushedDeferred(c, cmds);
      PushedPending(c, cmds, target);
      cmds, issued, executed, target :=
        [c] + Room(cmds), issued + [c], executed + Overflow(cmds), target + Effects(Overflow(cmds));
    }


    /**
     * Every deferred setter: records in the cache the value `c` sets, if it
     * sets a cached property, pushes `c` and reports success at once.
     */
    method Defer(c: Cmd) returns (res: RenderResult)
      requires Valid() && c.IsSetterCommand() && c.IsDeferred() && c.IsQueueable() && (|cmds| < Capacity || hasImpl)
      modifies this`cmds, this`issued, this`executed, this`target
      modifies this`vertexShader, this`vertexShaderCode, this`pixelShader, this`pixelShaderCode
      ensures Valid() && res == Ok && Pushed(c)
      ensures vertexShader == CmdSetting(c, VertexShaderKey).GetOr(old(vertexShader))
      ensures vertexShaderCode == CmdSetting(c, VertexShaderCodeKey).GetOr(old(vertexShaderCode))
      ensures pixelShader == CmdSetting(c, PixelShaderKey).GetOr(old(pixelShader))
      ensures pixelShaderCode == CmdSetting(c, PixelShaderCodeKey).GetOr(old(pixelShaderCode))
    {
      PushedCoherent(c, cmds, issued, executed, target);
      PushedDeferred(c, cmds);
      CacheAfterIssue(issued, c, vertexShader, vertexShaderCode, pixelShader, pixelShaderCode);
      cmds, issued, executed, target :=
        [c] + Room(cmds), issued + [c], executed + Overflow(cmds), target + Effects(Overflow(cmds));
      vertexShader, vertexShaderCode, pixelShader, pixelShaderCode :=
        CmdSetting(c, VertexShaderKey).GetOr(vertexShader), CmdSetting(c, VertexShaderCodeKey).GetOr(vertexShaderCode),
        CmdSetting(c, PixelShaderKey).GetOr(pixelShader), CmdSetting(c, PixelShaderCodeKey).GetOr(pixelShaderCode);
      res := Ok;
    }

    // -------------------------------------------------------------------------
    // Deferred calls: each pushes one command and returns `Ok`.

    method SetInputLayout(layout: Ptr) returns (res: RenderResult)
      requires Valid() && (|cmds| < Capacity || hasImpl)
      modifies this
      ensures Valid() && res == Ok && Pushed(Bound(SetState(StateSetting.SetInputLayout(layout)))) && CacheKept()
    {
      res := Defer(Bound(SetState(StateSetting.SetInputLayout(layout))));
    }

    /** Copies `count` entries of each caller array, since the caller's memory may be gone when the command runs. */
    method SetVertexBuffers(startSlot: nat, count: nat, buffers: seq<Ptr>, strides: seq<nat>, offsets: seq<nat>)
      returns (res: RenderResult)
      requires count <= |buffers| && count <= |strides| && count <= |offsets|
      requires Valid() && (|cmds| < Capacity || hasImpl)
      modifies this
      ensures Valid() && res == Ok && CacheKept()
      ensures Pushed(VertexBuffersSnapshot(startSlot, count, buffers, strides, offsets))
    {
      res := Defer(VertexBuffersSnapshot(startSlot, count, buffers, strides, offsets));
    }

    method SetIndexBuffer(buffer: Ptr, indexFormat: nat) returns (res: RenderResult)
      requires Valid() && (|cmds| < Capacity || hasImpl)
      modifies this
      ensures Valid() && res == Ok && Pushed(Bound(SetState(StateSetting.SetIndexBuffer(buffer, indexFormat)))) && CacheKept()
    {
      res := Defer(Bound(SetState(StateSetting.SetIndexBuffer(buffer, indexFormat))));
    }

    method SetPrimitiveTopology(topology: nat) returns (res: RenderResult)
      requires Valid() && (|cmds| < Capacity || hasImpl)
      modifies this
      ensures Valid() && res == Ok && Pushed(Bound(SetState(StateSetting.SetPrimitiveTopology(topology)))) && CacheKept()
    {
      res := Defer(Bound(SetState(StateSetting.SetPrimitiveTopology(topology))));
    }

    /** Records the shader in the cache at issue time, then defers the call. */
    method SetVertexShader(shader: Ptr) returns (res: RenderResult)
      requires Valid() && (|cmds| < Capacity || hasImpl)
      modifies this
      ensures Valid() && res == Ok && Pushed(Bound(SetState(StateSetting.SetVertexShader(shader))))
      ensures vertexShader == shader && vertexShaderCode == old(vertexShaderCode)
      ensures pixelShader == old(pixelShader) && pixelShaderCode == old(pixelShaderCode)
      ensures currentFrameBuffer == old(currentFrameBuffer)
    {
      res := Defer(Bound(SetState(StateSetting.SetVertexShader(shader))));
    }

    /** Records the shader code in the cache at issue time, then defers the call. */
    method SetVertexShaderCode(code: Ptr) returns (res: RenderResult)
      requires Valid() && (|cmds| < Capacity || hasImpl)
      modifies this
      ensures Valid() && res == Ok && Pushed(Bound(SetState(StateSetting.SetVertexShaderCode(code))))
      ensures vertexShaderCode == code && vertexShader == old(vertexShader)
      ensures pixelShader == old(pixelShader) && pixelShaderCode == old(pixelShaderCode)
      ensures currentFrameBuffer == old(currentFrameBuffer)
    {
      res := Defer(Bound(SetState(StateSetting.SetVertexShaderCode(code))));
    }

    /** Copies the `sz` bytes at the caller's pointer (`mem` is the memory from that pointer on). */
    method SetVsVariableValue(name: string, mem: seq<Byte>, sz: nat) returns (res: RenderResult)
      requires sz <= |mem|
      requires Valid() && (|cmds| < Capacity || hasImpl)
      modifies this
      ensures Valid() && res == Ok && Pushed(VsVariableValueImpl(name, mem[..sz])) && CacheKept()
    {
      res := Defer(VsVariableValueImpl(name, mem[..sz]));
    }

    /** Copies the `sz` bytes at the caller's pointer (`mem` is the memory from that pointer on). */
    method SetVsVariablePointer(name: string, mem: seq<Byte>, sz: nat) returns (res: RenderResult)
      requires sz <= |mem|
      requires Valid() && (|cmds| < Capacity || hasImpl)
      modifies this
      ensures Valid() && res == Ok && Pushed(VsVariablePointerImpl(name, mem[..sz])) && CacheKept()
    {
      res := Defer(VsVariablePointerImpl(name, mem[..sz]));
    }

    method SetVsSampler(name: string, sampler: Ptr) returns (res: RenderResult)
      requires Valid() && (|cmds| < Capacity || hasImpl)
      modifies this
      ensures Valid() && res == Ok && Pushed(Bound(SetState(StateSetting.SetVsSampler(name, sampler)))) && CacheKept()
    {
      res := Defer(Bound(SetState(StateSetting.SetVsSampler(name, sampler))));
    }

    method SetRasterizerState(state: Ptr) returns (res: RenderResult)
      requires Valid() && (|cmds| < Capacity || hasImpl)
      modifies this
      ensures Valid() && res == Ok && Pushed(Bound(SetState(StateSetting.SetRasterizerState(state)))) && CacheKept()
    {
      res := Defer(Bound(SetState(StateSetting.SetRasterizerState(state))));
    }

    method SetDepthStencilState(state: Ptr, stencilRef: int) returns (res: RenderResult)
      requires Valid() && (|cmds| < Capacity || hasImpl)
      modifies this
      ensures Valid() && res == Ok && Pushed(Bound(SetState(StateSetting.SetDepthStencilState(state, stencilRef)))) && CacheKept()
    {
      res := Defer(Bound(SetState(StateSetting.SetDepthStencilState(state, stencilRef))));
    }

    /** Records the shader in the cache at issue time, then defers the call. */
    method SetPixelShader(shader: Ptr) returns (res: RenderResult)
      requires Valid() && (|cmds| < Capacity || hasImpl)
      modifies this
      ensures Valid() && res == Ok && Pushed(Bound(SetState(StateSetting.SetPixelShader(shader))))
      ensures pixelShader == shader && pixelShaderCode == old(pixelShaderCode)
      ensures vertexShader == old(vertexShader) && vertexShaderCode == old(vertexShaderCode)
      ensures currentFrameBuffer == old(currentFrameBuffer)
    {
      res := Defer(Bound(SetState(StateSetting.SetPixelShader(shader))));
    }

    /** Records the shader code in the cache at issue time, then defers the call. */
    method SetPixelShaderCode(code: Ptr) returns (res: RenderResult)
      requires Valid() && (|cmds| < Capacity || hasImpl)
      modifies this
      ensures Valid() && res == Ok && Pushed(Bound(SetState(StateSetting.SetPixelShaderCode(code))))
      ensures pixelShaderCode == code && pixelShader == old(pixelShader)
      ensures vertexShader == old(vertexShader) && vertexShaderCode == old(vertexShaderCode)
      ensures currentFrameBuffer == old(currentFrameBuffer)
    {
      res := Defer(Bound(SetState(StateSetting.SetPixelShaderCode(code))));
    }

    /** Copies the `sz` bytes at the caller's pointer (`mem` is the memory from that pointer on). */
    method SetPsVariable(name: string, mem: seq<Byte>, sz: nat) returns (res: RenderResult)
      requires sz <= |mem|
      requires Valid() && (|cmds| < Capacity || hasImpl)
      modifies this
      ensures Valid() && res == Ok && Pushed(PsVariableImpl(name, mem[..sz])) && CacheKept()
    {
      res := Defer(PsVariableImpl(name, mem[..sz]));
    }

    method SetPsSampler(name: string, sampler: Ptr) returns (res: RenderResult)
      requires Valid() && (|cmds| < Capacity || hasImpl)
      modifies this
      ensures Valid() && res == Ok && Pushed(Bound(SetState(StateSetting.SetPsSampler(name, sampler)))) && CacheKept()
    {
      res := Defer(Bound(SetState(StateSetting.SetPsSampler(name, sampler))));
    }

    method SetBlendShader(shader: Ptr) returns (res: RenderResult)
      requires Valid() && (|cmds| < Capacity || hasImpl)
      modifies this
      ensures Valid() && res == Ok && Pushed(Bound(SetState(StateSetting.SetBlendShader(shader)))) && CacheKept()
    {
      res := Defer(Bound(SetState(StateSetting.SetBlendShader(shader))));
    }

    method SetViewport(viewport: Viewport) returns (res: RenderResult)
      requires Valid() && (|cmds| < Capacity || hasImpl)
      modifies this
      ensures Valid() && res == Ok && Pushed(Bound(SetState(StateSetting.SetViewport(viewport)))) && CacheKept()
    {
      res := Defer(Bound(SetState(StateSetting.SetViewport(viewport))));
    }

    method SetFramebufferSize(width: nat, height: nat, numSamples: nat) returns (res: RenderResult)
      requires Valid() && (|cmds| < Capacity || hasImpl)
      modifies this
      ensures Valid() && res == Ok && Pushed(Bound(SetState(StateSetting.SetFramebufferSize(width, height, numSamples)))) && CacheKept()
    {
      res := Defer(Bound(SetState(StateSetting.SetFramebufferSize(width, height, numSamples))));
    }

    method SetFramebufferFormat(pixelFormat: nat) returns (res: RenderResult)
      requires Valid() && (|cmds| < Capacity || hasImpl)
      modifies this
      ensures Valid() && res == Ok && Pushed(Bound(SetState(StateSetting.SetFramebufferFormat(pixelFormat)))) && CacheKept()
    {
      res := Defer(Bound(SetState(StateSetting.SetFramebufferFormat(pixelFormat))));
    }

    method SetRenderTargetAvailable(target': nat, targetIndex: nat, valid: bool) returns (res: RenderResult)
      requires Valid() && (|cmds| < Capacity || hasImpl)
      modifies this
      ensures Valid() && res == Ok && Pushed(Bound(SetState(StateSetting.SetRenderTargetAvailable(target', targetIndex, valid)))) && CacheKept()
    {
      res := Defer(Bound(SetState(StateSetting.SetRenderTargetAvailable(target', targetIndex, valid))));
    }

    method SetRenderTarget(target': nat, targetIndex: nat, surface: Ptr) returns (res: RenderResult)
      requires Valid() && (|cmds| < Capacity || hasImpl)
      modifies this
      ensures Valid() && res == Ok && Pushed(Bound(SetState(StateSetting.SetRenderTarget(target', targetIndex, surface)))) && CacheKept()
    {
      res := Defer(Bound(SetState(StateSetting.SetRenderTarget(target', targetIndex, surface))));
    }

    method Draw(startPos: nat, primCount: nat) returns (res: RenderResult)
      requires Valid() && (|cmds| < Capacity || hasImpl)
      modifies this
      ensures Valid() && res == Ok && Pushed(Bound(Render(RenderOp.Draw(startPos, primCount)))) && CacheKept()
    {
      res := Defer(Bound(Render(RenderOp.Draw(startPos, primCount))));
    }

    method DrawIndex(startPos: nat, primCount: nat, baseVertex: int) returns (res: RenderResult)
      requires Valid() && (|cmds| < Capacity || hasImpl)
      modifies this
      ensures Valid() && res == Ok && Pushed(Bound(Render(RenderOp.DrawIndex(startPos, primCount, baseVertex)))) && CacheKept()
    {
      res := Defer(Bound(Render(RenderOp.DrawIndex(startPos, primCount, baseVertex))));
    }

    method ClearColor(targetIndex: nat, color: Color) returns (res: RenderResult)
      requires Valid() && (|cmds| < Capacity || hasImpl)
      modifies this
      ensures Valid() && res == Ok && Pushed(Bound(Render(RenderOp.ClearColor(targetIndex, color)))) && CacheKept()
    {
      res := Defer(Bound(Render(RenderOp.ClearColor(targetIndex, color))));
    }

    method ClearDepth(depth: Float32) returns (res: RenderResult)
      requires Valid() && (|cmds| < Capacity || hasImpl)
      modifies this
      ensures Valid() && res == Ok && Pushed(Bound(Render(RenderOp.ClearDepth(depth)))) && CacheKept()
    {
      res := Defer(Bound(Render(RenderOp.ClearDepth(depth))));
    }

    method ClearStencil(stencil: nat) returns (res: RenderResult)
      requires Valid() && (|cmds| < Capacity || hasImpl)
      modifies this
      ensures Valid() && res == Ok && Pushed(Bound(Render(RenderOp.ClearStencil(stencil)))) && CacheKept()
    {
      res := Defer(Bound(Render(RenderOp.ClearStencil(stencil))));
    }

    method ClearColorRect(targetIndex: nat, rect: Rect, color: Color) returns (res: RenderResult)
      requires Valid() && (|cmds| < Capacity || hasImpl)
      modifies this
      ensures Valid() && res == Ok && Pushed(Bound(Render(RenderOp.ClearColorRect(targetIndex, rect, color)))) && CacheKept()
    {
      res := Defer(Bound(Render(RenderOp.ClearColorRect(targetIndex, rect, color))));
    }

    method ClearDepthRect(rect: Rect, depth: Float32) returns (res: RenderResult)
      requires Valid() && (|cmds| < Capacity || hasImpl)
      modifies this
      ensures Valid() && res == Ok && Pushed(Bound(Render(RenderOp.ClearDepthRect(rect, depth)))) && CacheKept()
    {
      res := Defer(Bound(Render(RenderOp.ClearDepthRect(rect, depth))));
    }

    method ClearStencilRect(rect: Rect, stencil: nat) returns (res: RenderResult)
      requires Valid() && (|cmds| < Capacity || hasImpl)
      modifies this
      ensures Valid() && res == Ok && Pushed(Bound(Render(RenderOp.ClearStencilRect(rect, stencil)))) && CacheKept()
    {
      res := Defer(Bound(Render(RenderOp.ClearStencilRect(rect, stencil))));
    }

    // -------------------------------------------------------------------------
    // Barriers: push a command, then wait until the worker has run it.

    /**
     * The worker runs until the command at the front of the buffer, the
     * newest, has run: every command before it runs first, oldest first.
     */
    method RunThrough(fb: Ptr)
      requires Consistent() && hasImpl && cmds != []
      requires DeferredFrom(cmds, 1)
      modifies this`cmds, this`executed, this`target, this`currentFrameBuffer, this`hasImpl
      ensures Consistent() && cmds == []
      ensures target == old(target) + Effects(Reversed(old(cmds)))
      ensures hasImpl == !old(cmds[0]).ExitRenderingThread?
      ensures currentFrameBuffer == if old(cmds[0]).GetFramebufferImpl? then fb else old(currentFrameBuffer)
    {
      while cmds != []
        invariant Consistent()
        invariant cmds != [] ==> cmds[0] == old(cmds[0])
        invariant DeferredFrom(cmds, 1)
        invariant cmds != [] ==> hasImpl && currentFrameBuffer == old(currentFrameBuffer)
        invariant cmds == [] ==> hasImpl == !old(cmds[0]).ExitRenderingThread?
        invariant cmds == [] ==> currentFrameBuffer == if old(cmds[0]).GetFramebufferImpl? then fb else old(currentFrameBuffer)
        invariant target + Effects(Reversed(cmds)) == old(target) + Effects(Reversed(old(cmds)))
        decreases |cmds|
      {
        ghost var q, t := cmds, target;
        WorkerStep(fb);
        assert cmds == [] ==> q[|q| - 1] == old(cmds[0]);
        assert target + Effects(Reversed(cmds)) == t + Effects(Reversed(q)) by {
          PopKeepsPending(q, t);
        }
      }
      assert target + Effects(Reversed(cmds)) == target;
    }

    /**
     * Pushes the barrier or exit command `c` and waits for the worker to run it. As
     * the buffer is first-in first-out with one consumer, every command
     * issued earlier has run by then, and nothing is left pending.
     */
    method IssueAndWait(c: Cmd, fb: Ptr)
      requires Consistent() && DeferredFrom(cmds, 0) && hasImpl
      requires !c.IsDeferred()
      modifies this`cmds, this`issued, this`executed, this`target, this`currentFrameBuffer, this`hasImpl
      ensures Consistent() && cmds == [] && hasImpl == !c.ExitRenderingThread?
      ensures issued == old(issued) + [c] && executed == issued
      ensures target == old(target) + Effects(Reversed(old(cmds)) + [c])
      ensures currentFrameBuffer == if c.GetFramebufferImpl? then fb else old(currentFrameBuffer)
    {
      Push(c);
      RunThrough(fb);
    }

    /** Waits until the renderer has flushed everything issued before; reports `Ok` whatever the renderer returned. */
    method Flush() returns (res: RenderResult)
      requires Valid() && hasImpl
      modifies this`cmds, this`issued, this`executed, this`target, this`currentFrameBuffer, this`hasImpl
      ensures Valid() && hasImpl && res == Ok
      ensures issued == old(issued) + [FlushImpl] && executed == issued && cmds == []
      ensures target == old(target) + Effects(Reversed(old(cmds)) + [FlushImpl])
      ensures currentFrameBuffer == old(currentFrameBuffer)
    {
      CacheAfterHelper(issued, FlushImpl, vertexShader, vertexShaderCode, pixelShader, pixelShaderCode);
      IssueAndWait(FlushImpl, Null);
      res := Ok;
    }

    /** Waits until the frame is presented; reports `Ok` whatever the renderer returned. */
    method Present() returns (res: RenderResult)
      requires Valid() && hasImpl
      modifies this`cmds, this`issued, this`executed, this`target, this`currentFrameBuffer, this`hasImpl
      ensures Valid() && hasImpl && res == Ok
      ensures issued == old(issued) + [PresentImpl] && executed == issued && cmds == []
      ensures target == old(target) + Effects(Reversed(old(cmds)) + [PresentImpl])
      ensures currentFrameBuffer == old(currentFrameBuffer)
    {
      CacheAfterHelper(issued, PresentImpl, vertexShader, vertexShaderCode, pixelShader, pixelShaderCode);
      IssueAndWait(PresentImpl, Null);
      res := Ok;
    }


    /**
     * Reads the framebuffer back through the queue: the worker stores what
     * the renderer reports (`fb`) and the caller returns that stored value.
     */
    method GetFramebuffer(fb: Ptr) returns (r: Ptr)
      requires Valid() && hasImpl
      modifies this`cmds, this`issued, this`executed, this`target, this`currentFrameBuffer, this`hasImpl
      ensures Valid() && hasImpl && r == fb && currentFrameBuffer == fb
      ensures issued == old(issued) + [GetFramebufferImpl] && executed == issued && cmds == []
      ensures target == old(target) + Effects(Reversed(old(cmds)) + [GetFramebufferImpl])
    {
      CacheAfterHelper(issued, GetFramebufferImpl, vertexShader, vertexShaderCode, pixelShader, pixelShaderCode);
      IssueAndWait(GetFramebufferImpl, fb);
      r := currentFrameBuffer;
    }

    /**
     * When nothing is pending, the renderer was last given, for every cached
     * property, the value the cache holds.
     */
    lemma DrainedRendererMatchesCache(key: CacheKey)
      requires Valid() && cmds == []
      ensures LastGiven(target, key) == Cached(key)
    {
      assert executed == issued;
      LastGivenOfQueuedCalls(target, key);
      LastGivenOfEffects(executed, key);
    }

    // -------------------------------------------------------------------------
    // Direct calls: forwarded to the renderer at once, the buffer untouched.
    // `made` stands for what the renderer returns.

    /** Resource creation goes straight to the renderer, ahead of anything still queued. */
    method CreateDirect(call: Call, made: Ptr) returns (r: Ptr)
      requires Valid() && hasImpl && call.IsResourceCreation()
      modifies this
      ensures Valid() && r == made && target == old(target) + [call]
      ensures cmds == old(cmds) && issued == old(issued) && executed == old(executed)
      ensures hasImpl && joinable && CacheKept()
    {
      QueuedCallsAppend(target, [call]);
      QueuedCallsOfCreation(call);
      target := target + [call];
      r := made;
    }

    method CreateInputLayoutForCode(elemDescs: Ptr, elemsCount: nat, shaderCode: Ptr, made: Ptr) returns (r: Ptr)
      requires Valid() && hasImpl
      modifies this
      ensures Valid() && r == made && target == old(target) + [Create(ResourceRequest.CreateInputLayoutForCode(elemDescs, elemsCount, shaderCode))]
      ensures cmds == old(cmds) && issued == old(issued) && executed == old(executed) && CacheKept()
      ensures hasImpl && joinable
    {
      r := CreateDirect(Create(ResourceRequest.CreateInputLayoutForCode(elemDescs, elemsCount, shaderCode)), made);
    }

    method CreateInputLayoutForShader(elemDescs: Ptr, elemsCount: nat, shader: Ptr, made: Ptr) returns (r: Ptr)
      requires Valid() && hasImpl
      modifies this
      ensures Valid() && r == made && target == old(target) + [Create(ResourceRequest.CreateInputLayoutForShader(elemDescs, elemsCount, shader))]
      ensures cmds == old(cmds) && issued == old(issued) && executed == old(executed) && CacheKept()
      ensures hasImpl && joinable
    {
      r := CreateDirect(Create(ResourceRequest.CreateInputLayoutForShader(elemDescs, elemsCount, shader)), made);
    }

    method CreateBuffer(size: nat, made: Ptr) returns (r: Ptr)
      requires Valid() && hasImpl
      modifies this
      ensures Valid() && r == made && target == old(target) + [Create(ResourceRequest.CreateBuffer(size))]
      ensures cmds == old(cmds) && issued == old(issued) && executed == old(executed) && CacheKept()
      ensures hasImpl && joinable
    {
      r := CreateDirect(Create(ResourceRequest.CreateBuffer(size)), made);
    }

    method CreateTex2d(width: nat, height: nat, numSamples: nat, pixelFormat: nat, made: Ptr) returns (r: Ptr)
      requires Valid() && hasImpl
      modifies this
      ensures Valid() && r == made && target == old(target) + [Create(ResourceRequest.CreateTex2d(width, height, numSamples, pixelFormat))]
      ensures cmds == old(cmds) && issued == old(issued) && executed == old(executed) && CacheKept()
      ensures hasImpl && joinable
    {
      r := CreateDirect(Create(ResourceRequest.CreateTex2d(width, height, numSamples, pixelFormat)), made);
    }

    method CreateTexCube(width: nat, height: nat, numSamples: nat, pixelFormat: nat, made: Ptr) returns (r: Ptr)
      requires Valid() && hasImpl
      modifies this
      ensures Valid() && r == made && target == old(target) + [Create(ResourceRequest.CreateTexCube(width, height, numSamples, pixelFormat))]
      ensures cmds == old(cmds) && issued == old(issued) && executed == old(executed) && CacheKept()
      ensures hasImpl && joinable
    {
      r := CreateDirect(Create(ResourceRequest.CreateTexCube(width, height, numSamples, pixelFormat)), made);
    }

    method CreateSampler(desc: nat, made: Ptr) returns (r: Ptr)
      requires Valid() && hasImpl
      modifies this
      ensures Valid() && r == made && target == old(target) + [Create(ResourceRequest.CreateSampler(desc))]
      ensures cmds == old(cmds) && issued == old(issued) && executed == old(executed) && CacheKept()
      ensures hasImpl && joinable
    {
      r := CreateDirect(Create(ResourceRequest.CreateSampler(desc)), made);
    }

    // -------------------------------------------------------------------------
    // Cached getters: answered from the cache, never from the renderer.

    function GetVertexShader(): (h: Ptr)
      reads this
      requires Valid()
      ensures h == LatestIssued(issued, VertexShaderKey)
    {
      vertexShader
    }

    function GetVertexShaderCode(): (h: Ptr)
      reads this
      requires Valid()
      ensures h == LatestIssued(issued, VertexShaderCodeKey)
    {
      vertexShaderCode
    }

    function GetPixelShader(): (h: Ptr)
      reads this
      requires Valid()
      ensures h == LatestIssued(issued, PixelShaderKey)
    {
      pixelShader
    }

    function GetPixelShaderCode(): (h: Ptr)
      reads this
      requires Valid()
      ensures h == LatestIssued(issued, PixelShaderCodeKey)
    {
      pixelShaderCode
    }

    // -------------------------------------------------------------------------
    // Shutdown.

    /**
     * Stops the worker: if its thread is joinable, pushes the exit command and
     * joins, so every command queued before the exit runs first; the exit
     * detaches the renderer, which ends the worker loop.
     */
    method Release() returns (res: RenderResult)
      requires Valid()
      modifies this`cmds, this`issued, this`executed, this`target, this`currentFrameBuffer, this`hasImpl, this`joinable
      ensures Valid() && res == Ok && !hasImpl && !joinable
      ensures currentFrameBuffer == old(currentFrameBuffer)
      ensures !old(joinable) ==>
        cmds == old(cmds) && issued == old(issued) && executed == old(executed) && target == old(target)
      ensures old(joinable) ==>
        issued == old(issued) + [ExitRenderingThread] && executed == issued && cmds == [] &&
        target == old(target) + Effects(Reversed(old(cmds)))
    {
      if joinable {
        Join();
      }
      res := Ok;
    }

    /**
     * Pushes the exit command and joins the worker thread: the worker runs
     * until the exit command has detached the renderer.
     */
    method Join()
      requires Valid() && joinable
      modifies this`cmds, this`issued, this`executed, this`target, this`currentFrameBuffer, this`hasImpl, this`joinable
      ensures Valid() && !hasImpl && !joinable
      ensures currentFrameBuffer == old(currentFrameBuffer)
      ensures issued == old(issued) + [ExitRenderingThread] && executed == issued && cmds == []
      ensures target == old(target) + Effects(Reversed(old(cmds)))
    {
      CacheAfterHelper(issued, ExitRenderingThread, vertexShader, vertexShaderCode, pixelShader, pixelShaderCode);
      IssueAndWait(ExitRenderingThread, Null);
      joinable := false;
      ExitAddsNoCalls(Reversed(old(cmds)));
    }


    /**
     * What the renderer has received through the queue is the calls of a
     * prefix of the commands issued, in the order they were issued.
     */
    lemma RendererSeesIssueOrder()
      requires Consistent()
      ensures QueuedCalls(target) + Effects(Reversed(cmds)) == Effects(issued)
    {
      EffectsAppend(executed, Reversed(cmds));
    }
  }

  /** Builds the proxy and starts its worker on a freshly attached renderer. */
  method CreateAsyncRenderer() returns (r: AsyncRenderer)
    ensures fresh(r) && r.Valid() && r.hasImpl && r.joinable
    ensures r.cmds == [] && r.issued == [] && r.executed == [] && r.target == []
  {
    r := new AsyncRenderer();
    r.Run();
  }
}
