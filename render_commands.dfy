/**
 * The values that travel through salviar's asynchronous renderer: the calls a
 * renderer receives, the command objects the proxy queues, and the functions
 * that say what running a queued command does to the renderer.
 */
module RenderCommands {
  import opened Wrappers

  /** Capacity of the proxy's command buffer, fixed when the proxy is built. */
  const Capacity: nat := 32

  /** A shared pointer or handle, compared by identity; `Null` is the empty pointer. */
  datatype Ptr = Null | Obj(id: nat)

  newtype Byte = b: int | 0 <= b < 256

  /** A 32-bit float carried by its bit pattern; the model never computes with it. */
  datatype Float32 = Float32(bits: nat)

  datatype Color = Color(r: Float32, g: Float32, b: Float32, a: Float32)

  datatype Rect = Rect(x: nat, y: nat, w: nat, h: nat)

  datatype Viewport = Viewport(x: Float32, y: Float32, w: Float32, h: Float32, minz: Float32, maxz: Float32)

  /** The renderer's status code. */
  datatype RenderResult = Ok | Failed(code: nat)

  /** A state-setting call of the renderer interface. */
  datatype StateSetting =
    | SetInputLayout(layout: Ptr)
    | SetVertexBuffers(startSlot: nat, count: nat, buffers: seq<Ptr>, strides: seq<nat>, offsets: seq<nat>)
    | SetIndexBuffer(buffer: Ptr, indexFormat: nat)
    | SetPrimitiveTopology(topology: nat)
    | SetVertexShader(shader: Ptr)
    | SetVertexShaderCode(code: Ptr)
    | SetVsVariableValue(name: string, data: seq<Byte>, size: nat)
    | SetVsVariablePointer(name: string, data: seq<Byte>, size: nat)
    | SetVsSampler(name: string, sampler: Ptr)
    | SetRasterizerState(state: Ptr)
    | SetDepthStencilState(state: Ptr, stencilRef: int)
    | SetPixelShader(shader: Ptr)
    | SetPixelShaderCode(code: Ptr)
    | SetPsVariable(name: string, data: seq<Byte>, size: nat)
    | SetPsSampler(name: string, sampler: Ptr)
    | SetBlendShader(shader: Ptr)
    | SetViewport(viewport: Viewport)
    | SetFramebufferSize(width: nat, height: nat, numSamples: nat)
    | SetFramebufferFormat(pixelFormat: nat)
    | SetRenderTargetAvailable(target: nat, targetIndex: nat, valid: bool)
    | SetRenderTarget(target: nat, targetIndex: nat, surface: Ptr)

  /** A drawing or clearing call of the renderer interface. */
  datatype RenderOp =
    | Draw(startPos: nat, primCount: nat)
    | DrawIndex(startPos: nat, primCount: nat, baseVertex: int)
    | ClearColor(targetIndex: nat, color: Color)
    | ClearDepth(depth: Float32)
    | ClearStencil(stencil: nat)
    | ClearColorRect(targetIndex: nat, rect: Rect, color: Color)
    | ClearDepthRect(rect: Rect, depth: Float32)
    | ClearStencilRect(rect: Rect, stencil: nat)

  /** A resource-creation call of the renderer interface. */
  datatype ResourceRequest =
    | CreateInputLayoutForCode(elemDescs: Ptr, elemsCount: nat, shaderCode: Ptr)
    | CreateInputLayoutForShader(elemDescs: Ptr, elemsCount: nat, shader: Ptr)
    | CreateBuffer(size: nat)
    | CreateTex2d(width: nat, height: nat, numSamples: nat, pixelFormat: nat)
    | CreateTexCube(width: nat, height: nat, numSamples: nat, pixelFormat: nat)
    | CreateSampler(desc: nat)

  /**
   * One call received by the renderer (the target). Enumerations such as
   * formats, topologies and render-target kinds are carried as their codes.
   */
  datatype Call =
    | SetState(setting: StateSetting)
    | Render(op: RenderOp)
    | Flush
    | Present
    | GetFramebuffer
    | Create(request: ResourceRequest)
  {
    /** Resource creation: the calls the proxy forwards directly, bypassing the queue. */
    predicate IsResourceCreation() {
      Create?
    }
  }

  /**
   * A queued command: the bound function object the proxy pushes. `Bound`
   * is a renderer method bound to the renderer with its arguments; the others
   * are the proxy's own helpers bound to the proxy, each owning a copy of the
   * data its caller passed by pointer.
   */
  datatype Cmd =
    | Bound(call: Call)
    | VertexBuffersImpl(startSlot: nat, buffers: seq<Ptr>, strides: seq<nat>, offsets: seq<nat>)
    | VsVariableValueImpl(name: string, data: seq<Byte>)
    | VsVariablePointerImpl(name: string, data: seq<Byte>)
    | PsVariableImpl(name: string, data: seq<Byte>)
    | FlushImpl
    | PresentImpl
    | GetFramebufferImpl
    | ExitRenderingThread
  {
    /** A command whose issuer has already returned: everything but the barriers and the exit. */
    predicate IsDeferred() {
      !(FlushImpl? || PresentImpl? || GetFramebufferImpl? || ExitRenderingThread?)
    }

    /** Resource creation is never queued: the proxy forwards it directly. */
    predicate IsQueueable() {
      !(Bound? && call.IsResourceCreation())
    }

    /**
     * A command one of the proxy's deferred setters queues: a bound state
     * change other than the four the helpers make, a bound draw or clear, or
     * a helper, whose vertex-buffer copies all have the caller's count.
     */
    predicate IsSetterCommand() {
      match this
      case Bound(call) =>
        call.Render? ||
        (call.SetState? && !(call.setting.SetVertexBuffers? || call.setting.SetVsVariableValue? ||
                             call.setting.SetVsVariablePointer? || call.setting.SetPsVariable?))
      case VertexBuffersImpl(_, buffers, strides, offsets) => |buffers| == |strides| == |offsets|
      case VsVariableValueImpl(_, _) => true
      case VsVariablePointerImpl(_, _) => true
      case PsVariableImpl(_, _) => true
      case _ => false
    }
  }

  /** The command `set_vertex_buffers` queues: copies of the first `count` entries of each array. */
  function VertexBuffersSnapshot(startSlot: nat, count: nat, buffers: seq<Ptr>, strides: seq<nat>, offsets: seq<nat>): (c: Cmd)
    requires count <= |buffers| && count <= |strides| && count <= |offsets|
    ensures c.VertexBuffersImpl? && c.startSlot == startSlot
    ensures |c.buffers| == count && |c.strides| == count && |c.offsets| == count
    ensures forall i :: 0 <= i < count ==>
      c.buffers[i] == buffers[i] && c.strides[i] == strides[i] && c.offsets[i] == offsets[i]
  {
    VertexBuffersImpl(startSlot, buffers[..count], strides[..count], offsets[..count])
  }

  /**
   * The renderer calls that running `c` makes, in order: a bound call is made
   * as it was bound, a helper passes its snapshot and the snapshot's length,
   * a barrier makes its renderer call, and the exit makes none.
   */
  function Forward(c: Cmd): (r: seq<Call>)
    ensures |r| <= 1
    ensures c.Bound? ==> r == [c.call]
  {
    match c
    case Bound(call) => [call]
    case VertexBuffersImpl(slot, buffers, strides, offsets) =>
      [SetState(SetVertexBuffers(slot, |buffers|, buffers, strides, offsets))]
    case VsVariableValueImpl(name, data) => [SetState(SetVsVariableValue(name, data, |data|))]
    case VsVariablePointerImpl(name, data) => [SetState(SetVsVariablePointer(name, data, |data|))]
    case PsVariableImpl(name, data) => [SetState(SetPsVariable(name, data, |data|))]
    case FlushImpl => [Flush]
    case PresentImpl => [Present]
    case GetFramebufferImpl => [GetFramebuffer]
    case ExitRenderingThread => []
  }

  /** Every command but the exit makes a renderer call when it runs. */
  lemma OnlyExitIsSilent(c: Cmd)
    ensures Forward(c) == [] <==> c.ExitRenderingThread?
  {
  }

  /** The renderer calls made by running `cs` one after another, oldest first. */
  function Effects(cs: seq<Cmd>): (r: seq<Call>)
    ensures |r| <= |cs|
  {
    if cs == [] then [] else Effects(cs[..|cs| - 1]) + Forward(cs[|cs| - 1])
  }

  /** The calls of a renderer log that arrived through the queue (everything but resource creation). */
  function QueuedCalls(log: seq<Call>): (r: seq<Call>)
    ensures |r| <= |log|
    ensures forall k :: 0 <= k < |r| ==> !r[k].IsResourceCreation()
  {
    if log == [] then []
    else if log[|log| - 1].IsResourceCreation() then QueuedCalls(log[..|log| - 1])
    else QueuedCalls(log[..|log| - 1]) + [log[|log| - 1]]
  }

  /**
   * `s` read from the back: the command buffer keeps its newest command at the
   * front, so the buffer read backwards is the order of issue.
   */
  function Reversed<T>(s: seq<T>): (r: seq<T>)
    ensures |r| == |s|
    ensures s != [] ==> r[0] == s[|s| - 1]
  {
    if s == [] then [] else [s[|s| - 1]] + Reversed(s[..|s| - 1])
  }

  /** The four properties the proxy answers from its own cache. */
  datatype CacheKey = VertexShaderKey | VertexShaderCodeKey | PixelShaderKey | PixelShaderCodeKey

  /** The value `call` gives the property `key`, if it sets that property. */
  function Setting(call: Call, key: CacheKey): (r: Option<Ptr>)
    ensures r.Some? ==> call.SetState? && !call.IsResourceCreation()
  {
    if !call.SetState? then None
    else
      var s := call.setting;
      if s.SetVertexShader? && key == VertexShaderKey then Some(s.shader)
      else if s.SetVertexShaderCode? && key == VertexShaderCodeKey then Some(s.code)
      else if s.SetPixelShader? && key == PixelShaderKey then Some(s.shader)
      else if s.SetPixelShaderCode? && key == PixelShaderCodeKey then Some(s.code)
      else None
  }

  /** The value a command sets for `key` once it runs, if any. */
  function CmdSetting(c: Cmd, key: CacheKey): Option<Ptr> {
    if c.Bound? then Setting(c.call, key) else None
  }

  /** The value for `key` most recently issued in `cs` (`Null` when none was). */
  function LatestIssued(cs: seq<Cmd>, key: CacheKey): Ptr {
    if cs == [] then Null
    else CmdSetting(cs[|cs| - 1], key).GetOr(LatestIssued(cs[..|cs| - 1], key))
  }

  /** The value for `key` the renderer was most recently given in `log` (`Null` when none was). */
  function LastGiven(log: seq<Call>, key: CacheKey): Ptr {
    if log == [] then Null
    else Setting(log[|log| - 1], key).GetOr(LastGiven(log[..|log| - 1], key))
  }

  // ---------------------------------------------------------------------------
  // The buffer discipline: push at the front, pop at the back.

  /** `Reversed(s)` holds the elements of `s` last first. */
  lemma {:induction false} ReversedIndex<T>(s: seq<T>)
    ensures forall k :: 0 <= k < |s| ==> Reversed(s)[k] == s[|s| - 1 - k]
    decreases |s|
  {
    if s != [] {
      ReversedIndex(s[..|s| - 1]);
    }
  }

  /** Pushing at the front of the buffer puts the command last in the order of issue. */
  lemma {:induction false} ReversedPushFront<T>(c: T, q: seq<T>)
    ensures Reversed([c] + q) == Reversed(q) + [c]
  {
    if q == [] {
      assert [c][..0] == [];
    } else {
      var init := q[..|q| - 1];
      assert ([c] + q)[..|q|] == [c] + init;
      ReversedPushFront(c, init);
    }
  }

  // ---------------------------------------------------------------------------
  // What the renderer sees.

  /** Running two runs of commands one after the other makes the calls of each, in order. */
  lemma {:induction false} EffectsAppend(a: seq<Cmd>, b: seq<Cmd>)
    ensures Effects(a + b) == Effects(a) + Effects(b)
  {
    if b == [] {
      assert a + b == a;
    } else {
      var b' := b[..|b| - 1];
      assert (a + b)[..|a + b| - 1] == a + b';
      assert (a + b)[|a + b| - 1] == b[|b| - 1];
      EffectsAppend(a, b');
    }
  }

  /** The queued part of a log that grows at the end grows by the queued part of the new calls. */
  lemma {:induction false} QueuedCallsAppend(a: seq<Call>, b: seq<Call>)
    ensures QueuedCalls(a + b) == QueuedCalls(a) + QueuedCalls(b)
  {
    if b == [] {
      assert a + b == a;
    } else {
      var b' := b[..|b| - 1];
      assert (a + b)[..|a + b| - 1] == a + b';
      assert (a + b)[|a + b| - 1] == b[|b| - 1];
      QueuedCallsAppend(a, b');
    }
  }

  /** Every call a queued command makes counts as queued: commands never create resources. */
  lemma {:induction false} EffectsAreQueued(cs: seq<Cmd>)
    requires forall k :: 0 <= k < |cs| ==> cs[k].IsQueueable()
    ensures QueuedCalls(Effects(cs)) == Effects(cs)
  {
    if cs != [] {
      var c := cs[|cs| - 1];
      EffectsAreQueued(cs[..|cs| - 1]);
      QueuedCallsAppend(Effects(cs[..|cs| - 1]), Forward(c));
      ForwardIsQueued(c);
    }
  }

  /** A queueable command makes no resource-creation call. */
  lemma ForwardIsQueued(c: Cmd)
    requires c.IsQueueable()
    ensures QueuedCalls(Forward(c)) == Forward(c)
  {
    if c.ExitRenderingThread? {
    } else {
      QueuedCallsOne(Forward(c)[0]);
    }
  }

  /** A single call that is not a resource creation arrives through the queue. */
  lemma QueuedCallsOne(call: Call)
    requires !call.IsResourceCreation()
    ensures QueuedCalls([call]) == [call]
  {
    assert [call][..0] == [];
  }

  /** Adding one command to a run adds exactly that command's calls. */
  lemma EffectsSnoc(cs: seq<Cmd>, c: Cmd)
    ensures Effects(cs + [c]) == Effects(cs) + Forward(c)
  {
    assert (cs + [c])[..|cs|] == cs;
  }

  /** A single command makes exactly its own calls. */
  lemma EffectsOne(c: Cmd)
    ensures Effects([c]) == Forward(c)
  {
    assert [c][..0] == [];
  }

  /** A log of resource creations only has no queued calls. */
  lemma QueuedCallsOfCreation(call: Call)
    requires call.IsResourceCreation()
    ensures QueuedCalls([call]) == []
  {
    assert [call][..0] == [];
  }

  // ---------------------------------------------------------------------------
  // The cache against the renderer.

  /**
   * A value issued for `key` stays the latest issued value while no later
   * command sets `key` again.
   */
  lemma {:induction false} LatestIssuedAfterSetting(before: seq<Cmd>, c: Cmd, after: seq<Cmd>, key: CacheKey)
    requires CmdSetting(c, key).Some?
    requires forall k :: 0 <= k < |after| ==> CmdSetting(after[k], key).None?
    ensures LatestIssued(before + [c] + after, key) == CmdSetting(c, key).value
  {
    var all := before + [c] + after;
    if after == [] {
      assert all[..|all| - 1] == before;
    } else {
      var after' := after[..|after| - 1];
      assert all[..|all| - 1] == before + [c] + after';
      assert all[|all| - 1] == after[|after| - 1];
      LatestIssuedAfterSetting(before, c, after', key);
    }
  }

  /** A log that grows by at most one call: the latest value given is the new call's setting, if any. */
  lemma LastGivenSnoc(log: seq<Call>, tail: seq<Call>, key: CacheKey)
    requires |tail| <= 1
    ensures LastGiven(log + tail, key) ==
      if tail == [] then LastGiven(log, key) else Setting(tail[0], key).GetOr(LastGiven(log, key))
  {
    if tail == [] {
      assert log + tail == log;
    } else {
      assert (log + tail)[..|log + tail| - 1] == log;
    }
  }

  /**
   * Once a run of commands has executed, the value the renderer was last
   * given for each cached property is the value last issued for it.
   */
  lemma {:induction false} LastGivenOfEffects(cs: seq<Cmd>, key: CacheKey)
    ensures LastGiven(Effects(cs), key) == LatestIssued(cs, key)
  {
    if cs != [] {
      var init, c := cs[..|cs| - 1], cs[|cs| - 1];
      LastGivenOfEffects(init, key);
      LastGivenSnoc(Effects(init), Forward(c), key);
      ForwardSetting(c, key);
    }
  }

  /** A command sets a cached property exactly when the renderer call it makes does. */
  lemma ForwardSetting(c: Cmd, key: CacheKey)
    ensures Forward(c) == [] ==> CmdSetting(c, key).None?
    ensures Forward(c) != [] ==> Setting(Forward(c)[0], key) == CmdSetting(c, key)
  {
    if !c.Bound? {
      assert Forward(c) == [] || !Forward(c)[0].SetState? || Forward(c)[0].setting.SetVertexBuffers? ||
        Forward(c)[0].setting.SetVsVariableValue? || Forward(c)[0].setting.SetVsVariablePointer? ||
        Forward(c)[0].setting.SetPsVariable?;
    }
  }

  /** Resource creation never sets a cached property, so leaving it out of a log changes nothing. */
  lemma {:induction false} LastGivenOfQueuedCalls(log: seq<Call>, key: CacheKey)
    ensures LastGiven(QueuedCalls(log), key) == LastGiven(log, key)
  {
    if log != [] {
      var call := log[|log| - 1];
      LastGivenOfQueuedCalls(log[..|log| - 1], key);
      if !call.IsResourceCreation() {
        LastGivenSnoc(QueuedCalls(log[..|log| - 1]), [call], key);
      }
    }
  }

  // ---------------------------------------------------------------------------
  // Argument snapshots.

  /** What the renderer receives for `set_vertex_buffers` is exactly what its caller passed. */
  lemma VertexBuffersRoundTrip(startSlot: nat, count: nat, buffers: seq<Ptr>, strides: seq<nat>, offsets: seq<nat>)
    requires count <= |buffers| && count <= |strides| && count <= |offsets|
    ensures Forward(VertexBuffersSnapshot(startSlot, count, buffers, strides, offsets)) ==
      [SetState(SetVertexBuffers(startSlot, count, buffers[..count], strides[..count], offsets[..count]))]
  {
  }

  /**
   * What the renderer receives for the three shader-variable setters is the
   * first `sz` bytes at the caller's pointer, and `sz` itself.
   */
  lemma VariableRoundTrip(name: string, mem: seq<Byte>, sz: nat)
    requires sz <= |mem|
    ensures Forward(VsVariableValueImpl(name, mem[..sz])) == [SetState(SetVsVariableValue(name, mem[..sz], sz))]
    ensures Forward(VsVariablePointerImpl(name, mem[..sz])) == [SetState(SetVsVariablePointer(name, mem[..sz], sz))]
    ensures Forward(PsVariableImpl(name, mem[..sz])) == [SetState(SetPsVariable(name, mem[..sz], sz))]
  {
  }

  /**
   * A snapshot helper with an empty copy: the vertex-buffer helper reads
   * element 0 of each of its three copies, the variable helpers element 0
   * of their bytes.
   */
  predicate HasEmptySnapshot(c: Cmd) {
    (c.VertexBuffersImpl? && (|c.buffers| == 0 || |c.strides| == 0 || |c.offsets| == 0)) ||
    ((c.VsVariableValueImpl? || c.VsVariablePointerImpl? || c.PsVariableImpl?) && |c.data| == 0)
  }

  /**
   * Running a command as the helpers are written: each takes the address of
   * element 0 of its copy, which is undefined behaviour when the copy is
   * empty. `None` stands for that undefined run.
   */
  function ForwardAsWritten(c: Cmd): Option<seq<Call>> {
    if HasEmptySnapshot(c) then None else Some(Forward(c))
  }

  /**
   * For every argument a caller can pass: as written, running the command a
   * setter queues is undefined exactly when the caller passed zero vertex
   * buffers or a variable of zero bytes; otherwise it makes the intended call.
   */
  lemma UndefinedExactlyOnEmptyCopy(startSlot: nat, count: nat, buffers: seq<Ptr>, strides: seq<nat>, offsets: seq<nat>,
                                    name: string, mem: seq<Byte>, sz: nat)
    requires count <= |buffers| && count <= |strides| && count <= |offsets|
    requires sz <= |mem|
    ensures ForwardAsWritten(VertexBuffersSnapshot(startSlot, count, buffers, strides, offsets)).None? <==> count == 0
    ensures ForwardAsWritten(VsVariableValueImpl(name, mem[..sz])).None? <==> sz == 0
    ensures ForwardAsWritten(VsVariablePointerImpl(name, mem[..sz])).None? <==> sz == 0
    ensures ForwardAsWritten(PsVariableImpl(name, mem[..sz])).None? <==> sz == 0
    ensures count != 0 ==>
      ForwardAsWritten(VertexBuffersSnapshot(startSlot, count, buffers, strides, offsets)) ==
      Some([SetState(SetVertexBuffers(startSlot, count, buffers[..count], strides[..count], offsets[..count]))])
    ensures sz != 0 ==>
      ForwardAsWritten(VsVariableValueImpl(name, mem[..sz])) == Some([SetState(SetVsVariableValue(name, mem[..sz], sz))])
    ensures sz != 0 ==>
      ForwardAsWritten(VsVariablePointerImpl(name, mem[..sz])) == Some([SetState(SetVsVariablePointer(name, mem[..sz], sz))])
    ensures sz != 0 ==>
      ForwardAsWritten(PsVariableImpl(name, mem[..sz])) == Some([SetState(SetPsVariable(name, mem[..sz], sz))])
  {
  }
}
