/**
 * The discipline of salviar's asynchronous renderer's command buffer, on
 * values: the invariant that ties the buffer to the commands issued and to
 * the calls the renderer received, and how a push and a pop keep it.
 */
module CommandBuffer {
  import opened Wrappers
  import opened RenderCommands

  /**
   * The buffer holds at most `Capacity` commands, none of them a resource
   * creation; what has run followed by what is pending (oldest first) is what
   * was issued; and the renderer has received, besides direct calls, exactly
   * the calls of the commands that have run.
   */
  ghost predicate Coherent(cmds: seq<Cmd>, issued: seq<Cmd>, executed: seq<Cmd>, target: seq<Call>) {
    |cmds| <= Capacity &&
    (forall k :: 0 <= k < |cmds| ==> cmds[k].IsQueueable()) &&
    executed + Reversed(cmds) == issued &&
    QueuedCalls(target) == Effects(executed)
  }

  lemma Assoc<T>(a: seq<T>, b: seq<T>, c: seq<T>)
    ensures (a + b) + c == a + (b + c)
  {
  }

  /** Each cached property holds the value last issued for it. */
  ghost predicate CacheCoherent(issued: seq<Cmd>, vs: Ptr, vsc: Ptr, ps: Ptr, psc: Ptr) {
    vs == LatestIssued(issued, VertexShaderKey) &&
    vsc == LatestIssued(issued, VertexShaderCodeKey) &&
    ps == LatestIssued(issued, PixelShaderKey) &&
    psc == LatestIssued(issued, PixelShaderCodeKey)
  }

  /** Issuing `c` keeps the cache coherent when the cache takes whatever `c` sets. */
  lemma CacheAfterIssue(issued: seq<Cmd>, c: Cmd, vs: Ptr, vsc: Ptr, ps: Ptr, psc: Ptr)
    requires CacheCoherent(issued, vs, vsc, ps, psc)
    ensures CacheCoherent(issued + [c],
      CmdSetting(c, VertexShaderKey).GetOr(vs), CmdSetting(c, VertexShaderCodeKey).GetOr(vsc),
      CmdSetting(c, PixelShaderKey).GetOr(ps), CmdSetting(c, PixelShaderCodeKey).GetOr(psc))
  {
    assert (issued + [c])[..|issued|] == issued;
  }

  /** Issuing a proxy helper, a barrier or the exit leaves every cached property as it was. */
  lemma CacheAfterHelper(issued: seq<Cmd>, c: Cmd, vs: Ptr, vsc: Ptr, ps: Ptr, psc: Ptr)
    requires CacheCoherent(issued, vs, vsc, ps, psc) && !c.Bound?
    ensures CacheCoherent(issued + [c], vs, vsc, ps, psc)
  {
    assert (issued + [c])[..|issued|] == issued;
  }

  /** The worker popping the oldest command and running it keeps the buffer invariant. */
  lemma PopKeepsCoherent(cmds: seq<Cmd>, issued: seq<Cmd>, executed: seq<Cmd>, target: seq<Call>)
    requires Coherent(cmds, issued, executed, target) && cmds != []
    ensures var c := cmds[|cmds| - 1];
      Coherent(cmds[..|cmds| - 1], issued, executed + [c], target + Forward(c))
  {
    var c, init := cmds[|cmds| - 1], cmds[..|cmds| - 1];
    assert (executed + [c]) + Reversed(init) == issued by {
      Assoc(executed, [c], Reversed(init));
    }
    assert QueuedCalls(target + Forward(c)) == Effects(executed + [c]) by {
      EffectsSnoc(executed, c);
      QueuedCallsAppend(target, Forward(c));
      ForwardIsQueued(c);
    }
  }

  /** Popping and running the oldest command moves its calls from the pending work to the renderer. */
  lemma PopKeepsPending(cmds: seq<Cmd>, target: seq<Call>)
    requires cmds != []
    ensures target + Forward(cmds[|cmds| - 1]) + Effects(Reversed(cmds[..|cmds| - 1])) ==
            target + Effects(Reversed(cmds))
  {
    var x, init := cmds[|cmds| - 1], cmds[..|cmds| - 1];
    EffectsAppend([x], Reversed(init));
    EffectsOne(x);
    Assoc(target, Forward(x), Effects(Reversed(init)));
  }

  /** The exit command adds no renderer call. */
  lemma ExitAddsNoCalls(cmds: seq<Cmd>)
    ensures Effects(cmds + [ExitRenderingThread]) == Effects(cmds)
  {
    EffectsSnoc(cmds, ExitRenderingThread);
  }

  /** The renderer log after running `cs` and then `c`. */
  lemma RunOneMore(t: seq<Call>, cs: seq<Cmd>, c: Cmd)
    ensures t + Effects(cs + [c]) == t + Effects(cs) + Forward(c)
  {
    EffectsSnoc(cs, c);
    Assoc(t, Effects(cs), Forward(c));
  }

  /** Pushing a queueable command at the front of a buffer with room keeps the buffer invariant. */
  lemma PushKeepsCoherent(c: Cmd, cmds: seq<Cmd>, issued: seq<Cmd>, executed: seq<Cmd>, target: seq<Call>)
    requires Coherent(cmds, issued, executed, target) && |cmds| < Capacity && c.IsQueueable()
    ensures Coherent([c] + cmds, issued + [c], executed, target)
  {
    ReversedPushFront(c, cmds);
  }

  /** Pushing `c` in front of deferred commands leaves only `c` possibly not deferred. */
  lemma PushFrontKeepsDeferred(c: Cmd, q: seq<Cmd>)
    requires DeferredFrom(q, 0)
    ensures DeferredFrom([c] + q, 1)
    ensures c.IsDeferred() ==> DeferredFrom([c] + q, 0)
  {
  }

  /** Pushing `c` at the front of the buffer adds its calls at the end of the pending work. */
  lemma PushFrontPending(c: Cmd, q: seq<Cmd>, t: seq<Call>)
    ensures t + Effects(Reversed([c] + q)) == t + Effects(Reversed(q)) + Forward(c)
  {
    ReversedPushFront(c, q);
    RunOneMore(t, Reversed(q), c);
  }

  /** The buffer once there is room for one more command: a full buffer loses its oldest command. */
  function Room(q: seq<Cmd>): seq<Cmd> {
    if |q| < Capacity then q else q[..|q| - 1]
  }

  /** The commands the worker must run before a push on `q` can proceed: the oldest one, when `q` is full. */
  function Overflow(q: seq<Cmd>): seq<Cmd> {
    if |q| < Capacity then [] else [q[|q| - 1]]
  }

  /**
   * Making room loses nothing: the buffer after the worker's turn followed by
   * the command that turn ran is the buffer before, and a buffer within
   * capacity always has room for one more afterwards.
   */
  lemma {:induction false} RoomKeepsOrder(q: seq<Cmd>)
    requires |q| <= Capacity
    ensures Room(q) + Overflow(q) == q && |Room(q)| < Capacity
    ensures |Overflow(q)| == if |q| == Capacity then 1 else 0
  {
    if |q| == Capacity {
      assert q[..|q| - 1] + [q[|q| - 1]] == q;
    }
  }

  /** Every command of `q` from index `i` on is deferred: none of them is a barrier or the exit. */
  ghost predicate DeferredFrom(q: seq<Cmd>, i: nat) {
    forall k :: i <= k < |q| ==> q[k].IsDeferred()
  }

  /** A push, with the worker turn a full buffer forces first, keeps the buffer invariant. */
  lemma PushedCoherent(c: Cmd, cmds: seq<Cmd>, issued: seq<Cmd>, executed: seq<Cmd>, target: seq<Call>)
    requires Coherent(cmds, issued, executed, target) && c.IsQueueable()
    ensures Coherent([c] + Room(cmds), issued + [c], executed + Overflow(cmds), target + Effects(Overflow(cmds)))
  {
    if |cmds| < Capacity {
      PushKeepsCoherent(c, cmds, issued, executed, target);
      assert executed + [] == executed && target + [] == target;
    } else {
      var x := cmds[|cmds| - 1];
      PopKeepsCoherent(cmds, issued, executed, target);
      EffectsOne(x);
      PushKeepsCoherent(c, cmds[..|cmds| - 1], issued, executed + [x], target + Forward(x));
    }
  }

  /**
   * A push, with the worker turn a full buffer forces first, leaves what the
   * renderer has received followed by the pending work as it was, with the
   * pushed command's calls at the end.
   */
  lemma PushedPending(c: Cmd, cmds: seq<Cmd>, target: seq<Call>)
    requires |cmds| <= Capacity
    ensures target + Effects(Overflow(cmds)) + Effects(Reversed([c] + Room(cmds))) ==
            target + Effects(Reversed(cmds) + [c])
  {
    PushFrontPending(c, Room(cmds), target + Effects(Overflow(cmds)));
    RunOneMore(target, Reversed(cmds), c);
    if |cmds| < Capacity {
      assert target + [] == target;
    } else {
      var x := cmds[|cmds| - 1];
      EffectsOne(x);
      PopKeepsPending(cmds, target);
    }
  }

  /** A push leaves only the pushed command possibly not deferred. */
  lemma PushedDeferred(c: Cmd, cmds: seq<Cmd>)
    requires DeferredFrom(cmds, 0)
    ensures DeferredFrom([c] + Room(cmds), 1)
    ensures c.IsDeferred() ==> DeferredFrom([c] + Room(cmds), 0)
  {
    PushFrontKeepsDeferred(c, Room(cmds));
  }

  /**
   * The proxy's invariant between two calls, on the values of its fields: the
   * buffer invariant, no barrier or exit pending, the worker running exactly
   * while its thread is joinable, and a coherent cache.
   */
  ghost predicate Invariant(cmds: seq<Cmd>, issued: seq<Cmd>, executed: seq<Cmd>, target: seq<Call>,
                            joinable: bool, hasImpl: bool, vs: Ptr, vsc: Ptr, ps: Ptr, psc: Ptr) {
    Coherent(cmds, issued, executed, target) &&
    DeferredFrom(cmds, 0) &&
    joinable == hasImpl &&
    CacheCoherent(issued, vs, vsc, ps, psc)
  }
}
