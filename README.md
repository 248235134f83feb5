# salviar asynchronous renderer and sasl tree combinators, in Dafny

This project models two cores of the SALVIA code base and proves properties
of the models.

**The asynchronous renderer** (`salviar/src/async_renderer.cpp`) is a proxy
in front of a real renderer.
- Every state change, draw and clear is packed into a command and pushed at
  the front of a 32-slot bounded buffer. The call returns `ok` at once.
- A single worker thread pops commands from the back of the buffer and runs
  them against the renderer. It stops once the exit command has detached the
  renderer.
- `flush`, `present` and `get_framebuffer` are barriers: they push a command,
  then wait until the worker has run it.
- Resource creation bypasses the buffer and goes to the renderer directly.
- The vertex and pixel shaders and their code objects are cached at issue
  time. Their getters answer from the cache.

The model:
- `RenderCommands` (render_commands.dfy) defines the commands and the calls
  the renderer receives:
  - `Forward` gives what running one command does to the renderer;
  - `Effects` gives what running a sequence of commands does;
  - `LatestIssued` and `LastGiven` give the value of a cached property.
- `CommandBuffer` (command_buffer.dfy) holds the buffer invariant and the
  lemmas behind each push and pop. The central invariant is
  `executed + Reversed(cmds) == issued`: the worker runs exactly the commands
  issued, in the order of issue.
- `AsyncRendering.AsyncRenderer` (async_renderer.dfy) is the proxy as a class.
  Its fields are:
  - the buffer, newest command at index 0;
  - whether a renderer is attached;
  - whether the worker thread is joinable;
  - the log of every call the renderer received;
  - the cached states;
  - two ghost logs: the commands issued and the commands executed.

  The worker thread is the method `WorkerStep`, one pop-and-run per call. A
  caller that blocks is modelled by the worker steps that must happen before
  it can go on:
  - a push on a full buffer runs one worker step first;
  - a barrier runs the worker until the buffer is empty.

**The syntax-tree builder combinators** (`sasl/src/syntax_tree/make_tree.cpp`)
are small builder objects that build a syntax tree one call at a time:
- program, variable, type, expression and cast combinators;
- each holds the node it builds and a stack of sub-states;
- entering a child combinator pushes a state;
- `child_ended` pops that state and attaches what the child built.

`SyntaxTree` (make_tree.dfy) models each combinator as a class. The nodes live
in one shared `NodeStore` and are addressed by id. This reflects that the C++
nodes are shared pointers: the program's declaration list sees later updates
made through the variable combinator. The array-type wrapping rule of the type
combinator is the pure function `AppendLen`, and `AppendLens` folds it over
several lengths.

## Model

| member | source | states |
|---|---|---|
| RenderCommands.VertexBuffersSnapshot | salviar/src/async_renderer.cpp:127-143 | the command copies exactly `count` buffers, strides and offsets from the caller's arrays, entry for entry |
| RenderCommands.Forward | salviar/src/async_renderer.cpp:540-613 | running one command makes at most one renderer call; a bound renderer call forwards exactly that call |
| RenderCommands.OnlyExitIsSilent | salviar/src/async_renderer.cpp:540-613 | every command makes a renderer call when it runs, except the exit, which makes none |
| RenderCommands.QueuedCalls | salviar/src/async_renderer.cpp:412-444 | the calls that arrive through the queue exclude every resource creation, which takes the direct path |
| RenderCommands.Setting | salviar/src/async_renderer.cpp:163-182 | only a state call, never a resource creation, sets a cached property |
| RenderCommands.ReversedIndex | salviar/src/async_renderer.cpp:615-623 | the buffer read back to front lists its commands in the order the worker pops them: element `k` of the reversal is the buffer's `k`-th element counted from its back end (from 0) |
| RenderCommands.EffectsAppend | salviar/src/async_renderer.cpp:615-623 | running two runs of commands back to back has the effects of the first run followed by those of the second |
| RenderCommands.EffectsAreQueued | salviar/src/async_renderer.cpp:412-444 | commands that can be queued produce no resource-creation call |
| RenderCommands.LatestIssuedAfterSetting | salviar/src/async_renderer.cpp:163-182 | after a setter for a cached property, with no later setter for it, the latest issued value is that setter's value |
| RenderCommands.LastGivenOfEffects | salviar/src/async_renderer.cpp:615-623 | running the commands gives the renderer, for each cached property, the value latest issued for it |
| RenderCommands.ForwardSetting | salviar/src/async_renderer.cpp:163-182 | a command sets a cached property exactly through the call it forwards |
| RenderCommands.LastGivenOfQueuedCalls | salviar/src/async_renderer.cpp:412-444 | the direct-path creations never change what the renderer was last given for a cached property |
| RenderCommands.VertexBuffersRoundTrip | salviar/src/async_renderer.cpp:540-553 | running the vertex-buffer snapshot gives the renderer the same slot, count, buffers, strides and offsets the caller passed |
| RenderCommands.VariableRoundTrip | salviar/src/async_renderer.cpp:555-571 | running a shader-variable command gives the renderer the same name and the same `sz` bytes the caller passed, with size `sz` |
| RenderCommands.UndefinedExactlyOnEmptyCopy | salviar/src/async_renderer.cpp:540-571 | for every caller argument, running the queued command as written is undefined exactly when the caller passed zero vertex buffers, or a shader variable of zero bytes (any of the three setters); otherwise it makes the intended call |
| CommandBuffer.RoomKeepsOrder | salviar/src/async_renderer.cpp:113 | the room a push makes on a 32-slot buffer keeps the buffer's order; exactly one command is forced out, the oldest, when the buffer is full, and none otherwise |
| CommandBuffer.PushedCoherent | salviar/src/async_renderer.cpp:120-125 | a push of a queueable command keeps the buffer invariant: still first-in first-out, within capacity, and what the renderer received through the queue is the effect of the commands run |
| CommandBuffer.PushedPending | salviar/src/async_renderer.cpp:120-125 | after a push, what has run plus what is pending equals what was pending before followed by the new command |
| CommandBuffer.PushedDeferred | salviar/src/async_renderer.cpp:391-399 | pushing onto a buffer of deferred commands leaves every command but the new one deferred, so a barrier is only ever the newest command |
| CommandBuffer.PopKeepsCoherent | salviar/src/async_renderer.cpp:615-623 | the worker's pop of the oldest command, and running it, keep the buffer invariant |
| CommandBuffer.PopKeepsPending | salviar/src/async_renderer.cpp:615-623 | running the oldest command moves its effects from pending to received, so received plus pending does not change |
| CommandBuffer.ExitAddsNoCalls | salviar/src/async_renderer.cpp:607-613 | the exit command makes no renderer call |
| CommandBuffer.CacheAfterIssue | salviar/src/async_renderer.cpp:163-182 | recording a setter's value in the cache at issue time keeps every cached property equal to the value latest issued for it |
| CommandBuffer.CacheAfterHelper | salviar/src/async_renderer.cpp:391-409 | issuing a barrier or the exit leaves the cache coherent as it is |
| AsyncRendering.AsyncRenderer.constructor | salviar/src/async_renderer.cpp:113 | the proxy starts with an empty buffer, no renderer, no worker and empty caches |
| AsyncRendering.AsyncRenderer.Run | salviar/src/async_renderer.cpp:531-537 | attaching a renderer and starting the worker, on a proxy that has issued nothing, keeps the buffer and the caches |
| AsyncRendering.CreateAsyncRenderer | salviar/src/async_renderer.cpp:642-647 | the factory returns a fresh proxy with a live worker and nothing issued |
| AsyncRendering.AsyncRenderer.WorkerStep | salviar/src/async_renderer.cpp:615-623 | one worker turn removes the oldest command and runs it: the renderer receives its call, a read-back stores the framebuffer, the exit detaches the renderer, and nothing else changes |
| AsyncRendering.AsyncRenderer.Push | salviar/src/async_renderer.cpp:120-125 | the command goes to the front of the buffer; on a full buffer the oldest command runs first; the renderer will have received everything pending before followed by the new command |
| AsyncRendering.AsyncRenderer.Defer | salviar/src/async_renderer.cpp:163-172 | a deferred setter's command records any cached value it sets, is pushed, and the call reports `ok` |
| AsyncRendering.AsyncRenderer.SetInputLayout | salviar/src/async_renderer.cpp:120-125 | pushes the input-layout call, reports `ok`, cache unchanged |
| AsyncRendering.AsyncRenderer.SetVertexBuffers | salviar/src/async_renderer.cpp:127-143 | pushes a snapshot of the caller's `count` buffers, strides and offsets, reports `ok`, cache unchanged |
| AsyncRendering.AsyncRenderer.SetIndexBuffer | salviar/src/async_renderer.cpp:145-152 | pushes the index-buffer call, reports `ok`, cache unchanged |
| AsyncRendering.AsyncRenderer.SetPrimitiveTopology | salviar/src/async_renderer.cpp:154-161 | pushes the topology call, reports `ok`, cache unchanged |
| AsyncRendering.AsyncRenderer.SetVertexShader | salviar/src/async_renderer.cpp:163-172 | caches the vertex shader at issue time, pushes the call, reports `ok`; no other cached value changes |
| AsyncRendering.AsyncRenderer.SetVertexShaderCode | salviar/src/async_renderer.cpp:174-182 | caches the vertex shader code at issue time, pushes the call, reports `ok`; no other cached value changes |
| AsyncRendering.AsyncRenderer.SetVsVariableValue | salviar/src/async_renderer.cpp:184-193 | pushes a copy of the `sz` bytes at the caller's pointer, reports `ok`, cache unchanged |
| AsyncRendering.AsyncRenderer.SetVsVariablePointer | salviar/src/async_renderer.cpp:195-204 | pushes a copy of the `sz` bytes at the caller's pointer, reports `ok`, cache unchanged |
| AsyncRendering.AsyncRenderer.SetVsSampler | salviar/src/async_renderer.cpp:206-213 | pushes the sampler call, reports `ok`, cache unchanged |
| AsyncRendering.AsyncRenderer.SetRasterizerState | salviar/src/async_renderer.cpp:215-221 | pushes the rasterizer-state call, reports `ok`, cache unchanged |
| AsyncRendering.AsyncRenderer.SetDepthStencilState | salviar/src/async_renderer.cpp:223-229 | pushes the depth-stencil call with its reference value, reports `ok`, cache unchanged |
| AsyncRendering.AsyncRenderer.SetPixelShader | salviar/src/async_renderer.cpp:231-239 | caches the pixel shader at issue time, pushes the call, reports `ok`; no other cached value changes |
| AsyncRendering.AsyncRenderer.SetPixelShaderCode | salviar/src/async_renderer.cpp:241-249 | caches the pixel shader code at issue time, pushes the call, reports `ok`; no other cached value changes |
| AsyncRendering.AsyncRenderer.SetPsVariable | salviar/src/async_renderer.cpp:251-259 | pushes a copy of the `sz` bytes at the caller's pointer, reports `ok`, cache unchanged |
| AsyncRendering.AsyncRenderer.SetPsSampler | salviar/src/async_renderer.cpp:261-267 | pushes the sampler call, reports `ok`, cache unchanged |
| AsyncRendering.AsyncRenderer.SetBlendShader | salviar/src/async_renderer.cpp:269-275 | pushes the blend-shader call, reports `ok`, cache unchanged |
| AsyncRendering.AsyncRenderer.SetViewport | salviar/src/async_renderer.cpp:277-283 | pushes the viewport call, reports `ok`, cache unchanged |
| AsyncRendering.AsyncRenderer.SetFramebufferSize | salviar/src/async_renderer.cpp:285-291 | pushes the framebuffer-size call, reports `ok`, cache unchanged |
| AsyncRendering.AsyncRenderer.SetFramebufferFormat | salviar/src/async_renderer.cpp:293-299 | pushes the framebuffer-format call, reports `ok`, cache unchanged |
| AsyncRendering.AsyncRenderer.SetRenderTargetAvailable | salviar/src/async_renderer.cpp:301-308 | pushes the render-target-available call, reports `ok`, cache unchanged |
| AsyncRendering.AsyncRenderer.SetRenderTarget | salviar/src/async_renderer.cpp:310-317 | pushes the render-target call, reports `ok`, cache unchanged |
| AsyncRendering.AsyncRenderer.Draw | salviar/src/async_renderer.cpp:319-326 | pushes the draw call, reports `ok`, cache unchanged |
| AsyncRendering.AsyncRenderer.DrawIndex | salviar/src/async_renderer.cpp:328-335 | pushes the indexed draw call, reports `ok`, cache unchanged |
| AsyncRendering.AsyncRenderer.ClearColor | salviar/src/async_renderer.cpp:337-344 | pushes the colour clear, reports `ok`, cache unchanged |
| AsyncRendering.AsyncRenderer.ClearDepth | salviar/src/async_renderer.cpp:346-353 | pushes the depth clear, reports `ok`, cache unchanged |
| AsyncRendering.AsyncRenderer.ClearStencil | salviar/src/async_renderer.cpp:355-362 | pushes the stencil clear, reports `ok`, cache unchanged |
| AsyncRendering.AsyncRenderer.ClearColorRect | salviar/src/async_renderer.cpp:364-371 | pushes the colour clear of a rectangle, reports `ok`, cache unchanged |
| AsyncRendering.AsyncRenderer.ClearDepthRect | salviar/src/async_renderer.cpp:373-380 | pushes the depth clear of a rectangle, reports `ok`, cache unchanged |
| AsyncRendering.AsyncRenderer.ClearStencilRect | salviar/src/async_renderer.cpp:382-389 | pushes the stencil clear of a rectangle, reports `ok`, cache unchanged |
| AsyncRendering.AsyncRenderer.RunThrough | salviar/src/async_renderer.cpp:615-623 | the worker runs every pending command, oldest first, until the newest has run; the renderer receives all their calls in issue order |
| AsyncRendering.AsyncRenderer.IssueAndWait | salviar/src/async_renderer.cpp:391-399 | after a barrier returns, every command issued before it and the barrier itself have run, in issue order, and nothing is pending |
| AsyncRendering.AsyncRenderer.Flush | salviar/src/async_renderer.cpp:391-399 | returns only once everything issued earlier and the flush have reached the renderer, in order; reports `ok` |
| AsyncRendering.AsyncRenderer.Present | salviar/src/async_renderer.cpp:401-409 | returns only once everything issued earlier and the present have reached the renderer, in order; reports `ok` |
| AsyncRendering.AsyncRenderer.GetFramebuffer | salviar/src/async_renderer.cpp:470-480 | the read-back runs after everything issued earlier, and the caller gets the framebuffer the renderer reported |
| AsyncRendering.AsyncRenderer.DrainedRendererMatchesCache | salviar/src/async_renderer.cpp:634-639 | once nothing is pending, the renderer was last given, for each cached property, exactly the value the cache holds |
| AsyncRendering.AsyncRenderer.RendererSeesIssueOrder | salviar/src/async_renderer.cpp:615-625 | what the renderer received through the queue, followed by what is pending, is the effect of every command issued, in the order of issue |
| AsyncRendering.AsyncRenderer.CreateDirect | salviar/src/async_renderer.cpp:412-444 | a resource creation reaches the renderer at once, ahead of anything queued, and returns what the renderer made; the buffer and the cache are untouched |
| AsyncRendering.AsyncRenderer.CreateInputLayoutForCode | salviar/src/async_renderer.cpp:412-417 | forwards the input-layout creation for shader code directly and returns the renderer's result; the buffer, the cache, the renderer and the worker are kept |
| AsyncRendering.AsyncRenderer.CreateInputLayoutForShader | salviar/src/async_renderer.cpp:419-424 | forwards the input-layout creation for a vertex shader directly and returns the renderer's result; the buffer, the cache, the renderer and the worker are kept |
| AsyncRendering.AsyncRenderer.CreateBuffer | salviar/src/async_renderer.cpp:426-429 | forwards the buffer creation directly and returns the renderer's result; the buffer, the cache, the renderer and the worker are kept |
| AsyncRendering.AsyncRenderer.CreateTex2d | salviar/src/async_renderer.cpp:431-434 | forwards the 2D texture creation directly and returns the renderer's result; the buffer, the cache, the renderer and the worker are kept |
| AsyncRendering.AsyncRenderer.CreateTexCube | salviar/src/async_renderer.cpp:436-439 | forwards the cube texture creation directly and returns the renderer's result; the buffer, the cache, the renderer and the worker are kept |
| AsyncRendering.AsyncRenderer.CreateSampler | salviar/src/async_renderer.cpp:441-444 | forwards the sampler creation directly and returns the renderer's result; the buffer, the cache, the renderer and the worker are kept |
| AsyncRendering.AsyncRenderer.GetVertexShader | salviar/src/async_renderer.cpp:499-502 | answers the vertex shader latest issued, without waiting for the worker |
| AsyncRendering.AsyncRenderer.GetVertexShaderCode | salviar/src/async_renderer.cpp:504-507 | answers the vertex shader code latest issued, without waiting for the worker |
| AsyncRendering.AsyncRenderer.GetPixelShader | salviar/src/async_renderer.cpp:515-518 | answers the pixel shader latest issued, without waiting for the worker |
| AsyncRendering.AsyncRenderer.GetPixelShaderCode | salviar/src/async_renderer.cpp:494-497 | answers the pixel shader code latest issued, without waiting for the worker |
| AsyncRendering.AsyncRenderer.Release | salviar/src/async_renderer.cpp:597-605 | with a joinable worker, every command pending runs before the exit, the renderer is detached and the worker is gone; without one nothing changes; reports `ok` either way |
| AsyncRendering.AsyncRenderer.Join | salviar/src/async_renderer.cpp:599-603 | pushing the exit and joining runs every pending command, in order, then detaches the renderer; the exit itself makes no renderer call |
| SyntaxTree.TypeCodeLiteral | sasl/src/syntax_tree/make_tree.cpp:19-32 | the table has entries for codes 0 to 10: code 0 is a boolean literal, codes 1 to 8 integer literals, codes 9 and 10 real literals |
| SyntaxTree.AppendLen | sasl/src/syntax_tree/make_tree.cpp:137-155 | after a length is appended, the type stands for an array type whose lengths are the old ones followed by the new one |
| SyntaxTree.AppendLens | sasl/src/syntax_tree/make_tree.cpp:137-155 | after one or more array lengths have ended in turn, the type stands for an array type whose lengths are the old ones followed by all the new ones, in order |
| SyntaxTree.LensExtendArray | sasl/src/syntax_tree/make_tree.cpp:148-152 | lengths appended to an array type all go to that same array type, in order, and no node is created |
| SyntaxTree.ArrayOfLens | sasl/src/syntax_tree/make_tree.cpp:144-152 | lengths appended to a type that is not an array make one new array type over it with all the lengths in order, and leave the other nodes as they were |
| SyntaxTree.NodeStore.Create | sasl/src/syntax_tree/make_tree.cpp:52 | a node is created under a new id, the other nodes unchanged |
| SyntaxTree.NodeStore.Update | sasl/src/syntax_tree/make_tree.cpp:170 | an update through one holder of a node is seen by every holder, and only that node changes |
| SyntaxTree.ProgCombinator.constructor | sasl/src/syntax_tree/make_tree.cpp:40-44 | starts a program node with the given name and no declarations |
| SyntaxTree.ProgCombinator.DVar | sasl/src/syntax_tree/make_tree.cpp:46-58 | appends a new declaration, named and without a type, to the end of the program's declarations, and returns the combinator that builds it |
| SyntaxTree.VarCombinator.constructor | sasl/src/syntax_tree/make_tree.cpp:161-164 | a variable combinator starts with no declaration, no sub-state and no type combinator |
| SyntaxTree.VarCombinator.DName | sasl/src/syntax_tree/make_tree.cpp:166-172 | names the declaration; nothing else changes |
| SyntaxTree.VarCombinator.DType | sasl/src/syntax_tree/make_tree.cpp:174-179 | enters the type state and returns a fresh type combinator with no type yet |
| SyntaxTree.VarCombinator.ChildEnded | sasl/src/syntax_tree/make_tree.cpp:181-192 | pops the state; after a type the declaration's type becomes what the type combinator built; otherwise the default path, nothing changed |
| SyntaxTree.TypeCombinator.constructor | sasl/src/syntax_tree/make_tree.cpp:63-66 | a type combinator starts with no type, no sub-state and no length combinator |
| SyntaxTree.TypeCombinator.CreateIfNone | sasl/src/syntax_tree/make_tree.cpp:68-78 | with no type yet the node is created and becomes the type; with one already it is the default path and nothing changes |
| SyntaxTree.TypeCombinator.DBuildin | sasl/src/syntax_tree/make_tree.cpp:68-78 | a built-in type with the given code is created, unless there is a type already |
| SyntaxTree.TypeCombinator.DVec | sasl/src/syntax_tree/make_tree.cpp:80-91 | a vector type of the given component and size is created, unless there is a type already |
| SyntaxTree.TypeCombinator.DMat | sasl/src/syntax_tree/make_tree.cpp:93-103 | a matrix type of the given component and sizes is created, unless there is a type already |
| SyntaxTree.TypeCombinator.DAlias | sasl/src/syntax_tree/make_tree.cpp:105-115 | a struct type with the given name is created, unless there is a type already |
| SyntaxTree.TypeCombinator.DTypeQual | sasl/src/syntax_tree/make_tree.cpp:117-127 | the qualifier is set only on an existing type that has none yet; otherwise the default path and nothing changes |
| SyntaxTree.TypeCombinator.DArray | sasl/src/syntax_tree/make_tree.cpp:129-135 | with a type, enters the array state and returns a fresh expression combinator for the length; with none, the default path |
| SyntaxTree.TypeCombinator.ChildEnded | sasl/src/syntax_tree/make_tree.cpp:137-155 | after an array length, the length is appended by the wrapping rule and the state popped; in any other state nothing changes |
| SyntaxTree.ExprCombinator.constructor | sasl/src/syntax_tree/make_tree.cpp:199-202 | an expression combinator starts with no expression, no sub-state and no child combinators |
| SyntaxTree.ExprCombinator.DConstant | sasl/src/syntax_tree/make_tree.cpp:204-215 | the expression becomes a new constant node with the given text and literal kind |
| SyntaxTree.ExprCombinator.DVarExpr | sasl/src/syntax_tree/make_tree.cpp:217-226 | the expression becomes a new reference to the named variable |
| SyntaxTree.ExprCombinator.DPre | sasl/src/syntax_tree/make_tree.cpp:228-241 | on an empty combinator, the expression becomes a new prefix expression with no operand yet, and a fresh combinator for the operand is returned |
| SyntaxTree.ExprCombinator.DCast | sasl/src/syntax_tree/make_tree.cpp:243-249 | on an empty combinator, enters the cast state and returns a fresh cast combinator over a new cast node |
| SyntaxTree.ExprCombinator.ChildEnded | sasl/src/syntax_tree/make_tree.cpp:251-267 | pops the state; an operand becomes the prefix expression's operand; a finished cast replaces the expression |
| SyntaxTree.CastCombinator.constructor | sasl/src/syntax_tree/make_tree.cpp:274-278 | starts a new cast node with neither a type nor an operand |
| SyntaxTree.CastCombinator.DType | sasl/src/syntax_tree/make_tree.cpp:280-286 | enters the type state, once only, and returns a fresh type combinator |
| SyntaxTree.CastCombinator.DExpr | sasl/src/syntax_tree/make_tree.cpp:288-294 | enters the operand state, once only, and returns a fresh expression combinator |
| SyntaxTree.CastCombinator.ChildEnded | sasl/src/syntax_tree/make_tree.cpp:296-311 | pops the state; the type built becomes the cast's type, or the operand built becomes its operand |

## Left out

- Threads, the mutex, the condition variable and its spurious wake-ups are not modelled. The worker is the method `WorkerStep`, and a blocking call is the worker steps that must precede it.
- The internals of `eflib::bounded_buffer` are not modelled. The buffer is a sequence of at most 32 commands, pushed at the front and popped at the back.
- A push on a full buffer is modelled as one worker turn followed by the push. A push on a full buffer with no worker would block forever; the model excludes it by a precondition.
- What the renderer does with each call is not modelled. Calls are logged as terms, and the renderer's replies (created resources, the framebuffer) are method parameters.
- Floating-point colours, depths and rectangles are carried as opaque values.
- The unimplemented getters (`get_index_buffer`, `get_index_format`, `get_primitive_topology`, `get_render_target_available`, `get_framebuffer_format`, `get_framebuffer_size`, `get_rasterizer_state`, `get_blend_shader`) and `get_viewport` are left out. They only assert or return a default value.
- The destructor is left out. It only calls `release`, which is modelled.
- Creating the renderer implementation inside `run` is left out; `Run` stands for its attachment.
- AsyncRendering.AsyncRenderer.Flush: reports `ok` as the code does. `flush` never receives the result of `flush_impl`: the worker loop calls each command and drops its result (async_renderer.cpp:621), and `flush` returns `ok` once woken (async_renderer.cpp:397). The renderer's own result is not modelled.
- AsyncRendering.AsyncRenderer.Present: likewise, the result of `present_impl` is dropped by the worker loop (async_renderer.cpp:621), and `present` returns `ok` once woken (async_renderer.cpp:407).
- AsyncRendering.AsyncRenderer.Push: `release` sets no flag, so a later push is accepted, as in the code. In the code `release` is called only from the destructor, so no call follows it.
- AsyncRendering.AsyncRenderer.Run: requires that nothing was issued yet. A setter that binds `impl_` binds the renderer pointer held when it is issued; such a command issued before `run`, or after `release`, is bound to an uninitialised or null pointer, and running it is undefined. The helpers and the barriers bind the proxy instead and read `impl_` only when they run. The model does not record which renderer a command captured, so it excludes those orders; `create_async_renderer` calls `run` on a fresh proxy, the only order the code uses.
- AsyncRendering.AsyncRenderer.Flush, AsyncRendering.AsyncRenderer.Present, AsyncRendering.AsyncRenderer.GetFramebuffer and AsyncRendering.AsyncRenderer.IssueAndWait: require an attached renderer with a live worker. Without one, the code waits forever on its condition variable (async_renderer.cpp:397, 407, 477); the model does not capture a call that never returns.
- AsyncRendering.AsyncRenderer.CreateDirect and the six create methods: require an attached renderer. Without one, the code dereferences an unset or null renderer pointer (async_renderer.cpp:412-444), which is undefined.
- AsyncRendering.AsyncRenderer.WorkerStep: runs the corrected `Forward`, not `ForwardAsWritten`. A zero-byte shader variable or a zero-count vertex-buffer call followed by a barrier is therefore defined in the proxy model, though undefined as written (see Findings).
- `token_attr`, `create_node`, `operators_helper` and the `btc_helper::vector_of` and `matrix_of` code computations are not part of this model. Vector and matrix codes are kept as the terms `VectorOf` and `MatrixOf`.
- New nodes are assumed to start with no qualifier, as the node constructors are not part of this model.
- The `tree_combinator` base class is not part of this model. `enter` and `leave` become a push and a pop of the `states` sequence, `is_state` tests the innermost state, and a `leave` on an empty stack is excluded by a precondition. `DEFAULT_STATE_SCOPE` restores the state on exit, so it is a net no-op here.
- The parent pointers and `end()` are left out, as they only navigate back to the enclosing combinator.
- Literal kinds other than boolean, integer and real are left out.
- The `assert`s of make_tree.cpp become preconditions, and so do the dereferences of the typed node that C++ leaves unchecked.
- SyntaxTree.TypeCombinator.ChildEnded: the branch where the array state is entered with no type node (source line 140) is excluded by the invariant `Valid`. `darray` enters that state only when a type exists. As written, that branch falls through to a null dereference.

## Findings

| source | as written | input that shows it | evidently intended | confidence | as-written member | corrected member |
|---|---|---|---|---|---|---|
| salviar/src/async_renderer.cpp:540-571 | the `*_impl` helpers pass `&data[0]` and `&buffers[0]` (with `&strides[0]` and `&offsets[0]`) of the copied vectors to the renderer | `set_ps_variable(name, p, 0)` copies zero bytes, and `set_vertex_buffers(slot, 0, …)` copies empty vectors; indexing element 0 of an empty vector is undefined behaviour | forward the call with a null or past-the-end pointer and a size of zero when the copy is empty | high; not executed | RenderCommands.UndefinedExactlyOnEmptyCopy | RenderCommands.VariableRoundTrip |
