# Render process of the Vulkan renderer, modelled in Dafny

The default render process of the Intrinsic Vulkan renderer turns a renderer
configuration document into a flat list of render steps and replays that
list once per frame.

- **Render steps.** Each step is a packed 32-bit record plus a resource name.
  Bits 0-7 hold the step kind. An index step holds a pool index in bits 8-15.
  A barrier step holds the source layout in bits 8-15 and the target layout in
  bits 16-23.
- **Pools and registries.** Three pools hold the configurable passes:
  fullscreen, blur and mesh. Two constant registries lead from a type name to
  a named-pass kind, and from that kind to the pass's `render` and
  `onReinitRendering` entry points. The named passes are Debug, PerPixelPicking,
  Shadow, Lighting, VolumetricLighting and Bloom.
- **Loading.** `loadRendererConfig` does the following, in order:
  - destroys every fullscreen and mesh instance and empties those two pools
    and the step list;
  - gives up if the configuration file is missing;
  - loads the uniform-buffer section;
  - walks the step descriptors in document order:
    - a barrier descriptor appends its step;
    - a pool descriptor pushes a new instance, calls its `init`, and appends
      a step holding the instance's position narrowed to a byte;
    - a registered name appends a step with index 255 and calls the pass's
      `onReinitRendering`;
    - any other type asserts.
- **Executing.** `executeRenderSteps` dispatches each step in order: a pool
  instance's `render`, an image-layout barrier, or the `render` entry point
  found through the registry.
- **Frames.** `renderFrame` runs, in this order: the frame preparation,
  culling against the camera frustum followed by the shadow frustums, the
  steps, and the end of the frame.

## Files

- **`render_steps.dfy`** (module `RenderSteps`):
  - the packed record as a datatype over `bv32`;
  - its two constructors with round-trip contracts;
  - the two registries as constant maps.
- **`pipeline.dfy`** (module `Pipeline`) is the specification. It contains:
  - the descriptors;
  - the calls made into collaborators, recorded as a `Call` trace;
  - `Classify`, the branch chosen by a type string;
  - `AddStep`, one descriptor's effect;
  - `Build`, the descriptors applied in order and stopping at the first
    unknown type;
  - its closed form `StepsOf`, `CallsOf` and `FinalPools`;
  - `Resolve` and `Invoke`, the executor's decoding of a step and the call
    that decoding leads to.
- **`pipeline_lemmas.dfy`** (module `PipelineLemmas`): what loading and
  dispatch guarantee, proved about those functions.
- **`render_process.dfy`** (module `RenderProcess`): the stateful class
  `Default`. It has these fields:
  - the three pools, the step list and the active frustums;
  - the trace of calls made so far.

  Its methods are imperative, and each is proved against the functions of
  `Pipeline`.

In three places the model may not match what a reader expects. The first
and third follow the code; the second is a modelling choice:

- **The blur pool is never destroyed or cleared by a load.** Only the
  fullscreen and mesh pools are torn down. Blur instances therefore pile up
  across reloads. The blur steps of a later load index past the instances
  left over from earlier loads (`PipelineLemmas.LoadedPools`,
  `PipelineLemmas.LoadedPoolIndex`). A reload of the same document is
  therefore not idempotent for the blur pool.
- **An unknown type stops the load where it is.** The source asserts at an
  unknown type; the model treats that assertion as a halt, which is a
  modelling choice (see "Left out" for builds that compile assertions out).
  What does follow the code is that nothing is rolled back: the steps,
  instances and calls made by the earlier descriptors stay in place, and the
  load reports `InvalidStepType` at that position rather than leaving an
  empty pipeline.
- **The stored pool index is the pool size narrowed to a byte, minus one,
  narrowed again.** It equals the instance's position modulo 256. Once a pool
  holds more than 256 instances, a step designates an earlier instance than
  the one its descriptor created.

## Model

| member | source | states |
|---|---|---|
| RenderSteps.RenderStep.Type | IntrinsicRendererVulkan/src/IntrinsicRendererVulkanRenderProcess.cpp:100-100 | the kind is the word modulo 2^8 |
| RenderSteps.RenderStep.Index | IntrinsicRendererVulkan/src/IntrinsicRendererVulkanRenderProcess.cpp:101-101 | the pool index is the word divided by 2^8, modulo 2^8 |
| RenderSteps.RenderStep.SourceLayout | IntrinsicRendererVulkan/src/IntrinsicRendererVulkanRenderProcess.cpp:102-102 | the source layout is read from the same bits as the pool index |
| RenderSteps.RenderStep.TargetLayout | IntrinsicRendererVulkan/src/IntrinsicRendererVulkanRenderProcess.cpp:103-103 | the target layout is the word divided by 2^16, modulo 2^8 |
| RenderSteps.IndexStep | IntrinsicRendererVulkan/src/IntrinsicRendererVulkanRenderProcess.cpp:86-90 | an index step decodes to the kind and index it was built from, has target layout 0, bits 16-31 clear and the empty name |
| RenderSteps.BarrierStep | IntrinsicRendererVulkan/src/IntrinsicRendererVulkanRenderProcess.cpp:92-98 | a barrier step decodes to its kind, its source layout from bits 8-15, its target layout from bits 16-23 and its image name, with bits 24-31 clear |
| RenderSteps.IndexStepInjective | IntrinsicRendererVulkan/src/IntrinsicRendererVulkanRenderProcess.cpp:86-103 | two index steps are equal exactly when their kinds and indices are |
| RenderSteps.BarrierStepInjective | IntrinsicRendererVulkan/src/IntrinsicRendererVulkanRenderProcess.cpp:92-103 | two barrier steps are equal exactly when kind, source layout, target layout and name are, so source and target are never swapped |
| RenderSteps.RegistriesAgree | IntrinsicRendererVulkan/src/IntrinsicRendererVulkanRenderProcess.cpp:51-82 | every kind a registered name maps to has entry points, no registered kind is a built-in one, and no built-in type name is registered |
| Pipeline.Classify | IntrinsicRendererVulkan/src/IntrinsicRendererVulkanRenderProcess.cpp:217-271 | `ImageMemoryBarrier` selects the barrier branch and each of the three pool type names selects its own pool, each exactly for that string; a type string selects a named pass exactly when it is registered, and then the kind the registry maps it to, which has entry points and is not built in; no branch is selected exactly when the string is neither one of the four built-in type names nor registered (`IsKnownTypeName`) |
| Pipeline.PoolIndex | IntrinsicRendererVulkan/src/IntrinsicRendererVulkanRenderProcess.cpp:234-256 | the index stored for a pool that now holds `size` instances is `(size - 1) mod 256`, always below `size` |
| Pipeline.Narrow | IntrinsicRendererVulkan/src/IntrinsicRendererVulkanRenderProcess.cpp:236-236 | the `(uint8_t)` cast of a pool size keeps it modulo 256 |
| Pipeline.AddStep | IntrinsicRendererVulkan/src/IntrinsicRendererVulkanRenderProcess.cpp:217-271 | one descriptor fails exactly when its type name is not known, and otherwise appends exactly one step |
| Pipeline.Build | IntrinsicRendererVulkan/src/IntrinsicRendererVulkanRenderProcess.cpp:213-272 | the descriptors applied in document order; a halt is reported at a position inside the document whose type name is not known |
| Pipeline.Teardown | IntrinsicRendererVulkan/src/IntrinsicRendererVulkanRenderProcess.cpp:166-178 | one `destroy` per fullscreen instance in pool order, then one per mesh instance in pool order, and nothing for the blur pool |
| Pipeline.LoadStart | IntrinsicRendererVulkan/src/IntrinsicRendererVulkanRenderProcess.cpp:166-211 | the descriptors are applied to empty fullscreen and mesh pools, an empty step list and the kept blur pool, after the earlier calls, one `destroy` per torn-down instance and the uniform-buffer load as the last call |
| Pipeline.Resolve | IntrinsicRendererVulkan/src/IntrinsicRendererVulkanRenderProcess.cpp:122-149 | a pool step resolves to an instance of the pool its kind names, at its stored index, inside the pool; a registry entry is used only for a kind that is not built in; a barrier or registered kind never faults |
| Pipeline.Invoke | IntrinsicRendererVulkan/src/IntrinsicRendererVulkanRenderProcess.cpp:122-147 | pool and named passes get `render` with the frame time, a barrier gets no frame time |
| Pipeline.FramePrologue | IntrinsicRendererVulkan/src/IntrinsicRendererVulkanRenderProcess.cpp:278-316 | none of the calls a frame makes before the steps renders a pass or ends the frame |
| PipelineLemmas.FramePrologueOrder | IntrinsicRendererVulkan/src/IntrinsicRendererVulkanRenderProcess.cpp:278-316 | resize precedes frame start, the allocator reset precedes the per-frame and uniform-buffer updates, and culling runs against the given frustums before the draw calls are collected |
| PipelineLemmas.InvokeInjective | IntrinsicRendererVulkan/src/IntrinsicRendererVulkanRenderProcess.cpp:122-147 | different targets lead to different calls, so the recorded dispatch identifies the instance, barrier or pass each step reached |
| PipelineLemmas.GenericStepFindsItsInstance | IntrinsicRendererVulkan/src/IntrinsicRendererVulkanRenderProcess.cpp:227-257 | the instance a pool descriptor creates sits in the final pool at its position: pool size before the load plus earlier descriptors of that kind; while the pool holds at most 256 instances the stored index is that position |
| PipelineLemmas.BuildClosedForm | IntrinsicRendererVulkan/src/IntrinsicRendererVulkanRenderProcess.cpp:213-272 | when every type is known the build completes: each pool extended by its descriptors' instances, one step per descriptor in document order, and the calls of every descriptor in order |
| PipelineLemmas.BuildOutcome | IntrinsicRendererVulkan/src/IntrinsicRendererVulkanRenderProcess.cpp:213-271 | the build completes exactly when every type is known; otherwise it halts at the first unknown type, holding what the descriptors before it built |
| PipelineLemmas.BuildStopsAtHalt | IntrinsicRendererVulkan/src/IntrinsicRendererVulkanRenderProcess.cpp:268-271 | descriptors after the one that halted the build change nothing |
| PipelineLemmas.BuildOnlyAppends | IntrinsicRendererVulkan/src/IntrinsicRendererVulkanRenderProcess.cpp:213-272 | descriptors only append steps and calls, and the only calls they make are `init` and `onReinitRendering` |
| PipelineLemmas.TeardownPrecedesRebuild | IntrinsicRendererVulkan/src/IntrinsicRendererVulkanRenderProcess.cpp:166-272 | a load destroys every fullscreen instance and then every mesh instance in pool order, then loads the uniform buffers, and only then initialises or reinitialises anything |
| PipelineLemmas.CallsOfAt | IntrinsicRendererVulkan/src/IntrinsicRendererVulkanRenderProcess.cpp:227-266 | the calls of descriptor `k` directly follow those of all earlier descriptors |
| PipelineLemmas.ResolveIndexStep | IntrinsicRendererVulkan/src/IntrinsicRendererVulkanRenderProcess.cpp:122-132 | a pool step is served by its own pool at its stored index and never by the registry; an index past the pool is a fault |
| PipelineLemmas.ResolveBarrierStep | IntrinsicRendererVulkan/src/IntrinsicRendererVulkanRenderProcess.cpp:133-138 | a barrier step requests the transition of its named image from its source to its target layout |
| PipelineLemmas.ResolveNamedStep | IntrinsicRendererVulkan/src/IntrinsicRendererVulkanRenderProcess.cpp:141-147 | a named step is served by the registry entry of its kind |
| PipelineLemmas.ResolveStable | IntrinsicRendererVulkan/src/IntrinsicRendererVulkanRenderProcess.cpp:122-132 | growing the pools does not change what a dispatchable step designates |
| PipelineLemmas.AddStepKeepsResolvable | IntrinsicRendererVulkan/src/IntrinsicRendererVulkanRenderProcess.cpp:217-266 | each descriptor only grows the pools and keeps every step built so far dispatchable, the new one included |
| PipelineLemmas.BuiltStepResolves | IntrinsicRendererVulkan/src/IntrinsicRendererVulkanRenderProcess.cpp:114-151 | dispatching a built step gives back what its descriptor said: the barrier's image and both layouts, the position (mod 256) of the instance created, or the registered pass |
| PipelineLemmas.LoadThenDispatch | IntrinsicRendererVulkan/src/IntrinsicRendererVulkanRenderProcess.cpp:114-151 | executing the steps of a complete load dispatches one call per descriptor, in document order, each with its descriptor's arguments: the barrier's image and layouts, the instance (position mod 256) it created, or its registered pass |
| PipelineLemmas.LoadedPools | IntrinsicRendererVulkan/src/IntrinsicRendererVulkanRenderProcess.cpp:166-257 | after a complete load the fullscreen and mesh pools hold exactly this document's instances, while the blur pool keeps earlier loads' instances ahead of them |
| PipelineLemmas.LoadedSteps | IntrinsicRendererVulkan/src/IntrinsicRendererVulkanRenderProcess.cpp:180-272 | a complete load leaves exactly one step per descriptor, in document order, each determined by its descriptor |
| PipelineLemmas.LoadedPoolIndex | IntrinsicRendererVulkan/src/IntrinsicRendererVulkanRenderProcess.cpp:227-257 | the k-th fullscreen or mesh descriptor of a load gets index k mod 256; blur indices are offset by the blur instances left from earlier loads |
| PipelineLemmas.LoadedNamedStep | IntrinsicRendererVulkan/src/IntrinsicRendererVulkanRenderProcess.cpp:258-266 | a named descriptor yields a step of the registered kind with index 255 and one `onReinitRendering` of its pass per occurrence, after the calls of all earlier descriptors |
| RenderProcess.Default.constructor | IntrinsicRendererVulkan/src/IntrinsicRendererVulkanRenderProcess.cpp:109-112 | the process starts with empty pools, no steps, no frustums and no calls |
| RenderProcess.Default.ExecuteRenderSteps | IntrinsicRendererVulkan/src/IntrinsicRendererVulkanRenderProcess.cpp:114-151 | one dispatch per step, in step order, each the call its decoded step designates; at the first step that designates nothing it stops with that index; a valid process never stops |
| RenderProcess.Default.DestroyPasses | IntrinsicRendererVulkan/src/IntrinsicRendererVulkanRenderProcess.cpp:166-180 | `destroy` is called on every fullscreen and then every mesh instance in pool order; those pools and the step list end empty; the blur pool is kept |
| RenderProcess.Default.PushStep | IntrinsicRendererVulkan/src/IntrinsicRendererVulkanRenderProcess.cpp:215-271 | one descriptor, dispatched on its exact type string, has the effect `AddStep` specifies; an unknown type is reported and changes nothing |
| RenderProcess.Default.LoadRendererConfig | IntrinsicRendererVulkan/src/IntrinsicRendererVulkanRenderProcess.cpp:164-273 | a missing file leaves only the teardown; otherwise the state is the build from the torn-down state, its closed form when every type is known, and the outcome says whether and where it halted; the process is valid afterwards |
| RenderProcess.Default.RenderFrame | IntrinsicRendererVulkan/src/IntrinsicRendererVulkanRenderProcess.cpp:275-326 | resize precedes frame start, the allocator reset precedes the uniform updates, the active frustums are the camera frustum then the shadow frustums, the steps are dispatched as ExecuteRenderSteps states, and the frame ends unless a step faulted |

## Left out

- Opening and parsing the configuration file is out of scope. This covers `fopen`, the read stream, the JSON parser and the scratch buffer. The load takes the parsed document, or `None` for a missing file.
- The document's `name` field is left out. It is only logged.
- Descriptors whose required fields are absent or are not strings are not modelled. Every descriptor carries all of its fields.
- `Helper::mapImageLayout` is not part of this model. Neither is the hashing of an image name into a `Name`. Both are uninterpreted parameters (`Env`) that yield a byte and a name. Any truncation of a wider Vulkan layout value therefore happens inside that parameter.
- The registry of named kinds is keyed by hashed names in the source. The model keys it by the type strings themselves, so two names whose hashes collide are not modelled.
- The pass implementations are not part of this model. This covers `init`, `render` and `destroy` of the pool passes and `render` and `onReinitRendering` of the named passes. So are `UniformManager`, `ImageManager` and the camera, frustum, culling and mesh managers. Calls into all of them are recorded as `Call` events, in order.
- `updateFrustums` and `prepareForRendering` are recorded without their `_activeRefs` argument. `_getResourceByName` is not recorded: the barrier event carries the image name instead of the handle that lookup returns. `World::getActiveCamera()` is not an event either; its result is the `camera` parameter of `RenderFrame`.
- The camera frustum and the shadow frustums are inputs of `RenderFrame`. How the Shadow pass computes its frustums is not modelled.
- `RenderProcess.Default.ExecuteRenderSteps`: a pool index past the end of its pool is undefined behaviour in the source. The model reports it as a fault at that step instead. This cannot happen while the process is `Valid`, which every load establishes.
- Both assertions are modelled as halts. For an unknown type, the load returns `InvalidStepType`. For a step with no registry entry, the executor returns the fault index and the frame does not end. Builds that compile assertions out and carry on are not modelled.
- The frame time `p_DeltaT` is a `real` that is only forwarded; no floating-point behaviour is modelled.
- The lock-free visibility stacks are not part of this model. Neither are logging or profiling markers.
