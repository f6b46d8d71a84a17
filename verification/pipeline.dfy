/** The pure specification of the render process: how a renderer configuration
    is turned into pool instances, a step sequence and a list of calls into the
    pass implementations, and how each step is dispatched when a frame is
    rendered. The class in module RenderProcess is proved against these
    functions. */
module Pipeline {
  import opened RenderSteps

  datatype Option<T> = None | Some(value: T)

  /** The three pools of configurable passes. */
  datatype GenericKind = Fullscreen | Mesh | Blur

  /** The step kind of the steps that index the pool of `kind`. */
  function KindType(kind: GenericKind): bv8 {
    match kind
    case Fullscreen => RenderPassGenericFullscreen
    case Mesh => RenderPassGenericMesh
    case Blur => RenderPassGenericBlur
  }

  /** One entry of the `renderSteps` list of a configuration document: its
      `type`, the fields a barrier reads, and the rest, which a pool pass's
      `init` receives uninterpreted. */
  datatype StepDesc = StepDesc(
    typeName: string,
    sourceImageLayout: string,
    targetImageLayout: string,
    image: string,
    params: string)

  /** A parsed configuration document: the uniform-buffer section, handed to
      the uniform manager as is, and the step descriptors in document order. */
  datatype ConfigDoc = ConfigDoc(uniformBuffers: string, renderSteps: seq<StepDesc>)

  /** Collaborators the loader consults without knowing their code: the
      layout-name table and the interning of resource names. */
  datatype Env = Env(mapImageLayout: string -> bv8, intern: string -> Name)

  /** A pool instance, identified by the descriptor its `init` received. */
  datatype GenericPass = GenericPass(desc: StepDesc)

  /** A handle of the entity system (a frustum, a camera). */
  type Ref = nat

  /** A call the render process makes into a collaborator, in the order made. */
  datatype Call =
    | Destroy(kind: GenericKind, position: nat)
    | LoadUniformBuffers(section: string)
    | Init(kind: GenericKind, position: nat, desc: StepDesc)
    | ReinitRendering(pass: NamedPass)
    | Render(kind: GenericKind, position: nat, deltaT: real)
    | RenderNamed(pass: NamedPass, deltaT: real)
    | InsertImageMemoryBarrier(image: Name, sourceLayout: bv8, targetLayout: bv8)
    | ResizeSwapChain
    | BeginFrame
    | UpdateCameraFrustums
    | PrepareShadowFrustums
    | PrepareFrustumsForRendering
    | ResetUniformAllocator
    | UpdatePerFrameUniformBufferData(camera: Ref)
    | UpdateUniformBuffers
    | CullNodes(frustums: seq<Ref>)
    | CollectDrawCallsAndMeshComponents
    | UpdatePerInstanceData(frustumIndex: nat)
    | EndFrame

  datatype Pools = Pools(fullscreen: seq<GenericPass>, blur: seq<GenericPass>, mesh: seq<GenericPass>) {
    function Pool(kind: GenericKind): seq<GenericPass> {
      match kind
      case Fullscreen => fullscreen
      case Mesh => mesh
      case Blur => blur
    }

    function WithPool(kind: GenericKind, pool: seq<GenericPass>): (r: Pools)
      ensures r.Pool(kind) == pool
      ensures forall other :: other != kind ==> r.Pool(other) == Pool(other)
    {
      match kind
      case Fullscreen => this.(fullscreen := pool)
      case Mesh => this.(mesh := pool)
      case Blur => this.(blur := pool)
    }

    /** Every pool of `this` is a prefix of the same pool of `later`. */
    predicate GrowsTo(later: Pools) {
      forall kind :: |Pool(kind)| <= |later.Pool(kind)| && later.Pool(kind)[..|Pool(kind)|] == Pool(kind)
    }
  }

  /** What the loader has built so far: the pools, the step sequence and the
      calls made. */
  datatype Stage = Stage(pools: Pools, steps: seq<RenderStep>, calls: seq<Call>)

  datatype LoadOutcome = Loaded | FileMissing | InvalidStepType(index: nat)

  // ----- Building the step sequence -------------------------------------------

  /** The branch of the loader a descriptor type selects. */
  datatype StepClass = BarrierClass | GenericClass(kind: GenericKind) | NamedClass(stepType: bv8) | UnknownClass

  /** The type strings the loader accepts: the barrier, the three pool kinds
      and every registered name. */
  predicate IsKnownTypeName(typeName: string) {
    typeName in {"ImageMemoryBarrier", "RenderPassGenericFullscreen", "RenderPassGenericBlur", "RenderPassGenericMesh"}
    || typeName in RenderStepTypeMapping
  }

  /** The branch chosen by the exact `type` string: the barrier and the three
      pool kinds first, then the registry, and otherwise none. */
  function Classify(typeName: string): (c: StepClass)
    ensures c.NamedClass? ==> c.stepType in RenderStepFunctionMapping && !IsBuiltInType(c.stepType)
    ensures c.NamedClass? <==> typeName in RenderStepTypeMapping
    ensures c.NamedClass? ==> c.stepType == RenderStepTypeMapping[typeName]
    ensures c == BarrierClass <==> typeName == "ImageMemoryBarrier"
    ensures c == GenericClass(Fullscreen) <==> typeName == "RenderPassGenericFullscreen"
    ensures c == GenericClass(Blur) <==> typeName == "RenderPassGenericBlur"
    ensures c == GenericClass(Mesh) <==> typeName == "RenderPassGenericMesh"
    ensures c.UnknownClass? <==> !IsKnownTypeName(typeName)
  {
    RegistriesAgree();
    if typeName == "ImageMemoryBarrier" then BarrierClass
    else if typeName == "RenderPassGenericFullscreen" then GenericClass(Fullscreen)
    else if typeName == "RenderPassGenericBlur" then GenericClass(Blur)
    else if typeName == "RenderPassGenericMesh" then GenericClass(Mesh)
    else if typeName in RenderStepTypeMapping then NamedClass(RenderStepTypeMapping[typeName])
    else UnknownClass
  }

  lemma ByteIncrement(b: bv8)
    requires b != 0xFF
    ensures (b + 1) as int == b as int + 1
  {
  }

  /** The byte holding the value `m`, counted up from zero. The direct
      conversion `m as bv8` needs the solver to relate integer and bit-vector
      arithmetic for every `m` at once, which it does only unreliably; one
      increment at a time it does not need to. */
  function ToByte(m: nat): (r: bv8)
    requires m < 256
    ensures r as int == m
  {
    if m == 0 then 0
    else
      var below := ToByte(m - 1);
      ByteIncrement(below);
      below + 1
  }

  lemma ByteDecrement(b: bv8)
    requires b != 0
    ensures (b - 1) as int == b as int - 1
  {
  }

  /** An unsigned integer narrowed to a byte, keeping its low eight bits. */
  function Narrow(x: nat): (r: bv8)
    ensures r as int == x % 256
  {
    ToByte(x % 256)
  }

  /** A byte promoted to 32 bits, decremented and narrowed again is the byte
      decremented with 8-bit wrap-around. */
  lemma BytePromotion(b: bv8)
    ensures (((b as bv32) - 1) & 0xFF) as bv8 == b - 1
  {
  }

  lemma NarrowedDecrement(size: nat, b: bv8)
    requires size >= 1 && b as int == size % 256
    ensures (b - 1) as int == (size - 1) % 256
  {
    if b == 0 {
      assert b - 1 == 0xFF;
    } else {
      ByteDecrement(b);
    }
  }

  /** The index stored for the instance just pushed onto a pool that now holds
      `size` instances: the size narrowed to a byte, minus one in 32-bit
      unsigned arithmetic, narrowed again to the byte parameter. */
  function PoolIndex(size: nat): (r: bv8)
    requires size >= 1
    ensures r as int == (size - 1) % 256
    ensures r as int < size
  {
    var narrowed := Narrow(size);
    BytePromotion(narrowed);
    NarrowedDecrement(size, narrowed);
    (((narrowed as bv32) - 1) & 0xFF) as bv8
  }

  /** The effect of one descriptor on the stage, or None where the loader
      asserts because the type is not known. */
  function AddStep(st: Stage, d: StepDesc, env: Env): (r: Option<Stage>)
    ensures r.None? <==> !IsKnownTypeName(d.typeName)
    ensures r.Some? ==> |r.value.steps| == |st.steps| + 1
  {
    match Classify(d.typeName)
    case BarrierClass =>
      var step := BarrierStep(ImageMemoryBarrier,
                              env.mapImageLayout(d.sourceImageLayout),
                              env.mapImageLayout(d.targetImageLayout),
                              env.intern(d.image));
      Some(st.(steps := st.steps + [step]))
    case GenericClass(kind) =>
      var pool := st.pools.Pool(kind) + [GenericPass(d)];
      Some(Stage(st.pools.WithPool(kind, pool),
                 st.steps + [IndexStep(KindType(kind), PoolIndex(|pool|))],
                 st.calls + [Init(kind, |pool| - 1, d)]))
    case NamedClass(t) =>
      var step := IndexStep(t, UnusedIndex);
      Some(st.(steps := st.steps + [step],
               calls := st.calls + [ReinitRendering(RenderStepFunctionMapping[step.Type()])]))
    case UnknownClass => None
  }

  datatype BuildResult = Completed(stage: Stage) | Halted(at: nat, stage: Stage)

  /** The descriptors applied in document order, stopping at the first one
      whose type is not known. */
  function Build(st: Stage, descs: seq<StepDesc>, env: Env): (r: BuildResult)
    ensures r.Halted? ==> r.at < |descs| && !IsKnownTypeName(descs[r.at].typeName)
    decreases |descs|
  {
    if descs == [] then Completed(st)
    else
      var n := |descs| - 1;
      match Build(st, descs[..n], env)
      case Halted(at, s) => Halted(at, s)
      case Completed(s) =>
        match AddStep(s, descs[n], env)
        case None => Halted(n, s)
        case Some(s') => Completed(s')
  }

  /** The calls that tear down the pool of `kind`, holding `count` instances. */
  function DestroyCalls(kind: GenericKind, count: nat): seq<Call> {
    seq(count, i requires 0 <= i < count => Destroy(kind, i))
  }

  /** Teardown: every fullscreen instance, then every mesh instance, in pool
      order. The blur pool is left alone. */
  function Teardown(pools: Pools): (r: seq<Call>)
    ensures |r| == |pools.fullscreen| + |pools.mesh|
    ensures forall i :: 0 <= i < |pools.fullscreen| ==> r[i] == Destroy(Fullscreen, i)
    ensures forall i :: |pools.fullscreen| <= i < |r| ==> r[i] == Destroy(Mesh, i - |pools.fullscreen|)
  {
    DestroyCalls(Fullscreen, |pools.fullscreen|) + DestroyCalls(Mesh, |pools.mesh|)
  }

  /** The stage from which the descriptors of `doc` are applied: fullscreen and
      mesh pools and the step sequence emptied, blur pool kept, teardown and the
      uniform-buffer load recorded. */
  function LoadStart(pools: Pools, calls: seq<Call>, doc: ConfigDoc): (r: Stage)
    ensures r.steps == [] && r.pools.fullscreen == [] && r.pools.mesh == [] && r.pools.blur == pools.blur
    ensures |r.calls| == |calls| + |pools.fullscreen| + |pools.mesh| + 1
    ensures r.calls[..|calls|] == calls && r.calls[|r.calls| - 1] == LoadUniformBuffers(doc.uniformBuffers)
  {
    Stage(Pools([], pools.blur, []), [],
          calls + Teardown(pools) + [LoadUniformBuffers(doc.uniformBuffers)])
  }

  // ----- The build in closed form ---------------------------------------------

  predicate AllKnown(descs: seq<StepDesc>) {
    forall k {:trigger Classify(descs[k].typeName)} :: 0 <= k < |descs| ==> !Classify(descs[k].typeName).UnknownClass?
  }

  /** The instances the descriptors push onto the pool of `kind`, in order. */
  function PassesOf(descs: seq<StepDesc>, kind: GenericKind): seq<GenericPass>
    decreases |descs|
  {
    if descs == [] then []
    else
      var n := |descs| - 1;
      PassesOf(descs[..n], kind)
      + (if Classify(descs[n].typeName) == GenericClass(kind) then [GenericPass(descs[n])] else [])
  }

  function FinalPools(pools: Pools, descs: seq<StepDesc>): Pools {
    Pools(pools.fullscreen + PassesOf(descs, Fullscreen),
          pools.blur + PassesOf(descs, Blur),
          pools.mesh + PassesOf(descs, Mesh))
  }

  /** The position descriptor `k` takes in its pool: the instances already
      there plus those pushed by earlier descriptors of the same kind. */
  function PoolPosition(pools: Pools, descs: seq<StepDesc>, k: nat, kind: GenericKind): nat
    requires k <= |descs|
  {
    |pools.Pool(kind)| + |PassesOf(descs[..k], kind)|
  }

  /** The step descriptor `k` yields, stated from the descriptor alone. */
  function ExpectedStep(pools: Pools, descs: seq<StepDesc>, k: nat, env: Env): RenderStep
    requires k < |descs| && !Classify(descs[k].typeName).UnknownClass?
  {
    var d := descs[k];
    match Classify(d.typeName)
    case BarrierClass =>
      BarrierStep(ImageMemoryBarrier, env.mapImageLayout(d.sourceImageLayout),
                  env.mapImageLayout(d.targetImageLayout), env.intern(d.image))
    case GenericClass(kind) =>
      IndexStep(KindType(kind), PoolIndex(PoolPosition(pools, descs, k, kind) + 1))
    case NamedClass(t) => IndexStep(t, UnusedIndex)
  }

  function StepsOf(pools: Pools, descs: seq<StepDesc>, env: Env): seq<RenderStep>
    requires AllKnown(descs)
  {
    seq(|descs|, k requires 0 <= k < |descs| => ExpectedStep(pools, descs, k, env))
  }

  /** The call descriptor `k` makes while loading: `init` of its new instance,
      `onReinitRendering` of its named pass, none for a barrier (nor for an
      unknown type, where the build stops). */
  function ExpectedCalls(pools: Pools, descs: seq<StepDesc>, k: nat): seq<Call>
    requires k < |descs|
  {
    match Classify(descs[k].typeName)
    case BarrierClass => []
    case GenericClass(kind) => [Init(kind, PoolPosition(pools, descs, k, kind), descs[k])]
    case NamedClass(t) => [ReinitRendering(RenderStepFunctionMapping[t])]
    case UnknownClass => []
  }

  function CallsOf(pools: Pools, descs: seq<StepDesc>): seq<Call>
    decreases |descs|
  {
    if descs == [] then []
    else CallsOf(pools, descs[..|descs| - 1]) + ExpectedCalls(pools, descs, |descs| - 1)
  }

  // ----- Dispatching a step ---------------------------------------------------

  /** What a step designates at execution time. */
  datatype Target =
    | PoolEntry(kind: GenericKind, position: nat)
    | Transition(image: Name, sourceLayout: bv8, targetLayout: bv8)
    | NamedEntry(pass: NamedPass)

  function FromPool(kind: GenericKind, step: RenderStep, pools: Pools): Option<Target> {
    if step.Index() as int < |pools.Pool(kind)| then Some(PoolEntry(kind, step.Index() as int)) else None
  }

  /** The executor's decoding of a step: the pool kinds and the barrier by the
      kind byte, every other kind through the registry; None where the source
      indexes past a pool or asserts on a registry miss. */
  function Resolve(step: RenderStep, pools: Pools): (r: Option<Target>)
    ensures r.Some? && r.value.PoolEntry? ==>
              step.Type() == KindType(r.value.kind) && r.value.position == step.Index() as int
              && r.value.position < |pools.Pool(r.value.kind)|
    ensures r.Some? && r.value.NamedEntry? ==>
              !IsBuiltInType(step.Type()) && step.Type() in RenderStepFunctionMapping
              && r.value.pass == RenderStepFunctionMapping[step.Type()]
    ensures r.None? ==> step.Type() != ImageMemoryBarrier && step.Type() !in RenderStepFunctionMapping
  {
    var t := step.Type();
    if t == RenderPassGenericFullscreen then FromPool(Fullscreen, step, pools)
    else if t == RenderPassGenericBlur then FromPool(Blur, step, pools)
    else if t == RenderPassGenericMesh then FromPool(Mesh, step, pools)
    else if t == ImageMemoryBarrier then
      Some(Transition(step.resourceName, step.SourceLayout(), step.TargetLayout()))
    else if t in RenderStepFunctionMapping then Some(NamedEntry(RenderStepFunctionMapping[t]))
    else None
  }

  /** The call the executor makes for a resolved step. */
  function Invoke(target: Target, deltaT: real): (r: Call)
    ensures r.Render? || r.RenderNamed? <==> !target.Transition?
    ensures r.Render? || r.RenderNamed? ==> r.deltaT == deltaT
  {
    match target
    case PoolEntry(kind, position) => Render(kind, position, deltaT)
    case Transition(image, s, g) => InsertImageMemoryBarrier(image, s, g)
    case NamedEntry(pass) => RenderNamed(pass, deltaT)
  }

  predicate AllResolvable(steps: seq<RenderStep>, pools: Pools) {
    forall i :: 0 <= i < |steps| ==> Resolve(steps[i], pools).Some?
  }

  /** `dispatched` holds exactly one call per step, in step order. */
  predicate DispatchedInOrder(steps: seq<RenderStep>, pools: Pools, deltaT: real, dispatched: seq<Call>) {
    |dispatched| == |steps|
    && forall i :: 0 <= i < |steps| ==>
         Resolve(steps[i], pools).Some? && dispatched[i] == Invoke(Resolve(steps[i], pools).value, deltaT)
  }

  // ----- Frame ----------------------------------------------------------------

  /** The calls a frame makes before it replays the steps: none of them
      renders a pass or ends the frame. */
  function FramePrologue(camera: Ref, frustums: seq<Ref>): (r: seq<Call>)
    ensures forall i :: 0 <= i < |r| ==> !r[i].Render? && !r[i].RenderNamed? && !r[i].EndFrame?
  {
    [ResizeSwapChain, BeginFrame,
     UpdateCameraFrustums, PrepareShadowFrustums, PrepareFrustumsForRendering,
     ResetUniformAllocator, UpdatePerFrameUniformBufferData(camera), UpdateUniformBuffers,
     CullNodes(frustums),
     CollectDrawCallsAndMeshComponents, UpdatePerInstanceData(0)]
  }
}
