/** The packed render-step record of the Vulkan render process and the two
    static registries through which named passes are found.

    A step keeps its kind and payload in one 32-bit word: the kind in bits 0-7,
    and either a pool index in bits 8-15, or a source image layout in bits 8-15
    and a target image layout in bits 16-23. A barrier step also carries the
    name of the image it transitions. */
module RenderSteps {

  /** An interned resource name, represented by its 32-bit hash. */
  datatype Name = Name(hash: bv32)

  /** The name an index step carries. */
  const NoName := Name(0)

  // The values of the step-type enumeration, in declaration order.
  const ImageMemoryBarrier: bv8 := 0
  const RenderPassGenericFullscreen: bv8 := 1
  const RenderPassGenericMesh: bv8 := 2
  const RenderPassGenericBlur: bv8 := 3
  const RenderPassDebug: bv8 := 4
  const RenderPassPerPixelPicking: bv8 := 5
  const RenderPassShadow: bv8 := 6
  const RenderPassLighting: bv8 := 7
  const RenderPassVolumetricLighting: bv8 := 8
  const RenderPassBloom: bv8 := 9

  /** The index a named-pass step carries: the byte -1. */
  const UnusedIndex: bv8 := 0xFF

  /** True for the four kinds the executor handles itself, without the registry. */
  predicate IsBuiltInType(t: bv8) {
    t == ImageMemoryBarrier || t == RenderPassGenericFullscreen
    || t == RenderPassGenericMesh || t == RenderPassGenericBlur
  }

  datatype RenderStep = RenderStep(resourceName: Name, data: bv32) {
    /** Bits 0-7: the step kind. */
    function Type(): (r: bv8)
      ensures r as bv32 == data % 0x100
    {
      (data & 0xFF) as bv8
    }

    /** Bits 8-15: the pool index of an index step. */
    function Index(): (r: bv8)
      ensures r as bv32 == data / 0x100 % 0x100
    {
      ((data >> 8) & 0xFF) as bv8
    }

    /** Bits 8-15 again: the source layout of a barrier step. */
    function SourceLayout(): (r: bv8)
      ensures r == Index()
    {
      ((data >> 8) & 0xFF) as bv8
    }

    /** Bits 16-23: the target layout of a barrier step. */
    function TargetLayout(): (r: bv8)
      ensures r as bv32 == data / 0x1_0000 % 0x100
    {
      ((data >> 16) & 0xFF) as bv8
    }
  }

  /** The step of a pool pass or a named pass: kind and pool index packed, no name. */
  function IndexStep(stepType: bv8, index: bv8): (r: RenderStep)
    ensures r.Type() == stepType && r.Index() == index
    ensures r.TargetLayout() == 0 && r.data >> 16 == 0
    ensures r.resourceName == NoName
  {
    RenderStep(NoName, (stepType as bv32) | ((index as bv32) << 8))
  }

  /** The step of an image-layout transition: kind, source and target layout
      packed, the image named beside them. */
  function BarrierStep(stepType: bv8, sourceLayout: bv8, targetLayout: bv8, resourceName: Name): (r: RenderStep)
    ensures r.Type() == stepType
    ensures r.SourceLayout() == sourceLayout && r.TargetLayout() == targetLayout
    ensures r.data >> 24 == 0
    ensures r.resourceName == resourceName
  {
    RenderStep(resourceName,
      (stepType as bv32) | ((sourceLayout as bv32) << 8) | ((targetLayout as bv32) << 16))
  }

  /** Distinct payloads give distinct records: the packing loses nothing. */
  lemma IndexStepInjective(t1: bv8, i1: bv8, t2: bv8, i2: bv8)
    ensures IndexStep(t1, i1) == IndexStep(t2, i2) <==> t1 == t2 && i1 == i2
  {
    if IndexStep(t1, i1) == IndexStep(t2, i2) {
      assert IndexStep(t1, i1).Type() == IndexStep(t2, i2).Type();
      assert IndexStep(t1, i1).Index() == IndexStep(t2, i2).Index();
    }
  }

  lemma BarrierStepInjective(t1: bv8, s1: bv8, g1: bv8, n1: Name, t2: bv8, s2: bv8, g2: bv8, n2: Name)
    ensures BarrierStep(t1, s1, g1, n1) == BarrierStep(t2, s2, g2, n2)
            <==> t1 == t2 && s1 == s2 && g1 == g2 && n1 == n2
  {
    if BarrierStep(t1, s1, g1, n1) == BarrierStep(t2, s2, g2, n2) {
      assert BarrierStep(t1, s1, g1, n1).SourceLayout() == BarrierStep(t2, s2, g2, n2).SourceLayout();
      assert BarrierStep(t1, s1, g1, n1).TargetLayout() == BarrierStep(t2, s2, g2, n2).TargetLayout();
    }
  }

  /** The named passes, each of which exposes a render and a reinit entry point. */
  datatype NamedPass = Debug | PerPixelPicking | Shadow | Lighting | VolumetricLighting | Bloom

  /** Configuration type names of the named passes, and the kind each maps to. */
  const RenderStepTypeMapping: map<string, bv8> := map[
    "RenderPassDebug" := RenderPassDebug,
    "RenderPassPerPixelPicking" := RenderPassPerPixelPicking,
    "RenderPassShadow" := RenderPassShadow,
    "RenderPassLighting" := RenderPassLighting,
    "RenderPassVolumetricLighting" := RenderPassVolumetricLighting,
    "RenderPassBloom" := RenderPassBloom]

  /** The pass whose entry points serve each named kind. */
  const RenderStepFunctionMapping: map<bv8, NamedPass> := map[
    RenderPassDebug := Debug,
    RenderPassPerPixelPicking := PerPixelPicking,
    RenderPassShadow := Shadow,
    RenderPassLighting := Lighting,
    RenderPassVolumetricLighting := VolumetricLighting,
    RenderPassBloom := Bloom]

  /** Every kind a configuration name maps to has entry points, none of the
      registered kinds is one the executor handles itself, and no built-in
      configuration name is shadowed by the registry. */
  lemma RegistriesAgree()
    ensures forall name :: name in RenderStepTypeMapping ==>
              RenderStepTypeMapping[name] in RenderStepFunctionMapping
    ensures forall t :: t in RenderStepFunctionMapping ==> !IsBuiltInType(t)
    ensures "ImageMemoryBarrier" !in RenderStepTypeMapping
    ensures "RenderPassGenericFullscreen" !in RenderStepTypeMapping
    ensures "RenderPassGenericBlur" !in RenderStepTypeMapping
    ensures "RenderPassGenericMesh" !in RenderStepTypeMapping
  {
  }
}
