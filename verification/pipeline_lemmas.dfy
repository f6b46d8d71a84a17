/** What loading a configuration and dispatching its steps guarantee, proved
    about the functions of module Pipeline. */
module PipelineLemmas {
  import opened RenderSteps
  import opened Pipeline

  lemma AppendAssoc<T>(a: seq<T>, b: seq<T>, c: seq<T>)
    ensures a + (b + c) == (a + b) + c
  {
  }

  // ----- Pools ---------------------------------------------------------------

  lemma FinalPoolsAt(pools: Pools, descs: seq<StepDesc>, kind: GenericKind)
    ensures FinalPools(pools, descs).Pool(kind) == pools.Pool(kind) + PassesOf(descs, kind)
  {
  }

  /** The instances pushed by a prefix of the descriptors are a prefix of the
      instances pushed by all of them. */
  lemma {:induction false} PassesOfPrefix(descs: seq<StepDesc>, j: nat, kind: GenericKind)
    requires j <= |descs|
    ensures |PassesOf(descs[..j], kind)| <= |PassesOf(descs, kind)|
    ensures PassesOf(descs, kind)[..|PassesOf(descs[..j], kind)|] == PassesOf(descs[..j], kind)
    decreases |descs|
  {
    if j == |descs| {
      assert descs[..j] == descs;
    } else {
      var n := |descs| - 1;
      assert descs[..n][..j] == descs[..j];
      PassesOfPrefix(descs[..n], j, kind);
    }
  }

  /** A pool descriptor's instance sits in its pool right after the instances
      of the earlier descriptors of the same kind. */
  lemma PassesOfAt(descs: seq<StepDesc>, k: nat, kind: GenericKind)
    requires k < |descs| && Classify(descs[k].typeName) == GenericClass(kind)
    ensures |PassesOf(descs[..k], kind)| < |PassesOf(descs, kind)|
    ensures PassesOf(descs, kind)[|PassesOf(descs[..k], kind)|] == GenericPass(descs[k])
  {
    var upTo := descs[..k + 1];
    assert upTo[..k] == descs[..k];
    assert PassesOf(upTo, kind) == PassesOf(descs[..k], kind) + [GenericPass(descs[k])];
    PassesOfPrefix(descs, k + 1, kind);
  }

  /** Descriptor `k` of a known kind that creates an instance finds it at
      PoolPosition in the final pool; while that pool holds at most 256
      instances the stored byte index is that position itself. */
  lemma GenericStepFindsItsInstance(pools: Pools, descs: seq<StepDesc>, k: nat, kind: GenericKind)
    requires k < |descs| && Classify(descs[k].typeName) == GenericClass(kind)
    ensures PoolPosition(pools, descs, k, kind) < |FinalPools(pools, descs).Pool(kind)|
    ensures FinalPools(pools, descs).Pool(kind)[PoolPosition(pools, descs, k, kind)] == GenericPass(descs[k])
    ensures |FinalPools(pools, descs).Pool(kind)| <= 256 ==>
              PoolIndex(PoolPosition(pools, descs, k, kind) + 1) as int == PoolPosition(pools, descs, k, kind)
  {
    PassesOfAt(descs, k, kind);
    FinalPoolsAt(pools, descs, kind);
    PoolIndexBelow256(PoolPosition(pools, descs, k, kind));
  }

  lemma PoolIndexBelow256(position: nat)
    ensures position < 256 ==> PoolIndex(position + 1) as int == position
  {
  }

  // ----- The build -----------------------------------------------------------

  lemma StepsOfSnoc(pools: Pools, descs: seq<StepDesc>, env: Env)
    requires AllKnown(descs) && descs != []
    ensures AllKnown(descs[..|descs| - 1])
    ensures StepsOf(pools, descs, env)
            == StepsOf(pools, descs[..|descs| - 1], env) + [ExpectedStep(pools, descs, |descs| - 1, env)]
  {
    var n := |descs| - 1;
    var pre := descs[..n];
    forall k | 0 <= k < n ensures pre[k] == descs[k] && !Classify(pre[k].typeName).UnknownClass? {
    }
    forall k | 0 <= k < n
      ensures ExpectedStep(pools, pre, k, env) == ExpectedStep(pools, descs, k, env)
    {
      assert pre[k] == descs[k];
      assert pre[..k] == descs[..k];
    }
  }

  /** The stage the build reaches from `st` when every type is known: each
      pool extended by the instances of its descriptors, one step per
      descriptor appended in document order (ExpectedStep), the calls of
      CallsOf appended. */
  function ClosedStage(st: Stage, descs: seq<StepDesc>, env: Env): Stage
    requires AllKnown(descs)
  {
    Stage(FinalPools(st.pools, descs), st.steps + StepsOf(st.pools, descs, env),
          st.calls + CallsOf(st.pools, descs))
  }

  lemma PushToFinalPools(pools: Pools, descs: seq<StepDesc>, kind: GenericKind)
    requires descs != [] && Classify(descs[|descs| - 1].typeName) == GenericClass(kind)
    ensures var pre := FinalPools(pools, descs[..|descs| - 1]);
            var grown := pre.Pool(kind) + [GenericPass(descs[|descs| - 1])];
            |grown| - 1 == PoolPosition(pools, descs, |descs| - 1, kind)
            && pre.WithPool(kind, grown) == FinalPools(pools, descs)
  {
    var n := |descs| - 1;
    var pre := FinalPools(pools, descs[..n]);
    var grown := pre.Pool(kind) + [GenericPass(descs[n])];
    FinalPoolsAt(pools, descs[..n], kind);
    var r := pre.WithPool(kind, grown);
    assert r.fullscreen == FinalPools(pools, descs).fullscreen;
    assert r.blur == FinalPools(pools, descs).blur;
    assert r.mesh == FinalPools(pools, descs).mesh;
  }

  lemma AddPoolStepToClosedStage(st: Stage, descs: seq<StepDesc>, env: Env, kind: GenericKind)
    requires AllKnown(descs) && descs != []
    requires Classify(descs[|descs| - 1].typeName) == GenericClass(kind)
    ensures AllKnown(descs[..|descs| - 1])
    ensures AddStep(ClosedStage(st, descs[..|descs| - 1], env), descs[|descs| - 1], env)
            == Some(ClosedStage(st, descs, env))
  {
    AllKnownSnoc(descs);
    ClosedStagePoolSnoc(st, descs, env, kind);
    AddPoolStep(ClosedStage(st, descs[..|descs| - 1], env), descs[|descs| - 1], env, kind);
  }

  /** The closed form of a sequence whose last descriptor creates an instance:
      that of the prefix with the instance pushed, its step and its `init`
      appended. */
  lemma ClosedStagePoolSnoc(st: Stage, descs: seq<StepDesc>, env: Env, kind: GenericKind)
    requires AllKnown(descs) && descs != []
    requires AllKnown(descs[..|descs| - 1])
    requires Classify(descs[|descs| - 1].typeName) == GenericClass(kind)
    ensures var s := ClosedStage(st, descs[..|descs| - 1], env);
            var grown := s.pools.Pool(kind) + [GenericPass(descs[|descs| - 1])];
            ClosedStage(st, descs, env)
            == Stage(s.pools.WithPool(kind, grown),
                     s.steps + [IndexStep(KindType(kind), PoolIndex(|grown|))],
                     s.calls + [Init(kind, |grown| - 1, descs[|descs| - 1])])
  {
    PushToFinalPools(st.pools, descs, kind);
    ClosedStepsPoolSnoc(st, descs, env, kind);
    ClosedCallsPoolSnoc(st, descs, env, kind);
  }

  lemma ClosedStepsPoolSnoc(st: Stage, descs: seq<StepDesc>, env: Env, kind: GenericKind)
    requires AllKnown(descs) && descs != []
    requires AllKnown(descs[..|descs| - 1])
    requires Classify(descs[|descs| - 1].typeName) == GenericClass(kind)
    ensures var n := |descs| - 1;
            ClosedStage(st, descs, env).steps
            == ClosedStage(st, descs[..n], env).steps
               + [IndexStep(KindType(kind), PoolIndex(PoolPosition(st.pools, descs, n, kind) + 1))]
  {
    var n := |descs| - 1;
    StepsOfSnoc(st.pools, descs, env);
    PoolStepSnoc(st.pools, descs, env, kind);
    AppendAssoc(st.steps, StepsOf(st.pools, descs[..n], env), [ExpectedStep(st.pools, descs, n, env)]);
  }

  lemma ClosedCallsPoolSnoc(st: Stage, descs: seq<StepDesc>, env: Env, kind: GenericKind)
    requires AllKnown(descs) && descs != []
    requires AllKnown(descs[..|descs| - 1])
    requires Classify(descs[|descs| - 1].typeName) == GenericClass(kind)
    ensures var n := |descs| - 1;
            ClosedStage(st, descs, env).calls
            == ClosedStage(st, descs[..n], env).calls + [Init(kind, PoolPosition(st.pools, descs, n, kind), descs[n])]
  {
    var n := |descs| - 1;
    PoolStepSnoc(st.pools, descs, env, kind);
    AppendAssoc(st.calls, CallsOf(st.pools, descs[..n]), [Init(kind, PoolPosition(st.pools, descs, n, kind), descs[n])]);
  }

  /** A pool descriptor pushes its instance, appends the step that indexes it
      and the `init` call of it. */
  lemma AddPoolStep(st: Stage, d: StepDesc, env: Env, kind: GenericKind)
    requires Classify(d.typeName) == GenericClass(kind)
    ensures var grown := st.pools.Pool(kind) + [GenericPass(d)];
            AddStep(st, d, env)
            == Some(Stage(st.pools.WithPool(kind, grown),
                          st.steps + [IndexStep(KindType(kind), PoolIndex(|grown|))],
                          st.calls + [Init(kind, |grown| - 1, d)]))
  {
  }

  /** The step and the call of a last descriptor that creates an instance. */
  lemma PoolStepSnoc(pools: Pools, descs: seq<StepDesc>, env: Env, kind: GenericKind)
    requires AllKnown(descs) && descs != []
    requires Classify(descs[|descs| - 1].typeName) == GenericClass(kind)
    ensures var n := |descs| - 1;
            var position := PoolPosition(pools, descs, n, kind);
            ExpectedStep(pools, descs, n, env) == IndexStep(KindType(kind), PoolIndex(position + 1))
            && CallsOf(pools, descs) == CallsOf(pools, descs[..n]) + [Init(kind, position, descs[n])]
  {
  }

  lemma AddStepToClosedStage(st: Stage, descs: seq<StepDesc>, env: Env)
    requires AllKnown(descs) && descs != []
    ensures AllKnown(descs[..|descs| - 1])
    ensures AddStep(ClosedStage(st, descs[..|descs| - 1], env), descs[|descs| - 1], env)
            == Some(ClosedStage(st, descs, env))
  {
    var n := |descs| - 1;
    AllKnownSnoc(descs);
    match Classify(descs[n].typeName)
    case GenericClass(kind) => AddPoolStepToClosedStage(st, descs, env, kind);
    case BarrierClass => AddUnpooledStepToClosedStage(st, descs, env);
    case NamedClass(_) => AddUnpooledStepToClosedStage(st, descs, env);
  }

  lemma AddUnpooledStepToClosedStage(st: Stage, descs: seq<StepDesc>, env: Env)
    requires AllKnown(descs) && descs != []
    requires var c := Classify(descs[|descs| - 1].typeName); c.BarrierClass? || c.NamedClass?
    ensures AllKnown(descs[..|descs| - 1])
    ensures AddStep(ClosedStage(st, descs[..|descs| - 1], env), descs[|descs| - 1], env)
            == Some(ClosedStage(st, descs, env))
  {
    var n := |descs| - 1;
    var pre := descs[..n];
    AllKnownSnoc(descs);
    var s := ClosedStage(st, pre, env);
    var c := ClosedStage(st, descs, env);
    var step := ExpectedStep(st.pools, descs, n, env);
    var made := ExpectedCalls(st.pools, descs, n);
    assert c.pools == s.pools by {
      assert FinalPools(st.pools, descs) == FinalPools(st.pools, pre);
    }
    assert c.steps == s.steps + [step] by {
      StepsOfSnoc(st.pools, descs, env);
      AppendAssoc(st.steps, StepsOf(st.pools, pre, env), [step]);
    }
    assert c.calls == s.calls + made by {
      AppendAssoc(st.calls, CallsOf(st.pools, pre), made);
    }
    AddUnpooledStep(s, descs, env);
  }

  /** A barrier or named-pass descriptor appends its step and its calls and
      leaves the pools alone. */
  lemma AddUnpooledStep(st: Stage, descs: seq<StepDesc>, env: Env)
    requires descs != []
    requires var c := Classify(descs[|descs| - 1].typeName); c.BarrierClass? || c.NamedClass?
    ensures var n := |descs| - 1;
            AddStep(st, descs[n], env)
            == Some(Stage(st.pools, st.steps + [ExpectedStep(st.pools, descs, n, env)],
                          st.calls + ExpectedCalls(st.pools, descs, n)))
  {
    var n := |descs| - 1;
    var c := Classify(descs[n].typeName);
    if c.NamedClass? {
      assert IndexStep(c.stepType, UnusedIndex).Type() == c.stepType;
    } else {
      assert st.calls + ExpectedCalls(st.pools, descs, n) == st.calls;
    }
  }

  /** When every type is known, the build completes in ClosedStage. */
  lemma {:induction false} BuildClosedForm(st: Stage, descs: seq<StepDesc>, env: Env)
    requires AllKnown(descs)
    ensures Build(st, descs, env) == Completed(ClosedStage(st, descs, env))
    decreases |descs|
  {
    if descs == [] {
      assert FinalPools(st.pools, descs) == st.pools;
      assert StepsOf(st.pools, descs, env) == [];
    } else {
      AddStepToClosedStage(st, descs, env);
      BuildClosedForm(st, descs[..|descs| - 1], env);
    }
  }

  /** The build completes exactly when every type is known; otherwise it stops
      at the first unknown one, holding what the descriptors before it built. */
  lemma {:induction false} BuildOutcome(st: Stage, descs: seq<StepDesc>, env: Env)
    ensures Build(st, descs, env).Completed? <==> AllKnown(descs)
    ensures Build(st, descs, env).Halted? ==>
              var at := Build(st, descs, env).at;
              at < |descs| && Classify(descs[at].typeName).UnknownClass? && AllKnown(descs[..at])
              && Build(st, descs[..at], env) == Completed(Build(st, descs, env).stage)
    decreases |descs|
  {
    if descs != [] {
      var n := |descs| - 1;
      var pre := descs[..n];
      BuildOutcome(st, pre, env);
      AllKnownSnoc(descs);
      match Build(st, pre, env)
      case Halted(at, s) =>
        assert descs[..at] == pre[..at];
        assert descs[at] == pre[at];
      case Completed(s) =>
    }
  }

  /** A sequence of descriptors is all known exactly when its prefix is and its
      last descriptor is. */
  lemma AllKnownSnoc(descs: seq<StepDesc>)
    requires descs != []
    ensures AllKnown(descs) <==>
              AllKnown(descs[..|descs| - 1]) && !Classify(descs[|descs| - 1].typeName).UnknownClass?
  {
    var n := |descs| - 1;
    if AllKnown(descs[..n]) && !Classify(descs[n].typeName).UnknownClass? {
      forall k | 0 <= k < |descs| ensures !Classify(descs[k].typeName).UnknownClass? {
        if k < n {
          assert descs[k] == descs[..n][k];
        }
      }
    }
  }

  /** Once the build has stopped, later descriptors change nothing. */
  lemma {:induction false} BuildStopsAtHalt(st: Stage, descs: seq<StepDesc>, j: nat, env: Env)
    requires j <= |descs| && Build(st, descs[..j], env).Halted?
    ensures Build(st, descs, env) == Build(st, descs[..j], env)
    decreases |descs|
  {
    if j == |descs| {
      assert descs[..j] == descs;
    } else {
      var n := |descs| - 1;
      assert descs[..n][..j] == descs[..j];
      BuildStopsAtHalt(st, descs[..n], j, env);
    }
  }

  /** The build only appends: to the steps, and to the calls nothing but pass
      `init` and `onReinitRendering` calls. */
  lemma {:induction false} BuildOnlyAppends(st: Stage, descs: seq<StepDesc>, env: Env)
    ensures var s := Build(st, descs, env).stage;
            |st.steps| <= |s.steps| && s.steps[..|st.steps|] == st.steps
            && |st.calls| <= |s.calls| && s.calls[..|st.calls|] == st.calls
            && forall i :: |st.calls| <= i < |s.calls| ==> s.calls[i].Init? || s.calls[i].ReinitRendering?
    decreases |descs|
  {
    if descs != [] {
      var n := |descs| - 1;
      BuildOnlyAppends(st, descs[..n], env);
      match Build(st, descs[..n], env)
      case Halted(_, _) =>
      case Completed(s) =>
        match AddStep(s, descs[n], env)
        case None =>
        case Some(s') =>
          assert s'.steps[..|s.steps|] == s.steps;
          assert s'.calls[..|s.calls|] == s.calls;
          assert s'.steps[..|st.steps|] == s.steps[..|st.steps|];
          assert s'.calls[..|st.calls|] == s.calls[..|st.calls|];
    }
  }

  /** A load destroys every fullscreen and then every mesh instance in pool
      order, then loads the uniform buffers, and only after that initialises
      any instance or reinitialises any named pass; whether the build
      completes or stops. */
  lemma TeardownPrecedesRebuild(pools: Pools, calls: seq<Call>, doc: ConfigDoc, env: Env)
    ensures var s := Build(LoadStart(pools, calls, doc), doc.renderSteps, env).stage;
            var t := |calls| + |pools.fullscreen| + |pools.mesh|;
            t < |s.calls|
            && (forall i :: 0 <= i < |pools.fullscreen| ==> s.calls[|calls| + i] == Destroy(Fullscreen, i))
            && (forall i :: 0 <= i < |pools.mesh| ==>
                  s.calls[|calls| + |pools.fullscreen| + i] == Destroy(Mesh, i))
            && s.calls[t] == LoadUniformBuffers(doc.uniformBuffers)
            && forall i :: t < i < |s.calls| ==> s.calls[i].Init? || s.calls[i].ReinitRendering?
  {
    var start := LoadStart(pools, calls, doc);
    BuildOnlyAppends(start, doc.renderSteps, env);
    LoadStartCalls(pools, calls, doc);
    var s := Build(start, doc.renderSteps, env).stage;
    assert forall j :: 0 <= j < |start.calls| ==> s.calls[j] == start.calls[j] by {
      assert s.calls[..|start.calls|] == start.calls;
    }
  }

  /** Where the teardown and the uniform-buffer load sit in the calls the
      build starts from. */
  lemma LoadStartCalls(pools: Pools, calls: seq<Call>, doc: ConfigDoc)
    ensures var c := LoadStart(pools, calls, doc).calls;
            var t := |calls| + |pools.fullscreen| + |pools.mesh|;
            |c| == t + 1
            && (forall i :: 0 <= i < |pools.fullscreen| ==> c[|calls| + i] == Destroy(Fullscreen, i))
            && (forall i :: 0 <= i < |pools.mesh| ==> c[|calls| + |pools.fullscreen| + i] == Destroy(Mesh, i))
            && c[t] == LoadUniformBuffers(doc.uniformBuffers)
  {
  }


  lemma {:induction false} CallsOfPrefix(pools: Pools, descs: seq<StepDesc>, j: nat)
    requires j <= |descs|
    ensures |CallsOf(pools, descs[..j])| <= |CallsOf(pools, descs)|
    ensures CallsOf(pools, descs)[..|CallsOf(pools, descs[..j])|] == CallsOf(pools, descs[..j])
    decreases |descs|
  {
    if j == |descs| {
      assert descs[..j] == descs;
    } else {
      var n := |descs| - 1;
      assert descs[..n][..j] == descs[..j];
      CallsOfPrefix(pools, descs[..n], j);
    }
  }

  /** The calls of descriptor `k` come right after those of all earlier
      descriptors: one `init` per pool descriptor, one `onReinitRendering` per
      named descriptor, each occurrence of a name its own call. */
  lemma CallsOfAt(pools: Pools, descs: seq<StepDesc>, k: nat)
    requires k < |descs|
    ensures |CallsOf(pools, descs[..k])| + |ExpectedCalls(pools, descs, k)| <= |CallsOf(pools, descs)|
    ensures var at := |CallsOf(pools, descs[..k])|;
            CallsOf(pools, descs)[at..at + |ExpectedCalls(pools, descs, k)|] == ExpectedCalls(pools, descs, k)
  {
    var upTo := descs[..k + 1];
    assert CallsOf(pools, upTo) == CallsOf(pools, descs[..k]) + ExpectedCalls(pools, descs, k) by {
      assert upTo[..k] == descs[..k];
      ExpectedCallsOfPrefix(pools, descs, k);
    }
    CallsOfPrefix(pools, descs, k + 1);
  }

  lemma ExpectedCallsOfPrefix(pools: Pools, descs: seq<StepDesc>, k: nat)
    requires k < |descs|
    ensures ExpectedCalls(pools, descs[..k + 1], k) == ExpectedCalls(pools, descs, k)
  {
    var upTo := descs[..k + 1];
    assert upTo[k] == descs[k];
    assert upTo[..k] == descs[..k];
  }

  // ----- Dispatch ------------------------------------------------------------

  /** A pool step is served by its own pool at its stored index, never by the
      registry; an index past the end of the pool is a fault. */
  lemma ResolveIndexStep(kind: GenericKind, index: bv8, pools: Pools)
    ensures Resolve(IndexStep(KindType(kind), index), pools)
            == if index as int < |pools.Pool(kind)| then Some(PoolEntry(kind, index as int)) else None
  {
  }

  /** A barrier step requests the transition of the image it names, from its
      source to its target layout, in that order. */
  lemma ResolveBarrierStep(sourceLayout: bv8, targetLayout: bv8, image: Name, pools: Pools)
    ensures Resolve(BarrierStep(ImageMemoryBarrier, sourceLayout, targetLayout, image), pools)
            == Some(Transition(image, sourceLayout, targetLayout))
  {
  }

  /** A named step is served by the registry entry of its kind. */
  lemma ResolveNamedStep(t: bv8, pools: Pools)
    requires t in RenderStepFunctionMapping
    ensures Resolve(IndexStep(t, UnusedIndex), pools) == Some(NamedEntry(RenderStepFunctionMapping[t]))
  {
    RegistriesAgree();
  }

  // ----- Frame ----------------------------------------------------------------

  /** A frame resizes the swap chain before it begins, resets the uniform
      allocator before it updates any uniform data, and culls against exactly
      the frustums it is given before it collects the draw calls. */
  lemma FramePrologueOrder(camera: Ref, frustums: seq<Ref>)
    ensures var r := FramePrologue(camera, frustums);
            |r| == 11 && r[0] == ResizeSwapChain && r[1] == BeginFrame
            && r[5] == ResetUniformAllocator
            && r[6] == UpdatePerFrameUniformBufferData(camera) && r[7] == UpdateUniformBuffers
            && r[8] == CullNodes(frustums) && r[9] == CollectDrawCallsAndMeshComponents
  {
  }

  /** Different targets lead to different calls, so the recorded dispatch
      identifies the instance, barrier or named pass each step reached. */
  lemma InvokeInjective(a: Target, b: Target, deltaT: real)
    ensures Invoke(a, deltaT) == Invoke(b, deltaT) <==> a == b
  {
  }

  /** Growing the pools does not change what a resolvable step designates. */
  lemma ResolveStable(step: RenderStep, pools: Pools, later: Pools)
    requires pools.GrowsTo(later) && Resolve(step, pools).Some?
    ensures Resolve(step, later) == Resolve(step, pools)
  {
    assert pools.GrowsTo(later);
    assert |pools.Pool(Fullscreen)| <= |later.Pool(Fullscreen)|;
    assert |pools.Pool(Blur)| <= |later.Pool(Blur)|;
    assert |pools.Pool(Mesh)| <= |later.Pool(Mesh)|;
  }

  /** Each descriptor keeps every step built so far dispatchable: pools only
      grow, and the new step refers to the instance just pushed, to a
      registered pass, or to an image. */
  lemma AddStepKeepsResolvable(st: Stage, d: StepDesc, env: Env)
    requires AllResolvable(st.steps, st.pools) && AddStep(st, d, env).Some?
    ensures st.pools.GrowsTo(AddStep(st, d, env).value.pools)
    ensures AllResolvable(AddStep(st, d, env).value.steps, AddStep(st, d, env).value.pools)
  {
    var r := AddStep(st, d, env).value;
    assert st.pools.GrowsTo(r.pools) by {
      forall kind ensures |st.pools.Pool(kind)| <= |r.pools.Pool(kind)|
                          && r.pools.Pool(kind)[..|st.pools.Pool(kind)|] == st.pools.Pool(kind) {
        assert r.pools.Pool(kind)[..|st.pools.Pool(kind)|] == st.pools.Pool(kind);
      }
    }
    forall i | 0 <= i < |r.steps| ensures Resolve(r.steps[i], r.pools).Some? {
      if i < |st.steps| {
        assert r.steps[i] == st.steps[i];
        ResolveStable(st.steps[i], st.pools, r.pools);
      } else {
        match Classify(d.typeName)
        case BarrierClass =>
        case GenericClass(kind) =>
          var pool := st.pools.Pool(kind) + [GenericPass(d)];
          ResolveIndexStep(kind, PoolIndex(|pool|), r.pools);
        case NamedClass(t) =>
          ResolveNamedStep(t, r.pools);
      }
    }
  }

  /** What descriptor `k` designates at execution time, stated from the
      descriptor alone. */
  function ExpectedTarget(pools: Pools, descs: seq<StepDesc>, k: nat, env: Env): Target
    requires k < |descs| && !Classify(descs[k].typeName).UnknownClass?
  {
    var d := descs[k];
    match Classify(d.typeName)
    case BarrierClass =>
      Transition(env.intern(d.image), env.mapImageLayout(d.sourceImageLayout), env.mapImageLayout(d.targetImageLayout))
    case GenericClass(kind) => PoolEntry(kind, PoolPosition(pools, descs, k, kind) % 256)
    case NamedClass(_) => NamedEntry(RenderStepFunctionMapping[RenderStepTypeMapping[d.typeName]])
  }

  /** Decoding a built step gives back what its descriptor said: the image and
      both layouts of a barrier, the instance position (modulo 256) of a pool
      step, the registered pass of a named step; none of them faults. */
  lemma BuiltStepResolves(pools: Pools, descs: seq<StepDesc>, env: Env, k: nat)
    requires AllKnown(descs) && k < |descs|
    ensures Resolve(StepsOf(pools, descs, env)[k], FinalPools(pools, descs))
            == Some(ExpectedTarget(pools, descs, k, env))
  {
    var d := descs[k];
    match Classify(d.typeName)
    case BarrierClass =>
    case GenericClass(kind) =>
      GenericStepFindsItsInstance(pools, descs, k, kind);
      ResolveIndexStep(kind, PoolIndex(PoolPosition(pools, descs, k, kind) + 1), FinalPools(pools, descs));
    case NamedClass(t) =>
      ResolveNamedStep(t, FinalPools(pools, descs));
  }

  // ----- A load from a complete document ------------------------------------

  /** Executing the steps of a complete load dispatches one call per
      descriptor, in document order, each with the arguments its descriptor
      gave: the barrier's image and layouts, the instance it created, or its
      registered pass. */
  lemma LoadThenDispatch(pools: Pools, calls: seq<Call>, doc: ConfigDoc, env: Env, deltaT: real, dispatched: seq<Call>)
    requires AllKnown(doc.renderSteps)
    requires var c := ClosedStage(LoadStart(pools, calls, doc), doc.renderSteps, env);
             DispatchedInOrder(c.steps, c.pools, deltaT, dispatched)
    ensures |dispatched| == |doc.renderSteps|
    ensures forall k :: 0 <= k < |doc.renderSteps| ==>
              dispatched[k] == Invoke(ExpectedTarget(LoadStart(pools, calls, doc).pools, doc.renderSteps, k, env), deltaT)
  {
    var start := LoadStart(pools, calls, doc);
    forall k | 0 <= k < |doc.renderSteps|
      ensures dispatched[k] == Invoke(ExpectedTarget(start.pools, doc.renderSteps, k, env), deltaT)
    {
      BuiltStepResolves(start.pools, doc.renderSteps, env, k);
    }
  }

  /** After a load whose types are all known, the fullscreen and mesh pools
      hold exactly the instances of this document, while the blur pool keeps
      the instances of earlier loads ahead of them. */
  lemma LoadedPools(pools: Pools, calls: seq<Call>, doc: ConfigDoc, env: Env)
    requires AllKnown(doc.renderSteps)
    ensures var s := Build(LoadStart(pools, calls, doc), doc.renderSteps, env).stage;
            s.pools.fullscreen == PassesOf(doc.renderSteps, Fullscreen)
            && s.pools.mesh == PassesOf(doc.renderSteps, Mesh)
            && s.pools.blur == pools.blur + PassesOf(doc.renderSteps, Blur)
  {
    BuildClosedForm(LoadStart(pools, calls, doc), doc.renderSteps, env);
  }

  /** A load whose types are all known appends one step per descriptor, in
      document order, each the step its descriptor alone determines. */
  lemma LoadedSteps(pools: Pools, calls: seq<Call>, doc: ConfigDoc, env: Env)
    requires AllKnown(doc.renderSteps)
    ensures var start := LoadStart(pools, calls, doc);
            var s := Build(start, doc.renderSteps, env).stage;
            |s.steps| == |doc.renderSteps|
            && forall k :: 0 <= k < |doc.renderSteps| ==>
                 s.steps[k] == ExpectedStep(start.pools, doc.renderSteps, k, env)
  {
    BuildClosedForm(LoadStart(pools, calls, doc), doc.renderSteps, env);
  }

  /** The step of a pool descriptor stores, modulo 256, the position of the
      instance it created: the number of earlier descriptors of its kind in the
      document, plus, for the blur kind only, the blur instances left from
      earlier loads. */
  lemma LoadedPoolIndex(pools: Pools, calls: seq<Call>, doc: ConfigDoc, env: Env, k: nat, kind: GenericKind)
    requires AllKnown(doc.renderSteps) && k < |doc.renderSteps|
    requires Classify(doc.renderSteps[k].typeName) == GenericClass(kind)
    ensures var s := ClosedStage(LoadStart(pools, calls, doc), doc.renderSteps, env);
            var position := (if kind == Blur then |pools.blur| else 0)
                            + |PassesOf(doc.renderSteps[..k], kind)|;
            position < |s.pools.Pool(kind)| && k < |s.steps|
            && s.pools.Pool(kind)[position] == GenericPass(doc.renderSteps[k])
            && s.steps[k].Type() == KindType(kind)
            && s.steps[k].Index() as int == position % 256
  {
    var start := LoadStart(pools, calls, doc);
    var kept := if kind == Blur then |pools.blur| else 0;
    assert |start.pools.Pool(kind)| == kept;
    ClosedPoolStep(start, doc.renderSteps, env, k, kind);
  }

  lemma ClosedPoolStep(st: Stage, descs: seq<StepDesc>, env: Env, k: nat, kind: GenericKind)
    requires AllKnown(descs) && k < |descs| && Classify(descs[k].typeName) == GenericClass(kind)
    ensures var c := ClosedStage(st, descs, env);
            var position := PoolPosition(st.pools, descs, k, kind);
            position < |c.pools.Pool(kind)| && |st.steps| + k < |c.steps|
            && c.pools.Pool(kind)[position] == GenericPass(descs[k])
            && c.steps[|st.steps| + k].Type() == KindType(kind)
            && c.steps[|st.steps| + k].Index() as int == position % 256
  {
    GenericStepFindsItsInstance(st.pools, descs, k, kind);
  }

  /** The step of a named-pass descriptor has the registered kind and index
      255, and the descriptor causes exactly one `onReinitRendering` of its
      pass, placed after the calls of every earlier descriptor; a name that
      occurs twice is reinitialised twice. */
  lemma LoadedNamedStep(pools: Pools, calls: seq<Call>, doc: ConfigDoc, env: Env, k: nat)
    requires AllKnown(doc.renderSteps) && k < |doc.renderSteps|
    requires doc.renderSteps[k].typeName in RenderStepTypeMapping
    ensures var start := LoadStart(pools, calls, doc);
            var s := ClosedStage(start, doc.renderSteps, env);
            var t := RenderStepTypeMapping[doc.renderSteps[k].typeName];
            var at := |start.calls| + |CallsOf(start.pools, doc.renderSteps[..k])|;
            k < |s.steps| && s.steps[k].Type() == t && s.steps[k].Index() == UnusedIndex
            && at < |s.calls|
            && s.calls[at] == ReinitRendering(RenderStepFunctionMapping[t])
  {
    ClosedNamedStep(LoadStart(pools, calls, doc), doc.renderSteps, env, k);
  }

  lemma ClosedNamedStep(st: Stage, descs: seq<StepDesc>, env: Env, k: nat)
    requires AllKnown(descs) && k < |descs| && descs[k].typeName in RenderStepTypeMapping
    ensures var c := ClosedStage(st, descs, env);
            var t := RenderStepTypeMapping[descs[k].typeName];
            var at := |st.calls| + |CallsOf(st.pools, descs[..k])|;
            |st.steps| + k < |c.steps|
            && c.steps[|st.steps| + k] == IndexStep(t, UnusedIndex)
            && at < |c.calls|
            && c.calls[at] == ReinitRendering(RenderStepFunctionMapping[t])
  {
    NamedExpectations(st.pools, descs, k, env);
    ClosedStepAt(st, descs, env, k);
    SingleCallAt(st.pools, descs, k);
  }

  /** A descriptor that makes one call makes it right after the calls of all
      earlier descriptors. */
  lemma SingleCallAt(pools: Pools, descs: seq<StepDesc>, k: nat)
    requires k < |descs| && |ExpectedCalls(pools, descs, k)| == 1
    ensures var at := |CallsOf(pools, descs[..k])|;
            at < |CallsOf(pools, descs)| && CallsOf(pools, descs)[at] == ExpectedCalls(pools, descs, k)[0]
  {
    CallsOfAt(pools, descs, k);
    var at := |CallsOf(pools, descs[..k])|;
    assert CallsOf(pools, descs)[at] == CallsOf(pools, descs)[at..at + 1][0];
  }

  /** The closed stage holds the step of descriptor `k` right after the steps
      it started from. */
  lemma ClosedStepAt(st: Stage, descs: seq<StepDesc>, env: Env, k: nat)
    requires AllKnown(descs) && k < |descs|
    ensures var c := ClosedStage(st, descs, env);
            |st.steps| + k < |c.steps| && c.steps[|st.steps| + k] == ExpectedStep(st.pools, descs, k, env)
  {
  }

  /** A registered name yields the step of its kind with index 255 and the
      reinit call of its pass. */
  lemma NamedExpectations(pools: Pools, descs: seq<StepDesc>, k: nat, env: Env)
    requires k < |descs| && descs[k].typeName in RenderStepTypeMapping
    ensures var t := RenderStepTypeMapping[descs[k].typeName];
            t in RenderStepFunctionMapping
            && Classify(descs[k].typeName) == NamedClass(t)
            && ExpectedStep(pools, descs, k, env) == IndexStep(t, UnusedIndex)
            && ExpectedCalls(pools, descs, k) == [ReinitRendering(RenderStepFunctionMapping[t])]
  {
    RegistriesAgree();
  }

}
