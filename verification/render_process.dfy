/** The default render process: the three pools of configurable passes, the
    step sequence built from the renderer configuration, the frustums of the
    current frame, and the calls made into the pass implementations and the
    other managers, recorded in order. */
module RenderProcess {
  import opened RenderSteps
  import opened Pipeline
  import opened PipelineLemmas

  class Default {
    var fullscreenPasses: seq<GenericPass>
    var blurPasses: seq<GenericPass>
    var meshPasses: seq<GenericPass>
    var renderSteps: seq<RenderStep>
    var activeFrustums: seq<Ref>
    /** Every call made into a collaborator so far, oldest first. */
    var calls: seq<Call>

    function CurrentPools(): Pools
      reads this
    {
      Pools(fullscreenPasses, blurPasses, meshPasses)
    }

    function CurrentStage(): Stage
      reads this
    {
      Stage(CurrentPools(), renderSteps, calls)
    }

    /** Every step designates an existing pool instance, an image or a
        registered pass. */
    ghost predicate Valid()
      reads this
    {
      AllResolvable(renderSteps, CurrentPools())
    }

    /** Before the first load there are no passes and no steps. */
    constructor()
      ensures fullscreenPasses == [] && blurPasses == [] && meshPasses == []
      ensures renderSteps == [] && activeFrustums == [] && calls == []
      ensures Valid()
    {
      fullscreenPasses := [];
      blurPasses := [];
      meshPasses := [];
      renderSteps := [];
      activeFrustums := [];
      calls := [];
    }

    /** Replays the steps in order, calling for each the render entry point
        of its pool instance or registered pass, or inserting its image
        barrier. It stops at the first step that designates nothing, which
        cannot happen while the process is Valid. */
    method ExecuteRenderSteps(deltaT: real) returns (dispatched: seq<Call>, fault: Option<nat>)
      ensures fault.None? ==> DispatchedInOrder(renderSteps, CurrentPools(), deltaT, dispatched)
      ensures fault.Some? ==>
                fault.value < |renderSteps|
                && DispatchedInOrder(renderSteps[..fault.value], CurrentPools(), deltaT, dispatched)
                && Resolve(renderSteps[fault.value], CurrentPools()).None?
      ensures Valid() ==> fault.None?
    {
      dispatched := [];
      var i := 0;
      while i < |renderSteps|
        invariant 0 <= i <= |renderSteps|
        invariant DispatchedInOrder(renderSteps[..i], CurrentPools(), deltaT, dispatched)
      {
        var step := renderSteps[i];
        var t := step.Type();
        var call;
        if t == RenderPassGenericFullscreen {
          if step.Index() as int >= |fullscreenPasses| {
            return dispatched, Some(i);
          }
          call := Render(Fullscreen, step.Index() as int, deltaT);
        } else if t == RenderPassGenericBlur {
          if step.Index() as int >= |blurPasses| {
            return dispatched, Some(i);
          }
          call := Render(Blur, step.Index() as int, deltaT);
        } else if t == RenderPassGenericMesh {
          if step.Index() as int >= |meshPasses| {
            return dispatched, Some(i);
          }
          call := Render(Mesh, step.Index() as int, deltaT);
        } else if t == ImageMemoryBarrier {
          call := InsertImageMemoryBarrier(step.resourceName, step.SourceLayout(), step.TargetLayout());
        } else if t in RenderStepFunctionMapping {
          call := RenderNamed(RenderStepFunctionMapping[t], deltaT);
        } else {
          return dispatched, Some(i);
        }
        assert call == Invoke(Resolve(step, CurrentPools()).value, deltaT);
        assert renderSteps[..i + 1] == renderSteps[..i] + [step];
        dispatched := dispatched + [call];
        i := i + 1;
      }
      assert renderSteps[..i] == renderSteps;
      fault := None;
    }

    /** Destroys every fullscreen instance and then every mesh instance, in
        pool order, and empties both pools and the step sequence. The blur
        pool is left as it is. */
    method DestroyPasses()
      modifies this
      ensures fullscreenPasses == [] && meshPasses == [] && blurPasses == old(blurPasses)
      ensures renderSteps == [] && activeFrustums == old(activeFrustums)
      ensures calls == old(calls) + Teardown(old(CurrentPools()))
    {
      ghost var oldPools := CurrentPools();
      var i := 0;
      while i < |fullscreenPasses|
        invariant 0 <= i <= |fullscreenPasses|
        invariant CurrentPools() == oldPools && activeFrustums == old(activeFrustums)
        invariant calls == old(calls) + DestroyCalls(Fullscreen, i)
      {
        calls := calls + [Destroy(Fullscreen, i)];
        i := i + 1;
      }
      fullscreenPasses := [];
      i := 0;
      while i < |meshPasses|
        invariant 0 <= i <= |meshPasses|
        invariant meshPasses == oldPools.mesh && activeFrustums == old(activeFrustums)
        invariant fullscreenPasses == [] && blurPasses == oldPools.blur
        invariant calls == old(calls) + DestroyCalls(Fullscreen, |oldPools.fullscreen|) + DestroyCalls(Mesh, i)
      {
        calls := calls + [Destroy(Mesh, i)];
        i := i + 1;
      }
      meshPasses := [];
      renderSteps := [];
    }

    /** Applies one step descriptor, chosen by its exact type: a barrier step;
        a new pool instance, initialised with the descriptor, and the step
        that indexes it; or the step of a registered pass, whose reinit entry
        point is called. An unknown type changes nothing and is reported. */
    method PushStep(d: StepDesc, env: Env) returns (known: bool)
      modifies this
      ensures known <==> AddStep(old(CurrentStage()), d, env).Some?
      ensures known ==> CurrentStage() == AddStep(old(CurrentStage()), d, env).value
      ensures !known ==> CurrentStage() == old(CurrentStage())
      ensures activeFrustums == old(activeFrustums)
    {
      known := true;
      if d.typeName == "ImageMemoryBarrier" {
        renderSteps := renderSteps + [BarrierStep(ImageMemoryBarrier,
                                                  env.mapImageLayout(d.sourceImageLayout),
                                                  env.mapImageLayout(d.targetImageLayout),
                                                  env.intern(d.image))];
      } else if d.typeName == "RenderPassGenericFullscreen" {
        fullscreenPasses := fullscreenPasses + [GenericPass(d)];
        calls := calls + [Init(Fullscreen, |fullscreenPasses| - 1, d)];
        renderSteps := renderSteps + [IndexStep(RenderPassGenericFullscreen, PoolIndex(|fullscreenPasses|))];
      } else if d.typeName == "RenderPassGenericBlur" {
        blurPasses := blurPasses + [GenericPass(d)];
        calls := calls + [Init(Blur, |blurPasses| - 1, d)];
        renderSteps := renderSteps + [IndexStep(RenderPassGenericBlur, PoolIndex(|blurPasses|))];
      } else if d.typeName == "RenderPassGenericMesh" {
        meshPasses := meshPasses + [GenericPass(d)];
        calls := calls + [Init(Mesh, |meshPasses| - 1, d)];
        renderSteps := renderSteps + [IndexStep(RenderPassGenericMesh, PoolIndex(|meshPasses|))];
      } else if d.typeName in RenderStepTypeMapping {
        RegistriesAgree();
        var step := IndexStep(RenderStepTypeMapping[d.typeName], UnusedIndex);
        calls := calls + [ReinitRendering(RenderStepFunctionMapping[step.Type()])];
        renderSteps := renderSteps + [step];
      } else {
        known := false;
      }
    }

    /** Tears down the fullscreen and mesh instances and the steps, then, when
        the configuration file was found, loads its uniform buffers and
        applies its step descriptors in order, stopping at the first unknown
        type. */
    method LoadRendererConfig(config: Option<ConfigDoc>, env: Env) returns (outcome: LoadOutcome)
      modifies this
      ensures config.None? ==>
                outcome == FileMissing
                && fullscreenPasses == [] && meshPasses == [] && blurPasses == old(blurPasses)
                && renderSteps == []
                && calls == old(calls) + Teardown(old(CurrentPools()))
      ensures config.Some? ==>
                var built := Build(LoadStart(old(CurrentPools()), old(calls), config.value),
                                   config.value.renderSteps, env);
                CurrentStage() == built.stage
                && (built.Completed? ==> outcome == Loaded)
                && (built.Halted? ==> outcome == InvalidStepType(built.at))
      ensures config.Some? ==> (outcome == Loaded <==> AllKnown(config.value.renderSteps))
      ensures config.Some? && outcome == Loaded ==>
                CurrentStage() == ClosedStage(LoadStart(old(CurrentPools()), old(calls), config.value),
                                              config.value.renderSteps, env)
      ensures activeFrustums == old(activeFrustums)
      ensures Valid()
    {
      ghost var oldPools := CurrentPools();
      DestroyPasses();
      if config.None? {
        return FileMissing;
      }
      var doc := config.value;
      calls := calls + [LoadUniformBuffers(doc.uniformBuffers)];
      ghost var start := LoadStart(oldPools, old(calls), doc);
      assert CurrentStage() == start;
      var descs := doc.renderSteps;
      var i := 0;
      while i < |descs|
        invariant 0 <= i <= |descs|
        invariant Build(start, descs[..i], env) == Completed(CurrentStage())
        invariant Valid() && activeFrustums == old(activeFrustums)
      {
        ghost var prev := CurrentStage();
        var known := PushStep(descs[i], env);
        if !known {
          HaltAtUnknown(start, descs, i, env, prev);
          BuildOutcome(start, descs, env);
          return InvalidStepType(i);
        }
        AddStepKeepsResolvable(prev, descs[i], env);
        BuildStep(start, descs, i, env, prev, CurrentStage());
        i := i + 1;
      }
      assert descs[..i] == descs;
      BuildOutcome(start, descs, env);
      BuildClosedForm(start, descs, env);
      return Loaded;
    }

    /** One frame: swap-chain resize, frame start, frustum and uniform
        preparation, culling against the camera frustum followed by the
        shadow frustums, draw-call collection, the steps, frame end. Whether
        the frame ends depends on every step designating something. */
    method RenderFrame(deltaT: real, camera: Ref, cameraFrustum: Ref, shadowFrustums: seq<Ref>)
      returns (dispatched: seq<Call>, fault: Option<nat>)
      modifies this
      ensures activeFrustums == [cameraFrustum] + shadowFrustums
      ensures CurrentPools() == old(CurrentPools()) && renderSteps == old(renderSteps)
      ensures calls == old(calls) + FramePrologue(camera, activeFrustums) + dispatched
                       + (if fault.None? then [EndFrame] else [])
      ensures fault.None? ==> DispatchedInOrder(renderSteps, CurrentPools(), deltaT, dispatched)
      ensures fault.Some? ==>
                fault.value < |renderSteps|
                && DispatchedInOrder(renderSteps[..fault.value], CurrentPools(), deltaT, dispatched)
                && Resolve(renderSteps[fault.value], CurrentPools()).None?
      ensures Valid() ==> fault.None?
    {
      calls := calls + [ResizeSwapChain, BeginFrame,
                        UpdateCameraFrustums, PrepareShadowFrustums, PrepareFrustumsForRendering,
                        ResetUniformAllocator, UpdatePerFrameUniformBufferData(camera), UpdateUniformBuffers];
      activeFrustums := [];
      activeFrustums := activeFrustums + [cameraFrustum];
      activeFrustums := activeFrustums + shadowFrustums;
      calls := calls + [CullNodes(activeFrustums), CollectDrawCallsAndMeshComponents, UpdatePerInstanceData(0)];
      assert calls == old(calls) + FramePrologue(camera, activeFrustums);
      dispatched, fault := ExecuteRenderSteps(deltaT);
      calls := calls + dispatched;
      if fault.None? {
        calls := calls + [EndFrame];
      }
    }
  }

  /** The loader's step for descriptor `i` is the build's step. */
  lemma BuildStep(start: Stage, descs: seq<StepDesc>, i: nat, env: Env, prev: Stage, next: Stage)
    requires i < |descs|
    requires Build(start, descs[..i], env) == Completed(prev)
    requires AddStep(prev, descs[i], env) == Some(next)
    ensures Build(start, descs[..i + 1], env) == Completed(next)
  {
    assert descs[..i + 1][..i] == descs[..i];
  }

  /** At an unknown type the build stops with what it held before it. */
  lemma HaltAtUnknown(start: Stage, descs: seq<StepDesc>, i: nat, env: Env, prev: Stage)
    requires i < |descs| && AddStep(prev, descs[i], env).None?
    requires Build(start, descs[..i], env) == Completed(prev)
    ensures Build(start, descs, env) == Halted(i, prev)
  {
    assert descs[..i + 1][..i] == descs[..i];
    BuildStopsAtHalt(start, descs, i + 1, env);
  }
}
