/**
 * End-to-end frames: the activation decision composed with the lifecycle of
 * OnPreRender, from any state that satisfies the lifecycle invariant.
 */
module Scenarios {
  import opened Wrappers
  import opened Activation
  import opened Lifecycle

  /** The lifecycle after one frame with the given ocean, settings and wireframe flag. */
  function FrameOutcome(l: LifeState, ocean: Option<Ocean>, disableHeightAboveWaterOptimization: bool,
                        wireframe: bool, enableShaderAPI: bool): LifeState
  {
    PreRenderLifecycle(l, IsActive(ocean, disableHeightAboveWaterOptimization), wireframe, enableShaderAPI)
  }

  /** Without an ocean the frame ends with no Instance and none of the renderer's buffers registered, at any height or setting. */
  lemma NoOceanMeansNoHooks(l: LifeState, disableHeightAboveWaterOptimization: bool, wireframe: bool, enableShaderAPI: bool)
    requires Inv(l)
    ensures var r := FrameOutcome(l, None, disableHeightAboveWaterOptimization, wireframe, enableShaderAPI);
            r.slot == Vacant && Unregistered(r.hooks)
  {
    DisableUnregisters(l.hooks);
  }

  /** In wireframe mode the frame always ends disabled, whatever the ocean. */
  lemma WireframeMeansNoHooks(l: LifeState, ocean: Option<Ocean>, disableHeightAboveWaterOptimization: bool, enableShaderAPI: bool)
    requires Inv(l)
    ensures var r := FrameOutcome(l, ocean, disableHeightAboveWaterOptimization, true, enableShaderAPI);
            r.slot == Vacant && Unregistered(r.hooks)
  {
    DisableUnregisters(l.hooks);
  }

  /** More than 2 units above the water, with the optimisation on, an enabled renderer is torn down in the same frame. */
  lemma FarAboveWaterDisables(l: LifeState, ocean: Ocean, wireframe: bool, enableShaderAPI: bool)
    requires Inv(l) && ocean.viewerHeightAboveWater > 2.0
    ensures var r := FrameOutcome(l, Some(ocean), false, wireframe, enableShaderAPI);
            r.slot == Vacant && Unregistered(r.hooks)
  {
    DisableUnregisters(l.hooks);
  }

  /** Near the surface, from a camera with no hooks, the frame registers exactly the mask before and the effect after transparents. */
  lemma NearSurfaceEnables(ocean: Ocean)
    requires ocean.viewerHeightAboveWater <= 2.0
    ensures FrameOutcome(LifeState(Vacant, []), Some(ocean), false, false, false) == LifeState(This, [MaskHook, EffectAfter])
  {
  }
}
