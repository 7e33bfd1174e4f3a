/** Whether the underwater effect should run this frame. */
module Activation {
  import opened Wrappers

  /** The keywords enabled on the ocean material (Material.IsKeywordEnabled). */
  datatype OceanMaterial = OceanMaterial(enabledKeywords: set<string>)

  /**
   * The part of OceanRenderer.Instance the renderer reads: the viewer's height
   * above the water, whether `ViewCamera` is set, and `OceanMaterial` (null as None).
   */
  datatype Ocean = Ocean(viewerHeightAboveWater: real, hasViewCamera: bool, oceanMaterial: Option<OceanMaterial>)

  /** Above this height the effect is skipped as an optimisation. */
  const MaxViewerHeightAboveWater: real := 2.0

  /**
   * UnderwaterRenderer.IsActive: false without an ocean; false when the height
   * optimisation is on and the viewer is more than 2 units above the water;
   * true otherwise (a height of exactly 2 is still active).
   */
  predicate IsActive(ocean: Option<Ocean>, disableHeightAboveWaterOptimization: bool): (r: bool)
    ensures ocean.None? ==> !r
    ensures disableHeightAboveWaterOptimization ==> (r <==> ocean.Some?)
    ensures ocean.Some? && !disableHeightAboveWaterOptimization ==>
              (r <==> ocean.value.viewerHeightAboveWater <= MaxViewerHeightAboveWater)
  {
    if ocean.None? then false
    else if !disableHeightAboveWaterOptimization && ocean.value.viewerHeightAboveWater > MaxViewerHeightAboveWater then false
    else true
  }
}
