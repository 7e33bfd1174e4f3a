/**
 * UnderwaterRenderer: the component that activates the underwater effect on a
 * camera each frame and keeps its two command buffers registered while it is
 * active. The statics of the C# class live in a `Statics` object shared by all
 * renderers; the collaborators whose code is not part of this model
 * (SetupOceanMask, OnPreRenderOceanMask, XRHelpers, ...) are recorded, in call
 * order, in the ghost `trace`.
 */
module Underwater {
  import opened Wrappers
  import opened Matrices
  import opened Registry
  import opened Activation
  import opened Lifecycle

  datatype DebugFields = DebugFields(
    viewOceanMask: bool,
    disableOceanMask: bool,
    disableHeightAboveWaterOptimization: bool,
    disableArtifactCorrection: bool)

  /** GeometryUtility.CalculateFrustumPlanes of a camera. */
  datatype FrustumPlanes = FrustumPlanesOf(camera: Camera)

  /** Calls into code that is not part of this model. */
  datatype Step =
    | GetComponentCamera
    | CalculateFrustumPlanes
    | SetupOceanMask
    | SetupUnderwaterEffect
    | XRUpdate
    | XRUpdatePassIndex
    | PreRenderOceanMask
    | PreRenderUnderwaterEffect

  /**
   * What XRHelpers reports after XRHelpers.Update: single-pass stereo or not,
   * each eye's projection and view, and how UpdatePassIndex moves the pass index.
   */
  datatype XRState = XRState(
    isSinglePass: bool,
    leftEyeProjection: Matrix,
    leftEyeView: Matrix,
    rightEyeProjection: Matrix,
    rightEyeView: Matrix,
    updatePassIndex: int -> int)

  /** The material properties sp_InvViewProjection and sp_InvViewProjectionRight. */
  datatype MatrixProperty = InvViewProjection | InvViewProjectionRight

  /** The calls OnEnable makes before Enable: GetComponent when `_camera` is null, frustum planes when not cached. */
  function FetchSteps(cameraMissing: bool, frustumMissing: bool): seq<Step>
  {
    (if cameraMissing then [GetComponentCamera] else []) + (if frustumMissing then [CalculateFrustumPlanes] else [])
  }

  /** The calls Enable makes before registering the buffers. */
  const SetupSteps: seq<Step> := [SetupOceanMask, SetupUnderwaterEffect]

  /** The trace after OnEnable. */
  function EnableTrace(trace: seq<Step>, cameraMissing: bool, frustumMissing: bool): seq<Step>
  {
    trace + FetchSteps(cameraMissing, frustumMissing) + SetupSteps
  }

  /**
   * The trace after an active frame: OnEnable's calls when no Instance was set,
   * then the XR update, the pass index, and the mask pass strictly before the
   * effect pass.
   */
  function ActiveFrameTrace(trace: seq<Step>, instanceSet: bool, frustumMissing: bool): seq<Step>
  {
    (if instanceSet then trace else EnableTrace(trace, false, frustumMissing))
    + [XRUpdate, XRUpdatePassIndex] + [PreRenderOceanMask] + [PreRenderUnderwaterEffect]
  }

  /** An active frame ends with the mask pass directly followed by the effect pass. */
  lemma MaskPassBeforeEffectPass(trace: seq<Step>, instanceSet: bool, frustumMissing: bool)
    ensures var t := ActiveFrameTrace(trace, instanceSet, frustumMissing);
            && |t| >= 2
            && t[|t| - 2] == PreRenderOceanMask
            && t[|t| - 1] == PreRenderUnderwaterEffect
  {
  }

  const BeforeTransparentKeyword := "CREST_UNDERWATER_BEFORE_TRANSPARENT"
  const SubsurfaceScatteringKeyword := "CREST_SUBSURFACESCATTERING_ON"
  const ShadowsKeyword := "CREST_SHADOWS_ON"
  /** The ocean material keywords mirrored into the two globals above. */
  const MaterialSubsurfaceScatteringKeyword := "_SUBSURFACESCATTERING_ON"
  const MaterialShadowsKeyword := "_SHADOWS_ON"

  datatype LateUpdateOutcome = Completed | NullReference

  /** The static state of the class: `Instance` and `s_xrPassIndex`. */
  class Statics {
    var instance: UnderwaterRenderer?
    var xrPassIndex: int

    /** The static field initialisers. */
    constructor ()
      ensures instance == null && xrPassIndex == -1
    {
      instance := null;
      xrPassIndex := -1;
    }

    /** InitStatics, run by Unity on subsystem registration. */
    method InitStatics()
      modifies this
      ensures instance == null && xrPassIndex == -1
    {
      instance := null;
      xrPassIndex := -1;
    }
  }

  class Material {
    var matrices: map<MatrixProperty, Matrix>

    constructor ()
      ensures matrices == map[]
    {
      matrices := map[];
    }
  }

  /** Global shader keywords (Helpers.ShaderSetGlobalKeyword). */
  class ShaderGlobals {
    var keywords: map<string, bool>

    constructor ()
      ensures keywords == map[]
    {
      keywords := map[];
    }
  }

  class UnderwaterRenderer {
    /** The Camera on the same GameObject (RequireComponent), what GetComponent<Camera>() returns. */
    const gameObjectCamera: Camera
    var camera: Camera?
    var firstRender: bool
    var gpuInverseViewProjectionMatrix: Matrix
    var gpuInverseViewProjectionMatrixRight: Matrix
    var cameraFrustumPlanes: Option<FrustumPlanes>
    /** Serialised inspector settings; the component's own code never writes them. */
    const enableShaderAPI: bool
    const debug: DebugFields
    ghost var trace: seq<Step>

    /** `_camera` is only ever assigned GetComponent<Camera>(). */
    ghost predicate Valid()
      reads this
    {
      camera == null || camera == gameObjectCamera
    }

    /** A component added to the GameObject of `cam`, with its serialised settings, before OnEnable. */
    constructor (cam: Camera, enableShaderAPI: bool, debug: DebugFields)
      ensures Valid() && gameObjectCamera == cam && camera == null
      ensures firstRender && cameraFrustumPlanes.None?
      ensures gpuInverseViewProjectionMatrix == Zero && gpuInverseViewProjectionMatrixRight == Zero
      ensures this.enableShaderAPI == enableShaderAPI && this.debug == debug
      ensures trace == []
    {
      gameObjectCamera := cam;
      this.enableShaderAPI := enableShaderAPI;
      this.debug := debug;
      camera := null;
      firstRender := true;
      gpuInverseViewProjectionMatrix := Zero;
      gpuInverseViewProjectionMatrixRight := Zero;
      cameraFrustumPlanes := None;
      trace := [];
    }

    /** The `Instance` pointer as this renderer sees it, and its camera's hooks. */
    function LifecycleOf(statics: Statics): LifeState
      reads statics`instance, gameObjectCamera`hooks
    {
      LifeState(
        if statics.instance == null then Vacant else if statics.instance == this then This else Other,
        gameObjectCamera.hooks)
    }

    method OnEnable(statics: Statics)
      requires Valid()
      modifies this`camera, this`cameraFrustumPlanes, this`trace, statics`instance, gameObjectCamera`hooks
      ensures Valid() && camera == gameObjectCamera
      ensures cameraFrustumPlanes ==
                if old(cameraFrustumPlanes).None? then Some(FrustumPlanesOf(gameObjectCamera)) else old(cameraFrustumPlanes)
      ensures LifecycleOf(statics) == Enabled(old(LifecycleOf(statics)), enableShaderAPI)
      ensures trace == EnableTrace(old(trace), old(camera) == null, old(cameraFrustumPlanes).None?)
    {
      trace := trace + FetchSteps(camera == null, cameraFrustumPlanes.None?);
      if camera == null {
        camera := gameObjectCamera;
      }
      if cameraFrustumPlanes.None? {
        cameraFrustumPlanes := Some(FrustumPlanesOf(camera));
      }
      statics.instance := this;
      Enable();
    }

    method OnDisable(statics: Statics)
      requires Valid() && camera != null
      modifies statics`instance, gameObjectCamera`hooks
      ensures LifecycleOf(statics) == Disabled(old(LifecycleOf(statics)))
    {
      Disable();
      statics.instance := null;
    }

    method Enable()
      requires Valid() && camera != null
      modifies this`trace, gameObjectCamera`hooks
      ensures gameObjectCamera.hooks == EnabledHooks(old(gameObjectCamera.hooks), enableShaderAPI)
      ensures trace == old(trace) + SetupSteps
    {
      trace := trace + SetupSteps;
      camera.AddCommandBuffer(BeforeForwardAlpha, OceanMask);
      camera.AddCommandBuffer(if enableShaderAPI then BeforeForwardAlpha else AfterForwardAlpha, UnderwaterEffect);
    }

    method Disable()
      requires Valid() && camera != null
      modifies gameObjectCamera`hooks
      ensures gameObjectCamera.hooks == DisabledHooks(old(gameObjectCamera.hooks))
    {
      camera.RemoveCommandBuffer(BeforeForwardAlpha, OceanMask);
      // Either event may hold the effect, whatever the mode is now.
      camera.RemoveCommandBuffer(BeforeForwardAlpha, UnderwaterEffect);
      camera.RemoveCommandBuffer(AfterForwardAlpha, UnderwaterEffect);
    }

    /**
     * The global keywords LateUpdate writes. It dereferences
     * OceanRenderer.Instance and its ViewCamera without a null check, and, with
     * the shader API on, the ocean material too, so it throws before any
     * keyword write when one of them is missing. With the shader API on it
     * mirrors two ocean material keywords before the before-transparent one.
     */
    method LateUpdate(globals: ShaderGlobals, ocean: Option<Ocean>) returns (outcome: LateUpdateOutcome)
      modifies globals`keywords
      ensures outcome == NullReference <==>
                ocean.None? || !ocean.value.hasViewCamera || (enableShaderAPI && ocean.value.oceanMaterial.None?)
      ensures outcome == NullReference ==> globals.keywords == old(globals.keywords)
      ensures outcome == Completed && !enableShaderAPI ==>
                globals.keywords == old(globals.keywords)[BeforeTransparentKeyword := false]
      ensures outcome == Completed && enableShaderAPI ==>
                var material := ocean.value.oceanMaterial.value;
                globals.keywords ==
                  old(globals.keywords)
                    [SubsurfaceScatteringKeyword := MaterialSubsurfaceScatteringKeyword in material.enabledKeywords]
                    [ShadowsKeyword := MaterialShadowsKeyword in material.enabledKeywords]
                    [BeforeTransparentKeyword := true]
    {
      if ocean.None? || !ocean.value.hasViewCamera {
        return NullReference;
      }
      if enableShaderAPI {
        if ocean.value.oceanMaterial.None? {
          return NullReference;
        }
        var material := ocean.value.oceanMaterial.value;
        globals.keywords := globals.keywords[SubsurfaceScatteringKeyword := MaterialSubsurfaceScatteringKeyword in material.enabledKeywords];
        globals.keywords := globals.keywords[ShadowsKeyword := MaterialShadowsKeyword in material.enabledKeywords];
      }
      globals.keywords := globals.keywords[BeforeTransparentKeyword := enableShaderAPI];
      outcome := Completed;
    }

    method OnPreRender(statics: Statics, ocean: Option<Ocean>, wireframe: bool, xr: XRState)
      requires Valid() && camera != null
      modifies this`firstRender, this`gpuInverseViewProjectionMatrix, this`gpuInverseViewProjectionMatrixRight
      modifies this`camera, this`cameraFrustumPlanes, this`trace, statics`instance, statics`xrPassIndex, gameObjectCamera`hooks
      ensures Valid() && camera == old(camera)
      ensures LifecycleOf(statics) ==
                PreRenderLifecycle(old(LifecycleOf(statics)),
                  IsActive(ocean, debug.disableHeightAboveWaterOptimization), wireframe, enableShaderAPI)
      ensures !IsActive(ocean, debug.disableHeightAboveWaterOptimization) || wireframe ==>
                unchanged(this`firstRender, this`gpuInverseViewProjectionMatrix, this`gpuInverseViewProjectionMatrixRight,
                          this`cameraFrustumPlanes, this`trace, statics`xrPassIndex)
      ensures IsActive(ocean, debug.disableHeightAboveWaterOptimization) && !wireframe ==>
                && !firstRender
                && statics.xrPassIndex == xr.updatePassIndex(old(statics.xrPassIndex))
                && (xr.isSinglePass ==>
                      && gpuInverseViewProjectionMatrix == InverseViewProjection(xr.leftEyeProjection, xr.leftEyeView)
                      && gpuInverseViewProjectionMatrixRight == InverseViewProjection(xr.rightEyeProjection, xr.rightEyeView))
                && (!xr.isSinglePass ==>
                      && gpuInverseViewProjectionMatrix ==
                           InverseViewProjection(gameObjectCamera.projectionMatrix, gameObjectCamera.worldToCameraMatrix)
                      && gpuInverseViewProjectionMatrixRight == old(gpuInverseViewProjectionMatrixRight))
                && cameraFrustumPlanes ==
                     (if old(statics.instance) == null && old(cameraFrustumPlanes).None?
                      then Some(FrustumPlanesOf(gameObjectCamera)) else old(cameraFrustumPlanes))
                && trace == ActiveFrameTrace(old(trace), old(statics.instance) != null, old(cameraFrustumPlanes).None?)
    {
      ghost var life0 := LifecycleOf(statics);
      if !IsActive(ocean, debug.disableHeightAboveWaterOptimization) {
        OnDisable(statics);
        assert LifecycleOf(statics) == Disabled(life0);
        return;
      }

      if wireframe {
        OnDisable(statics);
        assert LifecycleOf(statics) == Disabled(life0);
        return;
      }

      ghost var trace0 := trace;
      ghost var instanceSet := statics.instance != null;
      ghost var frustumMissing := cameraFrustumPlanes.None?;
      if statics.instance == null {
        OnEnable(statics);
      }
      ghost var life1 := LifecycleOf(statics);
      assert life1 == if instanceSet then life0 else Enabled(life0, enableShaderAPI);
      ghost var trace1 := trace;
      assert trace1 == if instanceSet then trace0 else EnableTrace(trace0, false, frustumMissing);

      trace := trace + [XRUpdate, XRUpdatePassIndex];
      statics.xrPassIndex := xr.updatePassIndex(statics.xrPassIndex);

      if xr.isSinglePass {
        gpuInverseViewProjectionMatrix := InverseViewProjection(xr.leftEyeProjection, xr.leftEyeView);
        gpuInverseViewProjectionMatrixRight := InverseViewProjection(xr.rightEyeProjection, xr.rightEyeView);
      } else {
        gpuInverseViewProjectionMatrix := InverseViewProjection(camera.projectionMatrix, camera.worldToCameraMatrix);
      }

      trace := trace + [PreRenderOceanMask];
      trace := trace + [PreRenderUnderwaterEffect];

      firstRender := false;
      assert LifecycleOf(statics) == life1;
    }

    /** Publish the inverse view-projection matrices to a material; the right eye's only in single-pass stereo. */
    method SetInverseViewProjectionMatrix(material: Material, xr: XRState)
      modifies material`matrices
      ensures InvViewProjection in material.matrices
      ensures material.matrices[InvViewProjection] == gpuInverseViewProjectionMatrix
      ensures xr.isSinglePass ==>
                material.matrices == old(material.matrices)[InvViewProjection := gpuInverseViewProjectionMatrix]
                                                           [InvViewProjectionRight := gpuInverseViewProjectionMatrixRight]
      ensures !xr.isSinglePass ==>
                material.matrices == old(material.matrices)[InvViewProjection := gpuInverseViewProjectionMatrix]
    {
      if xr.isSinglePass {
        material.matrices := material.matrices[InvViewProjection := gpuInverseViewProjectionMatrix];
        material.matrices := material.matrices[InvViewProjectionRight := gpuInverseViewProjectionMatrixRight];
      } else {
        material.matrices := material.matrices[InvViewProjection := gpuInverseViewProjectionMatrix];
      }
    }
  }
}
