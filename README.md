# Underwater renderer activation — a Dafny model

This project models the frame-by-frame activation logic of Crest's
`UnderwaterRenderer`, the Unity component that draws the underwater effect on a
camera. It covers these parts:

- **IsActive** decides whether the effect runs this frame. It needs an ocean,
  and, unless the debug override is set, a viewer at most 2 units above the water.
- **OnEnable / OnDisable / Enable / Disable** set and clear the static
  `Instance` pointer. They register and remove two command buffers on the camera:
  - the ocean mask, always at `BeforeForwardAlpha`;
  - the underwater effect, at `BeforeForwardAlpha` when `_enableShaderAPI` is on,
    otherwise at `AfterForwardAlpha`.
- **OnPreRender** is the per-frame driver. When the effect is inactive or
  wireframe is on, it tears everything down. Otherwise it re-enables if no
  `Instance` is set, and derives the mono or single-pass-stereo inverse
  view-projection matrices. It then runs the mask pass before the effect pass and
  clears `_firstRender`.
- **SetInverseViewProjectionMatrix** publishes those matrices to a material.
  **LateUpdate** writes the `CREST_UNDERWATER_BEFORE_TRANSPARENT` keyword.
  With the shader API on, it also mirrors two ocean-material keywords.

Layout:

- `wrappers.dfy`: `Option`.
- `matrices.dfy`: `Matrix` as symbolic terms (an uninterpreted type).
- `registry.dfy`: the camera's command-buffer registry and the `Camera` class.
  The registry is a sequence of (event, buffer) pairs. `AddCommandBuffer` appends
  a pair and `RemoveCommandBuffer` deletes every equal pair. This is an
  assumption about Unity's API.
- `activation.dfy`: `IsActive`.
- `lifecycle.dfy`: the activation state machine on values, with its invariant.
  `Instance` is set exactly when each buffer is registered once, and clear
  exactly when neither is. The invariant is proved over any sequence of Unity
  callbacks. The Unity host is modelled too. It calls OnEnable only when the
  component turns on, OnDisable only when it turns off, and OnPreRender only
  while it is on. `_enableShaderAPI` may change between any two calls.
- `scenarios.dfy`: whole frames (activation decision plus lifecycle).
- `underwater_renderer.dfy`: the component as a class.
  - The C# statics `Instance` and `s_xrPassIndex` live in a `Statics` object.
  - Calls into code this model does not contain (`SetupOceanMask`,
    `OnPreRenderOceanMask`, `XRHelpers.Update`, ...) are recorded in call order
    in a ghost `trace`.
  - Each method's contract ties the new state to the pure functions of
    `lifecycle.dfy`.

Behaviours of the code worth noting:

- OnEnable registers the buffers whether or not `IsActive` holds. The next
  OnPreRender removes them if the effect is inactive.
- `LateUpdate` reads `OceanRenderer.Instance` and its `ViewCamera` without a
  null check (line 169). With the shader API on, it also reads the ocean
  material without one (lines 182-184). When any of these is missing, it throws
  before any keyword write, so the model's `LateUpdate` returns `NullReference`
  and leaves the keywords unchanged.
- The `[Range]` bounds on the tunables are not enforced at run time, so
  nothing is clamped.
- The matrix inverse is taken unconditionally. No degenerate-camera check exists.

## Model

| member | source | states |
|---|---|---|
| Activation.IsActive | crest/Assets/Crest/Crest/Scripts/Underwater/UnderwaterRenderer.cs:96-112 | false with no ocean at any height or setting; with the optimisation on, true iff the viewer height is at most 2 (exactly 2 is active); with `_disableHeightAboveWaterOptimization` set, true iff an ocean exists |
| Registry.RemoveAll | crest/Assets/Crest/Crest/Scripts/Underwater/UnderwaterRenderer.cs:152-155 | the removed hook is absent afterwards; no new hook appears; every other hook keeps its count; removing an absent hook changes nothing |
| Registry.Camera.AddCommandBuffer | crest/Assets/Crest/Crest/Scripts/Underwater/UnderwaterRenderer.cs:146-147 | the registry gains the (event, buffer) pair at its end |
| Registry.Camera.RemoveCommandBuffer | crest/Assets/Crest/Crest/Scripts/Underwater/UnderwaterRenderer.cs:152-155 | the registry loses every equal pair and keeps the rest |
| Lifecycle.EnabledHooks | crest/Assets/Crest/Crest/Scripts/Underwater/UnderwaterRenderer.cs:142-148 | after Enable the registry holds exactly the old hooks, the mask at BeforeForwardAlpha, and the effect at the event the shader-API flag selects |
| Lifecycle.EnableAddsOneOfEach | crest/Assets/Crest/Crest/Scripts/Underwater/UnderwaterRenderer.cs:146-147 | Enable adds one mask registration at BeforeForwardAlpha, and one effect registration at BeforeForwardAlpha with the shader API on or at AfterForwardAlpha with it off; nothing else changes |
| Lifecycle.EnableAppendsMaskThenEffect | crest/Assets/Crest/Crest/Scripts/Underwater/UnderwaterRenderer.cs:146-147 | existing hooks stay in place; the mask is appended before the effect |
| Lifecycle.DisabledHooks | crest/Assets/Crest/Crest/Scripts/Underwater/UnderwaterRenderer.cs:150-156 | after Disable the mask at BeforeForwardAlpha and the effect at either event are gone (a mask at another event stays); no hook is added; every other hook keeps its count; on a registry without those three Disable changes nothing |
| Lifecycle.DisableOnUnregisteredIsNoOp | crest/Assets/Crest/Crest/Scripts/Underwater/UnderwaterRenderer.cs:150-156 | Disable on a registry holding none of the renderer's buffers returns it unchanged |
| Lifecycle.EnableRegistersOnce | crest/Assets/Crest/Crest/Scripts/Underwater/UnderwaterRenderer.cs:142-148 | from a registry without the renderer's buffers, Enable registers each exactly once |
| Lifecycle.DisableUnregisters | crest/Assets/Crest/Crest/Scripts/Underwater/UnderwaterRenderer.cs:150-156 | when the mask sits only at BeforeForwardAlpha and the effect only at the two alpha events, Disable leaves none of the renderer's buffers registered, whichever mode added them |
| Lifecycle.ModeToggleLeavesNoStaleHook | crest/Assets/Crest/Crest/Scripts/Underwater/UnderwaterRenderer.cs:147-155 | enable with the shader API, disable, enable without it: the mask once, the effect once after transparents, none before |
| Lifecycle.PreRenderLifecycle | crest/Assets/Crest/Crest/Scripts/Underwater/UnderwaterRenderer.cs:205-220 | an inactive or wireframe frame ends with no Instance, the mask gone from BeforeForwardAlpha and the effect gone from both alpha events; an active frame ends with an Instance, and changes nothing when one was already set |
| Lifecycle.PreRenderKeepsInv | crest/Assets/Crest/Crest/Scripts/Underwater/UnderwaterRenderer.cs:205-220 | one frame preserves "Instance set iff each buffer registered once, none otherwise" |
| Lifecycle.ActiveFramesDoNotDuplicate | crest/Assets/Crest/Crest/Scripts/Underwater/UnderwaterRenderer.cs:217-220 | from any state (any Instance, any registry), a second active frame leaves Instance and the hooks exactly as the first left them |
| Lifecycle.HostStepKeepsInv | crest/Assets/Crest/Crest/Scripts/Underwater/UnderwaterRenderer.cs:114-140 | each Unity callback (enable, disable, pre-render) preserves the invariant, and a disabled component has no Instance |
| Lifecycle.RunKeepsInv | crest/Assets/Crest/Crest/Scripts/Underwater/UnderwaterRenderer.cs:203-220 | over any sequence of callbacks, and any flips of the shader-API flag, the invariant holds |
| Lifecycle.RunFromStartUp | crest/Assets/Crest/Crest/Scripts/Underwater/UnderwaterRenderer.cs:84-94 | from start-up (no Instance, no buffers of ours): Instance set implies each buffer registered exactly once; no Instance implies none registered |
| Scenarios.NoOceanMeansNoHooks | crest/Assets/Crest/Crest/Scripts/Underwater/UnderwaterRenderer.cs:100-103 | from a state satisfying the lifecycle invariant, a frame without an ocean ends disabled with no buffers registered |
| Scenarios.WireframeMeansNoHooks | crest/Assets/Crest/Crest/Scripts/Underwater/UnderwaterRenderer.cs:211-215 | from a state satisfying the lifecycle invariant, a wireframe frame ends disabled with no buffers registered, whatever the ocean |
| Scenarios.FarAboveWaterDisables | crest/Assets/Crest/Crest/Scripts/Underwater/UnderwaterRenderer.cs:105-108 | from a state satisfying the lifecycle invariant, more than 2 units above the water, with the optimisation on, the frame ends disabled with no buffers registered |
| Scenarios.NearSurfaceEnables | crest/Assets/Crest/Crest/Scripts/Underwater/UnderwaterRenderer.cs:217-220 | near the surface, on an empty camera, the frame registers exactly the mask before transparents and the effect after them |
| Underwater.MaskPassBeforeEffectPass | crest/Assets/Crest/Crest/Scripts/Underwater/UnderwaterRenderer.cs:236-237 | an active frame ends with the mask pass immediately followed by the effect pass |
| Underwater.Statics.constructor | crest/Assets/Crest/Crest/Scripts/Underwater/UnderwaterRenderer.cs:84-87 | before InitStatics, Instance is null and the pass index is -1 |
| Underwater.Statics.InitStatics | crest/Assets/Crest/Crest/Scripts/Underwater/UnderwaterRenderer.cs:89-94 | Instance becomes null and the pass index -1 |
| Underwater.UnderwaterRenderer.constructor | crest/Assets/Crest/Crest/Scripts/Underwater/UnderwaterRenderer.cs:77-81 | a new component has no camera, `_firstRender` true, zero matrices, and no cached frustum planes |
| Underwater.UnderwaterRenderer.OnEnable | crest/Assets/Crest/Crest/Scripts/Underwater/UnderwaterRenderer.cs:114-134 | fetches the camera only when null; computes frustum planes only when not cached; sets Instance to this; registers as Enable does |
| Underwater.UnderwaterRenderer.OnDisable | crest/Assets/Crest/Crest/Scripts/Underwater/UnderwaterRenderer.cs:136-140 | removes the hooks as Disable does and sets Instance to null |
| Underwater.UnderwaterRenderer.Enable | crest/Assets/Crest/Crest/Scripts/Underwater/UnderwaterRenderer.cs:142-148 | sets up both buffers, then leaves the camera's registry equal to EnabledHooks of the old one |
| Underwater.UnderwaterRenderer.Disable | crest/Assets/Crest/Crest/Scripts/Underwater/UnderwaterRenderer.cs:150-156 | leaves the camera's registry equal to DisabledHooks of the old one |
| Underwater.UnderwaterRenderer.OnPreRender | crest/Assets/Crest/Crest/Scripts/Underwater/UnderwaterRenderer.cs:203-240 | the lifecycle follows PreRenderLifecycle; an inactive or wireframe frame leaves `_firstRender`, the matrices, the frustum cache, the pass index and the trace unchanged; an active frame re-enables only when Instance was null (computing frustum planes only if none were cached, otherwise keeping the cache), advances the XR pass index, writes both eye matrices in single-pass stereo but in mono writes the left one from the camera and keeps the right one, runs the mask pass before the effect pass and clears `_firstRender` |
| Underwater.UnderwaterRenderer.SetInverseViewProjectionMatrix | crest/Assets/Crest/Crest/Scripts/Underwater/UnderwaterRenderer.cs:242-254 | always sets the left/mono matrix property; sets the right-eye property only in single-pass stereo; other properties are unchanged |
| Underwater.UnderwaterRenderer.LateUpdate | crest/Assets/Crest/Crest/Scripts/Underwater/UnderwaterRenderer.cs:158-201 | throws a null reference, and writes no keyword, exactly when the ocean or its view camera is missing, or the shader API is on and the ocean material is missing; otherwise, with the shader API off, sets `CREST_UNDERWATER_BEFORE_TRANSPARENT` to false and changes no other keyword; with it on, sets `CREST_SUBSURFACESCATTERING_ON` and `CREST_SHADOWS_ON` to whether the material enables `_SUBSURFACESCATTERING_ON` and `_SHADOWS_ON`, and `CREST_UNDERWATER_BEFORE_TRANSPARENT` to true |

## Left out

- Matrix arithmetic (`GL.GetGPUProjectionMatrix`, the product and `.inverse`) is not modelled. These are floating-point operations and engine calls. Matrices are symbolic terms, and nothing is claimed about inversion.
- Underwater.UnderwaterRenderer.LateUpdate: only the global keywords are modelled. The spherical-harmonics ambient sample, `Shader.SetGlobalInt` of `_filterOceanData` as the slice offset, and the ocean-material vector, colours and floats it copies are not. These are engine calls on floats and colours. What `Helpers.ShaderSetGlobalKeyword` does is assumed to be "set this global keyword to this value"; `Helpers` is not part of this model.
- `XRHelpers.Update` and `XRHelpers.UpdatePassIndex` are not part of this model. The first is a trace step. Its results (single-pass flag, eye matrices) arrive as an `XRState` input. The second is a function in that input, applied to the pass index.
- `SetupOceanMask`, `SetupUnderwaterEffect`, `OnPreRenderOceanMask`, `OnPreRenderUnderwaterEffect` and `GeometryUtility.CalculateFrustumPlanes` are not part of this model. Their bodies live in other files, so they appear only as trace steps. The cached frustum planes record only the camera they came from.
- `Validate`, the custom editor, `_version`, profiler samples, the `[Range]` attributes, and the tunables read only by work this model leaves out are left out: `_filterOceanData` (the slice offset at line 177), `_meniscus` and `_depthFogDensityFactor` (exposed through the properties at lines 42 and 47), and `_copyOceanMaterialParamsEachFrame` and `_farPlaneMultiplier` (not read in this file). All of this is editor-only, or feeds computations outside the model.
- Underwater.UnderwaterRenderer.OnPreRender, OnDisable, Disable and Enable require `_camera` to be non-null. In the source a null camera throws `NullReferenceException`, and Unity always calls OnEnable, which sets it, first.
- Underwater.UnderwaterRenderer: `_enableShaderAPI` and `_debug` are constants of the object. The component's code never writes them, so inspector edits between frames are not modelled on the class. The pure host model in `lifecycle.dfy` lets the shader-API flag change between any two callbacks.
- Several renderers sharing the static `Instance` are not modelled. The source supports only one camera. The lifecycle functions still describe what one renderer does when another renderer holds `Instance`.
- Float comparison is modelled with `real`. Rounding of the viewer height is not captured. Neither is a NaN height: `NaN > 2f` is false, so the source treats a NaN height as active, and a `real` cannot be NaN.
