/**
 * The activation state machine of the underwater renderer, on values: the
 * static `Instance` pointer as seen by one renderer, and the hooks its camera
 * holds. The renderer's methods are proved to follow these functions; the
 * invariants of the state machine are proved here.
 */
module Lifecycle {
  import opened Registry

  const MaskHook := Hook(BeforeForwardAlpha, OceanMask)
  const EffectBefore := Hook(BeforeForwardAlpha, UnderwaterEffect)
  const EffectAfter := Hook(AfterForwardAlpha, UnderwaterEffect)

  /** The event the effect buffer is added at: before transparents with the shader API on, after them otherwise. */
  function EffectEvent(enableShaderAPI: bool): CameraEvent
  {
    if enableShaderAPI then BeforeForwardAlpha else AfterForwardAlpha
  }

  /** One of the two buffers the renderer owns, at whatever event. */
  predicate IsOwn(h: Hook)
  {
    h.buffer == OceanMask || h.buffer == UnderwaterEffect
  }

  /** Neither buffer is registered at any event. */
  predicate Unregistered(hooks: seq<Hook>)
  {
    forall x :: x in hooks ==> !IsOwn(x)
  }

  /** The mask is registered once before transparents, the effect once before or after them, and nothing else of ours. */
  predicate RegisteredOnce(hooks: seq<Hook>)
  {
    && Count(hooks, MaskHook) == 1
    && Count(hooks, EffectBefore) + Count(hooks, EffectAfter) == 1
    && forall x :: x in hooks && IsOwn(x) ==> x == MaskHook || x == EffectBefore || x == EffectAfter
  }

  /** UnderwaterRenderer.Enable: the mask before transparents, then the effect at EffectEvent. */
  function EnabledHooks(hooks: seq<Hook>, enableShaderAPI: bool): (r: seq<Hook>)
    ensures forall x :: x in r <==> x in hooks || x == MaskHook || x == Hook(EffectEvent(enableShaderAPI), UnderwaterEffect)
  {
    hooks + [MaskHook] + [Hook(EffectEvent(enableShaderAPI), UnderwaterEffect)]
  }

  /** Enable adds one registration of the mask and one of the effect, at the event the mode selects, and nothing else. */
  lemma EnableAddsOneOfEach(hooks: seq<Hook>, enableShaderAPI: bool)
    ensures var r := EnabledHooks(hooks, enableShaderAPI);
            && Count(r, MaskHook) == Count(hooks, MaskHook) + 1
            && Count(r, EffectBefore) == Count(hooks, EffectBefore) + (if enableShaderAPI then 1 else 0)
            && Count(r, EffectAfter) == Count(hooks, EffectAfter) + (if enableShaderAPI then 0 else 1)
            && forall x :: x != MaskHook && x != EffectBefore && x != EffectAfter ==> Count(r, x) == Count(hooks, x)
  {
  }

  /**
   * Enable keeps the registry's existing hooks in place and appends the mask
   * before the effect, so with the shader API on (both at BeforeForwardAlpha)
   * the mask's buffer runs first.
   */
  lemma EnableAppendsMaskThenEffect(hooks: seq<Hook>, enableShaderAPI: bool)
    ensures var r := EnabledHooks(hooks, enableShaderAPI);
            && |r| == |hooks| + 2
            && r[..|hooks|] == hooks
            && r[|hooks|] == MaskHook
            && r[|hooks| + 1] == Hook(EffectEvent(enableShaderAPI), UnderwaterEffect)
  {
  }

  /** UnderwaterRenderer.Disable: the mask removed from BeforeForwardAlpha and the effect from both alpha events, whichever mode added it. */
  function DisabledHooks(hooks: seq<Hook>): (r: seq<Hook>)
    ensures MaskHook !in r && EffectBefore !in r && EffectAfter !in r
    ensures forall x :: x in r ==> x in hooks
    ensures forall x :: x != MaskHook && x != EffectBefore && x != EffectAfter ==> Count(r, x) == Count(hooks, x)
    ensures MaskHook !in hooks && EffectBefore !in hooks && EffectAfter !in hooks ==> r == hooks
  {
    RemoveAll(RemoveAll(RemoveAll(hooks, MaskHook), EffectBefore), EffectAfter)
  }

  /** What `Instance` holds, from one renderer's point of view. */
  datatype Slot = Vacant | This | Other

  datatype LifeState = LifeState(slot: Slot, hooks: seq<Hook>)

  /** OnEnable: `Instance = this` and Enable. */
  function Enabled(l: LifeState, enableShaderAPI: bool): LifeState
  {
    LifeState(This, EnabledHooks(l.hooks, enableShaderAPI))
  }

  /** OnDisable: Disable and `Instance = null`. */
  function Disabled(l: LifeState): LifeState
  {
    LifeState(Vacant, DisabledHooks(l.hooks))
  }

  /** The lifecycle part of OnPreRender. */
  function PreRenderLifecycle(l: LifeState, active: bool, wireframe: bool, enableShaderAPI: bool): (r: LifeState)
    ensures !active || wireframe ==>
              r.slot == Vacant && MaskHook !in r.hooks && EffectBefore !in r.hooks && EffectAfter !in r.hooks
    ensures active && !wireframe ==> r.slot != Vacant
    ensures active && !wireframe && l.slot != Vacant ==> r == l
  {
    if !active || wireframe then Disabled(l)
    else if l.slot == Vacant then Enabled(l, enableShaderAPI)
    else l
  }

  /** `Instance != null` exactly when both buffers are registered once; `Instance == null` when none is. */
  predicate Inv(l: LifeState)
  {
    && l.slot != Other
    && (l.slot == This ==> RegisteredOnce(l.hooks))
    && (l.slot == Vacant ==> Unregistered(l.hooks))
  }

  lemma EnableRegistersOnce(hooks: seq<Hook>, enableShaderAPI: bool)
    requires Unregistered(hooks)
    ensures RegisteredOnce(EnabledHooks(hooks, enableShaderAPI))
  {
    assert MaskHook !in hooks && EffectBefore !in hooks && EffectAfter !in hooks;
  }

  lemma DisableUnregisters(hooks: seq<Hook>)
    requires forall x :: x in hooks && IsOwn(x) ==> x == MaskHook || x == EffectBefore || x == EffectAfter
    ensures Unregistered(DisabledHooks(hooks))
  {
  }

  /** Disable on a registry without our buffers changes nothing. */
  lemma DisableOnUnregisteredIsNoOp(hooks: seq<Hook>)
    requires Unregistered(hooks)
    ensures DisabledHooks(hooks) == hooks
  {
    assert MaskHook !in hooks && EffectBefore !in hooks && EffectAfter !in hooks;
  }

  lemma PreRenderKeepsInv(l: LifeState, active: bool, wireframe: bool, enableShaderAPI: bool)
    requires Inv(l)
    ensures Inv(PreRenderLifecycle(l, active, wireframe, enableShaderAPI))
  {
    if !active || wireframe {
      DisableUnregisters(l.hooks);
    } else if l.slot == Vacant {
      EnableRegistersOnce(l.hooks, enableShaderAPI);
    }
  }

  /** Enable in one mode, Disable, Enable in the other: no hook of the first mode is left. */
  lemma ModeToggleLeavesNoStaleHook(hooks: seq<Hook>)
    requires Unregistered(hooks)
    ensures var h := EnabledHooks(DisabledHooks(EnabledHooks(hooks, true)), false);
            Count(h, MaskHook) == 1 && Count(h, EffectBefore) == 0 && Count(h, EffectAfter) == 1
  {
    var h1 := EnabledHooks(hooks, true);
    EnableRegistersOnce(hooks, true);
    DisableUnregisters(h1);
    EnableRegistersOnce(DisabledHooks(h1), false);
  }

  // The Unity host around the renderer: it calls OnEnable only when the
  // component goes from disabled to enabled, OnDisable only the other way, and
  // OnPreRender only while the component is enabled. `enableShaderAPI` is
  // carried by each event because it is an inspector field that can change
  // between calls.

  datatype HostEvent =
    | ComponentEnabled(enableShaderAPI: bool)
    | ComponentDisabled
    | Frame(active: bool, wireframe: bool, enableShaderAPI: bool)

  datatype HostState = HostState(componentEnabled: bool, life: LifeState)

  function HostStep(s: HostState, e: HostEvent): HostState
  {
    match e
    case ComponentEnabled(api) =>
      if s.componentEnabled then s else HostState(true, Enabled(s.life, api))
    case ComponentDisabled =>
      if s.componentEnabled then HostState(false, Disabled(s.life)) else s
    case Frame(active, wireframe, api) =>
      if s.componentEnabled then HostState(true, PreRenderLifecycle(s.life, active, wireframe, api)) else s
  }

  function Run(s: HostState, events: seq<HostEvent>): HostState
    decreases |events|
  {
    if events == [] then s else Run(HostStep(s, events[0]), events[1..])
  }

  predicate HostInv(s: HostState)
  {
    Inv(s.life) && (!s.componentEnabled ==> s.life.slot == Vacant)
  }

  lemma HostStepKeepsInv(s: HostState, e: HostEvent)
    requires HostInv(s)
    ensures HostInv(HostStep(s, e))
  {
    match e
    case ComponentEnabled(api) =>
      if !s.componentEnabled { EnableRegistersOnce(s.life.hooks, api); }
    case ComponentDisabled =>
      if s.componentEnabled { DisableUnregisters(s.life.hooks); }
    case Frame(active, wireframe, api) =>
      if s.componentEnabled { PreRenderKeepsInv(s.life, active, wireframe, api); }
  }

  /** Over any sequence of host calls: Instance set iff each buffer is registered exactly once, none otherwise. */
  lemma {:induction false} RunKeepsInv(s: HostState, events: seq<HostEvent>)
    requires HostInv(s)
    ensures HostInv(Run(s, events))
    decreases |events|
  {
    if events != [] {
      HostStepKeepsInv(s, events[0]);
      RunKeepsInv(HostStep(s, events[0]), events[1..]);
    }
  }

  /** From start-up (no Instance, none of our buffers on the camera) the invariant holds forever. */
  lemma RunFromStartUp(foreign: seq<Hook>, events: seq<HostEvent>)
    requires Unregistered(foreign)
    ensures var r := Run(HostState(false, LifeState(Vacant, foreign)), events);
            && r.life.slot != Other
            && (r.life.slot == This ==> RegisteredOnce(r.life.hooks))
            && (r.life.slot == Vacant ==> Unregistered(r.life.hooks))
  {
    RunKeepsInv(HostState(false, LifeState(Vacant, foreign)), events);
  }

  /** A second active frame after an active frame changes nothing: hooks are never duplicated. */
  lemma ActiveFramesDoNotDuplicate(l: LifeState, api1: bool, api2: bool)
    ensures var l1 := PreRenderLifecycle(l, true, false, api1);
            PreRenderLifecycle(l1, true, false, api2) == l1
  {
  }
}
