/**
 * The camera's command-buffer registry. Unity keeps, per camera, the command
 * buffers attached at each camera event; the model keeps them as a sequence of
 * (event, buffer) pairs. AddCommandBuffer appends one pair and
 * RemoveCommandBuffer deletes every pair equal to its arguments. This is an
 * assumption about the engine's API, whose code is not part of this model.
 */
module Registry {
  import opened Matrices

  datatype CameraEvent = BeforeForwardAlpha | AfterForwardAlpha | OtherCameraEvent(name: string)

  /** The renderer's two buffers, and buffers other scripts attach to the same camera. */
  datatype CommandBuffer = OceanMask | UnderwaterEffect | ForeignBuffer(id: nat)

  datatype Hook = Hook(event: CameraEvent, buffer: CommandBuffer)

  /** How many times `h` is registered. */
  function Count(hooks: seq<Hook>, h: Hook): nat
  {
    multiset(hooks)[h]
  }

  /** The registry after deleting every occurrence of `h`; every other hook keeps its count. */
  function RemoveAll(hooks: seq<Hook>, h: Hook): (r: seq<Hook>)
    ensures h !in r
    ensures forall x :: x in r ==> x in hooks
    ensures forall x :: x != h ==> Count(r, x) == Count(hooks, x)
    ensures h !in hooks ==> r == hooks
  {
    if hooks == [] then []
    else
      assert hooks == [hooks[0]] + hooks[1..];
      if hooks[0] == h then RemoveAll(hooks[1..], h)
      else [hooks[0]] + RemoveAll(hooks[1..], h)
  }

  /** A Unity camera, as far as the renderer uses it. */
  class Camera {
    var hooks: seq<Hook>
    var projectionMatrix: Matrix
    var worldToCameraMatrix: Matrix

    constructor (hooks: seq<Hook>, projection: Matrix, worldToCamera: Matrix)
      ensures this.hooks == hooks
      ensures projectionMatrix == projection && worldToCameraMatrix == worldToCamera
    {
      this.hooks := hooks;
      projectionMatrix := projection;
      worldToCameraMatrix := worldToCamera;
    }

    /** Camera.AddCommandBuffer */
    method AddCommandBuffer(event: CameraEvent, buffer: CommandBuffer)
      modifies this`hooks
      ensures hooks == old(hooks) + [Hook(event, buffer)]
    {
      hooks := hooks + [Hook(event, buffer)];
    }

    /** Camera.RemoveCommandBuffer */
    method RemoveCommandBuffer(event: CameraEvent, buffer: CommandBuffer)
      modifies this`hooks
      ensures hooks == RemoveAll(old(hooks), Hook(event, buffer))
    {
      hooks := RemoveAll(hooks, Hook(event, buffer));
    }
  }
}
