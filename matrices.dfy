/**
 * Unity's Matrix4x4 as an uninterpreted type. A matrix is a symbolic term:
 * the model records which projection, product and inverse produced a value,
 * and says nothing about the numbers inside it.
 */
module Matrices {
  datatype Matrix =
    | Zero                                           // default value of a Matrix4x4 field
    | Named(name: string)                            // a matrix supplied by the engine (camera, XR eye)
    | GpuProjection(projection: Matrix, renderIntoTexture: bool) // GL.GetGPUProjectionMatrix(projection, renderIntoTexture)
    | Product(left: Matrix, right: Matrix)
    | Inverse(of: Matrix)

  /** (GL.GetGPUProjectionMatrix(projection, false) * view).inverse */
  function InverseViewProjection(projection: Matrix, view: Matrix): Matrix
  {
    Inverse(Product(GpuProjection(projection, false), view))
  }
}
