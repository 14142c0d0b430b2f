/** Captured frames and overlay pictures. A plane's data is what its pointer can reach; `None` is a null pointer. */
module Frames {
  import opened Arithmetic
  import opened Wrappers

  datatype PixelFormat = NV12 | I420 | YUYV | RGB8 | BGR8 | RGBA8 | BGRA8 | GRAY8

  datatype Memory = CPU | GPU | NVMM

  datatype Plane = Plane(stride: nat, data: Option<seq<Byte>>, size: nat)

  datatype Frame = Frame(
    frameId: nat, format: PixelFormat, memory: Memory, width: nat, height: nat, capturedAt: nat, planes: seq<Plane>)

  /** An overlay picture, four bytes a pixel. */
  datatype RgbaImage = RgbaImage(width: nat, height: nat, stride: nat, pixels: seq<Byte>)
}
