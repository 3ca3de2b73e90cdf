/** The first half of the activity's `ImageProxy.toBitmap` extension: packing
    the Y plane and the interleaved VU plane of a camera frame into one NV21
    byte array. The JPEG round trip that follows is a platform codec; the
    resulting bitmap keeps the packed bytes as its source. */
module Nv21 {
  import opened Platform

  /** Allocates `ySize + vuSize` bytes and fills them with what remains of
      plane 0 (Y) followed by what remains of plane 2 (VU). Plane 1 is not
      touched; the two buffers read are left fully consumed. */
  method PackNv21(proxy: ImageProxy) returns (nv21: array<byte>)
    requires proxy.Valid()
    modifies proxy.planes[0], proxy.planes[2]
    ensures proxy.Valid()
    ensures fresh(nv21)
    ensures nv21.Length == |old(proxy.planes[0].Pending())| + |old(proxy.planes[2].Pending())|
    ensures nv21[..] == old(proxy.planes[0].Pending()) + old(proxy.planes[2].Pending())
    ensures proxy.planes[0].Pending() == [] && proxy.planes[2].Pending() == []
    ensures unchanged(proxy.planes[1])
  {
    var yBuffer := proxy.planes[0];
    var vuBuffer := proxy.planes[2];
    var ySize := yBuffer.Remaining();
    var vuSize := vuBuffer.Remaining();
    nv21 := new byte[ySize + vuSize];
    yBuffer.Get(nv21, 0, ySize);
    assert nv21[..ySize] == old(yBuffer.Pending());
    vuBuffer.Get(nv21, ySize, vuSize);
    assert nv21[..] == nv21[..ySize] + nv21[ySize..];
  }

  /** `toBitmap()`: the packed frame, decoded into a bitmap of the frame's size. */
  method ToBitmap(proxy: ImageProxy) returns (bitmap: Bitmap)
    requires proxy.Valid()
    modifies proxy.planes[0], proxy.planes[2]
    ensures proxy.Valid()
    ensures bitmap == Bitmap(proxy.width, proxy.height, old(proxy.planes[0].Pending()) + old(proxy.planes[2].Pending()), [])
    ensures proxy.planes[0].Pending() == [] && proxy.planes[2].Pending() == []
    ensures unchanged(proxy.planes[1])
  {
    var nv21 := PackNv21(proxy);
    bitmap := Bitmap(proxy.width, proxy.height, nv21[..], []);
  }
}
