/**
 * `tensorToImage`: turns a channel-first tensor into the RGBA bytes of an
 * image. Values are reals; `Math.round` is `floor(y + 0.5)`, which is what it
 * computes on finite numbers. Bytes are stored in a `Uint8ClampedArray`,
 * modelled as an array of integers that the conversion keeps in [0, 255].
 */
module Render {
  import opened Wrappers
  import opened Onnx

  /** `Math.round` on a finite value: the nearest integer, halves rounded up. */
  function Round(y: real): (n: int)
    ensures y - 0.5 < n as real <= y + 0.5
  {
    (y + 0.5).Floor
  }

  function Clamp(lo: real, hi: real, x: real): real
    requires lo <= hi
  {
    if x < lo then lo else if x > hi then hi else x
  }

  /**
   * `toByte`: a value in [-1, 1] is rescaled linearly onto [0, 255]; any other
   * value is read as already in [0, 1] and clamped to it first.
   */
  function ToByte(v: real): (b: int)
    ensures 0 <= b <= 255
    ensures v < -1.0 ==> b == 0
    ensures v > 1.0 ==> b == 255
    ensures -1.0 <= v <= 1.0 ==> b == Round((v + 1.0) / 2.0 * 255.0)
  {
    var x := if v < -1.0 || v > 1.0 then Clamp(0.0, 1.0, v) else (v + 1.0) / 2.0;
    Round(Clamp(0.0, 255.0, x * 255.0))
  }

  /** Rounding never reverses the order of two values. */
  lemma RoundMonotone(x: real, y: real)
    requires x <= y
    ensures Round(x) <= Round(y)
  {
    var a, b := Round(x), Round(y);
    assert a as real <= x + 0.5 < b as real + 1.0;
  }

  /** `toByte` is monotone: a brighter value never gives a darker byte. */
  lemma ToByteMonotone(v: real, w: real)
    requires v <= w
    ensures ToByte(v) <= ToByte(w)
  {
    if -1.0 <= v <= 1.0 && -1.0 <= w <= 1.0 {
      RoundMonotone((v + 1.0) / 2.0 * 255.0, (w + 1.0) / 2.0 * 255.0);
    }
  }

  /** The end points of the rescaled range. */
  lemma ToByteEnds()
    ensures ToByte(-1.0) == 0 && ToByte(1.0) == 255 && ToByte(0.0) == 128
  {
  }

  /** `data[i] ?? 0`: the red value, 0 past the end of the buffer. */
  function Red(data: seq<real>, i: nat): real {
    if i < |data| then data[i] else 0.0
  }

  /** `data[i + plane] ?? r`: the green value, falling back to red past the end of the buffer. */
  function Green(data: seq<real>, plane: nat, i: nat): real {
    if i + plane < |data| then data[i + plane] else Red(data, i)
  }

  /** `data[i + 2 * plane] ?? r`: the blue value, falling back to red past the end of the buffer. */
  function Blue(data: seq<real>, plane: nat, i: nat): real {
    if i + 2 * plane < |data| then data[i + 2 * plane] else Red(data, i)
  }

  /** Byte `c` (0 red, 1 green, 2 blue, 3 alpha) of pixel `i`. */
  function PixelByte(data: seq<real>, plane: nat, i: nat, c: nat): int
    requires c < 4
  {
    if c == 0 then ToByte(Red(data, i))
    else if c == 1 then ToByte(Green(data, plane, i))
    else if c == 2 then ToByte(Blue(data, plane, i))
    else 255
  }

  /** The RGBA bytes of a `w` by `h` image drawn from `data`: four bytes per pixel, pixel `i` at `4 * i`. */
  function Rgba(data: seq<real>, w: nat, h: nat): seq<int> {
    seq(w * h * 4, k requires 0 <= k => PixelByte(data, w * h, k / 4, k % 4))
  }

  lemma DivMod4(i: nat, c: nat)
    requires c < 4
    ensures (4 * i + c) / 4 == i && (4 * i + c) % 4 == c
  {
  }

  /**
   * The layout of the image: bytes `4i`, `4i+1` and `4i+2` come from buffer
   * indices `i`, `i + plane` and `i + 2 * plane` (green and blue falling back to
   * red, red to 0), byte `4i+3` is 255, and every byte is in [0, 255].
   */
  lemma RgbaPixel(data: seq<real>, w: nat, h: nat, i: nat)
    requires i < w * h
    ensures var px := Rgba(data, w, h);
      |px| == 4 * w * h &&
      px[4 * i] == ToByte(if i < |data| then data[i] else 0.0) &&
      px[4 * i + 1] == ToByte(if i + w * h < |data| then data[i + w * h] else Red(data, i)) &&
      px[4 * i + 2] == ToByte(if i + 2 * (w * h) < |data| then data[i + 2 * (w * h)] else Red(data, i)) &&
      px[4 * i + 3] == 255
  {
    DivMod4(i, 0);
    DivMod4(i, 1);
    DivMod4(i, 2);
    DivMod4(i, 3);
  }

  /** Every byte of the image is in [0, 255]. */
  lemma RgbaBytes(data: seq<real>, w: nat, h: nat)
    ensures forall k :: 0 <= k < |Rgba(data, w, h)| ==> 0 <= Rgba(data, w, h)[k] <= 255
  {
  }

  /**
   * The pixel loop: writes the four bytes of each pixel into the image buffer,
   * which ends up holding exactly the RGBA bytes of the image.
   */
  method FillImageData(data: seq<real>, w: nat, h: nat, px: array<int>)
    requires px.Length == w * h * 4
    modifies px
    ensures px[..] == Rgba(data, w, h)
  {
    var plane := w * h;
    var i := 0;
    while i < plane
      invariant 0 <= i <= plane
      invariant forall k :: 0 <= k < 4 * i ==> px[k] == PixelByte(data, plane, k / 4, k % 4)
    {
      var r := Red(data, i);
      var g := if i + plane < |data| then data[i + plane] else r;
      var b := if i + 2 * plane < |data| then data[i + 2 * plane] else r;
      DivMod4(i, 0);
      DivMod4(i, 1);
      DivMod4(i, 2);
      DivMod4(i, 3);
      px[i * 4 + 0] := ToByte(r);
      px[i * 4 + 1] := ToByte(g);
      px[i * 4 + 2] := ToByte(b);
      px[i * 4 + 3] := 255;
      i := i + 1;
    }
  }

  /** A displayed image: its size and its RGBA bytes. */
  datatype Image = Image(width: nat, height: nat, rgba: seq<int>)

  /** A drawable image: a positive size, four bytes per pixel, bytes in [0, 255], every alpha byte 255. */
  predicate Opaque(img: Image) {
    img.width > 0 && img.height > 0 && |img.rgba| == 4 * img.width * img.height &&
    (forall k :: 0 <= k < |img.rgba| ==> 0 <= img.rgba[k] <= 255) &&
    (forall i :: 0 <= i < img.width * img.height ==> img.rgba[4 * i + 3] == 255)
  }

  /**
   * What `tensorToImage` produces for a tensor: dims are read as
   * `[b, c, h, w]`; a missing height or width, or a zero one, makes
   * `createImageData` throw, reported as `None`. Otherwise the image is the
   * tensor's RGBA rendering, and it is opaque.
   */
  function RenderTensor(t: Tensor): (r: Option<Image>)
    ensures r.None? <==> |t.dims| < 4 || t.dims[2] == 0 || t.dims[3] == 0
    ensures r.Some? ==> r.value.width == t.dims[3] && r.value.height == t.dims[2] && Opaque(r.value)
    ensures r.Some? ==> r.value.rgba == Rgba(t.data, t.dims[3], t.dims[2])
  {
    if |t.dims| < 4 || t.dims[2] == 0 || t.dims[3] == 0 then None
    else
      var w, h := t.dims[3], t.dims[2];
      var img := Image(w, h, Rgba(t.data, w, h));
      RgbaBytes(t.data, w, h);
      assert forall i :: 0 <= i < w * h ==> img.rgba[4 * i + 3] == 255 by {
        forall i | 0 <= i < w * h
          ensures img.rgba[4 * i + 3] == 255
        {
          RgbaPixel(t.data, w, h, i);
        }
      }
      Some(img)
  }

  /** `tensorToImage`: allocates the zero-filled image buffer and fills it pixel by pixel. */
  method TensorToImage(t: Tensor) returns (image: Option<Image>)
    ensures image == RenderTensor(t)
    ensures image.Some? ==> |image.value.rgba| == 4 * image.value.width * image.value.height
  {
    if |t.dims| < 4 || t.dims[2] == 0 || t.dims[3] == 0 {
      return None;
    }
    var h, w := t.dims[2], t.dims[3];
    var px := new int[w * h * 4];
    FillImageData(t.data, w, h, px);
    image := Some(Image(w, h, px[..]));
  }
}
