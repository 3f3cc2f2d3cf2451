/**
 * The tensors the page builds for itself: the tokenizer stand-in, the
 * encoder fallback, the initial latent, the scalar timestep and the
 * zero-filled placeholder. `Math.random` is modelled as a draw function that
 * gives the value of the i-th call made while filling one buffer.
 */
module Tensors {
  import opened Onnx

  /** Shape of the text embedding: `[1, 77, 768]`. */
  const TextShape: seq<nat> := [1, 77, 768]

  /** Shape of the latent: `[1, 4, 64, 64]`. */
  const LatentShape: seq<nat> := [1, 4, 64, 64]

  lemma ShapeSizes()
    ensures Product(TextShape) == 59136
    ensures Product(LatentShape) == 16384
  {
    assert TextShape[..2] == [1, 77];
    assert LatentShape[..3] == [1, 4, 64];
    assert LatentShape[..3][..2] == [1, 4];
    assert Product([1, 4, 64]) == 256;
  }

  /** A tensor of shape `dims` whose i-th element is `draw(i)`. */
  function Uniform(dims: seq<nat>, draw: nat -> real): Tensor {
    Tensor(dims, seq(Product(dims), i requires 0 <= i => draw(i)))
  }

  /** `Math.random() * 2 - 1` for the i-th draw. */
  function Centered(draw: nat -> real): nat -> real {
    (i: nat) => draw(i) * 2.0 - 1.0
  }

  /** The initial latent: uniform noise rescaled to [-1, 1). */
  function Latent(draw: nat -> real): Tensor {
    Uniform(LatentShape, Centered(draw))
  }

  /** `new ort.Tensor('float32', Float32Array.from([1.0]), [1])`. */
  const Timestep: Tensor := Tensor([1], [1.0])

  /** `new Float32Array(size)` shaped like the latent: all zeros. */
  function ZeroLatent(): Tensor {
    Tensor(LatentShape, seq(Product(LatentShape), _ => 0.0))
  }

  ghost predicate InUnit(draw: nat -> real) {
    forall i: nat :: 0.0 <= draw(i) < 1.0
  }

  /** Fills a fresh buffer of `Product(dims)` elements with successive draws. */
  method RandomTensor(dims: seq<nat>, draw: nat -> real) returns (t: Tensor)
    ensures t == Uniform(dims, draw)
  {
    var length := Product(dims);
    var data := new real[length];
    var i := 0;
    while i < length
      invariant 0 <= i <= length
      invariant forall k :: 0 <= k < i ==> data[k] == draw(k)
    {
      data[i] := draw(i);
      i := i + 1;
    }
    t := Tensor(dims, data[..]);
  }

  /** `tokenizePrompt`: ignores the prompt and returns a `[1, 77, 768]` tensor of draws in [0, 1). */
  method TokenizePrompt(prompt: string, draw: nat -> real) returns (t: Tensor)
    ensures t == Uniform(TextShape, draw)
    ensures t.dims == [1, 77, 768] && |t.data| == 59136
    ensures InUnit(draw) ==> forall k :: 0 <= k < |t.data| ==> 0.0 <= t.data[k] < 1.0
  {
    ShapeSizes();
    t := RandomTensor(TextShape, draw);
  }

  /** The encoder fallback embedding: a fresh `[1, 77, 768]` tensor of draws. */
  method FallbackEmbedding(draw: nat -> real) returns (t: Tensor)
    ensures t == Uniform(TextShape, draw)
    ensures t.dims == [1, 77, 768] && |t.data| == 59136
  {
    ShapeSizes();
    t := RandomTensor(TextShape, draw);
  }

  /** The initial latent: a `[1, 4, 64, 64]` buffer filled with `Math.random() * 2 - 1`. */
  method InitLatent(draw: nat -> real) returns (t: Tensor)
    ensures t == Latent(draw)
    ensures t.dims == [1, 4, 64, 64] && |t.data| == 16384
    ensures InUnit(draw) ==> forall k :: 0 <= k < |t.data| ==> -1.0 <= t.data[k] < 1.0
  {
    ShapeSizes();
    var length := Product(LatentShape);
    var data := new real[length];
    var i := 0;
    while i < length
      invariant 0 <= i <= length
      invariant forall k :: 0 <= k < i ==> data[k] == draw(k) * 2.0 - 1.0
    {
      data[i] := draw(i) * 2.0 - 1.0;
      i := i + 1;
    }
    t := Tensor(LatentShape, data[..]);
  }

  /** Every tensor the page constructs keeps the buffer length equal to the product of its shape. */
  lemma ConstructedWellFormed(dims: seq<nat>, draw: nat -> real)
    ensures WellFormed(Uniform(dims, draw)) && WellFormed(Latent(draw))
  {
  }

  /** The scalar timestep and the fallback placeholder: 16384 zeros shaped like the latent. */
  lemma ConstantTensors()
    ensures WellFormed(Timestep) && WellFormed(ZeroLatent())
    ensures ZeroLatent().dims == [1, 4, 64, 64] && |ZeroLatent().data| == 16384
    ensures forall k :: 0 <= k < |ZeroLatent().data| ==> ZeroLatent().data[k] == 0.0
  {
    ShapeSizes();
  }
}
