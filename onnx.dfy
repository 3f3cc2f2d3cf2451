/**
 * The values the inference runtime exchanges with the page: float32 tensors,
 * sessions that declare input and output names, and the name-to-tensor maps a
 * session run returns. The runtime itself (`session.run`) is not part of this
 * model: callers receive it as an uninterpreted function.
 */
module Onnx {
  import opened Wrappers

  /** A float32 tensor: its dimension sizes and its flat buffer. */
  datatype Tensor = Tensor(dims: seq<nat>, data: seq<real>)

  /**
   * `dims.reduce((a, b) => a * b, 1)`: a left fold of multiplication that
   * starts at 1. The product is zero exactly when some dimension is zero.
   */
  function Product(dims: seq<nat>): (p: nat)
    ensures dims == [] ==> p == 1
    ensures p == 0 <==> 0 in dims
  {
    if dims == [] then 1
    else
      var init := dims[..|dims| - 1];
      assert dims == init + [dims[|dims| - 1]];
      Product(init) * dims[|dims| - 1]
  }

  /** The tensor invariant: the buffer holds exactly one element per index of the shape. */
  predicate WellFormed(t: Tensor) {
    |t.data| == Product(t.dims)
  }

  /** An inference session as the page sees it: an identity and its declared names. */
  datatype Session = Session(handle: nat, inputNames: seq<string>, outputNames: seq<string>)

  /** The inputs handed to `session.run`: a JavaScript object whose values may be `undefined`. */
  type Feed = map<string, Option<Tensor>>

  /** The object a run resolves to, as its entries in key order. */
  type OutMap = seq<(string, Tensor)>

  /** A run either resolves to an output object or rejects with an error message. */
  datatype RunOutcome = Returned(outputs: OutMap) | Threw(message: string)

  /** The property key a JavaScript value names: `undefined` converts to the string "undefined". */
  function JsKey(k: Option<string>): string {
    if k.Some? then k.value else "undefined"
  }

  /** `names[0]`, which is `undefined` for an empty array. */
  function First(names: seq<string>): Option<string> {
    if names == [] then None else Some(names[0])
  }

  /** `Object.keys(m)[0]`. */
  function FirstKey(m: OutMap): Option<string> {
    if m == [] then None else Some(m[0].0)
  }

  /**
   * `m[key]`: the value stored under `key`, or `undefined`. A JavaScript object
   * has each key once; should an entry list repeat one, the first counts.
   */
  function Lookup(m: OutMap, key: string): (r: Option<Tensor>)
    ensures r.Some? <==> exists i :: 0 <= i < |m| && m[i].0 == key
    ensures r.Some? ==> exists i :: 0 <= i < |m| && m[i] == (key, r.value) && forall j :: 0 <= j < i ==> m[j].0 != key
  {
    if m == [] then None
    else if m[0].0 == key then Some(m[0].1)
    else
      var r := Lookup(m[1..], key);
      assert forall i :: 0 < i < |m| ==> m[i] == m[1..][i - 1];
      r
  }

  /**
   * `m[outputNames[0]] || m[Object.keys(m)[0]]`: a stage's output tensor is the
   * one under the first declared output name, otherwise the first entry of the
   * returned object (with no declared output, `outputNames[0]` is `undefined`,
   * which looks up the key "undefined"). It is absent exactly when the returned
   * object is empty.
   */
  function SelectOutput(outputNames: seq<string>, m: OutMap): (r: Option<Tensor>)
    ensures r.None? <==> m == []
    ensures Lookup(m, JsKey(First(outputNames))).Some? ==> r == Lookup(m, JsKey(First(outputNames)))
    ensures Lookup(m, JsKey(First(outputNames))).None? && m != [] ==> r == Some(m[0].1)
  {
    var byName := Lookup(m, JsKey(First(outputNames)));
    if byName.Some? then byName else Lookup(m, JsKey(FirstKey(m)))
  }
}
