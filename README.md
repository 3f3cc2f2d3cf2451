# Browser Stable Diffusion demo: a Dafny model of its orchestration

The demo is a web page (`script.js`) and a small status server (`server.js`).
Both wrap an ONNX inference runtime that runs a Stable Diffusion pipeline: a
text encoder, a denoiser (UNet), a VAE decoder and a safety checker. The code
itself runs no model. It decides which artifacts to load, builds
placeholder tensors, names the inputs each session gets, picks the output
tensor of each run and turns the decoded tensor into RGBA bytes. This project
models that glue and proves what it guarantees.

- `wrappers.dfy`: `Option` and `Result`.
- `onnx.dfy` (`Onnx`): tensors, sessions, run outcomes and JavaScript property
  lookup on a run's output object, including `obj[undefined]`.
  `SelectOutput` is the `m[outputNames[0]] || m[Object.keys(m)[0]]` rule.
- `text.dfy` (`Text`): the case-insensitive regular expressions without the
  `u` flag (`/p/i` and `/t\b/i`) and `String.prototype.trim`.
- `tensors.dfy` (`Tensors`): the shapes `[1, 77, 768]` and `[1, 4, 64, 64]`,
  the random fill loops (`tokenizePrompt`, the encoder fallback, the initial
  latent) and the scalar timestep.
- `binder.dfy` (`Binder`, `BinderExamples`): the role of each denoiser input
  name and the binding loop with its fallback warnings. It also covers the
  decoder's input name and worked examples for standard input names.
- `render.dfy` (`Render`): `toByte` and the in-place pixel loop of
  `tensorToImage`.
- `loader.dfy` (`Loader`): the external-weights sniff of the first 1024 bytes
  and the gate loop that stops at the first offending artifact.
- `pipeline.dfy` (`Pipeline`): the page's session globals as a class. It holds
  `initModels` (gate, then all-or-nothing load) and the generate handler. The
  handler is a method proved equal to `GenerateSpec`, and the pipeline's
  properties are proved about that function.
- `server.dfy` (`Server`): the server's `sessions` object as a class with
  `loadSessions` and `GET /status`.

Effects outside the page's logic become parameters:
- `session.run` is an uninterpreted function `(Session, Feed) -> RunOutcome`.
- Each `Math.random` loop reads a draw function `nat -> real` whose `i`-th value
  is the `i`-th call.
- `fetch` of an artifact is a `FetchResponse` per artifact.
- Creating a session is a `CreateOutcome` (page) or a `CreateResult` (server)
  per artifact.

In these details the model follows the code exactly:
- When the text encoder resolves but the chosen output key is missing, the
  embedding is `undefined` and goes to the denoiser as is. Only a rejected
  encoder run is replaced by fallback embeddings (`Pipeline.EncodeText`,
  script.js:148-152).
- The renderer's green and blue fallbacks depend on the buffer length, not on
  the channel count in `dims`. Green and blue fall back to red, and red falls
  back to 0 (script.js:220-222).
- The text encoder's input name falls back to `input_ids` when the first
  declared name is missing or empty (script.js:144).
- On the server, an `{error: ""}` record is not caught by the `sess.error`
  test. It is then reported with the `TypeError` that calling
  `sess.getInputs` throws, not as "not loaded" (server.js:33-42).

## Model

| member | source | states |
|---|---|---|
| Onnx.Product | script.js:121 | the `reduce` product of a shape is 1 for the empty shape and 0 exactly when some dimension is 0 |
| Onnx.Lookup | script.js:149 | a property lookup finds a tensor exactly when some entry has that key, and what it finds is the value of the first entry with that key |
| Onnx.SelectOutput | script.js:181 | no output tensor exactly when the run returned an empty object; the tensor under the first declared output name wins when present, and with no declared output the key `"undefined"` is looked up first; otherwise the first entry is used (also line 188) |
| Text.LowerEqIff | script.js:169-171 | two characters fold to the same character exactly when they are equal or the same ASCII letter in its two cases; this is how `/i` without `u` compares them when one of the two is ASCII, as every pattern character the page uses is |
| Text.FirstMatch | script.js:169-170 | the scan returns the leftmost offset where the pattern matches ignoring ASCII case, and `None` only when it matches nowhere |
| Text.ContainsCIIff | script.js:41 | for an ASCII literal `p` without metacharacters, `/p/i.test(s)` holds exactly when `p` occurs in `s` at some offset, ignoring ASCII case |
| Text.TEndsWordFrom | script.js:171 | the scan finds a `t`/`T` followed by the end or a non-word character exactly when one exists from the given offset on |
| Text.TEndsWordIff | script.js:171 | `/t\b/i.test(s)` holds exactly when some `t` or `T` in `s` ends a word |
| Text.LetterAbsent | script.js:169-171 | a pattern letter that occurs in neither case in the subject rules out every match |
| Text.NoT | script.js:171 | a name with no `t` or `T` never matches `t\b` |
| Text.MatchesAtLowered | script.js:169-171 | lower-casing the subject changes no match at any offset |
| Text.ContainsCILowered | script.js:169-171 | `/p/i` gives the same answer on a name and its lower-cased copy |
| Text.TEndsWordLowered | script.js:171 | `/t\b/i` gives the same answer on a name and its lower-cased copy |
| Text.TrimStart | script.js:130 | the result is the suffix left after dropping a prefix made only of white space, starts with a non-space, and is empty exactly when the input is all white space |
| Text.TrimEnd | script.js:130 | the result is the prefix left after dropping a suffix made only of white space, ends with a non-space, and is empty exactly when the input is all white space |
| Text.TrimEmptyIff | script.js:130-131 | the trimmed prompt is empty exactly when every character is white space or a line terminator |
| Text.TrimEnds | script.js:130 | the trimmed prompt is the part of the prompt between a leading and a trailing run of white space, with no white space at either end |
| Tensors.ShapeSizes | script.js:120-121 | the text shape holds 59136 elements and the latent shape 16384 (also lines 161-162) |
| Tensors.RandomTensor | script.js:120-124 | the fill loop produces a tensor of the given shape whose `i`-th element is the `i`-th draw |
| Tensors.TokenizePrompt | script.js:119-125 | the tokenizer stand-in ignores the prompt and returns a `[1, 77, 768]` tensor of 59136 draws, each in [0, 1) when the draws are |
| Tensors.FallbackEmbedding | script.js:153-156 | the encoder fallback is a fresh `[1, 77, 768]` tensor of 59136 draws |
| Tensors.InitLatent | script.js:161-164 | the latent is `[1, 4, 64, 64]` with 16384 elements `2 * draw - 1`, each in [-1, 1) when the draws are in [0, 1) |
| Tensors.ConstructedWellFormed | script.js:122-124 | every random tensor the page builds, and the latent, has a buffer as long as its shape's product |
| Tensors.ConstantTensors | script.js:171-174 | the scalar timestep and the fallback placeholder are well formed, and the placeholder is 16384 zeros shaped like the latent |
| Binder.BindDenoiserInputs | script.js:167-177 | the loop's feed has exactly the declared names as keys, each bound by the first role whose pattern matches, and one warning is logged per unmatched name in loop order |
| Binder.BindingsSnoc | script.js:168-176 | binding one more name adds exactly that name's entry to the feed |
| Binder.BindingsExtensional | script.js:167-177 | any feed keyed by the declared names, each bound by its role, is the denoiser feed |
| Binder.BindingsShape | script.js:167-177 | the denoiser feed's keys are the declared names and each value is the binding of that name's role |
| Binder.UnmatchedCounts | script.js:172-175 | each name gets as many warnings as it occurs when no pattern matches it, and none otherwise |
| Binder.LatentHasPriority | script.js:169 | a name containing `sample` or `latent` gets the latent, whatever else it contains |
| Binder.ClassifyIgnoresCase | script.js:169-171 | the role of a name does not depend on ASCII case |
| Binder.TimestepsRedundant | script.js:171 | the `timesteps` alternative adds nothing to `timestep|t\b` |
| Binder.FindLatentName | script.js:185 | returns the first index at or after the start whose name matches `/latent|sample/i`, or none when no later name matches |
| Binder.DecoderInputName | script.js:185 | the decoder input is a declared name: the first that matches `/latent|sample/i`, else the first declared name, and `undefined` exactly when none is declared |
| BinderExamples.SampleIsLatent | script.js:169 | `sample` gets the latent |
| BinderExamples.TimestepNotLatent | script.js:169 | `timestep` matches neither `sample` nor `latent` |
| BinderExamples.TimestepNotEmbedding | script.js:170 | `timestep` matches none of `encoder`, `hidden_states`, `text` |
| BinderExamples.TimestepIsTimestep | script.js:171 | `timestep` gets the scalar timestep |
| BinderExamples.EncoderHiddenStatesNotLatent | script.js:169 | `encoder_hidden_states` matches neither `sample` nor `latent` |
| BinderExamples.EncoderHiddenStatesIsEmbedding | script.js:170 | `encoder_hidden_states` gets the text embedding |
| BinderExamples.ThreeRoles | script.js:167-177 | three distinct names with the latent, timestep and embedding roles are bound to exactly those three values |
| BinderExamples.NoneUnmatched | script.js:172-175 | names that all match a pattern cause no warning |
| BinderExamples.StandardDenoiserInputs | script.js:167-177 | inputs `sample`, `timestep`, `encoder_hidden_states` get the latent, `[1]`-shaped 1.0 and the embedding |
| BinderExamples.StandardDenoiserNoWarning | script.js:172-175 | those inputs cause no fallback and no warning |
| BinderExamples.UnknownInputFallback | script.js:172-175 | `foo` gets a zero `[1, 4, 64, 64]` tensor and exactly one warning |
| BinderExamples.InputIsTimestep | script.js:171 | a name such as `input` that ends in `t` is fed the timestep |
| Render.Round | script.js:228 | `Math.round` gives the integer within half a unit, halves rounded up |
| Render.ToByte | script.js:224-229 | every byte is in [0, 255]; below -1 gives 0, above 1 gives 255; a value in [-1, 1] is rescaled onto [0, 255] and rounded |
| Render.RoundMonotone | script.js:228 | rounding preserves order |
| Render.ToByteMonotone | script.js:224-229 | a larger value never gives a smaller byte |
| Render.ToByteEnds | script.js:224-229 | -1 maps to 0, 0 to 128 and 1 to 255 |
| Render.RgbaPixel | script.js:218-235 | pixel `i` takes buffer elements `i`, `i + plane`, `i + 2 * plane` (fallbacks red, then 0) and alpha 255 |
| Render.RgbaBytes | script.js:224-234 | every byte written is in [0, 255] |
| Render.FillImageData | script.js:218-235 | after the pixel loop the image buffer holds exactly the tensor's RGBA bytes |
| Render.RenderTensor | script.js:208-241 | no image exactly when the tensor lacks a height or width, or one is zero; otherwise a `w` by `h` opaque image whose bytes are the tensor's RGBA rendering, with bytes in range |
| Render.TensorToImage | script.js:208-241 | allocating and filling the image buffer yields the tensor's rendering |
| Loader.Rank | script.js:54-62 | artifacts are visited in the order text, unet, vae, safety |
| Loader.HasExternalDataIff | script.js:34-45 | an artifact is flagged exactly when the fetch succeeded with an ok status and `external_data`, in any case, lies wholly within the first 1024 bytes |
| Loader.FirstExternal | script.js:62-70 | the gate sniffs artifacts in order, recording each as it is sniffed, and stops at the first flagged one, so nothing after it is fetched; it passes only when none is flagged |
| Pipeline.Display | script.js:188-197 | the "VAE decoder returned no tensor" error happens exactly when the decoder returned an empty object; otherwise drawing fails exactly when the selected tensor has no drawable size, and what is displayed is that tensor's rendering, which is opaque |
| Pipeline.RunStages | script.js:180-201 | a rejected denoiser run ends the click with its message; otherwise the decoder is run on the denoiser's selected output, and a rejection ends the click with its message; otherwise the decoder's output is drawn; no alert is raised after the guards |
| Pipeline.Page.constructor | script.js:31 | all four session globals start unset |
| Pipeline.Page.InitModels | script.js:48-116 | ends with external weights exactly when some artifact is flagged (the first one, sniffing stops there); otherwise load fails exactly when some session, the safety checker included, fails to be created; globals change only on success, to the four sessions |
| Pipeline.Page.Generate | script.js:129-205 | the click handler's outcome is the pipeline specification applied to the current globals |
| Pipeline.RejectedIff | script.js:130-134 | a click is refused before any run exactly when the trimmed prompt is empty or a needed session is unset, with the prompt alert first |
| Pipeline.SafetyCheckerUnused | script.js:129-205 | the outcome does not depend on the safety checker session |
| Pipeline.EncoderFailureRecovered | script.js:151-157 | a rejected encoder run is replaced by a `[1, 77, 768]` tensor of 59136 fresh draws |
| Pipeline.NoDecoderTensorIff | script.js:188-191 | once the denoiser has resolved, the "VAE decoder returned no tensor" failure happens exactly when the decoder resolves to an empty object |
| Pipeline.DisplayedImageIsOpaque | script.js:194-197 | any image the handler displays has a positive size, in-range bytes and alpha 255 |
| Pipeline.GenerateDisplays | script.js:180-196 | with the guards passed and both runs resolved, a click displays the rendering of the tensor selected from the decoder's output whenever that tensor has a drawable size |
| Pipeline.RunFailuresReported | script.js:180-201 | with the guards passed, a rejected denoiser or decoder run ends the click with that run's own message |
| Pipeline.FailedInitBlocksGeneration | script.js:132-133 | with no sessions loaded, every non-blank prompt gets the "still loading" alert |
| Server.HealthOf | server.js:33-43 | healthy exactly when the record is a session whose input and output introspection both succeed, and then the reported inputs and outputs are the name arrays when present and otherwise the `getInputs()`/`getOutputs()` listings; a missing record reports "not loaded"; an error record reports its non-empty error, and an `{error: ""}` record the `TypeError` of calling `getInputs`; a caught introspection error (inputs first, then outputs) is reported with its own text |
| Server.FailedLoadReportsError | server.js:24-25 | a session whose creation threw is reported `ok: false`, with its error when non-empty |
| Server.FreshLoadOrder | server.js:19-26 | on a fresh server the keys are stored in the order text, unet, vae, safety |
| Server.StoreConsistent | server.js:21-25 | storing under a key keeps the key order a duplicate-free list of the object's keys |
| Server.StatusServer.constructor | server.js:16 | the sessions object starts empty |
| Server.StatusServer.LoadSessions | server.js:18-28 | every artifact ends with the record of its own creation attempt, and a failure does not stop later ones; the key order is insertion order |
| Server.StatusServer.Status | server.js:30-46 | one entry per stored key, in key order, each the health of that key's record |

## Left out

- Render.ToByte: works on reals, not IEEE doubles. NaN, infinities and float32 rounding are not modelled; a NaN element stored into the clamped byte array would become 0.
- Tensors.TokenizePrompt: draws are reals. The range facts assume `Math.random` returns values in [0, 1), and the rounding of each draw to float32 is not modelled.
- Tensors.InitLatent: `Math.random() * 2 - 1` is computed on reals, without float32 rounding.
- Loader.HeadText: UTF-8 decoding is one character per byte. This gives the same answer for the ASCII marker, because the decoder keeps every ASCII byte and never turns other bytes into ASCII, but decoded non-ASCII text is not modelled.
- Pipeline.Page.InitModels: the four parallel creations (`Promise.all`) are modelled by their outcomes only, not by their interleaving. A failed `fetch`, a non-ok status and a failed session build all become one `CreateFailed` message.
- Pipeline.Page.Generate: the denoiser and decoder runs are uninterpreted, so what the model computes is not modelled, nor whether a run accepts an `undefined` feed value. The click handler's `finally` that resets the busy state is left out with the rest of the DOM.
- Logging (`logMessage`, `console`), the spinner and button state (`setGenerating`), `output.innerHTML` messages, `dumpSession`, the global `error`/`unhandledrejection` listeners and the no-op `removeEventListener` are user-interface output with no effect on the outcome.
- The canvas, `putImageData`, `toDataURL` and the `<img>` element are left out: an image is modelled as its width, height and RGBA bytes.
- JavaScript object keys that touch the prototype (an input name such as `__proto__`) are modelled as ordinary map keys.
- Server: Express, CORS, the JSON body limit, port 5000 on 127.0.0.1, `res.json` serialisation and the process start-up ordering are left out. `String(e)` arrives as a ready-made string. The `getInputs()`/`getOutputs()` mapping to `{name, shape, type}` is taken as the runtime's list.
- `pbonnxmerge.py`, `test.py` and `fixmodels.py` (offline model-conversion helpers) are not part of this model.
