/**
 * The page itself: the session globals that `initModels` fills, and the
 * generate handler that runs encoder, denoiser and decoder once each and
 * draws the decoded tensor. Sessions run through an uninterpreted `run`
 * function; `Math.random` through the draw functions of `Draws`.
 */
module Pipeline {
  import opened Wrappers
  import opened Text
  import opened Onnx
  import opened Tensors
  import opened Binder
  import opened Render
  import opened Loader

  /**
   * Creating a session for an artifact: fetched and built, or failed (bad
   * status, fetch or build error). The failure's message is what the page
   * logs; it does not affect the outcome.
   */
  datatype CreateOutcome = Created(session: Session) | CreateFailed(message: string)

  /** How `initModels` ends. */
  datatype InitOutcome = ExternalWeights(artifact: Artifact) | LoadFailed | Ready

  /** The four session globals as one value. */
  datatype Models = Models(text: Option<Session>, unet: Option<Session>, vae: Option<Session>, safety: Option<Session>)

  /** The random draws of one generation: tokenizer stand-in, encoder fallback, latent noise. */
  datatype Draws = Draws(tokens: nat -> real, fallback: nat -> real, latent: nat -> real)

  /**
   * The stage a fatal run failure comes from. The text encoder has none: its
   * rejection is caught and replaced (`EncoderFailureRecovered`).
   */
  datatype Stage = Denoising | Decoding

  /** The errors that end a generation. */
  datatype Failure = RunFailed(stage: Stage, message: string) | NoDecoderTensor | CanvasFailed

  /** What a click on the generate button leads to. */
  datatype Outcome = Alerted(alert: string) | Failed(failure: Failure) | Displayed(image: Image)

  const EmptyPromptAlert: string := "Enter a prompt first!"
  const LoadingAlert: string := "Models are still loading..."
  const NoTensorMessage: string := "VAE decoder returned no tensor"

  /** `textEncoderSession.inputNames[0] || 'input_ids'`: an empty name falls back too. */
  function TextInputName(names: seq<string>): string {
    if names != [] && names[0] != "" then names[0] else "input_ids"
  }

  /** `textEncoderSession.outputNames[0] || Object.keys(textOut)[0]`. */
  function TextOutputKey(names: seq<string>, out: OutMap): Option<string> {
    if names != [] && names[0] != "" then Some(names[0]) else FirstKey(out)
  }

  /**
   * The text stage: runs the encoder on the tokenizer stand-in; a rejected run
   * is replaced by fresh random embeddings. A resolved run whose chosen key is
   * missing leaves the embedding `undefined` without falling back.
   */
  function EncodeText(encoder: Session, run: (Session, Feed) -> RunOutcome, draws: Draws): Option<Tensor> {
    var feed := map[TextInputName(encoder.inputNames) := Some(Uniform(TextShape, draws.tokens))];
    match run(encoder, feed)
    case Threw(_) => Some(Uniform(TextShape, draws.fallback))
    case Returned(out) => Lookup(out, JsKey(TextOutputKey(encoder.outputNames, out)))
  }

  /** The feed of the single denoiser run. */
  function UnetFeed(encoder: Session, denoiser: Session, run: (Session, Feed) -> RunOutcome, draws: Draws): Feed {
    Bindings(denoiser.inputNames, Latent(draws.latent), EncodeText(encoder, run, draws))
  }

  /** The feed of the single decoder run: the denoiser output under the decoder's latent input name. */
  function DecoderFeed(decoder: Session, unetOut: Option<Tensor>): Feed {
    map[JsKey(DecoderInputName(decoder.inputNames)) := unetOut]
  }

  /** The message shown for a failed generation. */
  function Message(f: Failure): string {
    match f
    case RunFailed(_, message) => message
    case NoDecoderTensor => NoTensorMessage
    // A placeholder: the browser's own `IndexSizeError` text varies.
    case CanvasFailed => "createImageData: source width or height is 0"
  }

  /**
   * The end of the pipeline once the decoder has resolved: its chosen output
   * is drawn. The one fatal check, "VAE decoder returned no tensor", fires
   * exactly when the decoder returned an empty output object. Otherwise the
   * selected tensor is rendered: drawing fails exactly when it has no drawable
   * size, and what is displayed is its rendering, an opaque image.
   */
  function Display(decoder: Session, vaeOutputs: OutMap): (o: Outcome)
    ensures o == Failed(NoDecoderTensor) <==> vaeOutputs == []
    ensures vaeOutputs != [] ==>
      var t := SelectOutput(decoder.outputNames, vaeOutputs).value;
      && (o == Failed(CanvasFailed) <==> RenderTensor(t).None?)
      && (o.Displayed? ==> o.image == RenderTensor(t).value)
    ensures o.Displayed? ==> Opaque(o.image)
    ensures o.Failed? ==> o.failure == NoDecoderTensor || o.failure == CanvasFailed
    ensures !o.Alerted?
  {
    match SelectOutput(decoder.outputNames, vaeOutputs)
    case None => Failed(NoDecoderTensor)
    case Some(t) =>
      match RenderTensor(t)
      case None => Failed(CanvasFailed)
      case Some(image) => Displayed(image)
  }

  /**
   * The runs after the guards: the denoiser is run once on the bound feed and
   * a rejection ends the click with its message; otherwise the decoder is run
   * once on the denoiser's selected output, and a rejection ends the click
   * likewise; otherwise the decoder's output is drawn.
   */
  function RunStages(encoder: Session, denoiser: Session, decoder: Session,
                     run: (Session, Feed) -> RunOutcome, draws: Draws): (o: Outcome)
    ensures !o.Alerted?
    ensures o.Displayed? ==> Opaque(o.image)
    ensures var unet := run(denoiser, UnetFeed(encoder, denoiser, run, draws));
      && (unet.Threw? ==> o == Failed(RunFailed(Denoising, unet.message)))
      && (unet.Returned? ==>
            var vae := run(decoder, DecoderFeed(decoder, SelectOutput(denoiser.outputNames, unet.outputs)));
            && (vae.Threw? ==> o == Failed(RunFailed(Decoding, vae.message)))
            && (vae.Returned? ==> o == Display(decoder, vae.outputs)))
  {
    match run(denoiser, UnetFeed(encoder, denoiser, run, draws))
    case Threw(message) => Failed(RunFailed(Denoising, message))
    case Returned(unetOutputs) =>
      var unetOut := SelectOutput(denoiser.outputNames, unetOutputs);
      match run(decoder, DecoderFeed(decoder, unetOut))
      case Threw(message) => Failed(RunFailed(Decoding, message))
      case Returned(vaeOutputs) => Display(decoder, vaeOutputs)
  }

  /** The click handler as a function of the prompt, the sessions, the runtime and the draws. */
  function GenerateSpec(prompt: string, m: Models, run: (Session, Feed) -> RunOutcome, draws: Draws): Outcome {
    if Trim(prompt) == [] then Alerted(EmptyPromptAlert)
    else if m.text.None? || m.unet.None? || m.vae.None? then Alerted(LoadingAlert)
    else RunStages(m.text.value, m.unet.value, m.vae.value, run, draws)
  }

  /** The page: its session globals, unset until `initModels` succeeds. */
  class Page {
    var textEncoder: Option<Session>
    var unet: Option<Session>
    var vaeDecoder: Option<Session>
    var safetyChecker: Option<Session>

    function CurrentModels(): Models
      reads this
    {
      Models(textEncoder, unet, vaeDecoder, safetyChecker)
    }

    constructor ()
      ensures CurrentModels() == Models(None, None, None, None)
    {
      textEncoder, unet, vaeDecoder, safetyChecker := None, None, None, None;
    }

    /**
     * `initModels`: the external-weights gate, then the all-or-nothing load.
     * Sessions are assigned only when every artifact passed the gate and every
     * session was created; otherwise no global changes.
     */
    method InitModels(probe: Artifact -> FetchResponse, create: Artifact -> CreateOutcome)
      returns (outcome: InitOutcome, probed: seq<Artifact>)
      modifies this
      ensures outcome.ExternalWeights? <==> exists a :: HasExternalData(probe(a))
      ensures outcome.ExternalWeights? ==>
        && HasExternalData(probe(outcome.artifact))
        && (forall a :: Rank(a) < Rank(outcome.artifact) ==> !HasExternalData(probe(a)))
        && probed == Artifacts[..Rank(outcome.artifact) + 1]
      ensures outcome.LoadFailed? <==>
        (forall a :: !HasExternalData(probe(a))) && exists a :: create(a).CreateFailed?
      ensures !outcome.ExternalWeights? ==> probed == Artifacts
      ensures outcome.Ready? ==> CurrentModels() == Models(
        Some(create(TextEncoder).session), Some(create(Unet).session),
        Some(create(VaeDecoder).session), Some(create(SafetyChecker).session))
      ensures !outcome.Ready? ==> CurrentModels() == old(CurrentModels())
    {
      var offender;
      offender, probed := FirstExternal(probe);
      if offender.Some? {
        return ExternalWeights(offender.value), probed;
      }
      var t, u, v, s := create(TextEncoder), create(Unet), create(VaeDecoder), create(SafetyChecker);
      if t.CreateFailed? || u.CreateFailed? || v.CreateFailed? || s.CreateFailed? {
        return LoadFailed, probed;
      }
      assert forall a :: create(a).Created? by {
        forall a ensures create(a).Created? {
          match a
          case TextEncoder =>
          case Unet =>
          case VaeDecoder =>
          case SafetyChecker =>
        }
      }
      textEncoder, unet, vaeDecoder, safetyChecker := Some(t.session), Some(u.session), Some(v.session), Some(s.session);
      outcome := Ready;
    }

    /**
     * The generate click handler: guards, then encoder (with fallback), latent,
     * denoiser, decoder and drawing, each step once.
     */
    method Generate(prompt: string, run: (Session, Feed) -> RunOutcome, draws: Draws) returns (outcome: Outcome)
      ensures outcome == GenerateSpec(prompt, CurrentModels(), run, draws)
    {
      var trimmed := Trim(prompt);
      if trimmed == [] {
        return Alerted(EmptyPromptAlert);
      }
      if textEncoder.None? || unet.None? || vaeDecoder.None? {
        return Alerted(LoadingAlert);
      }
      var encoder, denoiser, decoder := textEncoder.value, unet.value, vaeDecoder.value;

      // Text encoding; a rejected run falls back to random embeddings.
      var embedding: Option<Tensor>;
      var textInputName := TextInputName(encoder.inputNames);
      var tok := TokenizePrompt(trimmed, draws.tokens);
      match run(encoder, map[textInputName := Some(tok)]) {
        case Threw(_) =>
          var fallback := FallbackEmbedding(draws.fallback);
          embedding := Some(fallback);
        case Returned(textOut) =>
          embedding := Lookup(textOut, JsKey(TextOutputKey(encoder.outputNames, textOut)));
      }
      assert embedding == EncodeText(encoder, run, draws);

      var latent := InitLatent(draws.latent);
      var feed, warnings := BindDenoiserInputs(denoiser.inputNames, latent, embedding);
      assert feed == UnetFeed(encoder, denoiser, run, draws);

      match run(denoiser, feed) {
        case Threw(message) =>
          return Failed(RunFailed(Denoising, message));
        case Returned(unetOutputs) =>
          var unetOut := SelectOutput(denoiser.outputNames, unetOutputs);
          var vaeInName := DecoderInputName(decoder.inputNames);
          match run(decoder, map[JsKey(vaeInName) := unetOut]) {
            case Threw(message) =>
              return Failed(RunFailed(Decoding, message));
            case Returned(vaeOutputs) =>
              var vaeOut := SelectOutput(decoder.outputNames, vaeOutputs);
              if vaeOut.None? {
                return Failed(NoDecoderTensor);
              }
              var image := TensorToImage(vaeOut.value);
              if image.None? {
                return Failed(CanvasFailed);
              }
              outcome := Displayed(image.value);
              assert outcome == Display(decoder, vaeOutputs);
          }
      }
    }
  }

  /**
   * A generation is refused before any run exactly when the trimmed prompt is
   * empty or one of the text encoder, denoiser and decoder sessions is unset;
   * the prompt is checked first.
   */
  lemma RejectedIff(prompt: string, m: Models, run: (Session, Feed) -> RunOutcome, draws: Draws)
    ensures GenerateSpec(prompt, m, run, draws).Alerted? <==>
      AllSpace(prompt) || m.text.None? || m.unet.None? || m.vae.None?
    ensures AllSpace(prompt) ==> GenerateSpec(prompt, m, run, draws) == Alerted(EmptyPromptAlert)
    ensures !AllSpace(prompt) && (m.text.None? || m.unet.None? || m.vae.None?) ==>
      GenerateSpec(prompt, m, run, draws) == Alerted(LoadingAlert)
  {
    TrimEmptyIff(prompt);
  }

  /** The safety checker session is never consulted. */
  lemma SafetyCheckerUnused(prompt: string, m: Models, s: Option<Session>, run: (Session, Feed) -> RunOutcome, draws: Draws)
    ensures GenerateSpec(prompt, m.(safety := s), run, draws) == GenerateSpec(prompt, m, run, draws)
  {
  }

  /**
   * A failing encoder does not stop the pipeline: the embedding becomes a
   * `[1, 77, 768]` tensor of fresh draws and the click goes on to the
   * denoiser.
   */
  lemma EncoderFailureRecovered(encoder: Session, run: (Session, Feed) -> RunOutcome, draws: Draws)
    requires run(encoder, map[TextInputName(encoder.inputNames) := Some(Uniform(TextShape, draws.tokens))]).Threw?
    ensures EncodeText(encoder, run, draws) == Some(Uniform(TextShape, draws.fallback))
    ensures var t := EncodeText(encoder, run, draws).value;
      t.dims == [1, 77, 768] && |t.data| == 59136
  {
    ShapeSizes();
  }

  /**
   * The one fatal check: with the guards passed and the denoiser run resolved,
   * the generation fails with "VAE decoder returned no tensor" exactly when the
   * decoder run resolved to an empty output object, and then nothing is displayed.
   */
  lemma NoDecoderTensorIff(prompt: string, m: Models, run: (Session, Feed) -> RunOutcome, draws: Draws)
    requires !AllSpace(prompt) && m.text.Some? && m.unet.Some? && m.vae.Some?
    requires run(m.unet.value, UnetFeed(m.text.value, m.unet.value, run, draws)).Returned?
    ensures var unetOutputs := run(m.unet.value, UnetFeed(m.text.value, m.unet.value, run, draws)).outputs;
      var decoded := run(m.vae.value, DecoderFeed(m.vae.value, SelectOutput(m.unet.value.outputNames, unetOutputs)));
      GenerateSpec(prompt, m, run, draws) == Failed(NoDecoderTensor) <==> decoded == Returned([])
    ensures GenerateSpec(prompt, m, run, draws) == Failed(NoDecoderTensor) ==>
      Message(GenerateSpec(prompt, m, run, draws).failure) == "VAE decoder returned no tensor"
  {
    TrimEmptyIff(prompt);
    var encoder, denoiser, decoder := m.text.value, m.unet.value, m.vae.value;
    var o := RunStages(encoder, denoiser, decoder, run, draws);
    assert GenerateSpec(prompt, m, run, draws) == o;
    var unetOutputs := run(denoiser, UnetFeed(encoder, denoiser, run, draws)).outputs;
    var decoded := run(decoder, DecoderFeed(decoder, SelectOutput(denoiser.outputNames, unetOutputs)));
    if decoded.Returned? {
      assert o == Display(decoder, decoded.outputs);
    } else {
      assert o == Failed(RunFailed(Decoding, decoded.message));
    }
  }

  /** A displayed image has a positive size, four bytes per pixel, bytes in [0, 255] and alpha 255. */
  lemma DisplayedImageIsOpaque(prompt: string, m: Models, run: (Session, Feed) -> RunOutcome, draws: Draws)
    ensures GenerateSpec(prompt, m, run, draws).Displayed? ==> Opaque(GenerateSpec(prompt, m, run, draws).image)
  {
  }

  /**
   * The success path: with the guards passed and both runs resolved, the click
   * displays the rendering of the tensor selected from the decoder's output,
   * whenever that tensor has a drawable size.
   */
  lemma GenerateDisplays(prompt: string, m: Models, run: (Session, Feed) -> RunOutcome, draws: Draws)
    requires !AllSpace(prompt) && m.text.Some? && m.unet.Some? && m.vae.Some?
    requires run(m.unet.value, UnetFeed(m.text.value, m.unet.value, run, draws)).Returned?
    requires var unetOutputs := run(m.unet.value, UnetFeed(m.text.value, m.unet.value, run, draws)).outputs;
      var decoded := run(m.vae.value, DecoderFeed(m.vae.value, SelectOutput(m.unet.value.outputNames, unetOutputs)));
      && decoded.Returned? && decoded.outputs != []
      && RenderTensor(SelectOutput(m.vae.value.outputNames, decoded.outputs).value).Some?
    ensures var unetOutputs := run(m.unet.value, UnetFeed(m.text.value, m.unet.value, run, draws)).outputs;
      var decoded := run(m.vae.value, DecoderFeed(m.vae.value, SelectOutput(m.unet.value.outputNames, unetOutputs)));
      GenerateSpec(prompt, m, run, draws)
      == Displayed(RenderTensor(SelectOutput(m.vae.value.outputNames, decoded.outputs).value).value)
  {
    TrimEmptyIff(prompt);
    assert GenerateSpec(prompt, m, run, draws) == RunStages(m.text.value, m.unet.value, m.vae.value, run, draws);
  }

  /**
   * The run sequence once the guards pass: a rejected denoiser run ends the
   * click with its message, the decoder is fed the denoiser's selected output,
   * and a rejected decoder run ends the click with its message.
   */
  lemma RunFailuresReported(prompt: string, m: Models, run: (Session, Feed) -> RunOutcome, draws: Draws)
    requires !AllSpace(prompt) && m.text.Some? && m.unet.Some? && m.vae.Some?
    ensures var unet := run(m.unet.value, UnetFeed(m.text.value, m.unet.value, run, draws));
      && (unet.Threw? ==> GenerateSpec(prompt, m, run, draws) == Failed(RunFailed(Denoising, unet.message)))
      && (unet.Returned? ==>
            var vae := run(m.vae.value, DecoderFeed(m.vae.value, SelectOutput(m.unet.value.outputNames, unet.outputs)));
            vae.Threw? ==> GenerateSpec(prompt, m, run, draws) == Failed(RunFailed(Decoding, vae.message)))
  {
    TrimEmptyIff(prompt);
    assert GenerateSpec(prompt, m, run, draws) == RunStages(m.text.value, m.unet.value, m.vae.value, run, draws);
  }

  /** When the gate or the load fails on a fresh page, every later generation is refused as still loading. */
  lemma FailedInitBlocksGeneration(prompt: string, run: (Session, Feed) -> RunOutcome, draws: Draws)
    requires !AllSpace(prompt)
    ensures GenerateSpec(prompt, Models(None, None, None, None), run, draws) == Alerted(LoadingAlert)
  {
    TrimEmptyIff(prompt);
  }
}
