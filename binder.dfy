/**
 * How the page feeds the denoiser and the decoder: every input name the
 * denoiser declares is given a role by case-insensitive patterns tried in a
 * fixed order, and the decoder's latent input is found by name.
 */
module Binder {
  import opened Wrappers
  import opened Text
  import opened Onnx
  import opened Tensors

  /** What an input name receives. */
  datatype Role = LatentRole | EmbeddingRole | TimestepRole | FallbackRole

  /** `/sample|latent/i` (also the decoder's `/latent|sample/i`). */
  predicate IsLatentName(n: string) {
    ContainsCI(n, "sample") || ContainsCI(n, "latent")
  }

  /** `/encoder|hidden_states|text/i`. */
  predicate IsEmbeddingName(n: string) {
    ContainsCI(n, "encoder") || ContainsCI(n, "hidden_states") || ContainsCI(n, "text")
  }

  /** `/timestep|timesteps|t\b/i`. */
  predicate IsTimestepName(n: string) {
    ContainsCI(n, "timestep") || ContainsCI(n, "timesteps") || TEndsWord(n)
  }

  /** The first pattern that matches decides the role; a name no pattern matches gets the fallback. */
  function Classify(n: string): Role {
    if IsLatentName(n) then LatentRole
    else if IsEmbeddingName(n) then EmbeddingRole
    else if IsTimestepName(n) then TimestepRole
    else FallbackRole
  }

  /** The value stored for a role; the text embedding may be `undefined`. */
  function BindingFor(role: Role, latent: Tensor, embedding: Option<Tensor>): Option<Tensor> {
    match role
    case LatentRole => Some(latent)
    case EmbeddingRole => embedding
    case TimestepRole => Some(Timestep)
    case FallbackRole => Some(ZeroLatent())
  }

  /** The denoiser feed: one entry per declared input name. */
  function Bindings(names: seq<string>, latent: Tensor, embedding: Option<Tensor>): Feed {
    map n | n in names :: BindingFor(Classify(n), latent, embedding)
  }

  /** The names a fallback warning is logged for, in the order the loop meets them. */
  function Unmatched(names: seq<string>): seq<string> {
    if names == [] then []
    else
      var last := names[|names| - 1];
      Unmatched(names[..|names| - 1]) + (if Classify(last) == FallbackRole then [last] else [])
  }

  /**
   * The binding loop: walks the declared names in order, stores each name's
   * tensor in the feed and logs one warning per name that only the fallback
   * matched.
   */
  method BindDenoiserInputs(names: seq<string>, latent: Tensor, embedding: Option<Tensor>)
    returns (feed: Feed, warnings: seq<string>)
    ensures feed == Bindings(names, latent, embedding)
    ensures warnings == Unmatched(names)
  {
    feed, warnings := map[], [];
    var i := 0;
    while i < |names|
      invariant 0 <= i <= |names|
      invariant feed == Bindings(names[..i], latent, embedding)
      invariant warnings == Unmatched(names[..i])
    {
      var name := names[i];
      assert names[..i + 1][..i] == names[..i];
      BindingsSnoc(names[..i + 1], latent, embedding);
      var role := Classify(name);
      feed := feed[name := BindingFor(role, latent, embedding)];
      if role == FallbackRole {
        warnings := warnings + [name];
      }
      i := i + 1;
    }
    assert names[..i] == names;
  }

  /** Binding one more name adds its entry to the feed of the names before it. */
  lemma BindingsSnoc(names: seq<string>, latent: Tensor, embedding: Option<Tensor>)
    requires names != []
    ensures var last := names[|names| - 1];
      Bindings(names, latent, embedding)
      == Bindings(names[..|names| - 1], latent, embedding)[last := BindingFor(Classify(last), latent, embedding)]
  {
    var init, last := names[..|names| - 1], names[|names| - 1];
    assert names == init + [last];
    var lhs := Bindings(names, latent, embedding);
    var rhs := Bindings(init, latent, embedding)[last := BindingFor(Classify(last), latent, embedding)];
    assert lhs.Keys == rhs.Keys;
  }

  /** A feed with the declared names as keys, each bound by its role, is the denoiser feed. */
  lemma BindingsExtensional(feed: Feed, names: seq<string>, latent: Tensor, embedding: Option<Tensor>)
    requires forall n :: n in feed <==> n in names
    requires forall n :: n in feed ==> feed[n] == BindingFor(Classify(n), latent, embedding)
    ensures feed == Bindings(names, latent, embedding)
  {
    var spec := Bindings(names, latent, embedding);
    assert feed.Keys == spec.Keys;
  }

  /** The feed has exactly the declared names as keys, each bound by its role. */
  lemma BindingsShape(names: seq<string>, latent: Tensor, embedding: Option<Tensor>)
    ensures var feed := Bindings(names, latent, embedding);
      (forall n :: n in feed <==> n in names) &&
      (forall n :: n in feed ==> feed[n] == BindingFor(Classify(n), latent, embedding))
  {
  }

  /**
   * One warning per occurrence of a name only the fallback matches, and none
   * for any other name: a declared name that occurs once and matches nothing is
   * warned about exactly once.
   */
  lemma {:induction false} UnmatchedCounts(names: seq<string>, n: string)
    ensures multiset(Unmatched(names))[n] == if Classify(n) == FallbackRole then multiset(names)[n] else 0
  {
    if names != [] {
      var init, last := names[..|names| - 1], names[|names| - 1];
      assert names == init + [last];
      UnmatchedCounts(init, n);
    }
  }

  /** A name that matches a latent pattern gets the latent, whatever else it contains. */
  lemma LatentHasPriority(n: string, latent: Tensor, embedding: Option<Tensor>)
    requires exists k: nat :: MatchesAt(n, k, "sample") || MatchesAt(n, k, "latent")
    ensures Classify(n) == LatentRole
    ensures BindingFor(Classify(n), latent, embedding) == Some(latent)
  {
    ContainsCIIff(n, "sample");
    ContainsCIIff(n, "latent");
  }

  /** Roles ignore ASCII case. */
  lemma ClassifyIgnoresCase(n: string)
    ensures Classify(LowerString(n)) == Classify(n)
  {
    ContainsCILowered(n, "sample");
    ContainsCILowered(n, "latent");
    ContainsCILowered(n, "encoder");
    ContainsCILowered(n, "hidden_states");
    ContainsCILowered(n, "text");
    ContainsCILowered(n, "timestep");
    ContainsCILowered(n, "timesteps");
    TEndsWordLowered(n);
  }

  /** The `timesteps` alternative adds nothing: every name containing it contains `timestep`. */
  lemma TimestepsRedundant(n: string)
    ensures IsTimestepName(n) <==> ContainsCI(n, "timestep") || TEndsWord(n)
  {
    ContainsCIIff(n, "timesteps");
    ContainsCIIff(n, "timestep");
    if ContainsCI(n, "timesteps") {
      var k: nat :| MatchesAt(n, k, "timesteps");
      forall j | 0 <= j < |"timestep"|
        ensures Lower(n[k + j]) == Lower("timestep"[j])
      {
        assert "timestep"[j] == "timesteps"[j];
      }
      assert MatchesAt(n, k, "timestep");
    }
  }

  /** The index of the first name at or after `from` that matches `/latent|sample/i`. */
  function FindLatentName(names: seq<string>, from: nat): (r: Option<nat>)
    ensures r.Some? ==> from <= r.value < |names| && IsLatentName(names[r.value])
    ensures r.Some? ==> forall i :: from <= i < r.value ==> !IsLatentName(names[i])
    ensures r.None? ==> forall i :: from <= i < |names| ==> !IsLatentName(names[i])
    decreases |names| - from
  {
    if from >= |names| then None
    else if IsLatentName(names[from]) then Some(from)
    else FindLatentName(names, from + 1)
  }

  /**
   * `inputNames.find(n => /latent|sample/i.test(n)) || inputNames[0]`: the first
   * declared name that matches, otherwise the first declared name (`undefined`
   * when the decoder declares no input).
   */
  function DecoderInputName(names: seq<string>): (r: Option<string>)
    ensures r.Some? ==> r.value in names
    ensures r.None? <==> names == []
    ensures (exists i :: 0 <= i < |names| && IsLatentName(names[i])) ==>
      r.Some? && IsLatentName(r.value) &&
      exists j :: 0 <= j < |names| && names[j] == r.value && forall i :: 0 <= i < j ==> !IsLatentName(names[i])
    ensures (forall i :: 0 <= i < |names| ==> !IsLatentName(names[i])) ==> r == First(names)
  {
    match FindLatentName(names, 0)
    case Some(i) => Some(names[i])
    case None => First(names)
  }
}

/** Worked examples of the binder on standard input names. */
module BinderExamples {
  import opened Wrappers
  import opened Text
  import opened Onnx
  import opened Tensors
  import opened Binder

  lemma SampleIsLatent()
    ensures Classify("sample") == LatentRole
  {
    assert MatchesAt("sample", 0, "sample");
    ContainsCIIff("sample", "sample");
  }

  lemma TimestepNotLatent()
    ensures !IsLatentName("timestep")
  {
    var s := "timestep";
    assert 'a' !in s && 'A' !in s && 'l' !in s && 'L' !in s;
    LetterAbsent(s, "sample", 1);
    LetterAbsent(s, "latent", 0);
  }

  lemma TimestepNotEmbedding()
    ensures !IsEmbeddingName("timestep")
  {
    var s := "timestep";
    assert 'n' !in s && 'N' !in s && 'h' !in s && 'H' !in s && 'x' !in s && 'X' !in s;
    LetterAbsent(s, "encoder", 1);
    LetterAbsent(s, "hidden_states", 0);
    LetterAbsent(s, "text", 2);
  }

  lemma TimestepIsTimestep()
    ensures Classify("timestep") == TimestepRole
  {
    assert MatchesAt("timestep", 0, "timestep");
    ContainsCIIff("timestep", "timestep");
    TimestepNotLatent();
    TimestepNotEmbedding();
  }

  lemma EncoderHiddenStatesNotLatent()
    ensures !IsLatentName("encoder_hidden_states")
  {
    var s := "encoder_hidden_states";
    assert 'm' !in s && 'M' !in s && 'l' !in s && 'L' !in s;
    LetterAbsent(s, "sample", 2);
    LetterAbsent(s, "latent", 0);
  }

  lemma EncoderHiddenStatesIsEmbedding()
    ensures Classify("encoder_hidden_states") == EmbeddingRole
  {
    assert MatchesAt("encoder_hidden_states", 0, "encoder");
    ContainsCIIff("encoder_hidden_states", "encoder");
    EncoderHiddenStatesNotLatent();
  }

  /** Three distinct names with the latent, timestep and embedding roles bind as their roles say. */
  lemma ThreeRoles(names: seq<string>, latent: Tensor, embedding: Option<Tensor>)
    requires |names| == 3 && names[0] != names[1] && names[1] != names[2] && names[0] != names[2]
    requires Classify(names[0]) == LatentRole && Classify(names[1]) == TimestepRole
    requires Classify(names[2]) == EmbeddingRole
    ensures Bindings(names, latent, embedding)
      == map[names[0] := Some(latent), names[1] := Some(Timestep), names[2] := embedding]
  {
    var expected := map[names[0] := Some(latent), names[1] := Some(Timestep), names[2] := embedding];
    assert forall n :: n in expected <==> n in names by {
      assert names == [names[0], names[1], names[2]];
    }
    forall n | n in expected
      ensures expected[n] == BindingFor(Classify(n), latent, embedding)
    {
      if n == names[0] {
      } else if n == names[1] {
      } else {
        assert n == names[2];
      }
    }
    BindingsExtensional(expected, names, latent, embedding);
  }

  /** Names that all have a role other than the fallback cause no warning. */
  lemma {:induction false} NoneUnmatched(names: seq<string>)
    requires forall i :: 0 <= i < |names| ==> Classify(names[i]) != FallbackRole
    ensures Unmatched(names) == []
  {
    if names != [] {
      NoneUnmatched(names[..|names| - 1]);
    }
  }

  /**
   * A denoiser declaring `sample`, `timestep` and `encoder_hidden_states` is fed
   * the latent, the scalar timestep and the text embedding.
   */
  lemma StandardDenoiserInputs(latent: Tensor, embedding: Option<Tensor>)
    ensures Bindings(["sample", "timestep", "encoder_hidden_states"], latent, embedding)
      == map["sample" := Some(latent), "timestep" := Some(Timestep), "encoder_hidden_states" := embedding]
  {
    SampleIsLatent();
    TimestepIsTimestep();
    EncoderHiddenStatesIsEmbedding();
    ThreeRoles(["sample", "timestep", "encoder_hidden_states"], latent, embedding);
  }

  /** The same denoiser triggers no fallback and no warning. */
  lemma StandardDenoiserNoWarning()
    ensures Unmatched(["sample", "timestep", "encoder_hidden_states"]) == []
  {
    var names := ["sample", "timestep", "encoder_hidden_states"];
    forall i | 0 <= i < |names|
      ensures Classify(names[i]) != FallbackRole
    {
      if i == 0 {
        SampleIsLatent();
      } else if i == 1 {
        TimestepIsTimestep();
      } else {
        EncoderHiddenStatesIsEmbedding();
      }
    }
    NoneUnmatched(names);
  }

  /** An unrecognised name such as `foo` gets a zero `[1, 4, 64, 64]` tensor and one warning. */
  lemma UnknownInputFallback(latent: Tensor, embedding: Option<Tensor>)
    ensures Classify("foo") == FallbackRole
    ensures Bindings(["foo"], latent, embedding)["foo"] == Some(ZeroLatent())
    ensures ZeroLatent().dims == [1, 4, 64, 64] && |ZeroLatent().data| == 16384
    ensures Unmatched(["foo"]) == ["foo"]
  {
    NoT("foo");
    ConstantTensors();
  }

  /** `input` ends in a `t` at a word boundary, so it is fed the scalar timestep. */
  lemma InputIsTimestep()
    ensures Classify("input") == TimestepRole
  {
    assert TEndsWordAt("input", 4);
    TEndsWordIff("input");
    LetterAbsent("input", "text", 1);
  }
}
